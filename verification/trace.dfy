/**
 The observable calls `activatePlugin` makes on its environment, recorded as
 an event trace, and the predicates over traces in which its properties are
 stated.
 */
module Trace {
  import opened Types

  /** One call into the RPC runtime or the clock, with what it answered. */
  datatype Event =
    | Probe(operational: bool)                        // connector IsOperational, and its answer
    | Open(ok: bool)                                  // connector Open, and whether it succeeded
    | Query(callsign: string, found: bool)            // QueryInterfaceByCallsign, and whether non-null
    | Activate(callsign: string, retries: uint8, delay: uint16, result: HResult)
    | Release                                         // Release of the queried interface
    | Sleep(ms: uint16)                               // SleepMs between attempts
    | Close                                           // connector Close on the way out

  predicate IsSleep(e: Event) { e.Sleep? }
  predicate IsActivate(e: Event) { e.Activate? }
  predicate IsRelease(e: Event) { e.Release? }
  /** A query that handed out an interface reference. */
  predicate IsGrant(e: Event) { e.Query? && e.found }
  /** An Activate call whose ERROR_NONE answer leaves its interface unreleased. */
  predicate IsAcceptedActivate(e: Event) { e.Activate? && e.result == ErrorNone }

  /** An Activate call whose answer makes retrying pointless, so the loop is left. */
  predicate IsRejection(e: Event) { e.Activate? && Classify(e.result) == Rejected }
  /** An Open that failed. */
  predicate IsFailedOpen(e: Event) { e == Open(false) }

  /** A call that does work towards activation (as opposed to closing up). */
  predicate IsWork(e: Event) { e.Open? || e.Query? || e.Activate? || e.Sleep? }

  /** The number of events of `t` satisfying `p`. */
  function Count(t: seq<Event>, p: Event -> bool): (n: nat)
    ensures n <= |t|
  {
    if t == [] then 0 else (if p(t[0]) then 1 else 0) + Count(t[1..], p)
  }

  lemma {:induction false} CountAppend(a: seq<Event>, b: seq<Event>, p: Event -> bool)
    ensures Count(a + b, p) == Count(a, p) + Count(b, p)
    decreases |a|
  {
    if a == [] {
      assert a + b == b;
    } else {
      assert (a + b)[0] == a[0];
      assert (a + b)[1..] == a[1..] + b;
      CountAppend(a[1..], b, p);
    }
  }

  lemma CountOne(e: Event, p: Event -> bool)
    ensures Count([e], p) == if p(e) then 1 else 0
  {
    assert [e][1..] == [];
  }

  lemma {:induction false} CountNone(t: seq<Event>, p: Event -> bool)
    requires forall e :: e in t ==> !p(e)
    ensures Count(t, p) == 0
    decreases |t|
  {
    if t != [] {
      assert t[0] in t;
      assert forall e :: e in t[1..] ==> e in t;
      CountNone(t[1..], p);
    }
  }

  lemma CountSnoc(t: seq<Event>, e: Event, p: Event -> bool)
    ensures Count(t + [e], p) == Count(t, p) + if p(e) then 1 else 0
  {
    CountAppend(t, [e], p);
    CountOne(e, p);
  }

  /** The connector's state after one event: Open and Close move it, and an
      IsOperational answer of false shows that an established link was lost. */
  function Moved(open: bool, e: Event): bool
  {
    match e
    case Probe(up) => open && up
    case Open(ok) => ok
    case Close => false
    case _ => open
  }

  /** Whether the single connector is open after replaying `t` on a
      connector that was `open` before it. */
  function ConnectorAfter(open: bool, t: seq<Event>): bool
    decreases |t|
  {
    if t == [] then open else ConnectorAfter(Moved(open, t[0]), t[1..])
  }

  /** Every Open in `t` is issued on a closed connector and every Close on an
      open one, replaying from a connector that was `open` before `t`. */
  predicate OpensOnlyWhenClosed(open: bool, t: seq<Event>)
    decreases |t|
  {
    if t == [] then true
    else
      && (t[0].Open? ==> !open)
      && (t[0].Close? ==> open)
      && OpensOnlyWhenClosed(Moved(open, t[0]), t[1..])
  }

  lemma {:induction false} ConnectorAppend(open: bool, a: seq<Event>, b: seq<Event>)
    ensures ConnectorAfter(open, a + b) == ConnectorAfter(ConnectorAfter(open, a), b)
    ensures OpensOnlyWhenClosed(open, a + b)
            <==> OpensOnlyWhenClosed(open, a) && OpensOnlyWhenClosed(ConnectorAfter(open, a), b)
    decreases |a|
  {
    if a == [] {
      assert a + b == b;
    } else {
      assert (a + b)[0] == a[0];
      assert (a + b)[1..] == a[1..] + b;
      ConnectorAppend(Moved(open, a[0]), a[1..], b);
    }
  }

  /** An Open at index `i` of `t` comes straight after an IsOperational
      answer of false, and a Close straight after an answer of true. */
  predicate ProbedAt(t: seq<Event>, i: int)
    requires 0 <= i < |t|
  {
    && (t[i].Open? ==> 0 < i && t[i - 1] == Probe(false))
    && (t[i].Close? ==> 0 < i && t[i - 1] == Probe(true))
  }

  /** Every Open in `t` is issued only after IsOperational answered false,
      and every Close only after it answered true. */
  predicate ProbedFirst(t: seq<Event>)
  {
    forall i :: 0 <= i < |t| ==> ProbedAt(t, i)
  }

  lemma ProbedFirstAppend(a: seq<Event>, b: seq<Event>)
    requires ProbedFirst(a) && ProbedFirst(b)
    requires b == [] || b[0].Probe?
    ensures ProbedFirst(a + b)
  {
    var t := a + b;
    forall i | 0 <= i < |t|
      ensures ProbedAt(t, i)
    {
      if i < |a| {
        assert ProbedAt(a, i);
        assert t[i] == a[i];
        if 0 < i { assert t[i - 1] == a[i - 1]; }
      } else if i > |a| {
        var k := i - |a|;
        assert ProbedAt(b, k);
        assert t[i] == b[k] && t[i - 1] == b[k - 1];
      } else {
        assert t[i] == b[0];
      }
    }
  }

  /** The retries hints of the Activate calls in `t` never increase. */
  ghost predicate HintsNonIncreasing(t: seq<Event>)
  {
    forall i, j :: 0 <= i < j < |t| && t[i].Activate? && t[j].Activate? ==> t[j].retries <= t[i].retries
  }

  /** Prefixing calls whose hints all equal `h` to a trace whose hints are
      non-increasing and at most `h` keeps the hints non-increasing. */
  lemma NonIncreasingAppend(a: seq<Event>, b: seq<Event>, h: int)
    requires forall e :: e in a && e.Activate? ==> e.retries == h
    requires forall e :: e in b && e.Activate? ==> e.retries <= h
    requires HintsNonIncreasing(b)
    ensures HintsNonIncreasing(a + b)
  {
    var t := a + b;
    forall i, j | 0 <= i < j < |t| && t[i].Activate? && t[j].Activate?
      ensures t[j].retries <= t[i].retries
    {
      if j < |a| {
        assert t[i] == a[i] && t[j] == a[j];
      } else if i < |a| {
        assert t[i] == a[i] && t[j] == b[j - |a|];
      } else {
        assert t[i] == b[i - |a|] && t[j] == b[j - |a|];
      }
    }
  }

  /** Every Activate call in `t` hands over as its retries hint the budget
      `budget` less the number of sleeps made before it. */
  ghost predicate HintsTrackSleeps(t: seq<Event>, budget: int)
  {
    forall i :: 0 <= i < |t| && t[i].Activate? ==> t[i].retries == budget - Count(t[..i], IsSleep)
  }

  lemma HintsTrackSleepsAppend(a: seq<Event>, b: seq<Event>, budget: int)
    requires HintsTrackSleeps(a, budget)
    requires HintsTrackSleeps(b, budget - Count(a, IsSleep))
    ensures HintsTrackSleeps(a + b, budget)
  {
    var t := a + b;
    forall i | 0 <= i < |t| && t[i].Activate?
      ensures t[i].retries == budget - Count(t[..i], IsSleep)
    {
      if i < |a| {
        assert t[..i] == a[..i] && t[i] == a[i];
      } else {
        var k := i - |a|;
        assert t[..i] == a + b[..k] && t[i] == b[k];
        CountAppend(a, b[..k], IsSleep);
      }
    }
  }
}
