/**
 Properties of one iteration and of whole runs of the retry loop, stated over
 the event trace and proved by case analysis and by induction on the script
 of environment answers.
 */
module MachineProofs {
  import opened Types
  import opened Trace
  import opened Machine

  /** The shape of one iteration's calls on the connector: IsOperational is
      asked first, Open follows it exactly when the answer is false, and
      nothing after that touches the connector. */
  lemma StepShape(cfg: Config, s: State, r: Round)
    requires Valid(cfg, s) && Guard(cfg, s)
    ensures var t := Step(cfg, s, r);
      && |t.events| >= 2 && t.events[0] == Probe(Operational(s, r))
      && (t.events[1].Open? <==> !Operational(s, r))
      && (t.events[1].Open? ==> t.events[1].ok == t.next.connectorOpen)
      && (forall i :: 1 <= i < |t.events| ==> !t.events[i].Probe? && !t.events[i].Close?)
      && (forall i :: 2 <= i < |t.events| ==> !t.events[i].Open?)
  {
    var t := Step(cfg, s, r);
    var op := Operational(s, r);
    var d := cfg.delay;
    match FateOf(s, r)
    case OpenFailed =>
      assert t.events == [Probe(false), Open(false), Sleep(d)];
    case NoInterface =>
      assert t.events == Lead(op) + [Query(cfg.name, false), Sleep(d)];
      LeadShape(op, [Query(cfg.name, false), Sleep(d)]);
    case Answered(v) =>
      var call := Activate(cfg.name, cfg.maxRetries - s.currentRetry, d, r.result);
      var rest := [Query(cfg.name, true), call] + match v
        case Accepted => []
        case LinkFailure => [Release, Sleep(d)]
        case Rejected => [Release];
      assert t.events == Lead(op) + rest;
      LeadShape(op, rest);
  }

  /** The lead-in of a pass followed by calls that do not touch the
      connector: only its first call asks IsOperational, and only its second
      can be an Open. */
  lemma LeadShape(op: bool, rest: seq<Event>)
    requires rest != []
    requires forall e :: e in rest ==> !e.Probe? && !e.Open? && !e.Close?
    ensures var ev := Lead(op) + rest;
      && |ev| >= 2 && ev[0] == Probe(op)
      && (ev[1].Open? <==> !op) && (ev[1].Open? ==> ev[1] == Open(true))
      && (forall i :: 1 <= i < |ev| ==> !ev[i].Probe? && !ev[i].Close?)
      && (forall i :: 2 <= i < |ev| ==> !ev[i].Open?)
  {
    var ev := Lead(op) + rest;
    var n := |Lead(op)|;
    assert ev[1] == if op then rest[0] else Open(true);
    forall i | n <= i < |ev|
      ensures !ev[i].Probe? && !ev[i].Open? && !ev[i].Close?
    {
      assert ev[i] == rest[i - n] && rest[i - n] in rest;
    }
  }

  /** The requests of one iteration: the query is made by the plugin's own
      name unless Open failed; Activate is called exactly once when the query
      found the interface, with the plugin's name, the budget left, the delay
      and the round's answer, and never otherwise; every Sleep is of the
      configured delay. */
  lemma StepCalls(cfg: Config, s: State, r: Round)
    requires Valid(cfg, s) && Guard(cfg, s)
    ensures var t := Step(cfg, s, r);
      && (FateOf(s, r) != OpenFailed ==> Query(cfg.name, r.found) in t.events)
      && (FateOf(s, r) == OpenFailed ==> forall e :: e in t.events ==> !e.Query? && !e.Activate?)
      && (FateOf(s, r).Answered? ==>
            Activate(cfg.name, cfg.maxRetries - s.currentRetry, cfg.delay, r.result) in t.events)
      && (!FateOf(s, r).Answered? ==> forall e :: e in t.events ==> !e.Activate?)
      && (forall i, j :: 0 <= i < j < |t.events| && t.events[i].Activate? ==> !t.events[j].Activate?)
      && (forall e :: e in t.events && e.Query? ==> e.callsign == cfg.name)
      && (forall e :: e in t.events && e.Activate? ==>
            && e.callsign == cfg.name && e.delay == cfg.delay
            && e.retries == cfg.maxRetries - s.currentRetry && e.result == r.result)
      && (forall e :: e in t.events && e.Sleep? ==> e.ms == cfg.delay)
  {
    var t := Step(cfg, s, r);
    var op := Operational(s, r);
    var d := cfg.delay;
    match FateOf(s, r)
    case OpenFailed =>
      assert t.events == [Probe(false), Open(false), Sleep(d)];
    case NoInterface =>
      assert t.events == Lead(op) + [Query(cfg.name, false), Sleep(d)];
    case Answered(v) =>
      var call := Activate(cfg.name, cfg.maxRetries - s.currentRetry, d, r.result);
      var tail := match v
        case Accepted => []
        case LinkFailure => [Release, Sleep(d)]
        case Rejected => [Release];
      assert t.events == Lead(op) + [Query(cfg.name, true), call] + tail;
      SingleActivate(Lead(op), Query(cfg.name, true), call, tail);
  }

  /** A pass that reached Activate: its lead-in and its tail hold no query
      and no Activate, so the one query and the one Activate are the calls
      between them. */
  lemma SingleActivate(lead: seq<Event>, q: Event, call: Event, tail: seq<Event>)
    requires forall e :: e in lead ==> e.Probe? || e.Open?
    requires forall e :: e in tail ==> e.Release? || e.Sleep?
    requires q.Query? && call.Activate?
    ensures var ev := lead + [q, call] + tail;
      && q in ev && call in ev
      && (forall e :: e in ev && e.Query? ==> e == q)
      && (forall e :: e in ev && e.Activate? ==> e == call)
      && (forall e :: e in ev && e.Sleep? ==> e in tail)
      && (forall i, j :: 0 <= i < j < |ev| && ev[i].Activate? ==> !ev[j].Activate?)
      && ev[|lead| + 1] == call
      && (forall i :: 0 <= i < |ev| && i != |lead| + 1 ==> !ev[i].Activate?)
  {
    var ev := lead + [q, call] + tail;
    var k := |lead| + 1;
    forall i | 0 <= i < |ev| && i != k
      ensures !ev[i].Activate?
    {
      if i < |lead| {
        assert ev[i] == lead[i] && lead[i] in lead;
      } else if i > k {
        assert ev[i] == tail[i - k - 1] && tail[i - k - 1] in tail;
      }
    }
  }

  lemma {:induction false} NoConnectorEvents(open: bool, t: seq<Event>)
    requires forall i :: 0 <= i < |t| ==> !t[i].Open? && !t[i].Close? && !t[i].Probe?
    ensures ConnectorAfter(open, t) == open && OpensOnlyWhenClosed(open, t) && ProbedFirst(t)
    decreases |t|
  {
    if t != [] {
      NoConnectorEvents(open, t[1..]);
      forall i | 0 <= i < |t| ensures ProbedAt(t, i) {
        if 0 < i {
          assert t[i] == t[1..][i - 1];
        }
      }
    }
  }

  /** One iteration opens the connector only after IsOperational answered
      false, never closes it, and leaves it in the state its Open call (if
      any) produced. */
  lemma StepConnector(cfg: Config, s: State, r: Round)
    requires Valid(cfg, s) && Guard(cfg, s)
    ensures var t := Step(cfg, s, r);
      && OpensOnlyWhenClosed(s.connectorOpen, t.events)
      && ConnectorAfter(s.connectorOpen, t.events) == t.next.connectorOpen
      && ProbedFirst(t.events)
      && (forall e :: e in t.events ==> !e.Close?)
  {
    var t := Step(cfg, s, r);
    var ev := t.events;
    StepShape(cfg, s, r);
    forall e | e in ev ensures !e.Close? {
      var i :| 0 <= i < |ev| && ev[i] == e;
    }
    var op := Operational(s, r);
    assert Moved(s.connectorOpen, ev[0]) == op;
    var after1 := Moved(op, ev[1]);
    assert after1 == t.next.connectorOpen;
    NoConnectorEvents(after1, ev[2..]);
    assert ev[1..][1..] == ev[2..];
    assert ConnectorAfter(op, ev[1..]) == ConnectorAfter(after1, ev[2..]);
    assert OpensOnlyWhenClosed(op, ev[1..]);
    forall i | 0 <= i < |ev| ensures ProbedAt(ev, i) {
      if 2 <= i {
        assert ev[i] == ev[2..][i - 2];
      }
    }
  }

  /** Leaving the loop closes the connector only after IsOperational
      answered true, and leaves no link. */
  lemma FinishConnector(s: State, upAtExit: bool)
    ensures var f := Finish(s, upAtExit);
      && OpensOnlyWhenClosed(s.connectorOpen, f.events)
      && !ConnectorAfter(s.connectorOpen, f.events)
      && ProbedFirst(f.events)
  {
    var f := Finish(s, upAtExit);
    if s.connectorOpen && upAtExit {
      assert f.events == [Probe(true), Close];
      assert f.events[1..] == [Close];
      assert ConnectorAfter(true, [Close]) == ConnectorAfter(false, []);
      assert ProbedAt(f.events, 1);
    } else {
      assert f.events == [Probe(false)];
    }
  }

  /** Over a whole run the single connector is opened only after
      IsOperational answered false and closed only after it answered true;
      replaying the trace's IsOperational answers, Open and Close calls, it
      is opened only while closed, closed only while open, and ends in the
      run's final state. */
  lemma {:induction false} RunConnector(cfg: Config, s: State, script: seq<Round>, upAtExit: bool)
    requires Valid(cfg, s)
    ensures var x := Run(cfg, s, script, upAtExit);
      && OpensOnlyWhenClosed(s.connectorOpen, x.trace)
      && ConnectorAfter(s.connectorOpen, x.trace) == x.final.connectorOpen
      && ProbedFirst(x.trace)
    decreases |script|
  {
    if !Guard(cfg, s) {
      FinishConnector(s, upAtExit);
    } else if script != [] {
      var t := Step(cfg, s, script[0]);
      var rest := Run(cfg, t.next, script[1..], upAtExit).trace;
      StepConnector(cfg, s, script[0]);
      RunConnector(cfg, t.next, script[1..], upAtExit);
      ConnectorAppend(s.connectorOpen, t.events, rest);
      ProbedFirstAppend(t.events, rest);
    }
  }

  /** The six tallies the bookkeeping is stated in, split over a concatenation. */
  lemma TalliesAppend(a: seq<Event>, b: seq<Event>)
    ensures Count(a + b, IsSleep) == Count(a, IsSleep) + Count(b, IsSleep)
    ensures Count(a + b, IsGrant) == Count(a, IsGrant) + Count(b, IsGrant)
    ensures Count(a + b, IsRelease) == Count(a, IsRelease) + Count(b, IsRelease)
    ensures Count(a + b, IsAcceptedActivate) == Count(a, IsAcceptedActivate) + Count(b, IsAcceptedActivate)
    ensures Count(a + b, IsActivate) == Count(a, IsActivate) + Count(b, IsActivate)
    ensures Count(a + b, IsRejection) == Count(a, IsRejection) + Count(b, IsRejection)
  {
    CountAppend(a, b, IsSleep);
    CountAppend(a, b, IsGrant);
    CountAppend(a, b, IsRelease);
    CountAppend(a, b, IsAcceptedActivate);
    CountAppend(a, b, IsActivate);
    CountAppend(a, b, IsRejection);
  }

  /** The six tallies after one more call. */
  lemma TalliesSnoc(t: seq<Event>, e: Event)
    ensures Count(t + [e], IsSleep) == Count(t, IsSleep) + if IsSleep(e) then 1 else 0
    ensures Count(t + [e], IsGrant) == Count(t, IsGrant) + if IsGrant(e) then 1 else 0
    ensures Count(t + [e], IsRelease) == Count(t, IsRelease) + if IsRelease(e) then 1 else 0
    ensures Count(t + [e], IsAcceptedActivate)
            == Count(t, IsAcceptedActivate) + if IsAcceptedActivate(e) then 1 else 0
    ensures Count(t + [e], IsActivate) == Count(t, IsActivate) + if IsActivate(e) then 1 else 0
    ensures Count(t + [e], IsRejection) == Count(t, IsRejection) + if IsRejection(e) then 1 else 0
  {
    CountSnoc(t, e, IsSleep);
    CountSnoc(t, e, IsGrant);
    CountSnoc(t, e, IsRelease);
    CountSnoc(t, e, IsAcceptedActivate);
    CountSnoc(t, e, IsActivate);
    CountSnoc(t, e, IsRejection);
  }

  /** The four tallies of a stretch of calls, as the bookkeeping needs them. */
  predicate Balanced(events: seq<Event>, sleeps: int, kept: int, stops: int)
  {
    && Count(events, IsSleep) == sleeps
    && Count(events, IsAcceptedActivate) == kept
    && Count(events, IsRejection) == stops
    && Count(events, IsGrant) == Count(events, IsRelease) + Count(events, IsAcceptedActivate)
  }

  lemma LeadCounts(op: bool)
    ensures Balanced(Lead(op), 0, 0, 0) && Count(Lead(op), IsActivate) == 0
  {
    assert [] + [Probe(op)] == [Probe(op)];
    TalliesSnoc([], Probe(op));
    if !op {
      TalliesSnoc([Probe(op)], Open(true));
    }
  }

  lemma AskedCounts(op: bool, q: Event, call: Event)
    requires q.Query? && q.found && call.Activate?
    ensures Count(Lead(op) + [q, call], IsSleep) == 0
    ensures Count(Lead(op) + [q, call], IsGrant) == 1
    ensures Count(Lead(op) + [q, call], IsRelease) == 0
    ensures Count(Lead(op) + [q, call], IsAcceptedActivate) == if call.result == ErrorNone then 1 else 0
    ensures Count(Lead(op) + [q, call], IsActivate) == 1
    ensures Count(Lead(op) + [q, call], IsRejection) == if Classify(call.result) == Rejected then 1 else 0
  {
    LeadCounts(op);
    assert Lead(op) + [q, call] == Lead(op) + [q] + [call];
    TalliesSnoc(Lead(op), q);
    TalliesSnoc(Lead(op) + [q], call);
  }

  /** The calls of a pass whose Open failed: IsOperational, the failed Open
      and one Sleep. */
  lemma FailedOpenCounts(delay: uint16)
    ensures var ev := [Probe(false), Open(false), Sleep(delay)];
      && Balanced(ev, 1, 0, 0) && Count(ev, IsActivate) == 0
      && Count(ev, IsFailedOpen) == 1
  {
    assert [] + [Probe(false)] == [Probe(false)];
    assert [Probe(false)] + [Open(false)] + [Sleep(delay)] == [Probe(false), Open(false), Sleep(delay)];
    TalliesSnoc([], Probe(false));
    TalliesSnoc([Probe(false)], Open(false));
    TalliesSnoc([Probe(false)] + [Open(false)], Sleep(delay));
    CountSnoc([], Probe(false), IsFailedOpen);
    CountSnoc([Probe(false)], Open(false), IsFailedOpen);
    CountSnoc([Probe(false)] + [Open(false)], Sleep(delay), IsFailedOpen);
  }

  lemma OpenFailedCounts(cfg: Config, s: State, r: Round)
    requires Valid(cfg, s) && Guard(cfg, s) && FateOf(s, r) == OpenFailed
    ensures var t := Step(cfg, s, r);
      && Balanced(t.events, t.next.currentRetry - s.currentRetry, t.next.heldRefs - s.heldRefs, 0)
      && Count(t.events, IsActivate) == 0
  {
    assert Step(cfg, s, r).events == [Probe(false), Open(false), Sleep(cfg.delay)];
    FailedOpenCounts(cfg.delay);
  }

  lemma NoInterfaceCounts(cfg: Config, s: State, r: Round)
    requires Valid(cfg, s) && Guard(cfg, s) && FateOf(s, r) == NoInterface
    ensures var t := Step(cfg, s, r);
      && Balanced(t.events, t.next.currentRetry - s.currentRetry, t.next.heldRefs - s.heldRefs, 0)
      && Count(t.events, IsActivate) == 0
  {
    var lead := Lead(Operational(s, r));
    var q := Query(cfg.name, false);
    LeadCounts(Operational(s, r));
    TalliesSnoc(lead, q);
    TalliesSnoc(lead + [q], Sleep(cfg.delay));
    assert lead + [q, Sleep(cfg.delay)] == lead + [q] + [Sleep(cfg.delay)];
  }

  lemma AnsweredCounts(cfg: Config, s: State, r: Round)
    requires Valid(cfg, s) && Guard(cfg, s) && FateOf(s, r).Answered?
    ensures var t := Step(cfg, s, r);
      && Balanced(t.events, t.next.currentRetry - s.currentRetry, t.next.heldRefs - s.heldRefs,
                  if t.next.stopped then 1 else 0)
      && Count(t.events, IsActivate) == 1
  {
    var call := Activate(cfg.name, cfg.maxRetries - s.currentRetry, cfg.delay, r.result);
    var asked := Lead(Operational(s, r)) + [Query(cfg.name, true), call];
    var t := Step(cfg, s, r);
    AskedCounts(Operational(s, r), Query(cfg.name, true), call);
    match Classify(r.result)
    case Accepted =>
      assert t.events == asked;
    case LinkFailure =>
      assert t.events == asked + [Release] + [Sleep(cfg.delay)];
      TalliesSnoc(asked, Release);
      TalliesSnoc(asked + [Release], Sleep(cfg.delay));
    case Rejected =>
      assert t.events == asked + [Release];
      TalliesSnoc(asked, Release);
  }

  /** The bookkeeping of one iteration: it sleeps exactly when it is a
      retryable failure, every interface it obtains is released unless
      Activate answered ERROR_NONE, only that answer keeps a reference, and
      Activate is called once exactly when the query found the interface, and
      its answer is a rejection exactly when the pass leaves the loop. */
  lemma StepCounts(cfg: Config, s: State, r: Round)
    requires Valid(cfg, s) && Guard(cfg, s)
    ensures var t := Step(cfg, s, r);
      && Balanced(t.events, t.next.currentRetry - s.currentRetry, t.next.heldRefs - s.heldRefs,
                  if t.next.stopped then 1 else 0)
      && Count(t.events, IsActivate) == if FateOf(s, r).Answered? then 1 else 0
  {
    match FateOf(s, r)
    case OpenFailed => OpenFailedCounts(cfg, s, r);
    case NoInterface => NoInterfaceCounts(cfg, s, r);
    case Answered(_) => AnsweredCounts(cfg, s, r);
  }

  lemma FinishCounts(s: State, upAtExit: bool)
    ensures var f := Finish(s, upAtExit);
      Balanced(f.events, 0, 0, 0) && Count(f.events, IsActivate) == 0
  {
    var op := s.connectorOpen && upAtExit;
    TalliesAppend([Probe(op)], if op then [Close] else []);
  }

  /** Over a whole run `currentRetry` advances exactly once per Sleep, so the
      retryable failures (each of which sleeps once) number at most the
      budget left; every interface obtained is released except those whose
      Activate answered ERROR_NONE, and those are the references still held;
      there is at most one Activate call per round; and the loop was left by
      `break` exactly when an Activate call was rejected. */
  lemma {:induction false} RunCounts(cfg: Config, s: State, script: seq<Round>, upAtExit: bool)
    requires Valid(cfg, s)
    ensures var x := Run(cfg, s, script, upAtExit);
      && Balanced(x.trace, x.final.currentRetry - s.currentRetry, x.final.heldRefs - s.heldRefs,
                  (if x.final.stopped then 1 else 0) - (if s.stopped then 1 else 0))
      && Count(x.trace, IsSleep) <= cfg.maxRetries + 1 - s.currentRetry
      && Count(x.trace, IsActivate) <= x.rounds
    decreases |script|
  {
    if !Guard(cfg, s) {
      FinishCounts(s, upAtExit);
    } else if script != [] {
      var t := Step(cfg, s, script[0]);
      StepCounts(cfg, s, script[0]);
      RunCounts(cfg, t.next, script[1..], upAtExit);
      TalliesAppend(t.events, Run(cfg, t.next, script[1..], upAtExit).trace);
    }
  }

  /** The loop retries until its budget is spent: a run from a state the
      loop has not left returns without a rejected Activate exactly when it
      has slept once for every unit of the budget left, that is when
      `currentRetry` has been advanced past `maxRetries`. */
  lemma RunRetriesUntilBudgetSpent(cfg: Config, s: State, script: seq<Round>, upAtExit: bool)
    requires Valid(cfg, s) && !s.success && !s.stopped
    ensures var x := Run(cfg, s, script, upAtExit);
      x.ending.Returned? && Count(x.trace, IsRejection) == 0
      <==> Count(x.trace, IsSleep) == cfg.maxRetries + 1 - s.currentRetry
  {
    RunCounts(cfg, s, script, upAtExit);
  }

  /** A pass on a closed connector whose Open fails: IsOperational, the
      failed Open and one Sleep, and `currentRetry` advances. */
  lemma StepOpenFails(cfg: Config, s: State, r: Round)
    requires Valid(cfg, s) && Guard(cfg, s) && !s.connectorOpen && !r.openOk
    ensures var t := Step(cfg, s, r);
      && t.events == [Probe(false), Open(false), Sleep(cfg.delay)]
      && t.next == s.(currentRetry := s.currentRetry + 1)
  {
  }

  /** When every Open fails, every pass is one failed Open followed by one
      Sleep, and the loop returns false after exactly the budget left of
      them, without ever querying or activating. */
  lemma {:induction false} RunOpenAlwaysFails(
    cfg: Config, s: State, script: seq<Round>, upAtExit: bool)
    requires Valid(cfg, s) && !s.success && !s.stopped && !s.connectorOpen
    requires forall r :: r in script ==> !r.openOk
    requires |script| >= cfg.maxRetries + 1 - s.currentRetry
    ensures var x := Run(cfg, s, script, upAtExit);
      && x.ending == Returned(false)
      && x.rounds == cfg.maxRetries + 1 - s.currentRetry
      && Count(x.trace, IsFailedOpen) == cfg.maxRetries + 1 - s.currentRetry
      && Count(x.trace, IsSleep) == cfg.maxRetries + 1 - s.currentRetry
      && (forall e :: e in x.trace ==> !e.Query? && !e.Activate?)
    decreases |script|
  {
    var x := Run(cfg, s, script, upAtExit);
    if !Guard(cfg, s) {
      assert x.trace == [Probe(false)];
      CountOne(Probe(false), IsFailedOpen);
      CountOne(Probe(false), IsSleep);
    } else {
      var r := script[0];
      assert r in script;
      var t := Step(cfg, s, r);
      var y := Run(cfg, t.next, script[1..], upAtExit);
      StepOpenFails(cfg, s, r);
      assert forall q :: q in script[1..] ==> q in script;
      RunOpenAlwaysFails(cfg, t.next, script[1..], upAtExit);
      assert x.trace == t.events + y.trace;
      CountAppend(t.events, y.trace, IsFailedOpen);
      CountAppend(t.events, y.trace, IsSleep);
      FailedOpenCounts(cfg.delay);
    }
  }

  /** Within one pass the retries hint handed to Activate is the budget
      left: no Sleep comes before the Activate call. */
  lemma StepHints(cfg: Config, s: State, r: Round)
    requires Valid(cfg, s) && Guard(cfg, s)
    ensures HintsTrackSleeps(Step(cfg, s, r).events, cfg.maxRetries - s.currentRetry)
  {
    var t := Step(cfg, s, r);
    var op := Operational(s, r);
    var d := cfg.delay;
    match FateOf(s, r)
    case Answered(v) =>
      var call := Activate(cfg.name, cfg.maxRetries - s.currentRetry, d, r.result);
      var tail := match v
        case Accepted => []
        case LinkFailure => [Release, Sleep(d)]
        case Rejected => [Release];
      assert t.events == Lead(op) + [Query(cfg.name, true), call] + tail;
      ActivateHint(Lead(op), Query(cfg.name, true), call, tail);
    case _ =>
      StepCalls(cfg, s, r);
      forall i | 0 <= i < |t.events| && t.events[i].Activate?
        ensures false
      {
      }
  }

  /** In a pass that reached Activate, no Sleep precedes the call, so its
      hint is the whole budget the pass started with. */
  lemma ActivateHint(lead: seq<Event>, q: Event, call: Event, tail: seq<Event>)
    requires forall e :: e in lead ==> e.Probe? || e.Open?
    requires forall e :: e in tail ==> e.Release? || e.Sleep?
    requires q.Query? && call.Activate?
    ensures HintsTrackSleeps(lead + [q, call] + tail, call.retries)
  {
    var ev := lead + [q, call] + tail;
    var k := |lead| + 1;
    SingleActivate(lead, q, call, tail);
    assert ev[..k] == lead + [q];
    CountNone(lead, IsSleep);
    CountSnoc(lead, q, IsSleep);
  }

  /** The per-attempt budget over a whole run: every retries hint handed to
      Activate is `maxRetries - currentRetry` of the starting state less the
      number of sleeps, one per retryable failure, made before the call. */
  lemma {:induction false} RunHintsTrackSleeps(cfg: Config, s: State, script: seq<Round>, upAtExit: bool)
    requires Valid(cfg, s)
    ensures HintsTrackSleeps(Run(cfg, s, script, upAtExit).trace, cfg.maxRetries - s.currentRetry)
    decreases |script|
  {
    var x := Run(cfg, s, script, upAtExit);
    if !Guard(cfg, s) {
      forall i | 0 <= i < |x.trace| && x.trace[i].Activate?
        ensures false
      {
      }
    } else if script != [] {
      var t := Step(cfg, s, script[0]);
      var y := Run(cfg, t.next, script[1..], upAtExit);
      StepHints(cfg, s, script[0]);
      StepCounts(cfg, s, script[0]);
      RunHintsTrackSleeps(cfg, t.next, script[1..], upAtExit);
      HintsTrackSleepsAppend(t.events, y.trace, cfg.maxRetries - s.currentRetry);
    }
  }

  /** The calls of a run: every query and every Activate names the starter's
      own plugin, every Sleep and every Activate carries the configured
      delay, and every retries hint is the budget left when the call was
      made, so below `maxRetries` and at most `maxRetries - currentRetry` of
      the starting state. */
  lemma {:induction false} RunCalls(cfg: Config, s: State, script: seq<Round>, upAtExit: bool)
    requires Valid(cfg, s)
    ensures var t := Run(cfg, s, script, upAtExit).trace;
      && (forall e :: e in t && e.Query? ==> e.callsign == cfg.name)
      && (forall e :: e in t && e.Sleep? ==> e.ms == cfg.delay)
      && (forall e :: e in t && e.Activate? ==>
            && e.callsign == cfg.name && e.delay == cfg.delay
            && e.retries <= cfg.maxRetries - s.currentRetry && e.retries < cfg.maxRetries)
    decreases |script|
  {
    if Guard(cfg, s) && script != [] {
      var st := Step(cfg, s, script[0]);
      StepCalls(cfg, s, script[0]);
      RunCalls(cfg, st.next, script[1..], upAtExit);
    }
  }

  /** The retries hints a run passes to Activate never increase. */
  lemma {:induction false} RunHintsNonIncreasing(cfg: Config, s: State, script: seq<Round>, upAtExit: bool)
    requires Valid(cfg, s)
    ensures HintsNonIncreasing(Run(cfg, s, script, upAtExit).trace)
    decreases |script|
  {
    if Guard(cfg, s) && script != [] {
      var st := Step(cfg, s, script[0]);
      var rest := Run(cfg, st.next, script[1..], upAtExit).trace;
      StepCalls(cfg, s, script[0]);
      RunHintsNonIncreasing(cfg, st.next, script[1..], upAtExit);
      RunCalls(cfg, st.next, script[1..], upAtExit);
      NonIncreasingAppend(st.events, rest, cfg.maxRetries - s.currentRetry);
    }
  }

  /** Within one iteration a rejected Activate is the second-to-last call,
      followed only by the Release of its interface, and it ends the loop. */
  lemma StepRejected(cfg: Config, s: State, r: Round)
    requires Valid(cfg, s) && Guard(cfg, s)
    ensures var t := Step(cfg, s, r);
      forall i :: 0 <= i < |t.events| && t.events[i].Activate? && Classify(t.events[i].result) == Rejected ==>
        t.next.stopped && i == |t.events| - 2 && t.events[i + 1] == Release
  {
    StepCalls(cfg, s, r);
    var t := Step(cfg, s, r);
    if FateOf(s, r).Answered? {
      var call := Activate(cfg.name, cfg.maxRetries - s.currentRetry, cfg.delay, r.result);
      var asked := Lead(Operational(s, r)) + [Query(cfg.name, true), call];
      assert t.events[..|asked|] == asked;
      assert t.events[|asked| - 1] == call;
    }
  }

  /** After a rejected Activate the only calls are the Release of its
      interface, then the final IsOperational question and possibly the
      Close of the connector, and the run returns. */
  ghost predicate RejectionEnds(x: Execution)
  {
    forall i :: 0 <= i < |x.trace| && x.trace[i].Activate? && Classify(x.trace[i].result) == Rejected ==>
      && x.ending.Returned?
      && i + 1 < |x.trace| && x.trace[i + 1] == Release
      && (forall j :: i + 1 < j < |x.trace| ==> x.trace[j].Probe? || x.trace[j] == Close)
  }

  /** A rejected Activate inside the first iteration of a run: only the
      final IsOperational question and Close follow its Release. */
  lemma RejectionInFirstStep(cfg: Config, s: State, script: seq<Round>, upAtExit: bool, i: nat)
    requires Valid(cfg, s) && Guard(cfg, s) && script != []
    requires var x := Run(cfg, s, script, upAtExit);
      i < |Step(cfg, s, script[0]).events| && x.trace[i].Activate? && Classify(x.trace[i].result) == Rejected
    ensures var x := Run(cfg, s, script, upAtExit);
      && x.ending.Returned?
      && i + 1 < |x.trace| && x.trace[i + 1] == Release
      && (forall j :: i + 1 < j < |x.trace| ==> x.trace[j].Probe? || x.trace[j] == Close)
  {
    var x := Run(cfg, s, script, upAtExit);
    var st := Step(cfg, s, script[0]);
    var y := Run(cfg, st.next, script[1..], upAtExit);
    var n := |st.events|;
    assert x.trace == st.events + y.trace;
    assert x.trace[i] == st.events[i];
    StepRejected(cfg, s, script[0]);
    assert x.trace[i + 1] == st.events[i + 1];
    assert y.trace == Finish(st.next, upAtExit).events;
    forall j | i + 1 < j < |x.trace| ensures x.trace[j].Probe? || x.trace[j] == Close {
      assert x.trace[j] == y.trace[j - n];
      assert y.trace[j - n] in y.trace;
    }
  }

  /** A rejected Activate in a run that continues another one after the
      calls `done`: the facts about the continuation carry over. */
  lemma RejectionShifts(done: seq<Event>, y: Execution, x: Execution, i: nat)
    requires RejectionEnds(y) && x.trace == done + y.trace && x.ending == y.ending
    requires |done| <= i < |x.trace| && x.trace[i].Activate? && Classify(x.trace[i].result) == Rejected
    ensures && x.ending.Returned?
            && i + 1 < |x.trace| && x.trace[i + 1] == Release
            && (forall j :: i + 1 < j < |x.trace| ==> x.trace[j].Probe? || x.trace[j] == Close)
  {
    var n := |done|;
    var k := i - n;
    assert y.trace[k] == x.trace[i];
    assert k + 1 < |y.trace| && y.trace[k + 1] == Release;
    assert x.trace[i + 1] == y.trace[k + 1];
    forall j | i + 1 < j < |x.trace| ensures x.trace[j].Probe? || x.trace[j] == Close {
      assert x.trace[j] == y.trace[j - n];
    }
  }

  /** A rejected Activate ends the run: no further Open, query, Activate or
      Sleep follows it, only the Release of its interface, the final
      IsOperational question and possibly the closing of the connector. */
  lemma {:induction false} RunRejectionStops(cfg: Config, s: State, script: seq<Round>, upAtExit: bool)
    requires Valid(cfg, s)
    ensures RejectionEnds(Run(cfg, s, script, upAtExit))
    decreases |script|
  {
    var x := Run(cfg, s, script, upAtExit);
    if Guard(cfg, s) && script != [] {
      var st := Step(cfg, s, script[0]);
      var y := Run(cfg, st.next, script[1..], upAtExit);
      RunRejectionStops(cfg, st.next, script[1..], upAtExit);
      assert x.trace == st.events + y.trace && x.ending == y.ending;
      forall i | 0 <= i < |x.trace| && x.trace[i].Activate? && Classify(x.trace[i].result) == Rejected
        ensures && x.ending.Returned?
                && i + 1 < |x.trace| && x.trace[i + 1] == Release
                && (forall j :: i + 1 < j < |x.trace| ==> x.trace[j].Probe? || x.trace[j] == Close)
      {
        if i < |st.events| {
          RejectionInFirstStep(cfg, s, script, upAtExit, i);
        } else {
          RejectionShifts(st.events, y, x, i);
        }
      }
    }
  }

  /** On environment answers none of which is ERROR_NONE, every iteration
      either advances `currentRetry` or leaves the loop, so the loop returns
      after at most the budget left, provided the script is that long. */
  lemma {:induction false} RunTerminatesWithoutErrorNone(
    cfg: Config, s: State, script: seq<Round>, upAtExit: bool)
    requires Valid(cfg, s)
    requires forall r :: r in script ==> r.result != ErrorNone
    requires |script| >= cfg.maxRetries + 1 - s.currentRetry
    ensures var x := Run(cfg, s, script, upAtExit);
      x.ending.Returned? && x.rounds <= cfg.maxRetries + 1 - s.currentRetry
    decreases |script|
  {
    if Guard(cfg, s) {
      var st := Step(cfg, s, script[0]);
      assert script[0] in script;
      assert forall r :: r in script[1..] ==> r in script;
      if !st.next.stopped {
        RunTerminatesWithoutErrorNone(cfg, st.next, script[1..], upAtExit);
      }
    }
  }

  /** The ERROR_NONE branch is empty: while Activate keeps answering
      ERROR_NONE the loop neither returns nor advances `currentRetry`, and
      every such answer leaves one more interface reference unreleased. So
      no bound on the number of iterations exists. */
  lemma {:induction false} RunLoopsWhileAccepted(cfg: Config, s: State, script: seq<Round>, upAtExit: bool)
    requires Valid(cfg, s) && Guard(cfg, s)
    requires forall r :: r in script ==> r.openOk && r.found && r.result == ErrorNone
    ensures var x := Run(cfg, s, script, upAtExit);
      && x.ending == ScriptExhausted && x.rounds == |script|
      && x.final.currentRetry == s.currentRetry
      && x.final.heldRefs == s.heldRefs + |script|
    decreases |script|
  {
    if script != [] {
      var st := Step(cfg, s, script[0]);
      assert script[0] in script;
      assert forall r :: r in script[1..] ==> r in script;
      RunLoopsWhileAccepted(cfg, st.next, script[1..], upAtExit);
    }
  }
}
