/**
 `COMRPCStarter`: a starter owns its plugin's name and one controller
 connector, and `activatePlugin` runs the retry loop over that connector.
 Given as a function over the loop model and as an imperative loop shaped
 like the C++ code, proved to agree.
 */
module Starter {
  import opened Types
  import opened Trace
  import opened Machine
  import opened MachineProofs

  /** The starter's fields: the const `_pluginName` and whether its single
      `_connector` is operational. */
  datatype StarterState = StarterState(pluginName: string, connectorOpen: bool)

  /** The constructor: the name is stored once and never assigned again, and
      a fresh connector is not yet operational. */
  function NewStarter(pluginName: string): (st: StarterState)
    ensures st.pluginName == pluginName && !st.connectorOpen
  {
    StarterState(pluginName, false)
  }

  /** One `activatePlugin` call: the starter afterwards and the run. */
  datatype Activation = Activation(starter: StarterState, exec: Execution)

  lemma TerminatesFromStart(cfg: Config, open: bool, script: seq<Round>, upAtExit: bool)
    ensures (forall r :: r in script ==> r.result != ErrorNone) && |script| >= cfg.maxRetries ==>
              var x := Run(cfg, Init(cfg, open), script, upAtExit);
              x.ending.Returned? && x.rounds <= cfg.maxRetries
  {
    if (forall r :: r in script ==> r.result != ErrorNone) && |script| >= cfg.maxRetries {
      RunTerminatesWithoutErrorNone(cfg, Init(cfg, open), script, upAtExit);
    }
  }

  /** From a closed connector on which every Open fails, the call makes
      exactly `maxRetries` failed Opens and returns false. */
  lemma OpenFailuresFromStart(cfg: Config, open: bool, script: seq<Round>, upAtExit: bool)
    ensures !open && (forall r :: r in script ==> !r.openOk) && |script| >= cfg.maxRetries ==>
              var x := Run(cfg, Init(cfg, open), script, upAtExit);
              && x.ending == Returned(false) && x.rounds == cfg.maxRetries
              && Count(x.trace, IsFailedOpen) == cfg.maxRetries
  {
    if !open && (forall r :: r in script ==> !r.openOk) && |script| >= cfg.maxRetries {
      RunOpenAlwaysFails(cfg, Init(cfg, open), script, upAtExit);
    }
  }

  /** `activatePlugin(maxRetries, retryDelayMs)`. The environment's answers
      are `script`, one round per pass, and `upAtExit`, what IsOperational
      answers after the loop. */
  function ActivatePlugin(
    st: StarterState, maxRetries: uint8, retryDelayMs: uint16, script: seq<Round>, upAtExit: bool)
    : (a: Activation)
    // the name is constant, and is what every query and Activate call uses
    ensures a.starter.pluginName == st.pluginName
    ensures forall e :: e in a.exec.trace && (e.Query? || e.Activate?) ==> e.callsign == st.pluginName
    // success is never reported, and no operational connector is left behind
    ensures a.exec.ending.Returned? ==> a.exec.ending.value == false && !a.starter.connectorOpen
    // one connector: opened only right after IsOperational answered false, closed only right after
    // it answered true, and left as the trace's answers and Open/Close calls leave it
    ensures ProbedFirst(a.exec.trace)
    ensures OpensOnlyWhenClosed(st.connectorOpen, a.exec.trace)
    ensures a.starter.connectorOpen == ConnectorAfter(st.connectorOpen, a.exec.trace)
    // with no budget the loop body never runs
    ensures maxRetries == 0 ==>
              && a.exec.ending == Returned(false) && a.exec.rounds == 0
              && forall e :: e in a.exec.trace ==> !IsWork(e)
    // at most maxRetries retryable failures, each sleeping once for retryDelayMs
    ensures Count(a.exec.trace, IsSleep) <= maxRetries
    ensures forall e :: e in a.exec.trace && e.Sleep? ==> e.ms == retryDelayMs
    // every interface obtained is released unless Activate answered ERROR_NONE
    ensures Count(a.exec.trace, IsGrant)
            == Count(a.exec.trace, IsRelease) + Count(a.exec.trace, IsAcceptedActivate)
    // at most one Activate per pass
    ensures Count(a.exec.trace, IsActivate) <= a.exec.rounds
    // the hints handed to Activate: remaining budget below maxRetries, never increasing, and the delay
    ensures forall e :: e in a.exec.trace && e.Activate? ==> e.retries < maxRetries && e.delay == retryDelayMs
    ensures HintsNonIncreasing(a.exec.trace)
    // the first hint is maxRetries - 1, and each retryable failure (one Sleep) lowers the next by one
    ensures HintsTrackSleeps(a.exec.trace, maxRetries - 1)
    // it retries until the budget is spent: the call returns without a rejected Activate
    // exactly when it has slept maxRetries times
    ensures a.exec.ending.Returned? && Count(a.exec.trace, IsRejection) == 0
            <==> Count(a.exec.trace, IsSleep) == maxRetries
    // when every Open fails on a closed connector: maxRetries failed Opens, then false
    ensures !st.connectorOpen && (forall r :: r in script ==> !r.openOk) && |script| >= maxRetries ==>
              && a.exec.ending == Returned(false) && a.exec.rounds == maxRetries
              && Count(a.exec.trace, IsFailedOpen) == maxRetries
    // a rejected Activate is followed only by its Release, the last IsOperational and the Close
    ensures RejectionEnds(a.exec)
    // without ERROR_NONE answers the call returns within maxRetries iterations
    ensures (forall r :: r in script ==> r.result != ErrorNone) && |script| >= maxRetries ==>
              a.exec.ending.Returned? && a.exec.rounds <= maxRetries
  {
    var cfg := Config(st.pluginName, maxRetries, retryDelayMs);
    var s0 := Init(cfg, st.connectorOpen);
    var x := Run(cfg, s0, script, upAtExit);
    RunConnector(cfg, s0, script, upAtExit);
    RunCounts(cfg, s0, script, upAtExit);
    RunCalls(cfg, s0, script, upAtExit);
    RunHintsNonIncreasing(cfg, s0, script, upAtExit);
    RunRejectionStops(cfg, s0, script, upAtExit);
    RunHintsTrackSleeps(cfg, s0, script, upAtExit);
    RunRetriesUntilBudgetSpent(cfg, s0, script, upAtExit);
    TerminatesFromStart(cfg, st.connectorOpen, script, upAtExit);
    OpenFailuresFromStart(cfg, st.connectorOpen, script, upAtExit);
    Activation(st.(connectorOpen := x.final.connectorOpen), x)
  }

  /** `rest` is what remains of `whole` once the calls `done` have been made. */
  ghost predicate Continues(whole: Execution, done: seq<Event>, rest: Execution)
  {
    whole.trace == done + rest.trace && whole.final == rest.final && whole.ending == rest.ending
  }

  /** Making the calls of one iteration moves the run forward by one round. */
  lemma Advance(whole: Execution, done: seq<Event>, cfg: Config, s: State, script: seq<Round>, upAtExit: bool)
    requires Valid(cfg, s) && Guard(cfg, s) && script != []
    requires Continues(whole, done, Run(cfg, s, script, upAtExit))
    ensures var t := Step(cfg, s, script[0]);
      Continues(whole, done + t.events, Run(cfg, t.next, script[1..], upAtExit))
  {
    var t := Step(cfg, s, script[0]);
    var rest := Run(cfg, t.next, script[1..], upAtExit).trace;
    assert done + (t.events + rest) == done + t.events + rest;
  }

  /** One pass of the loop body, written as `activatePlugin` does it: ask
      IsOperational, open the connector if it is not operational, query the
      interface by the plugin's name, call Activate with the remaining budget
      and the delay, and classify its result. It makes exactly the calls, and reaches exactly the state, of
      the loop model's iteration. */
  method Attempt(cfg: Config, s: State, r: Round) returns (t: Transition)
    requires Valid(cfg, s) && Guard(cfg, s)
    ensures t == Step(cfg, s, r)
  {
    var operational := s.connectorOpen && r.linkUp;
    var events: seq<Event> := [Probe(operational)];
    if !operational {
      events := events + [Open(r.openOk)];
      if !r.openOk {
        // sleep, then try again
        var failed := s.(currentRetry := s.currentRetry + 1, connectorOpen := false);
        return Transition(failed, events + [Sleep(cfg.delay)]);
      }
    }
    var connected := s.(connectorOpen := true);
    events := events + [Query(cfg.name, r.found)];
    if !r.found {
      // the connector is left as it is; sleep, then try again
      return Transition(connected.(currentRetry := s.currentRetry + 1), events + [Sleep(cfg.delay)]);
    }
    var retries: uint8 := cfg.maxRetries - s.currentRetry;
    events := events + [Activate(cfg.name, retries, cfg.delay, r.result)];
    if r.result == ErrorNone {
      // nothing is done here, and the interface is not released
      t := Transition(connected.(heldRefs := s.heldRefs + 1), events);
    } else if r.result.ComError? {
      t := Transition(connected.(currentRetry := s.currentRetry + 1), events + [Release, Sleep(cfg.delay)]);
    } else {
      // ERROR_INPROGRESS, ERROR_ILLEGAL_STATE, ERROR_NOT_EXIST or any other code: retrying cannot help
      t := Transition(connected.(stopped := true), events + [Release]);
    }
  }

  /** The code after the loop: ask IsOperational once more and close the
      connector if it is up. It makes exactly the calls, and reaches exactly
      the state, of the loop model's exit. */
  method Leave(s: State, upAtExit: bool) returns (t: Transition)
    ensures t == Finish(s, upAtExit)
  {
    var operational := s.connectorOpen && upAtExit;
    var events := [Probe(operational)];
    if operational {
      events := events + [Close];
    }
    t := Transition(s.(connectorOpen := false), events);
  }

  /** `activatePlugin` as the C++ loop, one `Attempt` per pass, the
      connector closed on the way out if IsOperational says it is up. Each
      pass consumes the next round of `script`; if the script runs out while the loop guard still holds, the
      method reports that instead of a return value. */
  method ActivatePluginLoop(
    st: StarterState, maxRetries: uint8, retryDelayMs: uint16, script: seq<Round>, upAtExit: bool)
    returns (ending: Ending, trace: seq<Event>, after: StarterState)
    ensures var a := ActivatePlugin(st, maxRetries, retryDelayMs, script, upAtExit);
      ending == a.exec.ending && trace == a.exec.trace && after == a.starter
    ensures ending.Returned? ==> !ending.value && !after.connectorOpen
    ensures after.pluginName == st.pluginName
  {
    var cfg := Config(st.pluginName, maxRetries, retryDelayMs);
    ghost var whole := Run(cfg, Init(cfg, st.connectorOpen), script, upAtExit);
    var s := Init(cfg, st.connectorOpen);
    var k := 0;
    trace := [];
    while !s.success && s.currentRetry <= maxRetries
      invariant 0 <= k <= |script|
      invariant Valid(cfg, s) && !s.stopped
      invariant Continues(whole, trace, Run(cfg, s, script[k..], upAtExit))
      decreases |script| - k
    {
      if k == |script| {
        ending, after := ScriptExhausted, st.(connectorOpen := s.connectorOpen);
        return;
      }
      var t := Attempt(cfg, s, script[k]);
      Advance(whole, trace, cfg, s, script[k..], upAtExit);
      assert script[k..][1..] == script[k + 1..];
      trace, s, k := trace + t.events, t.next, k + 1;
      if s.stopped {
        break;
      }
    }
    assert Continues(whole, trace, Run(cfg, s, script[k..], upAtExit));
    var t := Leave(s, upAtExit);
    trace, s := trace + t.events, t.next;
    ending := Returned(s.success);
    after := st.(connectorOpen := s.connectorOpen);
  }
}
