/**
 The retry loop of `COMRPCStarter::activatePlugin` as a state machine: one
 loop iteration is a `Step` driven by one scripted `Round` of environment
 answers, and `Run` iterates it until the loop guard fails or the script
 runs out.
 */
module Machine {
  import opened Types
  import opened Trace

  /** The arguments of one `activatePlugin` call, with the starter's name. */
  datatype Config = Config(name: string, maxRetries: uint8, delay: uint16)

  /** What the environment answers in one iteration, consumed in order:
      whether a link opened earlier is still up when `IsOperational` is
      asked, whether `Open` succeeds (asked only when the connector is not
      operational), whether the query by callsign returns an interface, and
      what `Activate` returns (asked only when it does). */
  datatype Round = Round(linkUp: bool, openOk: bool, found: bool, result: HResult)

  /** The loop's state: the locals `currentRetry` and `success`, whether the
      single connector holds an open link, how many interface references
      were obtained and never released, and whether the loop was left by
      `break`. */
  datatype State = State(currentRetry: int, success: bool, connectorOpen: bool, heldRefs: nat, stopped: bool)

  /** How a run ends: `activatePlugin` returned `value`, or the loop guard
      still held when the script of environment answers ran out. */
  datatype Ending = Returned(value: bool) | ScriptExhausted

  /** A run: the calls made, the state reached, how it ended, and how many
      rounds of the script it consumed. */
  datatype Execution = Execution(trace: seq<Event>, final: State, ending: Ending, rounds: nat)

  /** `currentRetry` starts at one and is advanced at most to one past the
      bound, so the retries hint of any iteration fits a `uint8_t`; the loop
      is left by `break` only from inside its body, with the guard true. */
  predicate Valid(cfg: Config, s: State)
  {
    && 1 <= s.currentRetry <= cfg.maxRetries + 1
    && (s.stopped ==> s.currentRetry <= cfg.maxRetries)
  }

  /** The loop guard `!success && currentRetry <= maxRetries`, together with
      not having left the loop by `break`. */
  predicate Guard(cfg: Config, s: State)
  {
    !s.stopped && !s.success && s.currentRetry <= cfg.maxRetries
  }

  /** The state in which the loop is entered (`success` false, `currentRetry`
      one): it satisfies the loop's invariant, its body runs at least once
      exactly when `maxRetries` is positive, and nothing is held yet. */
  function Init(cfg: Config, connectorOpen: bool): (s: State)
    ensures Valid(cfg, s) && !s.success && s.heldRefs == 0
    ensures Guard(cfg, s) <==> cfg.maxRetries > 0
    ensures s.connectorOpen == connectorOpen
    // the whole budget is still ahead: the first hint is `maxRetries - 1`
    ensures s.currentRetry == 1 && !s.stopped
  {
    State(1, false, connectorOpen, 0, false)
  }

  /** The answer `IsOperational` gives at the start of a pass: a link that
      was opened and is still up. */
  function Operational(s: State, r: Round): bool
  {
    s.connectorOpen && r.linkUp
  }

  /** The calls that get a pass a link: `IsOperational` first, then a
      successful `Open` exactly when it answered false. */
  function Lead(operational: bool): (t: seq<Event>)
    ensures |t| > 0 && t[0] == Probe(operational)
    ensures Open(true) in t <==> !operational
    ensures forall e :: e in t ==> e.Probe? || e.Open?
  {
    [Probe(operational)] + if operational then [] else [Open(true)]
  }

  /** Where an iteration ends up, determined by the connector and the round. */
  datatype Fate =
    | OpenFailed            // Open was needed and failed
    | NoInterface           // the query returned null
    | Answered(v: Verdict)  // Activate was called and its result classified

  function FateOf(s: State, r: Round): Fate
  {
    if !Operational(s, r) && !r.openOk then OpenFailed
    else if !r.found then NoInterface
    else Answered(Classify(r.result))
  }

  /** The retryable fates: those that advance `currentRetry` and sleep. */
  predicate Retryable(f: Fate)
  {
    f == OpenFailed || f == NoInterface || f == Answered(LinkFailure)
  }

  /** One iteration of the loop: its new state and the calls it made. */
  datatype Transition = Transition(next: State, events: seq<Event>)

  function Step(cfg: Config, s: State, r: Round): (t: Transition)
    requires Valid(cfg, s) && Guard(cfg, s)
    // `success` is never assigned; the loop is left by `break` only on a rejection
    ensures t.next.success == s.success
    ensures t.next.stopped <==> FateOf(s, r) == Answered(Rejected)
    // a retryable failure advances `currentRetry` by exactly one, anything else leaves it
    ensures t.next.currentRetry == s.currentRetry + (if Retryable(FateOf(s, r)) then 1 else 0)
    ensures Valid(cfg, t.next)
    // after the iteration the connector holds a link unless opening it failed
    ensures t.next.connectorOpen <==> FateOf(s, r) != OpenFailed
    // only an ERROR_NONE answer keeps an interface reference
    ensures t.next.heldRefs == s.heldRefs + (if FateOf(s, r) == Answered(Accepted) then 1 else 0)
    // Activate is called only when the interface was found, and returns the round's answer
    ensures forall e :: e in t.events && e.Activate? ==> FateOf(s, r).Answered? && e.result == r.result
  {
    var operational := Operational(s, r);
    if !operational && !r.openOk then
      var failed := [Probe(false), Open(false), Sleep(cfg.delay)];
      Transition(s.(currentRetry := s.currentRetry + 1, connectorOpen := false), failed)
    else
      var s1 := s.(connectorOpen := true);
      if !r.found then
        var missing := Lead(operational) + [Query(cfg.name, false), Sleep(cfg.delay)];
        Transition(s1.(currentRetry := s.currentRetry + 1), missing)
      else
        var call := Activate(cfg.name, cfg.maxRetries - s.currentRetry, cfg.delay, r.result);
        var asked := Lead(operational) + [Query(cfg.name, true), call];
        match Classify(r.result)
        case Accepted => Transition(s1.(heldRefs := s.heldRefs + 1), asked)
        case LinkFailure =>
          Transition(s1.(currentRetry := s.currentRetry + 1), asked + [Release, Sleep(cfg.delay)])
        case Rejected => Transition(s1.(stopped := true), asked + [Release])
  }

  /** Leaving the loop: `IsOperational` is asked once more, with `upAtExit`
      saying whether a link opened earlier is still up, and Close is called
      exactly when the answer is true. Either way no link is left. */
  function Finish(s: State, upAtExit: bool): (t: Transition)
    ensures !t.next.connectorOpen
    ensures |t.events| > 0 && t.events[0] == Probe(s.connectorOpen && upAtExit)
    ensures Close in t.events <==> s.connectorOpen && upAtExit
    ensures forall e :: e in t.events ==> e.Probe? || e.Close?
    ensures t.next.currentRetry == s.currentRetry && t.next.success == s.success
    ensures t.next.heldRefs == s.heldRefs && t.next.stopped == s.stopped
  {
    var operational := s.connectorOpen && upAtExit;
    Transition(s.(connectorOpen := false), [Probe(operational)] + if operational then [Close] else [])
  }

  /** The loop from state `s` on the remaining environment answers `script`,
      followed by the closing of the connector and the return of `success`. */
  function Run(cfg: Config, s: State, script: seq<Round>, upAtExit: bool): (x: Execution)
    requires Valid(cfg, s)
    decreases |script|
    ensures Valid(cfg, x.final)
    ensures x.rounds <= |script|
    ensures x.final.success == s.success
    // the loop is left only once its guard has failed
    ensures x.ending.Returned? ==> !Guard(cfg, x.final)
    ensures x.ending.Returned? ==> x.ending.value == s.success && !x.final.connectorOpen
    ensures x.ending.ScriptExhausted? ==> x.rounds == |script| && Guard(cfg, x.final)
    ensures x.trace == [] || x.trace[0].Probe?
  {
    if !Guard(cfg, s) then
      var f := Finish(s, upAtExit);
      Execution(f.events, f.next, Returned(s.success), 0)
    else if script == [] then
      Execution([], s, ScriptExhausted, 0)
    else
      var t := Step(cfg, s, script[0]);
      var x := Run(cfg, t.next, script[1..], upAtExit);
      Execution(t.events + x.trace, x.final, x.ending, x.rounds + 1)
  }
}
