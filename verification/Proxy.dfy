/**
  The two-way proxy: two goroutines copy in opposite directions, report errors on a shared channel with one place, and
  signal the end of their source on a channel of their own; the caller selects among the three channels once, then
  waits for the other signal.
 */
module Proxy {
  datatype Side = Client | Server {
    function Other(): Side {
      if this == Client then Server else Client
    }
  }

  datatype Pair<T> = Pair(client: T, server: T) {
    function At(side: Side): T {
      if side == Client then client else server
    }

    function With(side: Side, value: T): (r: Pair<T>)
      ensures r.At(side) == value && r.At(side.Other()) == At(side.Other())
    {
      if side == Client then this.(client := value) else this.(server := value)
    }
  }

  /** Which calls of the broker whose source is this side fail: the copy, and the close after it. */
  datatype Faults = Faults(copy: bool, close: bool) {
    function Count(): nat {
      (if copy then 1 else 0) + if close then 1 else 0
    }
  }

  type Plan = Pair<Faults>

  function Total(plan: Plan): nat {
    plan.client.Count() + plan.server.Count()
  }

  /** Where a broker is; sending blocks while the error channel is full. */
  datatype Broker = Copying | SendingCopyError | Closing | SendingCloseError | Signalling | Finished

  datatype Caller = Selecting | Waiting(side: Side) | Returned(error: bool)

  /** `closes` counts the calls of `Close` on each source; `signals` tells which signals are in their channels. */
  datatype State = State(brokers: Pair<Broker>, closes: Pair<nat>, errors: nat, signals: Pair<bool>, caller: Caller)

  datatype Step = CopyEnds(side: Side) | SendError(side: Side) | Close(side: Side) | Signal(side: Side)
                | TakeSignal(side: Side) | TakeError | EndWait

  predicate Initial(s: State) {
    && s.brokers.client == Copying && s.brokers.server == Copying && s.closes.client == 0 && s.closes.server == 0
    && s.errors == 0 && !s.signals.client && !s.signals.server && s.caller == Selecting
  }

  predicate Enabled(s: State, step: Step) {
    match step
    case CopyEnds(side) => s.brokers.At(side) == Copying
    case SendError(side) =>
      (s.brokers.At(side) == SendingCopyError || s.brokers.At(side) == SendingCloseError) && s.errors < 1
    case Close(side) => s.brokers.At(side) == Closing
    case Signal(side) => s.brokers.At(side) == Signalling && !s.signals.At(side)
    case TakeSignal(side) => s.caller == Selecting && s.signals.At(side)
    case TakeError => s.caller == Selecting && s.errors > 0
    case EndWait => s.caller.Waiting? && s.signals.At(s.caller.side)
  }

  function Goto(s: State, side: Side, pc: Broker): State {
    s.(brokers := s.brokers.With(side, pc))
  }

  /** When the copy fails the source is closed a first time before the error is sent. */
  function After(plan: Plan, s: State, step: Step): State
    requires Enabled(s, step)
  {
    match step
    case CopyEnds(side) =>
      if plan.At(side).copy
      then Goto(s, side, SendingCopyError).(closes := s.closes.With(side, s.closes.At(side) + 1))
      else Goto(s, side, Closing)
    case SendError(side) =>
      Goto(s, side, if s.brokers.At(side) == SendingCopyError then Closing else Signalling).(errors := s.errors + 1)
    case Close(side) =>
      Goto(s, side, if plan.At(side).close then SendingCloseError else Signalling)
        .(closes := s.closes.With(side, s.closes.At(side) + 1))
    case Signal(side) => Goto(s, side, Finished).(signals := s.signals.With(side, true))
    case TakeSignal(side) => s.(signals := s.signals.With(side, false), caller := Waiting(side.Other()))
    case TakeError => s.(errors := s.errors - 1, caller := Returned(true))
    case EndWait => s.(signals := s.signals.With(s.caller.side, false), caller := Returned(false))
  }

  ghost predicate Reaches(plan: Plan, steps: seq<Step>, s: State)
    decreases |steps|
  {
    if |steps| == 0 then Initial(s)
    else
      var n := |steps| - 1;
      exists before :: Reaches(plan, steps[..n], before) && Enabled(before, steps[n])
        && After(plan, before, steps[n]) == s
  }

  ghost predicate Reachable(plan: Plan, s: State) {
    exists steps :: Reaches(plan, steps, s)
  }

  // ---------- The invariant ----------

  /** How many errors a broker has sent. */
  function Sent(faults: Faults, broker: Broker): nat {
    match broker
    case Copying => 0
    case SendingCopyError => 0
    case Closing => if faults.copy then 1 else 0
    case SendingCloseError => if faults.copy then 1 else 0
    case Signalling => faults.Count()
    case Finished => faults.Count()
  }

  /** How many errors the caller has taken. */
  function Taken(caller: Caller): nat {
    if caller == Returned(true) then 1 else 0
  }

  predicate SignalTaken(caller: Caller, side: Side) {
    caller == Waiting(side.Other()) || caller == Returned(false)
  }

  ghost predicate SideInv(plan: Plan, s: State, side: Side) {
    var pc := s.brokers.At(side);
    && (s.brokers.At(side) == Finished <==> s.signals.At(side) || SignalTaken(s.caller, side))
    && !(s.signals.At(side) && SignalTaken(s.caller, side))
    && (pc == SendingCopyError ==> plan.At(side).copy) && (pc == SendingCloseError ==> plan.At(side).close)
    && s.closes.At(side) == (if pc != Copying && plan.At(side).copy then 1 else 0)
                          + if pc == SendingCloseError || pc == Signalling || pc == Finished then 1 else 0
  }

  ghost predicate Inv(plan: Plan, s: State) {
    && SideInv(plan, s, Client) && SideInv(plan, s, Server)
    && s.errors <= 1
    && s.errors + Taken(s.caller) == Sent(plan.client, s.brokers.client) + Sent(plan.server, s.brokers.server)
  }

  lemma StepKeepsInv(plan: Plan, s: State, step: Step)
    requires Inv(plan, s) && Enabled(s, step)
    ensures Inv(plan, After(plan, s, step))
  {
    match step
    case CopyEnds(side) => BrokerStepKeepsInv(plan, s, step, side);
    case SendError(side) => BrokerStepKeepsInv(plan, s, step, side);
    case Close(side) => BrokerStepKeepsInv(plan, s, step, side);
    case Signal(side) => BrokerStepKeepsInv(plan, s, step, side);
    case TakeSignal(side) => TakeSignalKeepsInv(plan, s, side);
    case TakeError =>
    case EndWait =>
  }

  lemma BrokerStepKeepsInv(plan: Plan, s: State, step: Step, side: Side)
    requires Inv(plan, s) && Enabled(s, step)
    requires step == CopyEnds(side) || step == SendError(side) || step == Close(side) || step == Signal(side)
    ensures Inv(plan, After(plan, s, step))
  {
    var s' := After(plan, s, step);
    assert SideInv(plan, s', side);
    assert SideInv(plan, s', side.Other());
  }

  lemma TakeSignalKeepsInv(plan: Plan, s: State, side: Side)
    requires Inv(plan, s) && Enabled(s, TakeSignal(side))
    ensures Inv(plan, After(plan, s, TakeSignal(side)))
  {
  }

  lemma {:induction false} ReachesInv(plan: Plan, steps: seq<Step>, s: State)
    requires Reaches(plan, steps, s)
    ensures Inv(plan, s)
    decreases |steps|
  {
    if |steps| > 0 {
      var n := |steps| - 1;
      var before :| Reaches(plan, steps[..n], before) && Enabled(before, steps[n])
        && After(plan, before, steps[n]) == s;
      ReachesInv(plan, steps[..n], before);
      StepKeepsInv(plan, before, steps[n]);
    }
  }

  lemma ReachableInv(plan: Plan, s: State)
    requires Reachable(plan, s)
    ensures Inv(plan, s)
  {
    var steps :| Reaches(plan, steps, s);
    ReachesInv(plan, steps, s);
  }

  lemma ReachableAfter(plan: Plan, s: State, step: Step)
    requires Reachable(plan, s) && Enabled(s, step)
    ensures Reachable(plan, After(plan, s, step))
  {
    var steps :| Reaches(plan, steps, s);
    var longer := steps + [step];
    assert longer[..|longer| - 1] == steps;
    assert Reaches(plan, longer, After(plan, s, step));
  }

  // ---------- What the results mean ----------

  /**
    A nil result: both brokers have finished copying, closed their sources and sent their signals, and made at most
    one error.
   */
  lemma NilMeansBothDone(plan: Plan, s: State, side: Side)
    requires Reachable(plan, s) && s.caller == Returned(false)
    ensures s.brokers.At(side) == Finished
    ensures s.closes.At(side) == if plan.At(side).copy then 2 else 1
    ensures Total(plan) <= 1
  {
    ReachableInv(plan, s);
    assert SideInv(plan, s, side) && SideInv(plan, s, side.Other());
  }

  /** An error result: some copy or close did fail. */
  lemma ErrorsAreReal(plan: Plan, s: State)
    requires Reachable(plan, s) && s.caller == Returned(true)
    ensures Total(plan) >= 1
  {
    ReachableInv(plan, s);
  }

  /** With at most one error in all, no sender ever waits. */
  lemma OneErrorNeverBlocks(plan: Plan, s: State, side: Side)
    requires Reachable(plan, s) && Total(plan) <= 1
    requires s.brokers.At(side) == SendingCopyError || s.brokers.At(side) == SendingCloseError
    ensures Enabled(s, SendError(side))
  {
    ReachableInv(plan, s);
    assert SideInv(plan, s, side) && SideInv(plan, s, side.Other());
  }

  // ---------- Runs end ----------

  function Rank(broker: Broker): nat {
    match broker
    case Copying => 5
    case SendingCopyError => 4
    case Closing => 3
    case SendingCloseError => 2
    case Signalling => 1
    case Finished => 0
  }

  function CallerRank(caller: Caller): nat {
    match caller
    case Selecting => 2
    case Waiting(_) => 1
    case Returned(_) => 0
  }

  function Measure(s: State): nat {
    Rank(s.brokers.client) + Rank(s.brokers.server) + CallerRank(s.caller)
  }

  lemma StepsEnd(plan: Plan, s: State, step: Step)
    requires Enabled(s, step)
    ensures Measure(After(plan, s, step)) < Measure(s)
  {
  }

  /** Nothing can happen any more. */
  ghost predicate Ended(s: State) {
    forall step :: !Enabled(s, step)
  }

  /** Every run goes on until it has ended. Once the caller waits for the second signal it cannot return an error. */
  lemma {:induction false} RunToTheEnd(plan: Plan, s: State) returns (end: State)
    requires Reachable(plan, s)
    ensures Reachable(plan, end) && Ended(end)
    ensures s.caller.Waiting? || s.caller == Returned(false) ==> end.caller.Waiting? || end.caller == Returned(false)
    decreases Measure(s)
  {
    if step :| Enabled(s, step) {
      StepsEnd(plan, s, step);
      ReachableAfter(plan, s, step);
      end := RunToTheEnd(plan, After(plan, s, step));
    } else {
      end := s;
    }
  }

  /** A broker whose steps are all blocked has finished, or waits for room in the error channel. */
  lemma EndedBroker(plan: Plan, s: State, side: Side)
    requires Inv(plan, s) && Ended(s)
    ensures s.brokers.At(side) == Finished
            || (s.errors == 1 && (s.brokers.At(side) == SendingCopyError || s.brokers.At(side) == SendingCloseError))
  {
    assert SideInv(plan, s, side) && SideInv(plan, s, side.Other());
    assert !Enabled(s, CopyEnds(side)) && !Enabled(s, SendError(side)) && !Enabled(s, Close(side))
      && !Enabled(s, Signal(side));
  }

  /** Without errors every run ends with a nil result and both brokers finished. */
  lemma NoErrorsAlwaysNil(plan: Plan, s: State, side: Side)
    requires Reachable(plan, s) && Ended(s) && Total(plan) == 0
    ensures s.caller == Returned(false) && s.brokers.At(side) == Finished
  {
    ReachableInv(plan, s);
    assert SideInv(plan, s, side) && SideInv(plan, s, side.Other());
    EndedBroker(plan, s, side);
    EndedBroker(plan, s, side.Other());
    assert !Enabled(s, TakeSignal(side)) && !Enabled(s, TakeError) && !Enabled(s, EndWait);
  }

  // ---------- When the proxy hangs ----------

  /** Some interleaving leaves the caller waiting for ever. */
  ghost predicate CanHang(plan: Plan) {
    exists s :: Reachable(plan, s) && Ended(s) && !s.caller.Returned?
  }

  /** Some interleaving leaves a broker blocked for ever. */
  ghost predicate CanLeak(plan: Plan) {
    exists s, side :: Reachable(plan, s) && Ended(s) && s.brokers.At(side) != Finished
  }

  /** One broker runs to its end before anything else happens. */
  lemma {:induction false} OneSideFirst(plan: Plan, s: State, side: Side) returns (end: State)
    requires Reachable(plan, s) && s.caller == Selecting && s.brokers.At(side.Other()) == Copying
      && plan.At(side).Count() <= 1
    ensures Reachable(plan, end) && end.caller == Selecting && end.signals.At(side)
    decreases Rank(s.brokers.At(side))
  {
    ReachableInv(plan, s);
    assert SideInv(plan, s, side);
    if s.signals.At(side) {
      return s;
    }
    var step := match s.brokers.At(side)
      case Copying => CopyEnds(side)
      case SendingCopyError => SendError(side)
      case Closing => Close(side)
      case SendingCloseError => SendError(side)
      case _ => Signal(side);
    ReachableAfter(plan, s, step);
    end := OneSideFirst(plan, After(plan, s, step), side);
  }

  lemma HangingCaller(plan: Plan, s: State)
    requires Reachable(plan, s) && Ended(s) && !s.caller.Returned?
    ensures s.caller.Waiting? && s.brokers.At(s.caller.side) != Finished
    ensures Total(plan) >= 2 && plan.At(s.caller.side.Other()).Count() <= 1
  {
    ReachableInv(plan, s);
    assert SideInv(plan, s, Client) && SideInv(plan, s, Server);
    EndedBroker(plan, s, Client);
    EndedBroker(plan, s, Server);
    assert !Enabled(s, TakeSignal(Client)) && !Enabled(s, TakeSignal(Server)) && !Enabled(s, TakeError)
      && !Enabled(s, EndWait);
  }

  lemma WaitingForNothing(plan: Plan, side: Side)
    requires Total(plan) >= 2 && plan.At(side).Count() <= 1
    ensures CanHang(plan)
  {
    var start := State(Pair(Copying, Copying), Pair(0, 0), 0, Pair(false, false), Selecting);
    assert Reaches(plan, [], start);
    var mid := OneSideFirst(plan, start, side);
    ReachableAfter(plan, mid, TakeSignal(side));
    var end := RunToTheEnd(plan, After(plan, mid, TakeSignal(side)));
    if end.caller == Returned(false) {
      NilMeansBothDone(plan, end, side);
    }
  }

  /** The caller may hang exactly when at least two errors occur and one side makes at most one of them. */
  lemma HangsExactly(plan: Plan)
    ensures CanHang(plan) <==> Total(plan) >= 2 && (plan.client.Count() <= 1 || plan.server.Count() <= 1)
  {
    if CanHang(plan) {
      var s :| Reachable(plan, s) && Ended(s) && !s.caller.Returned?;
      HangingCaller(plan, s);
    }
    if Total(plan) >= 2 && plan.client.Count() <= 1 {
      WaitingForNothing(plan, Client);
    }
    if Total(plan) >= 2 && plan.server.Count() <= 1 {
      WaitingForNothing(plan, Server);
    }
  }

  lemma LeakNeedsTwo(plan: Plan, s: State, side: Side)
    requires Reachable(plan, s) && Ended(s) && s.brokers.At(side) != Finished
    ensures Total(plan) >= 2
  {
    ReachableInv(plan, s);
    assert SideInv(plan, s, side) && SideInv(plan, s, side.Other());
    EndedBroker(plan, s, side);
    assert !Enabled(s, SendError(side));
  }

  /** A goroutine may be left behind exactly when at least two errors occur. */
  lemma LeaksExactly(plan: Plan)
    ensures CanLeak(plan) <==> Total(plan) >= 2
  {
    if CanLeak(plan) {
      var s, side :| Reachable(plan, s) && Ended(s) && s.brokers.At(side) != Finished;
      LeakNeedsTwo(plan, s, side);
    }
    if Total(plan) >= 2 {
      HangsExactly(plan);
      if CanHang(plan) {
        var s :| Reachable(plan, s) && Ended(s) && !s.caller.Returned?;
        HangingCaller(plan, s);
      } else {
        ManyErrorsLeak(plan);
      }
    }
  }

  lemma ManyErrorsLeak(plan: Plan)
    requires Total(plan) >= 3
    ensures CanLeak(plan)
  {
    var start := State(Pair(Copying, Copying), Pair(0, 0), 0, Pair(false, false), Selecting);
    assert Reaches(plan, [], start);
    var end := RunToTheEnd(plan, start);
    ReachableInv(plan, end);
    assert end.brokers.At(Client) != Finished || end.brokers.At(Server) != Finished;
  }
}
