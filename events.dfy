/**
 * The event stream: each session polls the robot, compares the new snapshot
 * with the one it saw last, and emits a notification for every transition it
 * detects, followed by the snapshot itself.
 */
module Events {
  import opened Wrappers
  import opened Lists
  import opened Modbus
  import opened RobotState

  /** The step flags, read from coils 32..41; the stream calls coil 38 "cognac". */
  const EventStepKeys: seq<string> := ["mint", "muddling", "ice", "syrup", "lime", "whiteRum", "cognac", "whiskey", "soda", "coke"]

  const StepBase: nat := 32
  const SystemBase: nat := 90
  const TriggerBase: nat := 100

  /** The stream's own trigger map, coil 100 + i to id i; most ids are not in the cocktail table. */
  const EventCocktailIds: seq<string> :=
    ["mojito", "cuba-libre", "old-fashioned", "whiskey-sour", "whiskey-cola", "sidecar", "cognac-cola", "custom"]

  datatype Event =
    | Connected
    | StateUpdate(robotState: Snapshot)
    | PreparationStarted(cocktailId: Option<string>)
    | DrinkReady
    | RobotReady
    | Error

  /** The snapshot built from the data of the two reads. */
  function CurrentState(steps: seq<bool>, system: seq<bool>): Snapshot {
    Decode(EventStepKeys, steps) + Decode(SystemKeys, system)
  }

  /** Every key of a stream snapshot. */
  function EventKeys(): set<string> {
    set k | k in EventStepKeys + SystemKeys
  }

  /** The snapshot holds the thirteen keys; a key is true only if its element is exactly true. */
  lemma CurrentStateFields(steps: seq<bool>, system: seq<bool>)
    ensures var s := CurrentState(steps, system);
            && s.Keys == EventKeys()
            && (forall i :: 0 <= i < |EventStepKeys| ==> s[EventStepKeys[i]] == Bit(steps, i))
            && (forall i :: 0 <= i < |SystemKeys| ==> s[SystemKeys[i]] == Bit(system, i))
  {
    StepKeysNotSystemKeys();
    var st := Decode(EventStepKeys, steps);
    var sys := Decode(SystemKeys, system);
    assert forall i :: 0 <= i < |EventStepKeys| ==> EventStepKeys[i] !in sys.Keys;
  }

  /** The step keys are distinct, and none is a system key: they are at most 8 characters long, system keys at least 9. */
  lemma StepKeysNotSystemKeys()
    ensures Distinct(EventStepKeys) && Distinct(SystemKeys)
    ensures forall i :: 0 <= i < |EventStepKeys| ==> EventStepKeys[i] !in SystemKeys
  {
    assert forall i :: 0 <= i < |EventStepKeys| ==> |EventStepKeys[i]| <= 8;
    assert forall j :: 0 <= j < |SystemKeys| ==> |SystemKeys[j]| >= 9;
  }

  /** The cocktail id reported for the data of the trigger read: the first set bit, through the stream's map. */
  function StartedCocktail(bits: seq<bool>): (r: Option<string>)
    ensures r.Some? ==> exists i :: 0 <= i < |bits| && i < |EventCocktailIds| && bits[i] &&
                          r.value == EventCocktailIds[i] && forall j :: 0 <= j < i ==> !bits[j]
    ensures r.None? ==> forall i :: 0 <= i < |bits| && i < |EventCocktailIds| ==> !bits[i]
  {
    match FirstIndex(bits, (b: bool) => b)
    case None => None
    case Some(i) => if i < |EventCocktailIds| then Some(EventCocktailIds[i]) else None
  }

  /** `waitingRecipe` went from true to false: an order was taken. */
  predicate PreparationStarts(last: Snapshot, cur: Snapshot) {
    IsTrue(last, "waitingRecipe") && IsFalse(cur, "waitingRecipe")
  }

  /** `drinkReady` went from false to true. */
  predicate DrinkBecomesReady(last: Snapshot, cur: Snapshot) {
    IsFalse(last, "drinkReady") && IsTrue(cur, "drinkReady")
  }

  /** `waitingRecipe` went from false to true: the robot is ready for the next order. */
  predicate RobotBecomesReady(last: Snapshot, cur: Snapshot) {
    IsFalse(last, "waitingRecipe") && IsTrue(cur, "waitingRecipe")
  }

  /** The transition events for one poll, in the order they are sent. */
  function Notifications(last: Snapshot, cur: Snapshot, started: Option<string>): seq<Event> {
    (if PreparationStarts(last, cur) then [PreparationStarted(started)] else [])
    + (if DrinkBecomesReady(last, cur) then [DrinkReady] else [])
    + (if RobotBecomesReady(last, cur) then [RobotReady] else [])
  }

  /** What one poll sends, the last state it leaves, and the requests it makes. */
  datatype Outcome = Outcome(events: seq<Event>, lastState: Option<Snapshot>, requests: seq<Request>)

  /** The snapshot the two reads starting at request `n` give, or None if either fails. */
  function Observe(coils: seq<bool>, faults: set<nat>, n: nat): Option<Snapshot> {
    var stepRead := ReadAnswer(coils, faults, n, StepBase, 10);
    var systemRead := ReadAnswer(coils, faults, n + 1, SystemBase, 3);
    if stepRead.Some? && systemRead.Some? then Some(CurrentState(stepRead.value, systemRead.value)) else None
  }

  /** The requests the snapshot reads make: the system read is skipped once the step read has failed. */
  function ObserveRequests(coils: seq<bool>, faults: set<nat>, n: nat): seq<Request> {
    if ReadAnswer(coils, faults, n, StepBase, 10).None? then [Read(StepBase, 10)]
    else [Read(StepBase, 10), Read(SystemBase, 3)]
  }

  /**
   * One poll of a connected session whose first request is number `n`. Any
   * failed read ends the poll with an error and leaves the last state alone.
   */
  function PollOutcome(last: Option<Snapshot>, coils: seq<bool>, faults: set<nat>, n: nat): Outcome {
    match Observe(coils, faults, n)
    case None => Outcome([Error], last, ObserveRequests(coils, faults, n))
    case Some(cur) =>
      if last.Some? && PreparationStarts(last.value, cur) then
        var triggers := ReadAnswer(coils, faults, n + 2, TriggerBase, 8);
        var requests := [Read(StepBase, 10), Read(SystemBase, 3), Read(TriggerBase, 8)];
        if triggers.None? then Outcome([Error], last, requests)
        else Outcome(Notifications(last.value, cur, StartedCocktail(triggers.value)) + [StateUpdate(cur)], Some(cur), requests)
      else
        var notes := if last.Some? then Notifications(last.value, cur, None) else [];
        Outcome(notes + [StateUpdate(cur)], Some(cur), [Read(StepBase, 10), Read(SystemBase, 3)])
  }

  /**
   * Both reads are served iff a snapshot is observed, and it reports coil
   * 32 + i for step key i and coil 90 + i for system key i.
   */
  lemma ObserveReportsCoils(coils: seq<bool>, faults: set<nat>, n: nat)
    ensures Observe(coils, faults, n).Some? <==>
      Accepts(|coils|, faults, n, Read(StepBase, 10)) && Accepts(|coils|, faults, n + 1, Read(SystemBase, 3))
    ensures Observe(coils, faults, n).Some? ==>
      var s := Observe(coils, faults, n).value;
      && (forall i :: 0 <= i < |EventStepKeys| ==> s[EventStepKeys[i]] == coils[StepBase + i])
      && (forall i :: 0 <= i < |SystemKeys| ==> s[SystemKeys[i]] == coils[SystemBase + i])
  {
    var stepRead := ReadAnswer(coils, faults, n, StepBase, 10);
    var systemRead := ReadAnswer(coils, faults, n + 1, SystemBase, 3);
    if stepRead.Some? && systemRead.Some? {
      CurrentStateFields(stepRead.value, systemRead.value);
    }
  }

  /**
   * A poll that observes a snapshot ends by sending it and recording it as the
   * last state, unless the trigger read it needed failed.
   */
  lemma SuccessEndsWithStateUpdate(last: Option<Snapshot>, coils: seq<bool>, faults: set<nat>, n: nat)
    requires Observe(coils, faults, n).Some?
    ensures var o := PollOutcome(last, coils, faults, n);
            var cur := Observe(coils, faults, n).value;
            var triggerFails := last.Some? && PreparationStarts(last.value, cur) && !Accepts(|coils|, faults, n + 2, Read(TriggerBase, 8));
            && (triggerFails ==> o.events == [Error] && o.lastState == last)
            && (!triggerFails ==> |o.events| >= 1 && o.events[|o.events| - 1] == StateUpdate(cur) && o.lastState == Some(cur))
  {
  }

  /** The first successful poll of a session sends the snapshot and nothing else. */
  lemma FirstPollSendsOnlyState(coils: seq<bool>, faults: set<nat>, n: nat)
    requires Observe(coils, faults, n).Some?
    ensures PollOutcome(None, coils, faults, n).events == [StateUpdate(Observe(coils, faults, n).value)]
  {
  }

  /** A failed read sends one error and keeps the last state. */
  lemma FailedReadSendsError(last: Option<Snapshot>, coils: seq<bool>, faults: set<nat>, n: nat)
    requires Observe(coils, faults, n).None?
    ensures PollOutcome(last, coils, faults, n).events == [Error]
    ensures PollOutcome(last, coils, faults, n).lastState == last
  {
  }

  /** "Preparation started" is sent iff `waitingRecipe` fell, "robot ready" iff it rose; never both. */
  lemma NotificationsMatchTransitions(last: Snapshot, cur: Snapshot, started: Option<string>)
    ensures var e := Notifications(last, cur, started);
            && (PreparationStarted(started) in e <==> PreparationStarts(last, cur))
            && (DrinkReady in e <==> DrinkBecomesReady(last, cur))
            && (RobotReady in e <==> RobotBecomesReady(last, cur))
            && !(PreparationStarts(last, cur) && RobotBecomesReady(last, cur))
            && |e| <= 2
  {
  }

  /** An unchanged snapshot raises no notification. */
  lemma NoChangeNoNotification(s: Snapshot, started: Option<string>)
    ensures Notifications(s, s, started) == []
  {
  }

  /** One client's session: its last snapshot, whether it is still open, and what it has been sent. */
  class EventSession {
    var lastState: Option<Snapshot>
    var isActive: bool
    var sent: seq<Event>

    /** A new session greets the client and has seen no snapshot. */
    constructor ()
      ensures lastState == None && isActive && sent == [Connected]
    {
      lastState := None;
      isActive := true;
      sent := [Connected];
    }

    /** The two snapshot reads, the second skipped once the first has failed. */
    static method ReadSnapshot(bus: Bus) returns (cur: Option<Snapshot>)
      modifies bus`log
      ensures cur == Observe(bus.coils, bus.faults, |old(bus.log)|)
      ensures bus.log == old(bus.log) + ObserveRequests(bus.coils, bus.faults, |old(bus.log)|)
    {
      var stepRead := bus.ReadCoils(StepBase, 10);
      if stepRead.None? {
        return None;
      }
      var systemRead := bus.ReadCoils(SystemBase, 3);
      if systemRead.None? {
        return None;
      }
      cur := Some(CurrentState(stepRead.value, systemRead.value));
    }

    /**
     * `pollRobotState`: nothing once the session is closed; an error when the
     * link is down; otherwise the poll `PollOutcome` describes.
     */
    method Poll(bus: Bus, connected: bool)
      modifies this`lastState, this`sent, bus`log
      ensures !isActive ==> lastState == old(lastState) && sent == old(sent) && bus.log == old(bus.log)
      ensures isActive && !connected ==>
        lastState == old(lastState) && sent == old(sent) + [Error] && bus.log == old(bus.log)
      ensures isActive && connected ==>
        var o := PollOutcome(old(lastState), bus.coils, bus.faults, |old(bus.log)|);
        && lastState == o.lastState && sent == old(sent) + o.events && bus.log == old(bus.log) + o.requests
    {
      if !isActive {
        return;
      }
      if !connected {
        sent := sent + [Error];
        return;
      }
      var n := |bus.log|;
      var log0 := bus.log;
      var observed := ReadSnapshot(bus);
      if observed.None? {
        sent := sent + [Error];
        return;
      }
      var cur := observed.value;
      if lastState.Some? && PreparationStarts(lastState.value, cur) {
        assert |bus.log| == n + 2;
        var triggers := bus.ReadCoils(TriggerBase, 8);
        assert bus.log == log0 + [Read(StepBase, 10), Read(SystemBase, 3), Read(TriggerBase, 8)];
        if triggers.None? {
          sent := sent + [Error];
          return;
        }
        sent := sent + (Notifications(lastState.value, cur, StartedCocktail(triggers.value)) + [StateUpdate(cur)]);
      } else {
        var notes := if lastState.Some? then Notifications(lastState.value, cur, None) else [];
        sent := sent + (notes + [StateUpdate(cur)]);
      }
      lastState := Some(cur);
    }

    /** The client went away: the session stops polling for good. */
    method Abort()
      modifies this`isActive
      ensures !isActive
    {
      isActive := false;
    }
  }
}
