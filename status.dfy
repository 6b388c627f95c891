/**
 * The status endpoint: one snapshot of the robot from two batched reads, each
 * half of which falls back to all-false when its read fails, and the degraded
 * answer given when the link is down.
 */
module Status {
  import opened Wrappers
  import opened Modbus
  import opened RobotState

  /** The step flags, read from coils 32..41; this reader calls coil 38 "darkRum". */
  const StepKeys: seq<string> := ["mint", "muddling", "ice", "syrup", "lime", "whiteRum", "darkRum", "whiskey", "soda", "coke"]

  const StepBase: nat := 32
  const SystemBase: nat := 90

  /** Every key of a status snapshot. */
  function AllKeys(): set<string> {
    set k | k in StepKeys + SystemKeys
  }

  /** One half of the snapshot: the flags of a successful read, or all false. */
  function Half(keys: seq<string>, read: Option<seq<bool>>): (s: Snapshot)
    requires Distinct(keys)
    ensures s.Keys == set k | k in keys
    ensures forall i :: 0 <= i < |keys| ==> s[keys[i]] == (read.Some? && Bit(read.value, i))
  {
    if read.Some? then Decode(keys, read.value) else AllFalse(keys)
  }

  /**
   * `readRobotState` given the outcome of its two reads: each half is set from
   * its own read alone.
   */
  function StateOf(stepRead: Option<seq<bool>>, systemRead: Option<seq<bool>>): Snapshot {
    Half(StepKeys, stepRead) + Half(SystemKeys, systemRead)
  }

  /**
   * The snapshot holds the thirteen keys, and each half is set from its own
   * read alone: a key is true only if its element of a successful read is.
   */
  lemma StateOfFields(stepRead: Option<seq<bool>>, systemRead: Option<seq<bool>>)
    ensures var s := StateOf(stepRead, systemRead);
            && s.Keys == AllKeys()
            && (forall i :: 0 <= i < |StepKeys| ==> s[StepKeys[i]] == (stepRead.Some? && Bit(stepRead.value, i)))
            && (forall i :: 0 <= i < |SystemKeys| ==> s[SystemKeys[i]] == (systemRead.Some? && Bit(systemRead.value, i)))
  {
    StateOfKeys(stepRead, systemRead);
    StateOfSteps(stepRead, systemRead);
  }

  lemma KeysDistinct()
    ensures Distinct(StepKeys) && Distinct(SystemKeys)
  {
  }

  lemma StateOfKeys(stepRead: Option<seq<bool>>, systemRead: Option<seq<bool>>)
    ensures StateOf(stepRead, systemRead).Keys == AllKeys()
  {
    KeysDistinct();
    var step := Half(StepKeys, stepRead);
    var system := Half(SystemKeys, systemRead);
    assert (step + system).Keys == step.Keys + system.Keys;
    assert AllKeys() == (set k | k in StepKeys) + (set k | k in SystemKeys);
  }

  /** No step key is a system key, so the system half never hides a step flag. */
  lemma StateOfSteps(stepRead: Option<seq<bool>>, systemRead: Option<seq<bool>>)
    ensures var s := StateOf(stepRead, systemRead);
            forall i :: 0 <= i < |StepKeys| ==> s[StepKeys[i]] == (stepRead.Some? && Bit(stepRead.value, i))
  {
    KeysDistinct();
    var step := Half(StepKeys, stepRead);
    var system := Half(SystemKeys, systemRead);
    forall i | 0 <= i < |StepKeys|
      ensures (step + system)[StepKeys[i]] == step[StepKeys[i]]
    {
      // Step keys are at most 8 characters long, system keys at least 9.
      assert |StepKeys[i]| <= 8;
      assert forall j :: 0 <= j < |SystemKeys| ==> |SystemKeys[j]| >= 9;
      assert StepKeys[i] !in system;
    }
  }

  /** `getDefaultState`: all thirteen keys, every one false. */
  function DefaultState(): (s: Snapshot)
    ensures s.Keys == AllKeys()
    ensures forall k :: k in s ==> !s[k]
  {
    AllFalse(StepKeys + SystemKeys)
  }

  /** The default snapshot is the one built when both reads fail. */
  lemma DefaultIsBothReadsFailed()
    ensures DefaultState() == StateOf(None, None)
  {
    var d := DefaultState();
    var s := StateOf(None, None);
    StateOfFields(None, None);
    forall k | k in s
      ensures d[k] == s[k]
    {
      var keys := StepKeys + SystemKeys;
      var i :| 0 <= i < |keys| && keys[i] == k;
      if i >= |StepKeys| {
        assert SystemKeys[i - |StepKeys|] == k;
      }
    }
  }

  /**
   * When both reads are served, the snapshot reports coil 32 + i for step key i
   * and coil 90 + i for system key i.
   */
  lemma StateReportsCoils(coils: seq<bool>, faults: set<nat>, n: nat)
    requires n !in faults && n + 1 !in faults && |coils| >= 93
    ensures var s := StateOf(ReadAnswer(coils, faults, n, StepBase, 10), ReadAnswer(coils, faults, n + 1, SystemBase, 3));
            && (forall i :: 0 <= i < |StepKeys| ==> s[StepKeys[i]] == coils[StepBase + i])
            && (forall i :: 0 <= i < |SystemKeys| ==> s[SystemKeys[i]] == coils[SystemBase + i])
  {
    StateOfFields(ReadAnswer(coils, faults, n, StepBase, 10), ReadAnswer(coils, faults, n + 1, SystemBase, 3));
  }

  /**
   * A failed step read turns every step key false and leaves the system keys as
   * read; a failed system read does the converse.
   */
  lemma HalvesFailIndependently(stepRead: Option<seq<bool>>, systemRead: Option<seq<bool>>)
    ensures forall i :: 0 <= i < |SystemKeys| ==>
      StateOf(None, systemRead)[SystemKeys[i]] == StateOf(stepRead, systemRead)[SystemKeys[i]]
    ensures forall i :: 0 <= i < |StepKeys| ==>
      StateOf(stepRead, None)[StepKeys[i]] == StateOf(stepRead, systemRead)[StepKeys[i]]
    ensures forall i :: 0 <= i < |StepKeys| ==> !StateOf(None, systemRead)[StepKeys[i]]
    ensures forall i :: 0 <= i < |SystemKeys| ==> !StateOf(stepRead, None)[SystemKeys[i]]
  {
    StateOfFields(stepRead, systemRead);
    StateOfFields(None, systemRead);
    StateOfFields(stepRead, None);
  }

  /** `readRobotState`: the step read, then the system read, whatever the first gave. */
  method ReadRobotState(bus: Bus) returns (state: Snapshot)
    modifies bus`log
    ensures bus.log == old(bus.log) + [Read(StepBase, 10), Read(SystemBase, 3)]
    ensures state == StateOf(ReadAnswer(bus.coils, bus.faults, |old(bus.log)|, StepBase, 10),
                             ReadAnswer(bus.coils, bus.faults, |old(bus.log)| + 1, SystemBase, 3))
  {
    var stepStates := bus.ReadCoils(StepBase, 10);
    var systemStates := bus.ReadCoils(SystemBase, 3);
    state := StateOf(stepStates, systemStates);
  }

  /** The fields of the status answer this model keeps. */
  datatype StatusResponse = StatusResponse(isConnected: bool, robotState: Snapshot)

  /**
   * `GET`: without a link, the default snapshot and no request; with one, a
   * fresh snapshot. A read failure is absorbed by `readRobotState`, so every
   * answer has status 200.
   */
  method GetStatus(bus: Bus, connected: bool) returns (r: StatusResponse)
    modifies bus`log
    ensures !connected ==> r == StatusResponse(false, DefaultState()) && bus.log == old(bus.log)
    ensures connected ==>
      && bus.log == old(bus.log) + [Read(StepBase, 10), Read(SystemBase, 3)]
      && r == StatusResponse(true, StateOf(ReadAnswer(bus.coils, bus.faults, |old(bus.log)|, StepBase, 10),
                                           ReadAnswer(bus.coils, bus.faults, |old(bus.log)| + 1, SystemBase, 3)))
  {
    if !connected {
      return StatusResponse(false, DefaultState());
    }
    var robotState := ReadRobotState(bus);
    r := StatusResponse(true, robotState);
  }
}
