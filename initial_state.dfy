/**
 * Reconciling with the robot when the app loads: a ready robot gets its start
 * coil cleared; a busy one is asked which cocktail trigger is set.
 */
module InitialState {
  import opened Wrappers
  import opened Lists
  import opened Modbus
  import opened RobotState
  import opened Cocktails
  import opened Connection

  const TriggerBase: nat := 100

  /**
   * The cocktail a set trigger bit names: the first set bit i stands for coil
   * 100 + i, 107 is the custom drink, any other coil names the predefined
   * cocktail triggered by it, if there is one.
   */
  function DetectActiveCocktail(bits: seq<bool>): (r: Option<string>)
    ensures r.Some? ==>
      exists i :: 0 <= i < |bits| && bits[i] && (forall j :: 0 <= j < i ==> !bits[j]) &&
        (if TriggerBase + i == CustomAddress then r.value == "custom"
         else exists c :: c in Table && c.modbusAddress == TriggerBase + i && c.id == r.value)
    ensures forall i :: 0 <= i < |bits| && bits[i] && (forall j :: 0 <= j < i ==> !bits[j]) ==>
      r == if i < |DetectedIds| then Some(DetectedIds[i]) else None
    ensures (forall i :: 0 <= i < |bits| ==> !bits[i]) ==> r.None?
  {
    match FirstIndex(bits, (b: bool) => b)
    case None => None
    case Some(i) =>
      var address := TriggerBase + i;
      if address == CustomAddress then Some("custom")
      else
        DetectedIdsAreTableIds();
        match Find(Table, (c: Cocktail) => c.modbusAddress == address)
        case None =>
          assert i < |Table| ==> Table[i].modbusAddress == address;
          None
        case Some(c) => Some(c.id)
  }

  /** The ids the eight trigger coils 100..107 stand for here. */
  const DetectedIds: seq<string> :=
    ["mojito", "cuba-libre", "cognac", "whiskey-rocks", "neat-whiskey", "whiskey-highball", "whiskey-coke", "custom"]

  /** The first seven detected ids are the table's, in trigger order, and the last is the custom drink's. */
  lemma DetectedIdsAreTableIds()
    ensures |Table| == 7 && |DetectedIds| == 8 && DetectedIds[7] == "custom"
    ensures forall k :: 0 <= k < |Table| ==> Table[k].modbusAddress == TriggerBase + k && Table[k].id == DetectedIds[k]
  {
    TableAddresses();
  }

  /** Over a read of the eight trigger coils, the first set bit i gives id i, and no set bit gives none. */
  lemma DetectOverTriggers(bits: seq<bool>)
    requires |bits| == 8
    ensures DetectActiveCocktail(bits).None? <==> forall i :: 0 <= i < 8 ==> !bits[i]
    ensures forall i :: 0 <= i < 8 && bits[i] && (forall j :: 0 <= j < i ==> !bits[j]) ==>
      DetectActiveCocktail(bits) == Some(DetectedIds[i])
  {
    match FirstIndex(bits, (b: bool) => b)
    case None =>
    case Some(i) =>
      if i < 7 {
        var address := TriggerBase + i;
        var f := Find(Table, (c: Cocktail) => c.modbusAddress == address);
        assert Table[i].modbusAddress == address;
        assert f.Some? && f.value == Table[i];
      }
  }

  datatype InitialResponse = InitialResponse(status: nat, robotReady: bool, activeCocktailId: Option<string>)

  const Failed: InitialResponse := InitialResponse(500, false, None)

  /** What the endpoint answers, the requests it makes, and whether it cleared start. */
  datatype Outcome = Outcome(response: InitialResponse, requests: seq<Request>, startCleared: bool)

  /** The endpoint once it has a client, its first request being number `n`. */
  function InitialOutcome(coils: seq<bool>, faults: set<nat>, n: nat): Outcome {
    var ready := ReadAnswer(coils, faults, n, WaitingRecipeAddress, 1);
    if ready.None? then Outcome(Failed, [Read(WaitingRecipeAddress, 1)], false)
    else if Bit(ready.value, 0) then
      var cleared := Accepts(|coils|, faults, n + 1, Write(Start, false));
      Outcome(if cleared then InitialResponse(200, true, None) else Failed,
              [Read(WaitingRecipeAddress, 1), Write(Start, false)], cleared)
    else
      var triggers := ReadAnswer(coils, faults, n + 1, TriggerBase, 8);
      Outcome(if triggers.None? then Failed else InitialResponse(200, false, DetectActiveCocktail(triggers.value)),
              [Read(WaitingRecipeAddress, 1), Read(TriggerBase, 8)], false)
  }

  /** A ready robot gets exactly one write, false to start, and the answer "ready, nothing active". */
  lemma ReadyClearsStart(coils: seq<bool>, faults: set<nat>, n: nat)
    requires n !in faults && n + 1 !in faults && WaitingRecipeAddress < |coils| && Start < |coils|
    requires coils[WaitingRecipeAddress]
    ensures var o := InitialOutcome(coils, faults, n);
            && o.requests == [Read(WaitingRecipeAddress, 1), Write(Start, false)]
            && o.startCleared
            && o.response == InitialResponse(200, true, None)
  {
  }

  /** Whatever the coils, nothing is written unless coil 92 was read true. */
  lemma WritesOnlyWhenReady(coils: seq<bool>, faults: set<nat>, n: nat)
    ensures var o := InitialOutcome(coils, faults, n);
            var ready := ReadAnswer(coils, faults, n, WaitingRecipeAddress, 1);
            (exists i :: 0 <= i < |o.requests| && o.requests[i].Write?) <==> ready.Some? && ready.value[0]
  {
    var o := InitialOutcome(coils, faults, n);
    var ready := ReadAnswer(coils, faults, n, WaitingRecipeAddress, 1);
    if ready.Some? && ready.value[0] {
      assert o.requests[1].Write?;
    }
  }

  /** A busy robot whose reads are served is reported busy, with the cocktail its trigger coils name. */
  lemma BusyDetects(coils: seq<bool>, faults: set<nat>, n: nat)
    requires n !in faults && n + 1 !in faults && |coils| >= TriggerBase + 8
    requires !coils[WaitingRecipeAddress]
    ensures InitialOutcome(coils, faults, n).response ==
      InitialResponse(200, false, DetectActiveCocktail(coils[TriggerBase..TriggerBase + 8]))
  {
    var triggers := ReadAnswer(coils, faults, n + 1, TriggerBase, 8);
    assert triggers.value == coils[TriggerBase..TriggerBase + 8];
  }

  /** A failed request answers 500, not ready, with no cocktail. */
  lemma FailureAnswers500(coils: seq<bool>, faults: set<nat>, n: nat)
    ensures var o := InitialOutcome(coils, faults, n);
            o.response.status != 200 ==> o.response == Failed
    ensures n in faults ==> InitialOutcome(coils, faults, n).response == Failed
    ensures n + 1 in faults ==> InitialOutcome(coils, faults, n).response == Failed
    ensures var o := InitialOutcome(coils, faults, n);
            o.response.status == 200 <==> forall i :: 0 <= i < |o.requests| ==> Accepts(|coils|, faults, n + i, o.requests[i])
  {
    var o := InitialOutcome(coils, faults, n);
    var ready := ReadAnswer(coils, faults, n, WaitingRecipeAddress, 1);
    if ready.None? {
      assert !Accepts(|coils|, faults, n + 0, o.requests[0]);
    } else {
      assert Accepts(|coils|, faults, n + 0, o.requests[0]);
      if o.response.status != 200 {
        assert !Accepts(|coils|, faults, n + 1, o.requests[1]);
      }
    }
  }

  /**
   * `GET /api/initial-state`: obtains a client (connecting if needed), then
   * acts as `InitialOutcome` says; any failure clears the reconnect counter.
   */
  method GetInitialState(bus: Bus, conn: ConnectionManager, connectSucceeds: bool) returns (r: InitialResponse)
    requires conn.Valid() && !conn.isConnecting
    modifies bus`log, bus`coils, conn
    ensures conn.Valid() && !conn.isConnecting
    ensures var acquired := old(conn.IsConnected()) || (old(conn.reconnectAttempts) < MaxReconnectAttempts && connectSucceeds);
            && (!acquired ==> r == Failed && unchanged(bus) && conn.reconnectAttempts == 0)
            && (acquired ==>
                  var o := InitialOutcome(old(bus.coils), bus.faults, |old(bus.log)|);
                  && r == o.response
                  && bus.log == old(bus.log) + o.requests
                  && bus.coils == (if o.startCleared then old(bus.coils)[Start := false] else old(bus.coils))
                  && (r.status != 200 ==> conn.reconnectAttempts == 0))
    ensures conn.reconnectAttempts == 0
    ensures conn.IsConnected() <==> old(conn.IsConnected()) || (old(conn.reconnectAttempts) < MaxReconnectAttempts && connectSucceeds)
  {
    var acquired := conn.Acquire(connectSucceeds);
    if !acquired {
      conn.ResetReconnectAttempts();
      return Failed;
    }
    var n := |bus.log|;
    var ready := bus.ReadCoils(WaitingRecipeAddress, 1);
    if ready.None? {
      conn.ResetReconnectAttempts();
      return Failed;
    }
    if Bit(ready.value, 0) {
      var cleared := bus.WriteCoil(Start, false);
      if !cleared {
        conn.ResetReconnectAttempts();
        return Failed;
      }
      return InitialResponse(200, true, None);
    }
    var triggers := bus.ReadCoils(TriggerBase, 8);
    if triggers.None? {
      conn.ResetReconnectAttempts();
      return Failed;
    }
    r := InitialResponse(200, false, DetectActiveCocktail(triggers.value));
  }
}
