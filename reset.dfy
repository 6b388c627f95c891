/**
 * Resetting the command coils once a drink is ready: false is written to
 * every cocktail trigger, every ingredient coil and start, one write at a
 * time, and a failed write does not stop the ones after it.
 */
module ResetAddresses {
  import opened Modbus
  import Connection

  const CocktailAddresses: seq<nat> := [100, 101, 102, 103, 104, 105, 106, 107]
  const IngredientAddresses: seq<nat> := [132, 133, 134, 135, 136, 137, 138, 139, 140, 141, 142, 143]
  const Start: nat := 96

  /** Every write of a reset, in order. */
  function ResetPlan(): seq<nat> {
    CocktailAddresses + IngredientAddresses + [Start]
  }

  /** The 21 addresses a reset writes: the triggers 100..107, the ingredient coils 132..143 and 96. */
  lemma ResetPlanAddresses()
    ensures |ResetPlan()| == 21
    ensures forall a :: a in ResetPlan() <==> 100 <= a <= 107 || 132 <= a <= 143 || a == Start
  {
  }

  /** Issues `value` to every address in order, whether or not earlier writes failed. */
  method WriteEach(bus: Bus, addresses: seq<nat>, value: bool)
    modifies bus`log, bus`coils
    ensures bus.log == old(bus.log) + Writes(addresses, value)
    ensures bus.coils == Apply(old(bus.coils), addresses, value, |old(bus.log)|, bus.faults)
  {
    var n := |bus.log|;
    var log0 := bus.log;
    var coils0 := bus.coils;
    var i := 0;
    while i < |addresses|
      invariant 0 <= i <= |addresses|
      invariant |bus.coils| == |coils0|
      invariant bus.log == log0 + Writes(addresses[..i], value)
      invariant bus.coils == Apply(coils0, addresses[..i], value, n, bus.faults)
    {
      assert |bus.log| == n + i;
      ApplyStep(coils0, addresses, i, value, n, bus.faults);
      var _ := bus.WriteCoil(addresses[i], value);
      i := i + 1;
    }
    assert addresses[..i] == addresses;
  }

  /**
   * `POST /api/reset-addresses`: obtains a client (connecting if needed, the
   * connect settling as `connectSucceeds` says); with one, all 21 writes of
   * false are attempted and success is reported whatever they gave; without
   * one, nothing is written and the answer is a 500.
   */
  method PostResetAddresses(bus: Bus, conn: Connection.ConnectionManager, connectSucceeds: bool) returns (success: bool)
    requires conn.Valid() && !conn.isConnecting
    modifies bus`log, bus`coils, conn
    ensures conn.Valid() && !conn.isConnecting
    ensures var acquired := old(conn.IsConnected()) || (old(conn.reconnectAttempts) < Connection.MaxReconnectAttempts && connectSucceeds);
            && success == acquired
            && (acquired ==> conn.IsConnected() && conn.reconnectAttempts == 0)
            && (!acquired ==>
                  && unchanged(bus)
                  && conn.client == old(conn.client) && !conn.IsConnected()
                  && conn.reconnectAttempts == if old(conn.reconnectAttempts) < Connection.MaxReconnectAttempts
                                               then old(conn.reconnectAttempts) + 1 else old(conn.reconnectAttempts))
    ensures old(conn.IsConnected()) || (old(conn.reconnectAttempts) < Connection.MaxReconnectAttempts && connectSucceeds) ==>
      && bus.log == old(bus.log) + Writes(ResetPlan(), false)
      && bus.coils == Apply(old(bus.coils), ResetPlan(), false, |old(bus.log)|, bus.faults)
  {
    var acquired := conn.Acquire(connectSucceeds);
    if !acquired {
      return false;
    }
    var n := |bus.log|;
    var coils0 := bus.coils;
    WriteEach(bus, CocktailAddresses, false);
    WriteEach(bus, IngredientAddresses, false);
    var _ := bus.WriteCoil(Start, false);
    assert bus.coils == Apply(coils0, ResetPlan(), false, n, bus.faults) by {
      ApplyAppend(coils0, CocktailAddresses, IngredientAddresses, false, n, bus.faults);
      ApplyAppend(coils0, CocktailAddresses + IngredientAddresses, [Start], false, n, bus.faults);
      assert Apply(coils0, ResetPlan(), false, n, bus.faults) ==
        Apply(Apply(coils0, CocktailAddresses + IngredientAddresses, false, n, bus.faults), [Start], false, n + 20, bus.faults);
    }
    WritesAppend(CocktailAddresses, IngredientAddresses, false);
    WritesAppend(CocktailAddresses + IngredientAddresses, [Start], false);
    success := true;
  }

  /**
   * A reset whose writes all go through leaves every reset coil false and
   * every other coil as it was.
   */
  lemma ResetClears(coils: seq<bool>, n: nat, faults: set<nat>, c: nat)
    requires FaultFree(faults, n, |ResetPlan()|) && c < |coils|
    ensures Apply(coils, ResetPlan(), false, n, faults)[c] == if c in ResetPlan() then false else coils[c]
  {
    ApplyAt(coils, ResetPlan(), false, n, faults, c);
  }

  /** Two resets whose writes all go through leave the coils as one does. */
  lemma ResetIdempotent(coils: seq<bool>, n: nat, m: nat, faults: set<nat>)
    requires FaultFree(faults, n, |ResetPlan()|) && FaultFree(faults, m, |ResetPlan()|)
    ensures var once := Apply(coils, ResetPlan(), false, n, faults);
            Apply(once, ResetPlan(), false, m, faults) == once
  {
    ApplyIdempotent(coils, ResetPlan(), false, n, m, faults);
  }

  /** Resetting coils that are already reset changes nothing, whichever writes fail. */
  lemma ResetOfResetCoils(coils: seq<bool>, n: nat, faults: set<nat>)
    requires forall a :: a in ResetPlan() && a < |coils| ==> !coils[a]
    ensures Apply(coils, ResetPlan(), false, n, faults) == coils
  {
    ApplyNoChange(coils, ResetPlan(), false, n, faults);
  }
}
