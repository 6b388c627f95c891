/**
 * Properties that span several parts of the system: the reset endpoint's
 * writes served by the simulator, a custom order served by the simulator,
 * and how the different key and id tables meet.
 */
module Scenarios {
  import opened Wrappers
  import opened RobotState
  import DevSimulator
  import ResetAddresses
  import CustomOrder
  import Cocktails
  import CocktailStatus
  import Status
  import Events
  import InitialState

  type Sim = DevSimulator.Sim

  predicate InAddressSpace(addresses: seq<nat>) {
    forall i :: 0 <= i < |addresses| ==> addresses[i] < DevSimulator.Size
  }

  /** The simulator serving `value` to `addresses`, one write at a time, in order. */
  function Serve(s: Sim, addresses: seq<nat>, value: bool): (r: Sim)
    requires DevSimulator.WellFormed(s) && InAddressSpace(addresses)
    ensures DevSimulator.WellFormed(r)
    decreases |addresses|
  {
    if addresses == [] then s
    else
      var before := Serve(s, addresses[..|addresses| - 1], value);
      DevSimulator.HandleWriteWellFormed(before, addresses[|addresses| - 1], value);
      DevSimulator.HandleWriteSpec(before, addresses[|addresses| - 1], value)
  }

  /** A coil outside the status flags holds the last value served to it. */
  lemma {:induction false} ServedKeep(s: Sim, addresses: seq<nat>, value: bool, a: nat)
    requires DevSimulator.WellFormed(s) && InAddressSpace(addresses)
    requires a in addresses && !(32 <= a <= 41) && !(90 <= a <= 92)
    ensures Serve(s, addresses, value).coils[a] == value
    decreases |addresses|
  {
    var last := addresses[|addresses| - 1];
    var front := addresses[..|addresses| - 1];
    var before := Serve(s, front, value);
    if a == last {
      DevSimulator.StoresValue(before, last, value);
    } else {
      assert addresses == front + [last];
      assert a in front;
      ServedKeep(s, front, value, a);
      DevSimulator.WriteFrame(before, last, value, a);
    }
  }

  /** Serving true to coils other than start only stores the values. */
  lemma {:induction false} ServedTrueStores(s: Sim, addresses: seq<nat>)
    requires DevSimulator.WellFormed(s) && InAddressSpace(addresses) && DevSimulator.Start !in addresses
    ensures var r := Serve(s, addresses, true);
            && r.inputs == s.inputs && r.active == s.active && r.steps == s.steps && r.stepIndex == s.stepIndex
            && forall a :: 0 <= a < DevSimulator.Size ==> r.coils[a] == (a in addresses || s.coils[a])
    decreases |addresses|
  {
    if addresses != [] {
      var front := addresses[..|addresses| - 1];
      assert addresses == front + [addresses[|addresses| - 1]];
      ServedTrueStores(s, front);
    }
  }

  /**
   * Whatever state the simulator is in, the reset endpoint's 21 writes of
   * false, all served, leave it ready: no step, cup-holder or drink-ready flag
   * set and "waiting for a recipe" set, in both memories.
   */
  lemma ResetMakesSimulatorReady(s: Sim)
    requires DevSimulator.WellFormed(s)
    ensures InAddressSpace(ResetAddresses.ResetPlan())
    ensures var r := Serve(s, ResetAddresses.ResetPlan(), false);
            && (forall a :: 32 <= a <= 41 ==> !r.coils[a] && !r.inputs[a])
            && !r.coils[DevSimulator.CupHolder] && !r.coils[DevSimulator.DrinkReady] && r.coils[DevSimulator.WaitingRecipe]
            && !r.inputs[DevSimulator.CupHolder] && !r.inputs[DevSimulator.DrinkReady] && r.inputs[DevSimulator.WaitingRecipe]
  {
    var plan := ResetAddresses.ResetPlan();
    ResetAddresses.ResetPlanAddresses();
    var front := plan[..|plan| - 1];
    assert plan[|plan| - 1] == DevSimulator.Start;
    var before := Serve(s, front, false);
    forall a | 132 <= a <= 141 || 100 <= a <= 107
      ensures !before.coils[a]
    {
      assert a in plan;
      assert a in front by {
        assert plan == front + [DevSimulator.Start];
      }
      ServedKeep(s, front, false, a);
    }
    DevSimulator.FullResetMakesReady(before, DevSimulator.Start);
  }

  /** Every address of a custom order is a command coil. */
  lemma CustomPlanInAddressSpace(ingredients: seq<string>)
    ensures InAddressSpace(CustomOrder.CustomWritePlan(ingredients))
  {
    var mapped := CustomOrder.MappedAddresses(ingredients);
    var plan := CustomOrder.CustomWritePlan(ingredients);
    forall i | 0 <= i < |plan|
      ensures plan[i] < DevSimulator.Size
    {
      if i < |mapped| {
        assert plan[i] == mapped[i];
      }
    }
  }

  /** No write coil set from `w` on: no steps. */
  lemma {:induction false} NoStepsFrom(c: seq<bool>, w: nat)
    requires |c| > 141 && 132 <= w <= 142
    requires forall a :: w <= a <= 141 ==> !c[a]
    ensures DevSimulator.StepsFrom(c, w) == []
    decreases 142 - w
  {
    if w < 142 {
      NoStepsFrom(c, w + 1);
    }
  }

  /**
   * Ice then mint ordered from a fresh simulator: the preparation runs the
   * mint, muddling and ice read coils in address order, not in the order they
   * were chosen.
   */
  lemma IceThenMintPreparation()
    ensures InAddressSpace(CustomOrder.CustomWritePlan(["ice", "mint"]))
    ensures var r := Serve(DevSimulator.Initial(), CustomOrder.CustomWritePlan(["ice", "mint"]), true);
            r.active && r.steps == [32, 33, 34] && r.stepIndex == 0 && !r.coils[DevSimulator.WaitingRecipe]
  {
    CustomOrder.IceThenMintPlan();
    CustomPlanInAddressSpace(["ice", "mint"]);
    var chosen: seq<nat> := [134, 132, 133, 107];
    var plan := chosen + [DevSimulator.Start];
    assert CustomOrder.CustomWritePlan(["ice", "mint"]) == plan;
    assert plan[..|plan| - 1] == chosen;
    var before := Serve(DevSimulator.Initial(), chosen, true);
    IceThenMintChosen();
    IceThenMintSteps(before.coils[DevSimulator.Start := true]);
    DevSimulator.RisingEdgeStarts(before);
  }

  /** After the ingredient, muddling and trigger writes, coils 132..134 are the only write coils set. */
  lemma IceThenMintChosen()
    ensures InAddressSpace([134, 132, 133, 107])
    ensures var before := Serve(DevSimulator.Initial(), [134, 132, 133, 107], true);
            && !before.active && !before.coils[DevSimulator.Start]
            && forall a :: 132 <= a <= 141 ==> (before.coils[a] <==> a <= 134)
  {
    ServedTrueStores(DevSimulator.Initial(), [134, 132, 133, 107]);
  }

  /** With exactly 132..134 commanded, the steps are 32, 33, 34. */
  lemma IceThenMintSteps(c: seq<bool>)
    requires |c| > 141 && forall a :: 132 <= a <= 141 ==> (c[a] <==> a <= 134)
    ensures DevSimulator.SelectSteps(c) == [32, 33, 34]
  {
    NoStepsFrom(c, 135);
    assert DevSimulator.StepsFrom(c, 134) == [34];
    assert DevSimulator.StepsFrom(c, 133) == [33, 34];
  }

  /**
   * The status endpoint calls coil 38 "darkRum", while the cognac cocktail's
   * step looks for "cognac": while the drink is not ready, polling the status
   * endpoint never moves the cognac cocktail's progress off 0.
   */
  lemma CognacProgressStaysZero(stepRead: Option<seq<bool>>, systemRead: Option<seq<bool>>)
    requires systemRead.None? || !Bit(systemRead.value, 1)
    ensures CocktailStatus.CalculateProgress(Status.StateOf(stepRead, systemRead), Some("cognac"), None) == 0
  {
    var s := Status.StateOf(stepRead, systemRead);
    assert !IsTrue(s, "cognac") by {
      Status.StateOfFields(stepRead, systemRead);
      assert "cognac" !in Status.AllKeys();
    }
    assert !IsTrue(s, "drinkReady") by {
      Status.StateOfFields(stepRead, systemRead);
      assert SystemKeys[1] == "drinkReady";
    }
    CognacUndone(s);
  }

  /** Neither "cognac" nor "drinkReady" reported true: the cognac cocktail is at 0. */
  lemma CognacUndone(s: Snapshot)
    requires !IsTrue(s, "cognac") && !IsTrue(s, "drinkReady")
    ensures CocktailStatus.CalculateProgress(s, Some("cognac"), None) == 0
  {
    var c := Cocktails.GetCocktailById("cognac", None);
    assert c == Some(Cocktails.Table[2]);
    var steps := c.value.steps;
    assert steps == [Cocktails.Key("cognac"), Cocktails.DrinkReadyStep];
    assert CocktailStatus.CountCompleted(steps, s) == 0 by {
      assert steps[1..][1..] == [];
    }
  }

  /**
   * The two readers of the trigger coils name coil 102 differently: the event
   * stream announces "old-fashioned", the initial-state endpoint "cognac".
   */
  lemma TriggerNamesDisagree(bits: seq<bool>)
    requires |bits| == 8 && bits[2] && !bits[0] && !bits[1]
    ensures Events.StartedCocktail(bits) == Some("old-fashioned")
    ensures InitialState.DetectActiveCocktail(bits) == Some("cognac")
  {
    InitialState.DetectOverTriggers(bits);
  }
}
