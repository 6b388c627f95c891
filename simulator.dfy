/**
 * The development simulator: a coil memory that plays the robot. A rising
 * edge on start begins a preparation that reports the commanded ingredients
 * one tick at a time and then "drink ready"; writing false to every command
 * coil puts the robot back in "waiting for a recipe".
 */
module DevSimulator {

  /** The coil address space of Write Single Coil. */
  const Size: nat := 65536
  /** The simulated discrete inputs. */
  const InputSize: nat := 200

  const CupHolder: nat := 90
  const DrinkReady: nat := 91
  const WaitingRecipe: nat := 92
  const Start: nat := 96

  /** The simulator's whole state. */
  datatype Sim = Sim(coils: seq<bool>, inputs: seq<bool>, active: bool, steps: seq<nat>, stepIndex: nat)

  /** A step is the read coil of an ingredient, 32..41. */
  predicate StepsInRange(steps: seq<nat>) {
    forall i :: 0 <= i < |steps| ==> 32 <= steps[i] <= 41
  }

  predicate WellFormed(s: Sim) {
    |s.coils| == Size && |s.inputs| == InputSize && StepsInRange(s.steps)
  }

  /** Every flag false but "waiting for a recipe", and no preparation. */
  function Initial(): (s: Sim)
    ensures WellFormed(s)
  {
    Sim(seq(Size, i => i == WaitingRecipe), seq(InputSize, i => i == WaitingRecipe), false, [], 0)
  }

  /**
   * The read coils of the commanded ingredients: for each write coil w in
   * 132..141 from `w` on, in ascending order, w - 100 if w is set.
   */
  function StepsFrom(c: seq<bool>, w: nat): (r: seq<nat>)
    requires |c| > 141 && 132 <= w <= 142
    ensures forall i :: 0 <= i < |r| ==> w - 100 <= r[i] <= 41
    decreases 142 - w
  {
    if w == 142 then [] else (if c[w] then [w - 100] else []) + StepsFrom(c, w + 1)
  }

  /** The steps are exactly the read coils whose write coil is set. */
  lemma {:induction false} StepsFromSelects(c: seq<bool>, w: nat)
    requires |c| > 141 && 132 <= w <= 142
    ensures forall a :: a in StepsFrom(c, w) <==> w - 100 <= a <= 41 && c[a + 100]
    decreases 142 - w
  {
    if w < 142 {
      StepsFromSelects(c, w + 1);
      var rest := StepsFrom(c, w + 1);
      if c[w] {
        assert StepsFrom(c, w) == [w - 100] + rest;
      } else {
        assert StepsFrom(c, w) == rest;
      }
    }
  }

  predicate Ascending(r: seq<nat>) {
    forall i, j :: 0 <= i < j < |r| ==> r[i] < r[j]
  }

  /** Each step comes once, in ascending order. */
  lemma {:induction false} StepsFromAscending(c: seq<bool>, w: nat)
    requires |c| > 141 && 132 <= w <= 142
    ensures Ascending(StepsFrom(c, w))
    decreases 142 - w
  {
    if w < 142 {
      StepsFromAscending(c, w + 1);
      var rest := StepsFrom(c, w + 1);
      if c[w] {
        AscendingCons(w - 100, rest);
        assert StepsFrom(c, w) == [w - 100] + rest;
      } else {
        assert StepsFrom(c, w) == rest;
      }
    }
  }

  lemma AscendingCons(x: nat, rest: seq<nat>)
    requires Ascending(rest) && forall k :: 0 <= k < |rest| ==> x < rest[k]
    ensures Ascending([x] + rest)
  {
    var r := [x] + rest;
    forall i, j | 0 <= i < j < |r|
      ensures r[i] < r[j]
    {
      assert r[j] == rest[j - 1];
      if i > 0 {
        assert r[i] == rest[i - 1];
      }
    }
  }

  function SelectSteps(c: seq<bool>): seq<nat>
    requires |c| > 141
  {
    StepsFrom(c, 132)
  }

  /** No ingredient, cocktail or start coil is set: the condition for a full reset. */
  predicate FullReset(c: seq<bool>)
    requires |c| > 141
  {
    && (forall a :: 132 <= a <= 141 ==> !c[a])
    && (forall a :: 100 <= a <= 107 ==> !c[a])
    && !c[Start]
  }

  /** The status flags after a full reset: steps, cup holder and drink ready false, waiting true. */
  function Cleared(m: seq<bool>): (r: seq<bool>)
    requires |m| > WaitingRecipe
    ensures |r| == |m|
  {
    seq(|m|, i requires 0 <= i < |m| =>
      if 32 <= i <= 41 || i == CupHolder || i == DrinkReady then false
      else if i == WaitingRecipe then true
      else m[i])
  }

  /** `simulateCocktailPreparation`: marks the robot busy and starts stepping through the commanded ingredients. */
  function StartPreparation(s: Sim): Sim
    requires WellFormed(s)
  {
    if s.active then s
    else
      var c := s.coils[WaitingRecipe := false];
      var steps := SelectSteps(c);
      if steps == [] then s.(coils := c, inputs := s.inputs[WaitingRecipe := false])
      else Sim(c, s.inputs[WaitingRecipe := false], true, steps, 0)
  }

  /** A write that completes a reset of the command coils. */
  predicate ResetWrite(address: nat, value: bool) {
    !value && (96 <= address <= 107 || 132 <= address <= 143)
  }

  /** `handleWrite`: store the value, start on a rising edge of start, clear the status on a full reset. */
  function HandleWriteSpec(s: Sim, address: nat, value: bool): Sim
    requires WellFormed(s) && address < Size
  {
    var stored := s.(coils := s.coils[address := value]);
    var started := if address == Start && value && !s.coils[Start] then StartPreparation(stored) else stored;
    if ResetWrite(address, value) && FullReset(started.coils) then
      started.(coils := Cleared(started.coils), inputs := Cleared(started.inputs))
    else started
  }

  /** One tick of a preparation: the next step's read coil, or "drink ready" and the end. */
  function TickSpec(s: Sim): Sim
    requires WellFormed(s)
  {
    if !s.active then s
    else if s.stepIndex < |s.steps| then
      var a := s.steps[s.stepIndex];
      s.(coils := s.coils[a := true], inputs := s.inputs[a := true], stepIndex := s.stepIndex + 1)
    else s.(coils := s.coils[DrinkReady := true], inputs := s.inputs[DrinkReady := true], active := false)
  }

  lemma HandleWriteWellFormed(s: Sim, address: nat, value: bool)
    requires WellFormed(s) && address < Size
    ensures WellFormed(HandleWriteSpec(s, address, value))
  {
  }

  lemma TickWellFormed(s: Sim)
    requires WellFormed(s)
    ensures WellFormed(TickSpec(s))
  {
  }

  /** The written value is always stored at its address. */
  lemma StoresValue(s: Sim, address: nat, value: bool)
    requires WellFormed(s) && address < Size
    ensures HandleWriteSpec(s, address, value).coils[address] == value
  {
  }

  /** A write changes no coil other than its own, start's busy flag and the status flags. */
  lemma WriteFrame(s: Sim, address: nat, value: bool, c: nat)
    requires WellFormed(s) && address < Size && c < Size && c != address
    requires !(32 <= c <= 41) && c != CupHolder && c != DrinkReady && c != WaitingRecipe
    ensures HandleWriteSpec(s, address, value).coils[c] == s.coils[c]
  {
  }

  /** A preparation begins only on a rising edge of start while none is running. */
  lemma StartsOnlyOnRisingEdge(s: Sim, address: nat, value: bool)
    requires WellFormed(s) && address < Size
    requires !s.active && HandleWriteSpec(s, address, value).active
    ensures address == Start && value && !s.coils[Start]
  {
  }

  /**
   * On a rising edge of start with no preparation running, the robot is busy
   * and the steps are the read coils of the commanded ingredients, ascending;
   * with none commanded, nothing runs.
   */
  lemma RisingEdgeStarts(s: Sim)
    requires WellFormed(s) && !s.active && !s.coils[Start]
    ensures var r := HandleWriteSpec(s, Start, true);
            var steps := SelectSteps(s.coils[Start := true]);
            && !r.coils[WaitingRecipe] && !r.inputs[WaitingRecipe]
            && (r.active <==> steps != [])
            && (r.active ==> r.steps == steps && r.stepIndex == 0)
  {
    var c := s.coils[Start := true][WaitingRecipe := false];
    assert SelectSteps(c) == SelectSteps(s.coils[Start := true]) by {
      StepsAgree(c, s.coils[Start := true], 132);
    }
  }

  /** The steps only look at the write coils 132..141. */
  lemma {:induction false} StepsAgree(c: seq<bool>, d: seq<bool>, w: nat)
    requires |c| > 141 && |d| > 141 && 132 <= w <= 142
    requires forall a :: w <= a <= 141 ==> c[a] == d[a]
    ensures StepsFrom(c, w) == StepsFrom(d, w)
    decreases 142 - w
  {
    if w < 142 {
      StepsAgree(c, d, w + 1);
    }
  }

  /** A running preparation ignores a second start. */
  lemma RunningIgnoresStart(s: Sim)
    requires WellFormed(s) && s.active
    ensures StartPreparation(s) == s
  {
  }

  /**
   * A false write to a command coil that leaves every ingredient, cocktail
   * and start coil false clears the status flags and makes the robot ready.
   */
  lemma FullResetMakesReady(s: Sim, address: nat)
    requires WellFormed(s) && address < Size && ResetWrite(address, false)
    requires FullReset(s.coils[address := false])
    ensures var r := HandleWriteSpec(s, address, false);
            && (forall a :: 32 <= a <= 41 ==> !r.coils[a] && !r.inputs[a])
            && !r.coils[CupHolder] && !r.coils[DrinkReady] && r.coils[WaitingRecipe]
            && !r.inputs[CupHolder] && !r.inputs[DrinkReady] && r.inputs[WaitingRecipe]
  {
  }

  /** `k` ticks in a row. */
  function Ticks(s: Sim, k: nat): (r: Sim)
    requires WellFormed(s)
    ensures WellFormed(r)
    decreases k
  {
    if k == 0 then s else TickWellFormed(s); Ticks(TickSpec(s), k - 1)
  }

  /**
   * A running preparation ends after one tick per remaining step and one more:
   * every step's read coil is then set, "drink ready" is set, nothing runs,
   * and no coil that was set has been cleared.
   */
  lemma {:induction false} PreparationCompletes(s: Sim)
    requires WellFormed(s) && s.active && s.stepIndex <= |s.steps|
    ensures var r := Ticks(s, |s.steps| - s.stepIndex + 1);
            && !r.active && r.coils[DrinkReady]
            && (forall j :: s.stepIndex <= j < |s.steps| ==> r.coils[s.steps[j]])
            && (forall a :: 0 <= a < Size && s.coils[a] ==> r.coils[a])
    decreases |s.steps| - s.stepIndex
  {
    var t := TickSpec(s);
    TickWellFormed(s);
    if s.stepIndex == |s.steps| {
      assert Ticks(t, 0) == t;
    } else {
      PreparationCompletes(t);
    }
  }

  /** Collecting write coil `w` after the steps already collected, then the rest: the steps from `w`. */
  lemma StepsFromStep(c: seq<bool>, w: nat, selected: seq<nat>)
    requires |c| > 141 && 132 <= w <= 141
    ensures selected + StepsFrom(c, w) == (selected + (if c[w] then [w - 100] else [])) + StepsFrom(c, w + 1)
  {
    var here := if c[w] then [w - 100] else [];
    assert StepsFrom(c, w) == here + StepsFrom(c, w + 1);
  }

  /** The simulator process: its coil and input memories and the running preparation. */
  class Simulator {
    const coils: array<bool>
    const discreteInputs: array<bool>
    var active: bool
    var steps: seq<nat>
    var stepIndex: nat

    predicate Valid()
      reads this
    {
      coils.Length == Size && discreteInputs.Length == InputSize && coils != discreteInputs && StepsInRange(steps)
    }

    function State(): Sim
      reads this, coils, discreteInputs
    {
      Sim(coils[..], discreteInputs[..], active, steps, stepIndex)
    }

    constructor ()
      ensures Valid() && State() == Initial()
      ensures fresh(coils) && fresh(discreteInputs)
    {
      coils := new bool[Size](_ => false);
      discreteInputs := new bool[InputSize](_ => false);
      active := false;
      steps := [];
      stepIndex := 0;
      new;
      discreteInputs[WaitingRecipe] := true;
      coils[WaitingRecipe] := true;
    }

    /** The steps of the ingredients commanded on the write coils, as the preparation will run them. */
    method CollectSteps() returns (selected: seq<nat>)
      requires Valid()
      ensures selected == SelectSteps(coils[..])
    {
      ghost var c := coils[..];
      selected := [];
      var w := 132;
      while w <= 141
        invariant 132 <= w <= 142
        invariant selected + StepsFrom(c, w) == StepsFrom(c, 132)
      {
        var here := if coils[w] then [w - 100] else [];
        assert c[w] == coils[w];
        StepsFromStep(c, w, selected);
        selected := selected + here;
        w := w + 1;
      }
      assert StepsFrom(c, w) == [];
    }

    /** `simulateCocktailPreparation`. */
    method SimulateCocktailPreparation()
      requires Valid()
      modifies this, coils, discreteInputs
      ensures Valid() && State() == StartPreparation(old(State()))
    {
      if active {
        return;
      }
      discreteInputs[WaitingRecipe] := false;
      coils[WaitingRecipe] := false;
      var selected := CollectSteps();
      if selected == [] {
        return;
      }
      active := true;
      steps := selected;
      stepIndex := 0;
    }

    /** Clears the step, cup-holder and drink-ready flags and sets "waiting for a recipe" in both memories. */
    method ClearStatus()
      requires Valid()
      modifies coils, discreteInputs
      ensures coils[..] == Cleared(old(coils[..])) && discreteInputs[..] == Cleared(old(discreteInputs[..]))
    {
      ghost var c0 := coils[..];
      ghost var d0 := discreteInputs[..];
      var i := 32;
      while i <= 41
        invariant 32 <= i <= 42
        invariant forall j :: 0 <= j < Size ==> coils[j] == if 32 <= j < i then false else c0[j]
        invariant forall j :: 0 <= j < InputSize ==> discreteInputs[j] == if 32 <= j < i then false else d0[j]
      {
        discreteInputs[i] := false;
        coils[i] := false;
        i := i + 1;
      }
      discreteInputs[CupHolder] := false;
      coils[CupHolder] := false;
      discreteInputs[DrinkReady] := false;
      coils[DrinkReady] := false;
      discreteInputs[WaitingRecipe] := true;
      coils[WaitingRecipe] := true;
    }

    /** `handleWrite`. */
    method HandleWrite(address: nat, value: bool)
      requires Valid() && address < Size
      modifies this, coils, discreteInputs
      ensures Valid() && State() == HandleWriteSpec(old(State()), address, value)
    {
      var oldValue := coils[address];
      coils[address] := value;
      if address == Start && value && !oldValue {
        SimulateCocktailPreparation();
      }
      if ResetWrite(address, value) {
        var allIngredientsReset := forall a | 132 <= a <= 141 :: !coils[a];
        var allCocktailsReset := forall a | 100 <= a <= 107 :: !coils[a];
        var startReset := !coils[Start];
        if allIngredientsReset && allCocktailsReset && startReset {
          ClearStatus();
        }
      }
    }

    /** One run of the preparation interval. */
    method Tick()
      requires Valid()
      modifies this, coils, discreteInputs
      ensures Valid() && State() == TickSpec(old(State()))
    {
      if !active {
        return;
      }
      if stepIndex < |steps| {
        var a := steps[stepIndex];
        discreteInputs[a] := true;
        coils[a] := true;
        stepIndex := stepIndex + 1;
      } else {
        discreteInputs[DrinkReady] := true;
        coils[DrinkReady] := true;
        active := false;
      }
    }
  }
}
