/**
 * The register map: which coil each ingredient is reported on and commanded
 * through, which coil triggers each cocktail, the step lists the progress bar
 * follows, and the synthesis of a custom cocktail from selected ingredients.
 */
module Cocktails {
  import opened Wrappers
  import opened Lists

  /** A preparation step: the robot-state key that reports it and, for an
      ingredient step of a custom drink, the coil that key is read from. */
  datatype Step = Step(stateKey: string, readAddress: Option<nat>)

  datatype Cocktail = Cocktail(id: string, modbusAddress: nat, category: string, steps: seq<Step>)

  /** An ingredient: its state key, the coil reporting it, the coil commanding it. */
  datatype Ingredient = Ingredient(stateKey: string, readAddress: nat, writeAddress: nat)

  /** Control coils: write true to start; read "drink ready" and "waiting for a recipe". */
  const Start: nat := 96
  const DrinkReadyAddress: nat := 91
  const WaitingRecipeAddress: nat := 92

  /** The trigger coil shared by every custom drink. */
  const CustomAddress: nat := 107

  /** A step of a predefined cocktail, which carries no address. */
  function Key(stateKey: string): Step {
    Step(stateKey, None)
  }

  const DrinkReadyStep: Step := Key("drinkReady")

  /** The predefined cocktails, in menu order. */
  const Table: seq<Cocktail> := [
    Cocktail("mojito", 100, "rum",
      [Key("mint"), Key("muddling"), Key("ice"), Key("syrup"), Key("lime"), Key("whiteRum"), Key("soda"), DrinkReadyStep]),
    Cocktail("cuba-libre", 101, "rum",
      [Key("ice"), Key("lime"), Key("whiteRum"), Key("coke"), DrinkReadyStep]),
    Cocktail("cognac", 102, "rum",
      [Key("cognac"), DrinkReadyStep]),
    Cocktail("whiskey-rocks", 103, "whiskey",
      [Key("ice"), Key("whiskey"), DrinkReadyStep]),
    Cocktail("neat-whiskey", 104, "whiskey",
      [Key("whiskey"), DrinkReadyStep]),
    Cocktail("whiskey-highball", 105, "whiskey",
      [Key("ice"), Key("whiskey"), Key("soda"), DrinkReadyStep]),
    Cocktail("whiskey-coke", 106, "whiskey",
      [Key("ice"), Key("whiskey"), Key("coke"), DrinkReadyStep])
  ]

  /** Ingredient id to its configuration. */
  const IngredientMapping: map<string, Ingredient> := map[
    "mint" := Ingredient("mint", 32, 132),
    "muddling" := Ingredient("muddling", 33, 133),
    "ice" := Ingredient("ice", 34, 134),
    "syrup" := Ingredient("syrup", 35, 135),
    "lime" := Ingredient("lime", 36, 136),
    "white-rum" := Ingredient("whiteRum", 37, 137),
    "cognac" := Ingredient("cognac", 38, 138),
    "whiskey" := Ingredient("whiskey", 39, 139),
    "soda" := Ingredient("soda", 40, 140),
    "coke" := Ingredient("coke", 41, 141),
    "stirring" := Ingredient("stirring", 42, 142),
    "straw" := Ingredient("straw", 43, 143)
  ]

  /** Every ingredient is commanded on its read coil plus 100; read coils are 32..43 and distinct. */
  lemma IngredientAddresses()
    ensures forall id | id in IngredientMapping ::
      && IngredientMapping[id].writeAddress == IngredientMapping[id].readAddress + 100
      && 32 <= IngredientMapping[id].readAddress <= 43
    ensures forall a, b | a in IngredientMapping && b in IngredientMapping && a != b ::
      IngredientMapping[a].readAddress != IngredientMapping[b].readAddress
  {
  }

  /** Predefined cocktail i is triggered by coil 100 + i, and its steps end with "drink ready". */
  lemma TableAddresses()
    ensures |Table| == 7
    ensures forall i | 0 <= i < |Table| ::
      && Table[i].modbusAddress == 100 + i
      && |Table[i].steps| >= 1
      && Table[i].steps[|Table[i].steps| - 1] == DrinkReadyStep
  {
  }

  /** An ingredient's configuration used as a step of a custom drink. */
  function AsStep(g: Ingredient): Step {
    Step(g.stateKey, Some(g.readAddress))
  }

  /** `s` is the step of some known id among `ids`. */
  predicate Selected(s: Step, ids: seq<string>) {
    exists i :: 0 <= i < |ids| && ids[i] in IngredientMapping && s == AsStep(IngredientMapping[ids[i]])
  }

  /** `forEach`/`push`: the steps of the known ingredient ids, in the caller's order. */
  function Resolve(ids: seq<string>): (r: seq<Step>)
    ensures forall i :: 0 <= i < |r| ==> Selected(r[i], ids)
    ensures |r| <= |ids|
  {
    if ids == [] then []
    else (if ids[0] in IngredientMapping then [AsStep(IngredientMapping[ids[0]])] else []) + Resolve(ids[1..])
  }

  /** The sort key `a.modbusReadAddress || 0`. */
  function SortKey(s: Step): nat {
    s.readAddress.GetOr(0)
  }

  predicate Sorted(s: seq<Step>) {
    forall i, j :: 0 <= i < j < |s| ==> SortKey(s[i]) <= SortKey(s[j])
  }

  /** Every key in `s` is at least `k`. */
  predicate AllAtLeast(k: nat, s: seq<Step>) {
    forall i :: 0 <= i < |s| ==> k <= SortKey(s[i])
  }

  /** Places `x` before the first step of `s` with a larger key. */
  function Insert(x: Step, s: seq<Step>): seq<Step> {
    if s == [] || SortKey(x) <= SortKey(s[0]) then [x] + s
    else [s[0]] + Insert(x, s[1..])
  }

  lemma {:induction false} InsertCount(x: Step, s: seq<Step>)
    ensures multiset(Insert(x, s)) == multiset(s) + multiset{x}
  {
    if !(s == [] || SortKey(x) <= SortKey(s[0])) {
      InsertCount(x, s[1..]);
      assert s == [s[0]] + s[1..];
    }
  }
  lemma {:induction false} InsertBounded(x: Step, s: seq<Step>, k: nat)
    requires AllAtLeast(k, s) && k <= SortKey(x)
    ensures AllAtLeast(k, Insert(x, s))
  {
    if !(s == [] || SortKey(x) <= SortKey(s[0])) {
      InsertBounded(x, s[1..], k);
      var rest := Insert(x, s[1..]);
      var r := [s[0]] + rest;
      assert forall i :: 0 < i < |r| ==> r[i] == rest[i - 1];
    }
  }
  lemma {:induction false} InsertSorted(x: Step, s: seq<Step>)
    requires Sorted(s)
    ensures Sorted(Insert(x, s))
  {
    if s == [] || SortKey(x) <= SortKey(s[0]) {
      var r := [x] + s;
      assert forall i :: 0 < i < |r| ==> r[i] == s[i - 1];
    } else {
      InsertSorted(x, s[1..]);
      InsertBounded(x, s[1..], SortKey(s[0]));
      var rest := Insert(x, s[1..]);
      var r := [s[0]] + rest;
      assert forall i :: 0 < i < |r| ==> r[i] == rest[i - 1];
    }
  }

  /** `steps.sort(...)` by ascending read address (stable). */
  function SortByAddress(s: seq<Step>): seq<Step> {
    if s == [] then [] else Insert(s[0], SortByAddress(s[1..]))
  }

  lemma {:induction false} SortByAddressSorts(s: seq<Step>)
    ensures Sorted(SortByAddress(s))
    ensures multiset(SortByAddress(s)) == multiset(s)
  {
    if s != [] {
      SortByAddressSorts(s[1..]);
      InsertSorted(s[0], SortByAddress(s[1..]));
      InsertCount(s[0], SortByAddress(s[1..]));
      assert s == [s[0]] + s[1..];
    }
  }

  /** The steps of a custom drink: the selected ingredients in execution order, then "drink ready". */
  function CustomSteps(customIngredients: Option<seq<string>>): seq<Step> {
    (if customIngredients.Some? && |customIngredients.value| > 0 then SortByAddress(Resolve(customIngredients.value)) else [])
    + [DrinkReadyStep]
  }

  /**
   * `getCocktailById`: a custom drink synthesised from the selected ingredients,
   * or the first predefined cocktail with that id.
   */
  function GetCocktailById(id: string, customIngredients: Option<seq<string>>): (r: Option<Cocktail>)
    ensures id == "custom" ==>
      && r.Some? && r.value.id == "custom" && r.value.modbusAddress == CustomAddress
      && |r.value.steps| >= 1 && r.value.steps[|r.value.steps| - 1] == DrinkReadyStep
    ensures id == "custom" && (customIngredients.None? || customIngredients.value == []) ==>
      r.value.steps == [DrinkReadyStep]
    ensures id != "custom" && r.Some? ==>
      exists i :: 0 <= i < |Table| && Table[i] == r.value && r.value.id == id && forall j :: 0 <= j < i ==> Table[j].id != id
    ensures id != "custom" && r.None? ==> forall i :: 0 <= i < |Table| ==> Table[i].id != id
  {
    if id == "custom" then Some(Cocktail("custom", CustomAddress, "custom", CustomSteps(customIngredients)))
    else Find(Table, (c: Cocktail) => c.id == id)
  }

  /** `getCocktailsByCategory`: the cocktails of one category, in table order. */
  function GetCocktailsByCategory(category: string): (r: seq<Cocktail>)
    ensures forall c :: c in r <==> c in Table && c.category == category
    ensures IsSubsequence(r, Table)
  {
    Filter(Table, (c: Cocktail) => c.category == category)
  }

  /** How often `x` occurs in `ids`. */
  function Occurrences(ids: seq<string>, x: string): nat {
    multiset(ids)[x]
  }

  /**
   * A custom drink has one step per occurrence of each known ingredient id:
   * an unknown id contributes nothing, a repeated one repeats its step.
   */
  lemma {:induction false} ResolveCounts(ids: seq<string>, id: string)
    requires id in IngredientMapping
    ensures multiset(Resolve(ids))[AsStep(IngredientMapping[id])] == Occurrences(ids, id)
  {
    if ids != [] {
      ResolveCounts(ids[1..], id);
      assert ids == [ids[0]] + ids[1..];
      if ids[0] in IngredientMapping && ids[0] != id {
        DistinctReadAddresses(ids[0], id);
      }
    }
  }

  lemma DistinctReadAddresses(a: string, b: string)
    requires a in IngredientMapping && b in IngredientMapping && a != b
    ensures IngredientMapping[a].readAddress != IngredientMapping[b].readAddress
  {
  }

  /** The selected ingredients' steps, one per occurrence, in ascending read address. */
  lemma {:induction false} SortedSelection(ids: seq<string>)
    ensures var body := SortByAddress(Resolve(ids));
            && Sorted(body)
            && (forall i :: 0 <= i < |body| ==> Selected(body[i], ids))
            && forall id | id in IngredientMapping :: multiset(body)[AsStep(IngredientMapping[id])] == Occurrences(ids, id)
  {
    var resolved := Resolve(ids);
    var body := SortByAddress(resolved);
    SortByAddressSorts(resolved);
    forall id | id in IngredientMapping
      ensures multiset(body)[AsStep(IngredientMapping[id])] == Occurrences(ids, id)
    {
      ResolveCounts(ids, id);
    }
    forall i | 0 <= i < |body|
      ensures Selected(body[i], ids)
    {
      assert body[i] in multiset(resolved);
      var k :| 0 <= k < |resolved| && resolved[k] == body[i];
    }
  }

  /**
   * For "custom", the steps before the final "drink ready" are the known selected
   * ingredients, one per occurrence, in ascending read address.
   */
  lemma CustomStepsAreSelection(ids: seq<string>)
    ensures var steps := GetCocktailById("custom", Some(ids)).value.steps;
            var body := steps[..|steps| - 1];
            && Sorted(body)
            && (forall i :: 0 <= i < |body| ==> Selected(body[i], ids))
            && forall id | id in IngredientMapping :: multiset(body)[AsStep(IngredientMapping[id])] == Occurrences(ids, id)
  {
    var steps := GetCocktailById("custom", Some(ids)).value.steps;
    assert steps == CustomSteps(Some(ids));
    if ids == [] {
      assert steps[..|steps| - 1] == [];
    } else {
      assert steps[..|steps| - 1] == SortByAddress(Resolve(ids));
      SortedSelection(ids);
    }
  }
}
