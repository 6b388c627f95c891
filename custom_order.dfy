/**
 * Ordering a custom drink: the coil writes that select the ingredients, the
 * extra steps they imply and the trigger, issued one by one until a write
 * fails.
 */
module CustomOrder {
  import opened Modbus
  import Connection

  /** The endpoint's own ingredient map: it has "dark-rum" on 138 and no "cognac". */
  const CustomIngredientMap: map<string, nat> := map[
    "mint" := 132,
    "ice" := 134,
    "syrup" := 135,
    "lime" := 136,
    "white-rum" := 137,
    "dark-rum" := 138,
    "whiskey" := 139,
    "soda" := 140,
    "coke" := 141
  ]

  const Muddling: nat := 133
  const Stirring: nat := 142
  const Straw: nat := 143
  const CustomTrigger: nat := 107
  const Start: nat := 96

  /** The map sends distinct ids to distinct coils, all in 132..141 and none of them 133. */
  lemma CustomMapAddresses()
    ensures forall id | id in CustomIngredientMap :: 132 <= CustomIngredientMap[id] <= 141 && CustomIngredientMap[id] != Muddling
    ensures forall a, b | a in CustomIngredientMap && b in CustomIngredientMap && a != b ::
      CustomIngredientMap[a] != CustomIngredientMap[b]
  {
  }

  /** The ingredient coils, one per mapped id, in the caller's order. */
  function MappedAddresses(ingredients: seq<string>): (r: seq<nat>)
    ensures |r| <= |ingredients|
    ensures forall i :: 0 <= i < |r| ==> 132 <= r[i] <= 141 && r[i] != Muddling
  {
    if ingredients == [] then []
    else
      (if ingredients[0] in CustomIngredientMap then [CustomIngredientMap[ingredients[0]]] else [])
      + MappedAddresses(ingredients[1..])
  }

  /** The writes for a list are those for its first part followed by those for the rest. */
  lemma {:induction false} MappedAppend(a: seq<string>, b: seq<string>)
    ensures MappedAddresses(a + b) == MappedAddresses(a) + MappedAddresses(b)
  {
    if a == [] {
      assert a + b == b;
    } else {
      assert (a + b)[0] == a[0];
      assert (a + b)[1..] == a[1..] + b;
      MappedAppend(a[1..], b);
    }
  }

  /** Each mapped id is written once per occurrence; an unknown id is skipped. */
  lemma {:induction false} MappedCounts(ingredients: seq<string>, id: string)
    requires id in CustomIngredientMap
    ensures multiset(MappedAddresses(ingredients))[CustomIngredientMap[id]] == multiset(ingredients)[id]
  {
    if ingredients != [] {
      MappedCounts(ingredients[1..], id);
      assert ingredients == [ingredients[0]] + ingredients[1..];
      if ingredients[0] in CustomIngredientMap && ingredients[0] != id {
        DistinctCustomAddresses(ingredients[0], id);
      }
    }
  }

  lemma DistinctCustomAddresses(a: string, b: string)
    requires a in CustomIngredientMap && b in CustomIngredientMap && a != b
    ensures CustomIngredientMap[a] != CustomIngredientMap[b]
  {
  }

  predicate HasMint(ingredients: seq<string>) {
    "mint" in ingredients
  }

  predicate HasMixer(ingredients: seq<string>) {
    "soda" in ingredients || "coke" in ingredients
  }

  /**
   * Every coil the order writes true, in order: the ingredients, muddling for
   * mint, stirring and straw for a mixer, then the custom trigger and start.
   */
  function CustomWritePlan(ingredients: seq<string>): seq<nat> {
    MappedAddresses(ingredients)
    + (if HasMint(ingredients) then [Muddling] else [])
    + (if HasMixer(ingredients) then [Stirring, Straw] else [])
    + [CustomTrigger, Start]
  }

  /** The plan ends with the trigger then start, each written exactly once. */
  lemma PlanEndsWithTriggerThenStart(ingredients: seq<string>)
    ensures var plan := CustomWritePlan(ingredients);
            && |plan| >= 2
            && plan[|plan| - 2] == CustomTrigger && plan[|plan| - 1] == Start
            && multiset(plan)[CustomTrigger] == 1 && multiset(plan)[Start] == 1
  {
    var mapped := MappedAddresses(ingredients);
    assert CustomTrigger !in mapped && Start !in mapped;
  }

  /** Muddling is written iff mint is selected, and only once. */
  lemma MuddlingIffMint(ingredients: seq<string>)
    ensures multiset(CustomWritePlan(ingredients))[Muddling] == if HasMint(ingredients) then 1 else 0
  {
    var mapped := MappedAddresses(ingredients);
    assert Muddling !in mapped;
  }

  /** Stirring then straw are written iff soda or coke is selected, right before the trigger. */
  lemma StirringAndStrawIffMixer(ingredients: seq<string>)
    ensures var plan := CustomWritePlan(ingredients);
            && (Stirring in plan <==> HasMixer(ingredients))
            && (Straw in plan <==> HasMixer(ingredients))
            && (HasMixer(ingredients) ==> plan[|plan| - 4] == Stirring && plan[|plan| - 3] == Straw)
  {
    var mapped := MappedAddresses(ingredients);
    assert Stirring !in mapped && Straw !in mapped;
  }

  /** The ingredient coils come first, in the caller's order and not sorted. */
  lemma PlanStartsWithIngredients(ingredients: seq<string>)
    ensures var mapped := MappedAddresses(ingredients);
            CustomWritePlan(ingredients)[..|mapped|] == mapped
  {
  }

  /** Ice then mint: the ingredient coils in that order, then muddling, trigger and start. */
  lemma IceThenMintPlan()
    ensures CustomWritePlan(["ice", "mint"]) == [134, 132, 133, 107, 96]
  {
    assert MappedAddresses(["ice", "mint"]) == [134, 132] by {
      assert ["ice", "mint"][1..] == ["mint"];
      assert ["mint"][1..] == [];
    }
  }

  /**
   * Issues `value` to `plan` in order and stops at the first write that fails.
   * Succeeds iff every write does; the writes before the failure stay applied.
   */
  method WriteUntilFailure(bus: Bus, plan: seq<nat>, value: bool) returns (ok: bool)
    modifies bus`log, bus`coils
    ensures var k := FirstRejected(|old(bus.coils)|, bus.faults, |old(bus.log)|, plan, value);
            && ok == (k == |plan|)
            && bus.log == old(bus.log) + Writes(plan[..if ok then k else k + 1], value)
            && bus.coils == Apply(old(bus.coils), plan[..k], value, |old(bus.log)|, bus.faults)
  {
    var n := |bus.log|;
    var log0 := bus.log;
    var coils0 := bus.coils;
    ghost var k := FirstRejected(|coils0|, bus.faults, n, plan, value);
    var i := 0;
    while i < |plan|
      invariant 0 <= i <= k
      invariant |bus.coils| == |coils0|
      invariant bus.log == log0 + Writes(plan[..i], value)
      invariant bus.coils == Apply(coils0, plan[..i], value, n, bus.faults)
    {
      assert |bus.log| == n + i;
      ApplyStep(coils0, plan, i, value, n, bus.faults);
      var written := bus.WriteCoil(plan[i], value);
      if !written {
        assert i == k;
        return false;
      }
      assert i < k;
      i := i + 1;
    }
    assert plan[..i] == plan;
    ok := true;
  }

  /** The request body: unreadable, without an ingredient list, or with one. */
  datatype Body = Malformed | NoList | List(ingredients: seq<string>)

  datatype CustomResponse =
    | BadRequest                                           // 400: no ingredients selected
    | ServerError                                          // 500
    | Ordered(muddling: bool, stirring: bool, straw: bool) // the extras sent along

  /**
   * `POST /api/cocktails/custom`: rejects an empty selection before touching
   * the link, then obtains a client (connecting if needed, the connect
   * settling as `connectSucceeds` says) and issues the plan; any failure is a
   * 500 that undoes nothing.
   */
  method PostCustom(bus: Bus, conn: Connection.ConnectionManager, body: Body, connectSucceeds: bool) returns (r: CustomResponse)
    requires conn.Valid() && !conn.isConnecting
    modifies bus`log, bus`coils, conn
    ensures conn.Valid() && !conn.isConnecting
    ensures body.Malformed? ==> r == ServerError && unchanged(bus) && unchanged(conn)
    ensures body.NoList? || (body.List? && body.ingredients == []) ==> r == BadRequest && unchanged(bus) && unchanged(conn)
    ensures body.List? && body.ingredients != [] ==>
      var acquired := old(conn.IsConnected()) || (old(conn.reconnectAttempts) < Connection.MaxReconnectAttempts && connectSucceeds);
      && (acquired ==> conn.IsConnected() && conn.reconnectAttempts == 0)
      && (!acquired ==>
            && r == ServerError && unchanged(bus)
            && conn.client == old(conn.client) && !conn.IsConnected()
            && conn.reconnectAttempts == if old(conn.reconnectAttempts) < Connection.MaxReconnectAttempts
                                         then old(conn.reconnectAttempts) + 1 else old(conn.reconnectAttempts))
    ensures body.List? && body.ingredients != [] && (old(conn.IsConnected()) || (old(conn.reconnectAttempts) < Connection.MaxReconnectAttempts && connectSucceeds)) ==>
      var ings := body.ingredients;
      var plan := CustomWritePlan(ings);
      var k := FirstRejected(|old(bus.coils)|, bus.faults, |old(bus.log)|, plan, true);
      && r == (if k == |plan| then Ordered(HasMint(ings), HasMixer(ings), HasMixer(ings)) else ServerError)
      && bus.log == old(bus.log) + Writes(plan[..if k == |plan| then k else k + 1], true)
      && bus.coils == Apply(old(bus.coils), plan[..k], true, |old(bus.log)|, bus.faults)
  {
    match body
    case Malformed =>
      return ServerError;
    case NoList =>
      return BadRequest;
    case List(ings) =>
      if ings == [] {
        return BadRequest;
      }
      var acquired := conn.Acquire(connectSucceeds);
      if !acquired {
        return ServerError;
      }
      var ok := WriteUntilFailure(bus, CustomWritePlan(ings), true);
      r := if ok then Ordered(HasMint(ings), HasMixer(ings), HasMixer(ings)) else ServerError;
  }
}
