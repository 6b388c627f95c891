/**
 * The client-side progress tracker: the store the order popup shows, the
 * percentage of the active cocktail's steps that are done, and the polling
 * loop whose latch fires the reset request once per order and stops once the
 * robot is ready again.
 */
module CocktailStatus {
  import opened Wrappers
  import opened RobotState
  import opened Cocktails

  /** How many of `steps` the snapshot reports done (`state[stateKey] === true`). */
  function CountCompleted(steps: seq<Step>, state: Snapshot): (c: nat)
    ensures c <= |steps|
  {
    if steps == [] then 0
    else (if IsTrue(state, steps[0].stateKey) then 1 else 0) + CountCompleted(steps[1..], state)
  }

  /** Every step done in `s` is done in `t`. */
  predicate DoneIncludes(s: Snapshot, t: Snapshot) {
    forall k | k in s :: IsTrue(s, k) ==> IsTrue(t, k)
  }

  /** More steps done never lowers the count. */
  lemma {:induction false} CountCompletedMonotone(steps: seq<Step>, s: Snapshot, t: Snapshot)
    requires DoneIncludes(s, t)
    ensures CountCompleted(steps, s) <= CountCompleted(steps, t)
  {
    if steps != [] {
      CountCompletedMonotone(steps[1..], s, t);
    }
  }

  /** Every step done: the count is the number of steps. */
  lemma {:induction false} CountCompletedAll(steps: seq<Step>, state: Snapshot)
    requires forall i :: 0 <= i < |steps| ==> IsTrue(state, steps[i].stateKey)
    ensures CountCompleted(steps, state) == |steps|
  {
    if steps != [] {
      CountCompletedAll(steps[1..], state);
    }
  }

  /** `Math.round(c / t * 100)`: the percentage rounded half up. */
  function Percent(c: nat, t: nat): (p: nat)
    requires 0 < t && c <= t
    ensures 2 * t * p <= 200 * c + t < 2 * t * (p + 1)
    ensures p <= 100
  {
    var n := 200 * c + t;
    var m := 2 * t;
    var p := n / m;
    assert n == m * p + n % m && 0 <= n % m < m;
    assert m * p < m * 101 by {
      assert n < m * 101;
    }
    MultiplyCancels(m, p, 101);
    p
  }

  /** A larger share done never gives a smaller percentage. */
  lemma PercentMonotone(c: nat, d: nat, t: nat)
    requires 0 < t && c <= d <= t
    ensures Percent(c, t) <= Percent(d, t)
  {
    var p := Percent(c, t);
    var q := Percent(d, t);
    assert 2 * t * p < 2 * t * (q + 1);
    MultiplyCancels(2 * t, p, q + 1);
  }

  /** Dividing both sides of a strict inequality by the same factor, kept apart so the solver sees it alone. */
  lemma MultiplyCancels(a: nat, x: nat, y: nat)
    requires a * x < a * y
    ensures x < y
  {
  }

  /**
   * `calculateProgress`: 100 once the drink is ready, 0 without an active,
   * known cocktail with steps, else the rounded share of its steps done.
   */
  function CalculateProgress(state: Snapshot, cocktailId: Option<string>, customIngredients: Option<seq<string>>): (p: nat)
    ensures p <= 100
    ensures IsTrue(state, "drinkReady") ==> p == 100
    ensures !IsTrue(state, "drinkReady") && (cocktailId.None? || cocktailId.value == "") ==> p == 0
  {
    if IsTrue(state, "drinkReady") then 100
    else if cocktailId.None? || cocktailId.value == "" then 0
    else
      var c := GetCocktailById(cocktailId.value, customIngredients);
      if c.None? || |c.value.steps| == 0 then 0
      else Percent(CountCompleted(c.value.steps, state), |c.value.steps|)
  }

  /**
   * Before the drink is ready, the progress of a known cocktail with steps is
   * its share of steps done, as a percentage rounded half up; an unknown id
   * shows 0.
   */
  lemma ProgressIsRoundedShare(state: Snapshot, id: string, customIngredients: Option<seq<string>>)
    requires !IsTrue(state, "drinkReady") && id != ""
    ensures var p := CalculateProgress(state, Some(id), customIngredients);
            var c := GetCocktailById(id, customIngredients);
            if c.None? || |c.value.steps| == 0 then p == 0
            else
              var t := |c.value.steps|;
              var done := CountCompleted(c.value.steps, state);
              2 * t * p <= 200 * done + t < 2 * t * (p + 1)
  {
  }

  /** Progress never goes back as more steps are reported done. */
  lemma ProgressMonotone(s: Snapshot, t: Snapshot, cocktailId: Option<string>, customIngredients: Option<seq<string>>)
    requires DoneIncludes(s, t)
    ensures CalculateProgress(s, cocktailId, customIngredients) <= CalculateProgress(t, cocktailId, customIngredients)
  {
    if !IsTrue(t, "drinkReady") && cocktailId.Some? && cocktailId.value != "" {
      var c := GetCocktailById(cocktailId.value, customIngredients);
      if c.Some? && |c.value.steps| > 0 {
        CountCompletedMonotone(c.value.steps, s, t);
        PercentMonotone(CountCompleted(c.value.steps, s), CountCompleted(c.value.steps, t), |c.value.steps|);
      }
    }
  }

  /** A known cocktail with every step reported done shows 100. */
  lemma AllDoneIsComplete(state: Snapshot, id: string, customIngredients: Option<seq<string>>)
    requires id != "" && GetCocktailById(id, customIngredients).Some?
    requires var steps := GetCocktailById(id, customIngredients).value.steps;
             forall i :: 0 <= i < |steps| ==> IsTrue(state, steps[i].stateKey)
    ensures CalculateProgress(state, Some(id), customIngredients) == 100
  {
    var steps := GetCocktailById(id, customIngredients).value.steps;
    CountCompletedAll(steps, state);
  }

  /** What one successful poll does to the reset latch. */
  datatype Latch = Latch(fire: bool, triggered: bool, stop: bool)

  /**
   * The latch after a poll: the reset fires on "drink ready" unless it already
   * has, and polling stops once it has fired and the robot waits for a recipe.
   */
  function LatchStep(triggered: bool, state: Snapshot): (l: Latch)
    ensures l.fire <==> !triggered && IsTrue(state, "drinkReady")
    ensures l.triggered <==> triggered || l.fire
    ensures l.stop <==> l.triggered && IsTrue(state, "waitingRecipe")
  {
    var fire := IsTrue(state, "drinkReady") && !triggered;
    var latched := triggered || fire;
    Latch(fire, latched, latched && IsTrue(state, "waitingRecipe"))
  }

  /** The reset requests issued over the successful polls `states`, up to the one that stops polling. */
  function PostsUntilStop(triggered: bool, states: seq<Snapshot>): nat
    decreases |states|
  {
    if states == [] then 0
    else
      var l := LatchStep(triggered, states[0]);
      (if l.fire then 1 else 0) + (if l.stop then 0 else PostsUntilStop(l.triggered, states[1..]))
  }

  /** Whether one of the polls `states` stops polling. */
  predicate Stops(triggered: bool, states: seq<Snapshot>)
    decreases |states|
  {
    states != [] &&
    var l := LatchStep(triggered, states[0]);
    l.stop || Stops(l.triggered, states[1..])
  }

  /** Once the reset has fired, the first poll that sees the robot waiting for a recipe stops polling. */
  lemma WaitingAfterResetStops(triggered: bool, states: seq<Snapshot>)
    requires triggered && states != [] && IsTrue(states[0], "waitingRecipe")
    ensures Stops(triggered, states)
  {
  }

  /**
   * A fresh order that sees the drink ready and then the robot waiting for a
   * recipe posts one reset and stops polling at the second poll.
   */
  lemma ReadyThenWaitingStops(ready: Snapshot, waiting: Snapshot)
    requires IsTrue(ready, "drinkReady") && !IsTrue(ready, "waitingRecipe") && IsTrue(waiting, "waitingRecipe")
    ensures Stops(false, [ready, waiting]) && !Stops(false, [ready])
    ensures PostsUntilStop(false, [ready, waiting]) == 1
  {
    assert [ready, waiting][1..] == [waiting];
    assert [ready][1..] == [];
  }

  /** From a fresh start, at most one reset request is issued per order. */
  lemma {:induction false} AtMostOneReset(triggered: bool, states: seq<Snapshot>)
    ensures PostsUntilStop(triggered, states) <= if triggered then 0 else 1
    decreases |states|
  {
    if states != [] {
      var l := LatchStep(triggered, states[0]);
      AtMostOneReset(l.triggered, states[1..]);
    }
  }

  /** Polling that stops after a fresh start has issued exactly one reset request. */
  lemma {:induction false} StopFollowsReset(triggered: bool, states: seq<Snapshot>)
    requires Stops(triggered, states)
    ensures PostsUntilStop(triggered, states) == if triggered then 0 else 1
    decreases |states|
  {
    var l := LatchStep(triggered, states[0]);
    if !l.stop {
      StopFollowsReset(l.triggered, states[1..]);
      AtMostOneReset(triggered, states);
    }
  }

  /** What one poll of the status endpoint gave the store. */
  datatype Fetch = FetchFailed | Fetched(isConnected: bool, robotState: Snapshot)

  /** The initial snapshot of the store: every flag false, coil 38 called "cognac". */
  const InitialRobotState: Snapshot := map[
    "mint" := false, "muddling" := false, "ice" := false, "syrup" := false, "lime" := false,
    "whiteRum" := false, "cognac" := false, "whiskey" := false, "soda" := false, "coke" := false,
    "cupHolder" := false, "drinkReady" := false, "waitingRecipe" := false]

  /** The store and the module state of its polling loop. */
  class StatusStore {
    var activeCocktailId: Option<string>
    var customIngredients: Option<seq<string>>
    var robotState: Snapshot
    var isConnected: bool
    var error: bool
    var progress: nat
    /** Whether the polling interval is installed. */
    var polling: bool
    var resetTriggered: bool
    /** Reset requests issued so far. */
    var resetPosts: nat
    /** Reset requests issued since the last start of polling. */
    ghost var postsThisOrder: nat

    /** The latch records exactly the reset requests of the current order. */
    ghost predicate Valid()
      reads this
    {
      postsThisOrder == (if resetTriggered then 1 else 0)
    }

    constructor ()
      ensures Valid()
      ensures activeCocktailId == None && customIngredients == None && robotState == InitialRobotState
      ensures !isConnected && !error && progress == 0 && !polling && !resetTriggered && resetPosts == 0
    {
      activeCocktailId := None;
      customIngredients := None;
      robotState := InitialRobotState;
      isConnected := false;
      error := false;
      progress := 0;
      polling := false;
      resetTriggered := false;
      resetPosts := 0;
      postsThisOrder := 0;
    }

    /** `startStatusPolling`: a new order, latch cleared, progress 0, no error. */
    method StartStatusPolling(cocktailId: Option<string>, ingredients: Option<seq<string>>)
      modifies this
      ensures Valid()
      ensures activeCocktailId == cocktailId && customIngredients == ingredients
      ensures progress == 0 && !error && polling && !resetTriggered
      ensures robotState == old(robotState) && isConnected == old(isConnected) && resetPosts == old(resetPosts)
      ensures postsThisOrder == 0
    {
      resetTriggered := false;
      postsThisOrder := 0;
      activeCocktailId := cocktailId;
      customIngredients := ingredients;
      progress := 0;
      error := false;
      polling := true;
    }

    /** `stopStatusPolling`: no interval, latch cleared, no active order; the rest is kept. */
    method StopStatusPolling()
      modifies this
      ensures Valid()
      ensures !polling && !resetTriggered && activeCocktailId == None && customIngredients == None
      ensures robotState == old(robotState) && progress == old(progress) && isConnected == old(isConnected)
      ensures error == old(error) && resetPosts == old(resetPosts)
    {
      polling := false;
      resetTriggered := false;
      postsThisOrder := 0;
      activeCocktailId := None;
      customIngredients := None;
    }

    /**
     * One run of the interval callback. A failed fetch records the error and
     * the lost link and nothing else; a successful one updates the store, fires
     * the reset at most once per order and stops polling as `LatchStep` says.
     */
    method Tick(fetch: Fetch)
      requires Valid()
      modifies this
      ensures Valid()
      ensures postsThisOrder <= 1
      ensures !old(polling) ==> unchanged(this)
      ensures old(polling) && fetch.FetchFailed? ==>
        && error && !isConnected
        && activeCocktailId == old(activeCocktailId) && customIngredients == old(customIngredients)
        && robotState == old(robotState) && progress == old(progress)
        && polling && resetTriggered == old(resetTriggered) && resetPosts == old(resetPosts)
      ensures old(polling) && fetch.Fetched? ==>
        var l := LatchStep(old(resetTriggered), fetch.robotState);
        && robotState == fetch.robotState && isConnected == fetch.isConnected && !error
        && progress == CalculateProgress(fetch.robotState, old(activeCocktailId), old(customIngredients))
        && resetPosts == old(resetPosts) + (if l.fire then 1 else 0)
        && polling == !l.stop
        && resetTriggered == (l.triggered && !l.stop)
        && activeCocktailId == (if l.stop then None else old(activeCocktailId))
        && customIngredients == (if l.stop then None else old(customIngredients))
    {
      if !polling {
        return;
      }
      match fetch
      case FetchFailed =>
        error := true;
        isConnected := false;
      case Fetched(connected, state) =>
        robotState := state;
        isConnected := connected;
        progress := CalculateProgress(state, activeCocktailId, customIngredients);
        error := false;
        if IsTrue(state, "drinkReady") && !resetTriggered {
          resetTriggered := true;
          resetPosts := resetPosts + 1;
          postsThisOrder := postsThisOrder + 1;
        }
        if resetTriggered && IsTrue(state, "waitingRecipe") {
          StopStatusPolling();
        }
    }
  }
}
