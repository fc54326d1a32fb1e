/** One axis' tiers and recipes resolved to a chain of stages (blueprint/src/execution.ts:54-137). */
module LoweringAxis {
  import opened Json

  /** An empty string stands for a missing identity as well. */
  datatype Tier = Tier(id: string, kind: string)
  datatype Recipe = Recipe(id: string, source: string, target: string)
  datatype Stage = Stage(fromTier: Tier, toTier: Tier, recipe: Recipe)
  datatype Axis = Axis(stages: seq<Stage>, sourceTier: Tier, terminalTier: Tier)

  datatype Error =
    | NoTiers
    | IncompleteTier
    | DuplicateTier(tier: string)
    | IncompleteRecipe
    | DuplicateRecipe(recipe: string)
    | UnknownSource(recipe: string, tier: string)
    | UnknownTarget(recipe: string, tier: string)
    | BranchesOrMerges(tier: string)
    | NotOneTerminalTier
    | NoSourceTier
    | CycleAt(tier: string)
    | NotOneChain

  datatype Result = Resolved(axis: Axis) | Failed(error: Error)

  // ---- what a resolvable axis is -------------------------------------------------------------

  ghost predicate TiersIdentified(tiers: seq<Tier>) {
    && tiers != []
    && (forall t :: t in tiers ==> t.id != "" && t.kind != "")
    && forall i, j :: 0 <= i < j < |tiers| ==> tiers[i].id != tiers[j].id
  }

  ghost function TierIds(tiers: seq<Tier>): set<string> {
    set t | t in tiers :: t.id
  }

  ghost predicate RecipesIdentified(tiers: seq<Tier>, recipes: seq<Recipe>) {
    && (forall r :: r in recipes ==> r.id != "" && r.source != "" && r.target != "")
    && (forall r :: r in recipes ==> r.source in TierIds(tiers) && r.target in TierIds(tiers))
    && forall i, j :: 0 <= i < j < |recipes| ==> recipes[i].id != recipes[j].id
  }

  /** Each recipe starts where the one before it ended, and no tier is visited twice. */
  ghost predicate SimplePath(order: seq<Recipe>) {
    && order != []
    && (forall i :: 0 <= i < |order| - 1 ==> order[i].target == order[i + 1].source)
    && (forall i, j :: 0 <= i < j < |order| ==> order[i].source != order[j].source)
    && (forall i :: 0 <= i < |order| ==> order[i].source != order[|order| - 1].target)
  }

  ghost predicate Orders(order: seq<Recipe>, recipes: seq<Recipe>) {
    multiset(order) == multiset(recipes) && SimplePath(order)
  }

  ghost predicate Resolvable(tiers: seq<Tier>, recipes: seq<Recipe>) {
    && TiersIdentified(tiers) && RecipesIdentified(tiers, recipes)
    && if recipes == [] then |tiers| == 1 else exists order :: Orders(order, recipes)
  }

  function RecipesOf(stages: seq<Stage>): (r: seq<Recipe>)
    ensures |r| == |stages|
  {
    seq(|stages|, i requires 0 <= i < |stages| => stages[i].recipe)
  }

  /** The stages run all recipes end to end, each between the two declared tiers it names. */
  ghost predicate IsAxis(tiers: seq<Tier>, recipes: seq<Recipe>, axis: Axis) {
    && axis.sourceTier in tiers && axis.terminalTier in tiers
    && (forall s :: s in axis.stages ==>
          s.fromTier in tiers && s.fromTier.id == s.recipe.source && s.toTier in tiers
              && s.toTier.id == s.recipe.target)
    && if recipes == [] then axis.stages == [] && axis.sourceTier == axis.terminalTier
       else
         && Orders(RecipesOf(axis.stages), recipes)
         && axis.sourceTier == axis.stages[0].fromTier && axis.terminalTier == axis.stages[|axis.stages| - 1].toTier
  }

  // ---- degrees ---------------------------------------------------------------------------------

  function Into(recipes: seq<Recipe>, tier: string): nat {
    if recipes == [] then 0
    else Into(recipes[..|recipes| - 1], tier) + if recipes[|recipes| - 1].target == tier then 1 else 0
  }

  function OutOf(recipes: seq<Recipe>, tier: string): nat {
    if recipes == [] then 0
    else OutOf(recipes[..|recipes| - 1], tier) + if recipes[|recipes| - 1].source == tier then 1 else 0
  }

  ghost predicate SourcesDiffer(recipes: seq<Recipe>) {
    forall i, j :: 0 <= i < j < |recipes| ==> recipes[i].source != recipes[j].source
  }

  ghost predicate TargetsDiffer(recipes: seq<Recipe>) {
    forall i, j :: 0 <= i < j < |recipes| ==> recipes[i].target != recipes[j].target
  }

  lemma {:induction false} IntoPositive(recipes: seq<Recipe>, tier: string)
    ensures Into(recipes, tier) > 0 <==> exists i :: 0 <= i < |recipes| && recipes[i].target == tier
  {
    if recipes != [] {
      IntoPositive(recipes[..|recipes| - 1], tier);
    }
  }

  lemma {:induction false} OutOfPositive(recipes: seq<Recipe>, tier: string)
    ensures OutOf(recipes, tier) > 0 <==> exists i :: 0 <= i < |recipes| && recipes[i].source == tier
  {
    if recipes != [] {
      OutOfPositive(recipes[..|recipes| - 1], tier);
    }
  }

  /** More than one recipe into a tier is two recipes with one target. */
  lemma {:induction false} TargetsDifferIff(recipes: seq<Recipe>)
    ensures TargetsDiffer(recipes) <==> forall tier :: Into(recipes, tier) <= 1
  {
    if recipes != [] {
      var rest, last := recipes[..|recipes| - 1], recipes[|recipes| - 1];
      TargetsDifferIff(rest);
      IntoPositive(rest, last.target);
      assert recipes == rest + [last];
      if TargetsDiffer(recipes) {
        assert TargetsDiffer(rest);
        assert Into(rest, last.target) == 0;
        forall tier
          ensures Into(recipes, tier) <= 1
        {
          assert Into(rest, tier) <= 1;
        }
      } else if TargetsDiffer(rest) {
        assert Into(recipes, last.target) > 1;
      } else {
        var tier :| Into(rest, tier) > 1;
        assert Into(recipes, tier) > 1;
      }
    }
  }

  lemma {:induction false} SourcesDifferIff(recipes: seq<Recipe>)
    ensures SourcesDiffer(recipes) <==> forall tier :: OutOf(recipes, tier) <= 1
  {
    if recipes != [] {
      var rest, last := recipes[..|recipes| - 1], recipes[|recipes| - 1];
      SourcesDifferIff(rest);
      OutOfPositive(rest, last.source);
      assert recipes == rest + [last];
      if SourcesDiffer(recipes) {
        assert SourcesDiffer(rest);
        assert OutOf(rest, last.source) == 0;
        forall tier
          ensures OutOf(recipes, tier) <= 1
        {
          assert OutOf(rest, tier) <= 1;
        }
      } else if SourcesDiffer(rest) {
        assert OutOf(recipes, last.source) > 1;
      } else {
        var tier :| OutOf(rest, tier) > 1;
        assert OutOf(recipes, tier) > 1;
      }
    }
  }

  // ---- paths -------------------------------------------------------------------------------------

  lemma PathDegrees(order: seq<Recipe>)
    requires SimplePath(order)
    ensures SourcesDiffer(order) && TargetsDiffer(order)
    ensures forall i :: 0 <= i < |order| ==> order[i].target != order[0].source
  {
    forall i, j | 0 <= i < j < |order|
      ensures order[i].target != order[j].target
    {
      assert order[i].target == order[i + 1].source;
      if j < |order| - 1 {
        assert order[j].target == order[j + 1].source;
      }
    }
    forall i | 0 <= i < |order|
      ensures order[i].target != order[0].source
    {
      if i < |order| - 1 {
        assert order[i].target == order[i + 1].source;
      }
    }
  }

  /** Differing targets and sources do not depend on the order of the recipes. */
  lemma SameMembers(order: seq<Recipe>, recipes: seq<Recipe>)
    requires multiset(order) == multiset(recipes)
    ensures |order| == |recipes|
    ensures forall r :: r in order <==> r in recipes
  {
    assert |multiset(order)| == |order| && |multiset(recipes)| == |recipes|;
    assert forall r :: r in order <==> r in multiset(order);
    assert forall r :: r in recipes <==> r in multiset(recipes);
  }

  ghost predicate NoRepeats(recipes: seq<Recipe>) {
    forall i, j :: 0 <= i < j < |recipes| ==> recipes[i] != recipes[j]
  }

  lemma {:induction false} NoRepeatsIff(recipes: seq<Recipe>)
    ensures NoRepeats(recipes) <==> forall r :: multiset(recipes)[r] <= 1
  {
    if recipes != [] {
      var rest, last := recipes[..|recipes| - 1], recipes[|recipes| - 1];
      NoRepeatsIff(rest);
      assert recipes == rest + [last];
      if NoRepeats(rest) {
        if r :| multiset(recipes)[r] > 1 {
          assert r == last && last in multiset(rest);
          var i :| 0 <= i < |rest| && rest[i] == last;
          assert recipes[i] == recipes[|rest|];
        } else {
          assert multiset(recipes)[last] == multiset(rest)[last] + 1;
          assert last !in multiset(rest);
          assert forall i :: 0 <= i < |rest| ==> rest[i] in multiset(rest);
        }
      } else {
        var r :| multiset(rest)[r] > 1;
        assert multiset(recipes)[r] > 1;
      }
    }
  }

  lemma DifferenceReorders(order: seq<Recipe>, recipes: seq<Recipe>)
    requires multiset(order) == multiset(recipes)
    requires SourcesDiffer(order) && TargetsDiffer(order)
    ensures SourcesDiffer(recipes) && TargetsDiffer(recipes)
  {
    SameMembers(order, recipes);
    NoRepeatsIff(order);
    NoRepeatsIff(recipes);
    assert NoRepeats(order);
    forall i, j | 0 <= i < j < |recipes|
      ensures recipes[i].source != recipes[j].source && recipes[i].target != recipes[j].target
    {
      assert recipes[i] in order && recipes[j] in order;
    }
  }

  /** A path's recipes can be put end to end in one way only. */
  lemma OrderIsUnique(a: seq<Recipe>, b: seq<Recipe>, recipes: seq<Recipe>)
    requires Orders(a, recipes) && Orders(b, recipes)
    ensures a == b
  {
    PathDegrees(a);
    PathDegrees(b);
    SameMembers(a, recipes);
    SameMembers(b, recipes);
    SameStart(a, b);
    FollowsFrom(a, b, |a|);
  }

  lemma SameStart(a: seq<Recipe>, b: seq<Recipe>)
    requires SimplePath(a) && SimplePath(b) && (forall r :: r in a <==> r in b)
    ensures a[0] == b[0]
  {
    PathDegrees(a);
    assert b[0] in a;
    var i :| 0 <= i < |a| && a[i] == b[0];
    if i > 0 {
      assert a[i - 1] in b && a[i - 1].target == a[i].source;
      PathDegrees(b);
    }
  }

  lemma {:induction false} FollowsFrom(a: seq<Recipe>, b: seq<Recipe>, n: nat)
    requires SimplePath(a) && SimplePath(b) && a[0] == b[0] && n <= |a| == |b|
    requires forall r :: r in a <==> r in b
    ensures a[..n] == b[..n]
  {
    if n > 1 {
      FollowsFrom(a, b, n - 1);
      assert a[n - 2] == a[..n - 1][n - 2] == b[n - 2];
      assert a[n - 1] in b && a[n - 1].source == b[n - 1].source;
      var i :| 0 <= i < |b| && b[i] == a[n - 1];
      assert i == n - 1;
    }
  }

  // ---- resolveLoweringAxis ---------------------------------------------------------------------

  lemma NoTierIds()
    ensures TierIds([]) == {}
  {
  }

  lemma TierAdded(tiers: seq<Tier>, tier: Tier)
    ensures TierIds(tiers + [tier]) == TierIds(tiers) + {tier.id}
    ensures tier.id in TierIds(tiers) <==> exists k :: 0 <= k < |tiers| && tiers[k].id == tier.id
  {
    forall t | t in tiers + [tier]
      ensures t.id in TierIds(tiers) + {tier.id}
    {
    }
    if k :| 0 <= k < |tiers| && tiers[k].id == tier.id {
      assert tiers[k] in tiers;
    }
  }

  method CheckTiers(tiers: seq<Tier>) returns (failed: Option<Error>, tierIds: set<string>)
    ensures failed.None? <==> TiersIdentified(tiers)
    ensures failed.None? ==> tierIds == TierIds(tiers)
    ensures failed.Some? ==> !failed.value.CycleAt?
  {
    hide TierIds;
    failed, tierIds := None, {};
    NoTierIds();
    if |tiers| == 0 {
      return Some(NoTiers), tierIds;
    }
    for i := 0 to |tiers|
      invariant tierIds == TierIds(tiers[..i])
      invariant forall k :: 0 <= k < i ==> tiers[k].id != "" && tiers[k].kind != ""
      invariant forall k, l :: 0 <= k < l < i ==> tiers[k].id != tiers[l].id
    {
      TierAdded(tiers[..i], tiers[i]);
      if tiers[i].id == "" || tiers[i].kind == "" {
        return Some(IncompleteTier), tierIds;
      }
      if tiers[i].id in tierIds {
        return Some(DuplicateTier(tiers[i].id)), tierIds;
      }
      assert forall k :: 0 <= k < i ==> tiers[..i][k] == tiers[k];
      assert tiers[..i + 1] == tiers[..i] + [tiers[i]];
      tierIds := tierIds + {tiers[i].id};
    }
    assert tiers[..|tiers|] == tiers;
  }

  function Count(counts: map<string, nat>, tier: string): nat {
    if tier in counts then counts[tier] else 0
  }

  method CheckRecipes(tiers: seq<Tier>, tierIds: set<string>, recipes: seq<Recipe>)
    returns (failed: Option<Error>, incoming: map<string, nat>, outgoing: map<string, nat>)
    requires tierIds == TierIds(tiers)
    ensures failed.None? <==> RecipesIdentified(tiers, recipes)
    ensures failed.None? ==> forall t ::
        Count(incoming, t) == Into(recipes, t)
        && Count(outgoing, t) == OutOf(recipes, t)
    ensures failed.Some? ==> !failed.value.CycleAt?
  {
    hide TierIds, Into, OutOf;
    NoDegrees();
    var recipeIds: set<string> := {};
    failed, incoming, outgoing := None, map[], map[];
    for i := 0 to |recipes|
      invariant recipeIds == (set r | r in recipes[..i] :: r.id)
      invariant RecipesIdentified(tiers, recipes[..i])
      invariant forall t :: Count(incoming, t) == Into(recipes[..i], t) && Count(outgoing, t) == OutOf(recipes[..i], t)
    {
      var recipe := recipes[i];
      assert recipe in recipes;
      if recipe.id == "" || recipe.source == "" || recipe.target == "" {
        return Some(IncompleteRecipe), incoming, outgoing;
      }
      if recipe.id in recipeIds {
        var other :| other in recipes[..i] && other.id == recipe.id;
        return Some(DuplicateRecipe(recipe.id)), incoming, outgoing;
      }
      if recipe.source !in tierIds {
        return Some(UnknownSource(recipe.id, recipe.source)), incoming, outgoing;
      }
      if recipe.target !in tierIds {
        return Some(UnknownTarget(recipe.id, recipe.target)), incoming, outgoing;
      }
      RecipeAdded(tiers, recipes[..i], recipe);
      assert recipes[..i + 1] == recipes[..i] + [recipe];
      recipeIds := recipeIds + {recipe.id};
      incoming := incoming[recipe.target := Count(incoming, recipe.target) + 1];
      outgoing := outgoing[recipe.source := Count(outgoing, recipe.source) + 1];
    }
    assert recipes[..|recipes|] == recipes;
  }

  lemma NoDegrees()
    ensures forall t :: Into([], t) == 0 && OutOf([], t) == 0
  {
  }

  lemma RecipeAdded(tiers: seq<Tier>, recipes: seq<Recipe>, recipe: Recipe)
    requires RecipesIdentified(tiers, recipes)
    requires recipe.id != "" && recipe.source != "" && recipe.target != ""
    requires recipe.source in TierIds(tiers) && recipe.target in TierIds(tiers)
    requires forall r :: r in recipes ==> r.id != recipe.id
    ensures RecipesIdentified(tiers, recipes + [recipe])
    ensures forall t :: Into(recipes + [recipe], t) == Into(recipes, t) + if t == recipe.target then 1 else 0
    ensures forall t :: OutOf(recipes + [recipe], t) == OutOf(recipes, t) + if t == recipe.source then 1 else 0
  {
    assert (recipes + [recipe])[..|recipes|] == recipes;
  }

  /** No tier of degree above one: then every recipe is the only one from and to its tiers. */
  lemma DegreesAtMostOne(tiers: seq<Tier>, recipes: seq<Recipe>)
    requires RecipesIdentified(tiers, recipes)
    requires forall t :: t in tiers ==> Into(recipes, t.id) <= 1 && OutOf(recipes, t.id) <= 1
    ensures SourcesDiffer(recipes) && TargetsDiffer(recipes)
  {
    forall tier
      ensures Into(recipes, tier) <= 1 && OutOf(recipes, tier) <= 1
    {
      IntoPositive(recipes, tier);
      OutOfPositive(recipes, tier);
    }
    SourcesDifferIff(recipes);
    TargetsDifferIff(recipes);
  }

  lemma DegreeAboveOne(recipes: seq<Recipe>, tier: string)
    requires Into(recipes, tier) > 1 || OutOf(recipes, tier) > 1
    ensures forall order :: !Orders(order, recipes)
  {
    SourcesDifferIff(recipes);
    TargetsDifferIff(recipes);
    forall order
      ensures !Orders(order, recipes)
    {
      if Orders(order, recipes) {
        PathDegrees(order);
        DifferenceReorders(order, recipes);
      }
    }
  }

  /** The walk so far: end to end from a tier no recipe targets. */
  ghost predicate Walked(recipes: seq<Recipe>, start: string, order: seq<Recipe>, cursor: string,
      visited: set<string>) {
    && SourcesDiffer(recipes) && TargetsDiffer(recipes)
    && (forall r :: r in recipes ==> r.target != start)
    && (forall r :: r in order ==> r in recipes)
    && visited == (set r | r in order :: r.source)
    && (forall i :: 0 <= i < |order| - 1 ==> order[i].target == order[i + 1].source)
    && SourcesDiffer(order)
    && (if order == [] then cursor == start else order[0].source == start && cursor == order[|order| - 1].target)
  }

  /** The tier the walk arrives at is new: a cycle could only be entered by a second recipe into it. */
  lemma ArrivesAtNewTier(recipes: seq<Recipe>, start: string, order: seq<Recipe>, cursor: string, visited: set<string>)
    requires Walked(recipes, start, order, cursor, visited)
    ensures cursor !in visited
  {
    forall i | 0 <= i < |order|
      ensures order[i].source != cursor
    {
      var last := order[|order| - 1];
      assert last in recipes;
      if i > 0 {
        assert order[i - 1] in recipes;
      }
    }
  }

  lemma WalkedOn(recipes: seq<Recipe>, start: string, order: seq<Recipe>, recipe: Recipe, visited: set<string>)
    requires Walked(recipes, start, order, recipe.source, visited) && recipe in recipes
    ensures Walked(recipes, start, order + [recipe], recipe.target, visited + {recipe.source})
  {
    ArrivesAtNewTier(recipes, start, order, recipe.source, visited);
    forall i | 0 <= i < |order|
      ensures order[i].source != recipe.source
    {
      assert order[i] in order && order[i].source in visited;
    }
  }

  /** A walk as long as the recipe list has used every recipe once. */
  lemma LongWalkIsPath(recipes: seq<Recipe>, start: string, order: seq<Recipe>, cursor: string, visited: set<string>)
    requires Walked(recipes, start, order, cursor, visited) && order != [] && |order| == |recipes|
    ensures Orders(order, recipes)
  {
    ArrivesAtNewTier(recipes, start, order, cursor, visited);
    assert SimplePath(order) by {
      forall i | 0 <= i < |order|
        ensures order[i].source != cursor
      {
        assert order[i] in order;
      }
    }
    assert NoRepeats(order) && NoRepeats(recipes);
    SameBag(order, recipes);
  }

  lemma {:induction false} DistinctCount(s: seq<Recipe>)
    requires NoRepeats(s)
    ensures |set r | r in s| == |s|
  {
    if s != [] {
      var rest, last := s[..|s| - 1], s[|s| - 1];
      DistinctCount(rest);
      assert s == rest + [last];
      assert (set r | r in s) == (set r | r in rest) + {last};
    }
  }

  lemma SubsetOfSameSize(a: set<Recipe>, b: set<Recipe>)
    requires a <= b && |a| == |b|
    ensures a == b
  {
    assert |b - a| == |b| - |a|;
  }

  lemma SameBag(order: seq<Recipe>, recipes: seq<Recipe>)
    requires NoRepeats(order) && NoRepeats(recipes) && |order| == |recipes|
    requires forall r :: r in order ==> r in recipes
    ensures multiset(order) == multiset(recipes)
  {
    DistinctCount(order);
    DistinctCount(recipes);
    var a, b := set r | r in order, set r | r in recipes;
    SubsetOfSameSize(a, b);
    NoRepeatsIff(order);
    NoRepeatsIff(recipes);
    forall r
      ensures multiset(order)[r] == multiset(recipes)[r]
    {
      assert r in a <==> r in b;
      assert r in multiset(order) <==> r in order;
      assert r in multiset(recipes) <==> r in recipes;
    }
  }

  /** If the recipes form a path at all, the walk follows it. */
  lemma {:induction false} WalkFollows(recipes: seq<Recipe>, start: string, order: seq<Recipe>, cursor: string,
      visited: set<string>,
                                       path: seq<Recipe>, n: nat)
    requires Walked(recipes, start, order, cursor, visited) && Orders(path, recipes) && path[0].source == start
    requires n <= |order|
    ensures n <= |path| && order[..n] == path[..n]
  {
    SameMembers(path, recipes);
    if n > 0 {
      WalkFollows(recipes, start, order, cursor, visited, path, n - 1);
      var next := order[n - 1];
      assert next in recipes;
      var i :| 0 <= i < |path| && path[i] == next;
      if n > 1 {
        assert order[n - 2] == order[..n - 1][n - 2] == path[n - 2];
        assert next.source == path[n - 2].target;
        assert n - 1 < |path| ==> path[n - 2].target == path[n - 1].source;
      }
      assert n - 1 < |path| && path[n - 1].source == next.source;
    }
  }

  lemma PathGoesOn(recipes: seq<Recipe>, start: string, order: seq<Recipe>, cursor: string, visited: set<string>,
      path: seq<Recipe>)
    requires Walked(recipes, start, order, cursor, visited) && Orders(path, recipes) && path[0].source == start
    requires |order| <= |path| && order == path[..|order|]
    ensures |order| < |path| ==> exists r :: r in recipes && r.source == cursor
  {
    SameMembers(path, recipes);
    if |order| < |path| {
      assert path[|order|] in recipes;
      assert order != [] ==> order[|order| - 1] == path[|order| - 1];
    }
  }

  lemma WalkIsWhole(recipes: seq<Recipe>, start: string, order: seq<Recipe>, cursor: string, visited: set<string>,
      path: seq<Recipe>)
    requires Walked(recipes, start, order, cursor, visited) && Orders(path, recipes)
    requires exists r :: r in recipes && r.source == start
    requires forall r :: r in recipes ==> r.source != cursor
    ensures order == path && |order| == |recipes|
  {
    SameMembers(path, recipes);
    var first :| first in recipes && first.source == start;
    forall k | 0 < k < |path|
      ensures path[k].source != start
    {
      assert path[k - 1] in recipes && path[k - 1].target == path[k].source;
    }
    WalkFollows(recipes, start, order, cursor, visited, path, |order|);
    assert order == path[..|order|];
    PathGoesOn(recipes, start, order, cursor, visited, path);
    assert path[..|path|] == path;
  }

  lemma PathHasSource(recipes: seq<Recipe>, path: seq<Recipe>)
    requires Orders(path, recipes)
    ensures path[0] in recipes && forall r :: r in recipes ==> r.target != path[0].source
  {
    SameMembers(path, recipes);
    PathDegrees(path);
  }

  method ById(tiers: seq<Tier>) returns (byId: map<string, Tier>)
    requires TiersIdentified(tiers)
    ensures byId.Keys == TierIds(tiers)
    ensures forall id :: id in byId ==> byId[id] in tiers && byId[id].id == id
    ensures forall t :: t in tiers ==> byId[t.id] == t
  {
    byId := map[];
    for i := 0 to |tiers|
      invariant byId.Keys == TierIds(tiers[..i])
      invariant forall id :: id in byId ==> byId[id] in tiers && byId[id].id == id
    {
      assert tiers[..i + 1] == tiers[..i] + [tiers[i]];
      byId := byId[tiers[i].id := tiers[i]];
    }
    assert tiers[..|tiers|] == tiers;
  }

  method BySource(recipes: seq<Recipe>) returns (bySource: map<string, Recipe>)
    requires SourcesDiffer(recipes)
    ensures forall id :: id in bySource ==> bySource[id] in recipes && bySource[id].source == id
    ensures forall r :: r in recipes ==> r.source in bySource && bySource[r.source] == r
  {
    bySource := map[];
    for i := 0 to |recipes|
      invariant forall id :: id in bySource ==> bySource[id] in recipes && bySource[id].source == id
      invariant forall k :: 0 <= k < i ==> recipes[k].source in bySource && bySource[recipes[k].source] == recipes[k]
    {
      bySource := bySource[recipes[i].source := recipes[i]];
    }
  }

  /** The tier some recipe starts from and none targets: the first declared one. */
  method FindSource(tiers: seq<Tier>, recipes: seq<Recipe>, bySource: map<string,
      Recipe>) returns (source: Option<Tier>)
    requires RecipesIdentified(tiers, recipes)
    requires forall r :: r in recipes ==> r.source in bySource
    ensures source.Some? ==> source.value in tiers && source.value.id in bySource && forall r ::
        r in recipes ==> r.target != source.value.id
    ensures source.None? ==> forall path :: !Orders(path, recipes)
  {
    hide SimplePath;
    var targets := set r | r in recipes :: r.target;
    for i := 0 to |tiers|
      invariant forall k :: 0 <= k < i ==> !(tiers[k].id in bySource && tiers[k].id !in targets)
    {
      if tiers[i].id in bySource && tiers[i].id !in targets {
        return Some(tiers[i]);
      }
    }
    forall path: seq<Recipe>
      ensures !Orders(path, recipes)
    {
      if Orders(path, recipes) {
        PathHasSource(recipes, path);
      }
    }
    return None;
  }

  /** resolveLoweringAxis: it returns exactly for resolvable axes, and its cycle error is never thrown. */
  method ResolveLoweringAxis(tiers: seq<Tier>, recipes: seq<Recipe>) returns (r: Result)
    ensures r.Resolved? <==> Resolvable(tiers, recipes)
    ensures r.Resolved? ==> IsAxis(tiers, recipes, r.axis)
    ensures r.Failed? ==> !r.error.CycleAt?
  {
    hide TiersIdentified, RecipesIdentified, SimplePath, Walked, SourcesDiffer, TargetsDiffer, Into, OutOf;
    var failed, tierIds := CheckTiers(tiers);
    if failed.Some? {
      return Failed(failed.value);
    }
    var incoming, outgoing;
    failed, incoming, outgoing := CheckRecipes(tiers, tierIds, recipes);
    if failed.Some? {
      return Failed(failed.value);
    }
    for i := 0 to |tiers|
      invariant forall k :: 0 <= k < i ==> Into(recipes, tiers[k].id) <= 1 && OutOf(recipes, tiers[k].id) <= 1
    {
      if Count(incoming, tiers[i].id) > 1 || Count(outgoing, tiers[i].id) > 1 {
        DegreeAboveOne(recipes, tiers[i].id);
        NoRecipesNoDegree(recipes, tiers[i].id);
        return Failed(BranchesOrMerges(tiers[i].id));
      }
    }
    DegreesAtMostOne(tiers, recipes);
    var tiersById := ById(tiers);
    if |recipes| == 0 {
      if |tiers| != 1 {
        return Failed(NotOneTerminalTier);
      }
      return Resolved(Axis([], tiers[0], tiers[0]));
    }
    var bySource := BySource(recipes);
    var source := FindSource(tiers, recipes, bySource);
    if source.None? {
      return Failed(NoSourceTier);
    }
    r := Walk(tiers, recipes, tiersById, bySource, source.value);
  }

  lemma NoRecipesNoDegree(recipes: seq<Recipe>, tier: string)
    requires Into(recipes, tier) > 1 || OutOf(recipes, tier) > 1
    ensures recipes != []
  {
  }

  /** The walk from the source along the only recipe out of each tier. */
  method Walk(tiers: seq<Tier>, recipes: seq<Recipe>, tiersById: map<string, Tier>, bySource: map<string, Recipe>,
      source: Tier)
    returns (r: Result)
    requires TiersIdentified(tiers) && RecipesIdentified(tiers, recipes) && recipes != []
    requires SourcesDiffer(recipes) && TargetsDiffer(recipes)
    requires tiersById.Keys == TierIds(tiers)
        && (forall id :: id in tiersById ==> tiersById[id] in tiers && tiersById[id].id == id)
    requires forall t :: t in tiers ==> tiersById[t.id] == t
    requires forall id :: id in bySource ==> bySource[id] in recipes && bySource[id].source == id
    requires forall r :: r in recipes ==> r.source in bySource && bySource[r.source] == r
    requires source in tiers && source.id in bySource && forall r :: r in recipes ==> r.target != source.id
    ensures r.Resolved? <==> exists order :: Orders(order, recipes)
    ensures r.Resolved? ==> IsAxis(tiers, recipes, r.axis)
    ensures r.Failed? ==> !r.error.CycleAt?
  {
    hide TiersIdentified, SimplePath, SourcesDiffer, TargetsDiffer, Walked, Orders;
    var stages: seq<Stage> := [];
    var visited: set<string> := {};
    var cursor := source.id;
    WalkStarts(recipes, source.id);
    assert RecipesOf(stages) == [];
    while cursor in bySource
      invariant Walked(recipes, source.id, RecipesOf(stages), cursor, visited)
      invariant forall s :: s in stages ==>
        s.fromTier in tiers && s.fromTier.id == s.recipe.source && s.toTier in tiers && s.toTier.id == s.recipe.target
      invariant visited <= bySource.Keys
      invariant stages == [] ==> cursor == source.id
      invariant stages != [] ==> stages[0].fromTier == source
      decreases bySource.Keys - visited
    {
      ArrivesAtNewTier(recipes, source.id, RecipesOf(stages), cursor, visited);
      if cursor in visited {
        return Failed(CycleAt(cursor));
      }
      var recipe := bySource[cursor];
      WalkedOn(recipes, source.id, RecipesOf(stages), recipe, visited);
      visited := visited + {cursor};
      ghost var before := stages;
      if stages == [] {
        assert tiersById[recipe.source] == source;
      }
      stages := stages + [Stage(tiersById[recipe.source], tiersById[recipe.target], recipe)];
      assert RecipesOf(stages) == RecipesOf(before) + [recipe];
      cursor := recipe.target;
    }
    ghost var order := RecipesOf(stages);
    if |stages| != |recipes| {
      forall path
        ensures !Orders(path, recipes)
      {
        if Orders(path, recipes) {
          WalkIsWhole(recipes, source.id, order, cursor, visited, path);
        }
      }
      return Failed(NotOneChain);
    }
    LongWalkIsPath(recipes, source.id, order, cursor, visited);
    assert stages[|stages| - 1] in stages;
    r := Resolved(Axis(stages, source, stages[|stages| - 1].toTier));
  }

  lemma WalkStarts(recipes: seq<Recipe>, start: string)
    requires SourcesDiffer(recipes) && TargetsDiffer(recipes) && forall r :: r in recipes ==> r.target != start
    ensures Walked(recipes, start, [], start, {})
  {
  }

  /** The stages of a resolved axis are the one way to put all its recipes end to end. */
  lemma StagesAreUnique(tiers: seq<Tier>, recipes: seq<Recipe>, axis: Axis, order: seq<Recipe>)
    requires recipes != [] && IsAxis(tiers, recipes, axis) && Orders(order, recipes)
    ensures RecipesOf(axis.stages) == order
    ensures axis.sourceTier.id == order[0].source && axis.terminalTier.id == order[|order| - 1].target
  {
    OrderIsUnique(RecipesOf(axis.stages), order, recipes);
    assert axis.stages[0] in axis.stages && axis.stages[|axis.stages| - 1] in axis.stages;
  }
}
