/** What a projection stage does to views, presentation and decorations
    (blueprint/src/fixed-lowering-meta-graph.ts:270-442). */
module ProjectionEffects {
  import opened Json
  import opened ServiceLowering
  import opened ProjectionLowering

  // ---- the selected representation ------------------------------------------------------------------

  ghost predicate Matches(holds: Condition, r: Representation) {
    r.when.Some? && holds(r.when.value)
  }

  /** The first representation whose condition holds, else the last one with the fallback id. */
  ghost predicate ChosenAt(holds: Condition, recipe: ProjectionRecipe, i: int) {
    && 0 <= i < |recipe.representations|
    && if Matches(holds, recipe.representations[i])
       then forall j :: 0 <= j < i ==> !Matches(holds, recipe.representations[j])
       else
         && (forall j :: 0 <= j < |recipe.representations| ==> !Matches(holds, recipe.representations[j]))
         && recipe.representations[i].id == recipe.fallback
         && forall j :: i < j < |recipe.representations| ==> recipe.representations[j].id != recipe.fallback
  }

  lemma {:induction false} FirstIs(holds: Condition, rs: seq<Representation>)
    ensures var r := FirstRepresentation(holds, rs);
            && (r.None? ==> forall j :: 0 <= j < |rs| ==> !Matches(holds, rs[j]))
            && (r.Some? ==> exists i :: 0 <= i < |rs| && rs[i] == r.value && Matches(holds, rs[i])
                              && forall j :: 0 <= j < i ==> !Matches(holds, rs[j]))
  {
    if rs != [] && !Matches(holds, rs[0]) {
      FirstIs(holds, rs[1..]);
      var r := FirstRepresentation(holds, rs[1..]);
      assert forall j :: 0 < j < |rs| ==> rs[j] == rs[1..][j - 1];
      if r.Some? {
        var i :| 0 <= i < |rs[1..]| && rs[1..][i] == r.value && Matches(holds, rs[1..][i])
          && forall j :: 0 <= j < i ==> !Matches(holds, rs[1..][j]);
        assert rs[i + 1] == r.value;
      }
    }
  }

  lemma {:induction false} LastIs(rs: seq<Representation>, id: string)
    ensures var r := LastRepresentation(rs, id);
            && (r.None? ==> forall j :: 0 <= j < |rs| ==> rs[j].id != id)
            && (r.Some? ==> exists i :: 0 <= i < |rs| && rs[i] == r.value && rs[i].id == id
                              && forall j :: i < j < |rs| ==> rs[j].id != id)
  {
    if rs != [] && rs[|rs| - 1].id != id {
      LastIs(rs[..|rs| - 1], id);
    }
  }

  /** The selected representation stands at the one place that can be chosen. */
  lemma SelectionIs(holds: Condition, recipe: ProjectionRecipe) returns (i: int)
    ensures Selected(holds, recipe).Some? ==>
              ChosenAt(holds, recipe, i) && recipe.representations[i] == Selected(holds, recipe).value
    ensures Selected(holds, recipe).None? ==> forall j :: !ChosenAt(holds, recipe, j)
    ensures forall j, k :: ChosenAt(holds, recipe, j) && ChosenAt(holds, recipe, k) ==> j == k
  {
    var rs := recipe.representations;
    FirstIs(holds, rs);
    LastIs(rs, recipe.fallback);
    hide FirstRepresentation, LastRepresentation;
    i := 0;
    if FirstRepresentation(holds, rs).Some? {
      i :| 0 <= i < |rs| && rs[i] == FirstRepresentation(holds, rs).value && Matches(holds, rs[i])
        && forall j :: 0 <= j < i ==> !Matches(holds, rs[j]);
    } else if LastRepresentation(rs, recipe.fallback).Some? {
      i :| 0 <= i < |rs| && rs[i] == LastRepresentation(rs, recipe.fallback).value && rs[i].id == recipe.fallback
        && forall j :: i < j < |rs| ==> rs[j].id != recipe.fallback;
    }
  }

  // ---- views -------------------------------------------------------------------------------------------

  ghost predicate Removes(removals: seq<(string, seq<string>)>, cell: string, name: string) {
    exists i :: 0 <= i < |removals| && removals[i].0 == cell && name in removals[i].1
  }

  /** The last entry for the cell that has the view. */
  ghost predicate SetsAt(views: seq<(string, map<string, View>)>, cell: string, name: string, i: int) {
    && 0 <= i < |views| && views[i].0 == cell && name in views[i].1
    && forall j :: i < j < |views| && views[j].0 == cell ==> name !in views[j].1
  }

  ghost predicate Sets(views: seq<(string, map<string, View>)>, cell: string, name: string) {
    exists i :: 0 <= i < |views| && views[i].0 == cell && name in views[i].1
  }

  ghost predicate SameView(before: map<string, View>, after: map<string, View>, name: string) {
    && (name in after <==> name in before) && (name in before ==> after[name] == before[name])
  }

  lemma {:induction false} RemovedViewsOf(d: Draft, cell: string, names: seq<string>, other: string, name: string)
    requires cell in d.artifact.cells && RemoveViewsOf(d, cell, names).Drafted? && other in d.artifact.cells
    ensures var e := RemoveViewsOf(d, cell, names).draft;
            && e.artifact.cells.Keys == d.artifact.cells.Keys
            && (other == cell && name in names ==> name !in e.artifact.cells[other].views)
            && (other != cell || name !in names ==>
                  SameView(d.artifact.cells[other].views, e.artifact.cells[other].views, name))
    decreases |names|
  {
    if names != [] {
      var views := d.artifact.cells[cell].views - {names[0]};
      var cells := d.artifact.cells[cell := d.artifact.cells[cell].(views := views)];
      RemovedViewsOf(d.(artifact := d.artifact.(cells := cells)), cell, names[1..], other, name);
    }
  }

  /** Removals take away exactly the named views. */
  lemma {:induction false} RemovedViews(d: Draft, removals: seq<(string, seq<string>)>, cell: string, name: string)
    requires RemoveViews(d, removals).Drafted? && cell in d.artifact.cells
    ensures var e := RemoveViews(d, removals).draft;
            && e.artifact.cells.Keys == d.artifact.cells.Keys
            && (Removes(removals, cell, name) ==> name !in e.artifact.cells[cell].views)
            && (!Removes(removals, cell, name) ==>
                  SameView(d.artifact.cells[cell].views, e.artifact.cells[cell].views, name))
    decreases |removals|
  {
    hide RemoveViewsOf;
    if removals != [] {
      var next := RemoveViewsOf(d, removals[0].0, removals[0].1).draft;
      RemovedViewsOf(d, removals[0].0, removals[0].1, cell, name);
      RemovedViews(next, removals[1..], cell, name);
      assert forall i :: 0 < i < |removals| ==> removals[i] == removals[1..][i - 1];
      if Removes(removals, cell, name) && !(removals[0].0 == cell && name in removals[0].1) {
        var i :| 0 <= i < |removals| && removals[i].0 == cell && name in removals[i].1;
        assert removals[1..][i - 1].0 == cell;
      }
    }
  }

  lemma SetsLater(views: seq<(string, map<string, View>)>, cell: string, name: string)
    requires views != []
    ensures forall i :: i > 0 ==> (SetsAt(views, cell, name, i) <==> SetsAt(views[1..], cell, name, i - 1))
    ensures Sets(views, cell, name)
       <==> (views[0].0 == cell && name in views[0].1) || Sets(views[1..], cell, name)
    ensures SetsAt(views, cell, name, 0) ==> !Sets(views[1..], cell, name)
  {
    var later := views[1..];
    assert forall i :: 0 < i < |views| ==> views[i] == later[i - 1];
    forall i | i > 0
      ensures SetsAt(views, cell, name, i) <==> SetsAt(later, cell, name, i - 1)
    {
      if SetsAt(later, cell, name, i - 1) {
        forall j | i < j < |views| && views[j].0 == cell
          ensures name !in views[j].1
        {
          assert later[j - 1] == views[j];
        }
      }
      if SetsAt(views, cell, name, i) {
        forall j | i - 1 < j < |later| && later[j].0 == cell
          ensures name !in later[j].1
        {
          assert views[j + 1] == later[j];
        }
      }
    }
    if SetsAt(views, cell, name, 0) {
      NoLaterSet(views, cell, name);
    }
    if Sets(later, cell, name) {
      var j :| 0 <= j < |later| && later[j].0 == cell && name in later[j].1;
      assert views[j + 1].0 == cell;
    }
    if Sets(views, cell, name) && !(views[0].0 == cell && name in views[0].1) {
      var i :| 0 <= i < |views| && views[i].0 == cell && name in views[i].1;
      assert later[i - 1].0 == cell;
    }
  }

  /** Upserts set exactly the named views, the last entry winning. */
  lemma {:induction false} UpsertedViews(d: Draft, views: seq<(string, map<string, View>)>, cell: string, name: string)
    requires UpsertViews(d, views).Drafted? && cell in d.artifact.cells
    ensures var e := UpsertViews(d, views).draft;
            && e.artifact.cells.Keys == d.artifact.cells.Keys
            && (forall i :: SetsAt(views, cell, name, i) ==>
                  name in e.artifact.cells[cell].views && e.artifact.cells[cell].views[name] == views[i].1[name])
            && (!Sets(views, cell, name) ==> SameView(d.artifact.cells[cell].views, e.artifact.cells[cell].views, name))
    decreases |views|
  {
    if views != [] {
      var (id, more) := views[0];
      var all := d.artifact.cells[id].views + more;
      var next := d.(artifact := d.artifact.(cells := d.artifact.cells[id := d.artifact.cells[id].(views := all)]));
      UpsertedViews(next, views[1..], cell, name);
      SetsLater(views, cell, name);
      SetsInRange(views, cell, name);
      hide SetsAt, Sets;
      var e := UpsertViews(d, views).draft;
      assert e == UpsertViews(next, views[1..]).draft;
      forall i | SetsAt(views, cell, name, i)
        ensures name in e.artifact.cells[cell].views && e.artifact.cells[cell].views[name] == views[i].1[name]
      {
        if i > 0 {
          assert SetsAt(views[1..], cell, name, i - 1);
        }
      }
    }
  }

  lemma SetsInRange(views: seq<(string, map<string, View>)>, cell: string, name: string)
    ensures forall i :: SetsAt(views, cell, name, i) ==> 0 <= i < |views| && views[i].0 == cell && name in views[i].1
  {
  }

  lemma NoLaterSet(views: seq<(string, map<string, View>)>, cell: string, name: string)
    requires SetsAt(views, cell, name, 0)
    ensures !Sets(views[1..], cell, name)
  {
    forall j | 0 <= j < |views[1..]|
      ensures !(views[1..][j].0 == cell && name in views[1..][j].1)
    {
      assert views[j + 1] == views[1..][j];
    }
  }

  lemma {:induction false} LastSetExists(views: seq<(string, map<string, View>)>, cell: string, name: string)
      returns (i: int)
    requires Sets(views, cell, name)
    ensures SetsAt(views, cell, name, i)
  {
    var last := |views| - 1;
    if views[last].0 == cell && name in views[last].1 {
      i := last;
    } else {
      var k :| 0 <= k < |views| && views[k].0 == cell && name in views[k].1;
      assert views[..last][k] == views[k];
      i := LastSetExists(views[..last], cell, name);
    }
  }

  // ---- one representation ---------------------------------------------------------------------------------

  /** The views a representation leaves: its own, else what was there before and is not removed. */
  ghost predicate ViewsFollow(r: Representation, before: Artifact, after: Artifact) {
    && after.cells.Keys == before.cells.Keys
    && forall cell, name ::
        cell in before.cells ==> ViewFollows(r, cell, before.cells[cell].views, after.cells[cell].views, name)
  }

  ghost predicate ViewFollows(r: Representation, cell: string, before: map<string, View>, after: map<string, View>,
      name: string)
  {
    if Sets(r.views, cell, name)
    then name in after && forall i :: SetsAt(r.views, cell, name, i) ==> after[name] == r.views[i].1[name]
    else if Removes(r.removeViews, cell, name) then name !in after
    else SameView(before, after, name)
  }

  /** The presentation a representation leaves: its own with the authored capabilities, or the one before, and its
      appended slots at the end. */
  ghost predicate PresentationFollows(r: Representation, authored: Option<Presentation>, before: Option<Presentation>,
      after: Option<Presentation>)
  {
    var appended := if r.append.Some? then r.append.value else [];
    if r.presentation.Some? then
      && after.Some? && after.value.slots == r.presentation.value.0 + appended
      && after.value.body == r.presentation.value.1
      && Some(after.value.allowedCapabilities)
         == (if authored.Some? then Some(authored.value.allowedCapabilities)
             else if before.Some? then Some(before.value.allowedCapabilities) else None)
    else if before.Some? then
      after.Some? && after.value == before.value.(slots := before.value.slots + appended)
    else after.None? && r.append.None?
  }

  lemma RepresentationFollows(d: Draft, r: Representation, authored: Option<Presentation>)
    requires Represent(d, r, authored).Drafted?
    ensures var e := Represent(d, r, authored).draft;
            && ViewsFollow(r, d.artifact, e.artifact)
            && PresentationFollows(r, authored, d.presentation, e.presentation)
  {
    hide RemoveViews, UpsertViews;
    var removed := RemoveViews(d, r.removeViews).draft;
    var upserted := UpsertViews(removed, r.views).draft;
    ViewsLeavePresentation(d, r);
    SameCells(d, r);
    forall cell, name | cell in d.artifact.cells
      ensures ViewFollows(r, cell, d.artifact.cells[cell].views, upserted.artifact.cells[cell].views, name)
    {
      RemovedViews(d, r.removeViews, cell, name);
      UpsertedViews(removed, r.views, cell, name);
      if Sets(r.views, cell, name) {
        var i := LastSetExists(r.views, cell, name);
      }
    }
    if r.presentation.None? && d.presentation.Some? && r.append.None? {
      assert d.presentation.value.slots + [] == d.presentation.value.slots;
    }
    if r.presentation.Some? && r.append.None? {
      assert r.presentation.value.0 + [] == r.presentation.value.0;
    }
  }

  lemma SameCells(d: Draft, r: Representation)
    requires RemoveViews(d, r.removeViews).Drafted?
    requires UpsertViews(RemoveViews(d, r.removeViews).draft, r.views).Drafted?
    ensures UpsertViews(RemoveViews(d, r.removeViews).draft, r.views).draft.artifact.cells.Keys == d.artifact.cells.Keys
    ensures RemoveViews(d, r.removeViews).draft.artifact.cells.Keys == d.artifact.cells.Keys
  {
    RemoveViewsKeeps(d, r.removeViews);
    UpsertViewsKeeps(RemoveViews(d, r.removeViews).draft, r.views);
  }

  lemma ViewsLeavePresentation(d: Draft, r: Representation)
    requires RemoveViews(d, r.removeViews).Drafted?
    requires UpsertViews(RemoveViews(d, r.removeViews).draft, r.views).Drafted?
    ensures UpsertViews(RemoveViews(d, r.removeViews).draft, r.views).draft.presentation == d.presentation
  {
    RemoveViewsKeeps(d, r.removeViews);
    UpsertViewsKeeps(RemoveViews(d, r.removeViews).draft, r.views);
  }

  // ---- when a representation goes through -----------------------------------------------------------------

  /** The views to remove, one by one. */
  function Pairs(removals: seq<(string, seq<string>)>): seq<(string, string)> {
    if removals == [] then [] else PairsOf(removals[0].0, removals[0].1) + Pairs(removals[1..])
  }

  function PairsOf(cell: string, names: seq<string>): seq<(string, string)> {
    seq(|names|, i requires 0 <= i < |names| => (cell, names[i]))
  }

  ghost predicate DistinctPairs(pairs: seq<(string, string)>) {
    forall i, j :: 0 <= i < j < |pairs| ==> pairs[i] != pairs[j]
  }

  ghost predicate AllThere(a: Artifact, pairs: seq<(string, string)>) {
    forall pair :: pair in pairs ==> pair.0 in a.cells && pair.1 in a.cells[pair.0].views
  }

  ghost predicate Removable(a: Artifact, pairs: seq<(string, string)>) {
    DistinctPairs(pairs) && AllThere(a, pairs)
  }

  lemma RemovableFirst(a: Artifact, b: Artifact, first: (string, string), rest: seq<(string, string)>)
    requires first.0 in a.cells && first.1 in a.cells[first.0].views
    requires b == a.(cells := a.cells[first.0 := a.cells[first.0].(views := a.cells[first.0].views - {first.1})])
    ensures Removable(a, [first] + rest) <==> Removable(b, rest)
  {
    var all := [first] + rest;
    assert forall i :: 0 < i < |all| ==> all[i] == rest[i - 1];
    if Removable(a, all) {
      forall pair | pair in rest
        ensures pair.0 in b.cells && pair.1 in b.cells[pair.0].views
      {
        var k :| 0 <= k < |rest| && rest[k] == pair;
        assert all[k + 1] == pair && all[0] == first && pair in all;
      }
      forall i, j | 0 <= i < j < |rest|
        ensures rest[i] != rest[j]
      {
        assert all[i + 1] == rest[i] && all[j + 1] == rest[j];
      }
    }
    if Removable(b, rest) {
      forall i, j | 0 <= i < j < |all|
        ensures all[i] != all[j]
      {
        if i == 0 {
          assert rest[j - 1] in rest;
        }
      }
      forall pair | pair in all
        ensures pair.0 in a.cells && pair.1 in a.cells[pair.0].views
      {
        if pair != first {
          assert pair in rest;
        }
      }
    }
  }

  lemma {:induction false} RemoveOfIff(d: Draft, cell: string, names: seq<string>, rest: seq<(string, string)>)
    requires cell in d.artifact.cells
    ensures var removed := RemoveViewsOf(d, cell, names);
            && (removed.Rejected? ==> !Removable(d.artifact, PairsOf(cell, names) + rest))
            && (removed.Drafted? ==>
                  (Removable(d.artifact, PairsOf(cell, names) + rest) <==> Removable(removed.draft.artifact, rest)))
    decreases |names|
  {
    hide Removable;
    if names == [] {
      assert PairsOf(cell, names) + rest == rest;
    } else {
      assert PairsOf(cell, names) == [(cell, names[0])] + PairsOf(cell, names[1..]);
      assert PairsOf(cell, names) + rest == [(cell, names[0])] + (PairsOf(cell, names[1..]) + rest);
      var c := d.artifact.cells[cell];
      if names[0] in c.views {
        var cells := d.artifact.cells[cell := c.(views := c.views - {names[0]})];
        var next := d.(artifact := d.artifact.(cells := cells));
        RemovableFirst(d.artifact, next.artifact, (cell, names[0]), PairsOf(cell, names[1..]) + rest);
        RemoveOfIff(next, cell, names[1..], rest);
      } else {
        NotThere(d.artifact, (cell, names[0]), PairsOf(cell, names[1..]) + rest);
      }
    }
  }

  lemma NotThere(a: Artifact, first: (string, string), rest: seq<(string, string)>)
    requires !(first.0 in a.cells && first.1 in a.cells[first.0].views)
    ensures !Removable(a, [first] + rest)
  {
    assert first in [first] + rest;
  }

  ghost predicate KnownCells<T>(a: Artifact, entries: seq<(string, T)>) {
    forall i :: 0 <= i < |entries| ==> entries[i].0 in a.cells
  }

  /** Removals go through if and only if every cell is known and every view is there and named once. */
  lemma {:induction false} RemovalsGoThroughIff(d: Draft, removals: seq<(string, seq<string>)>)
    ensures RemoveViews(d, removals).Drafted? <==>
        KnownCells(d.artifact, removals)
        && Removable(d.artifact, Pairs(removals))
    decreases |removals|
  {
    hide Removable, RemoveViewsOf;
    if removals == [] {
      NothingRemovable(d.artifact);
    } else {
      assert forall i :: 0 < i < |removals| ==> removals[i] == removals[1..][i - 1];
      var (cell, names) := removals[0];
      if cell in d.artifact.cells {
        RemoveOfIff(d, cell, names, Pairs(removals[1..]));
        var first := RemoveViewsOf(d, cell, names);
        if first.Drafted? {
          RemoveViewsOfKeeps(d, cell, names);
          RemovalsGoThroughIff(first.draft, removals[1..]);
          KnownAfter(d.artifact, first.draft.artifact, removals[1..]);
          KnownFirst(d.artifact, removals);
        }
      }
    }
  }

  lemma NothingRemovable(a: Artifact)
    ensures Removable(a, Pairs([]))
  {
  }

  lemma KnownAfter<T>(a: Artifact, b: Artifact, entries: seq<(string, T)>)
    requires ProjectionSeam(a, b)
    ensures KnownCells(a, entries) <==> KnownCells(b, entries)
  {
  }

  lemma KnownFirst<T>(a: Artifact, entries: seq<(string, T)>)
    requires entries != []
    ensures KnownCells(a, entries) <==> entries[0].0 in a.cells && KnownCells(a, entries[1..])
  {
    assert forall i :: 0 < i < |entries| ==> entries[i] == entries[1..][i - 1];
    if entries[0].0 in a.cells && KnownCells(a, entries[1..]) {
      forall i | 0 <= i < |entries|
        ensures entries[i].0 in a.cells
      {
        if i > 0 {
          assert entries[1..][i - 1].0 in a.cells;
        }
      }
    }
    if KnownCells(a, entries) {
      forall i | 0 <= i < |entries[1..]|
        ensures entries[1..][i].0 in a.cells
      {
        assert entries[i + 1].0 in a.cells;
      }
    }
  }

  lemma {:induction false} UpsertsGoThroughIff(d: Draft, views: seq<(string, map<string, View>)>)
    ensures UpsertViews(d, views).Drafted? <==> KnownCells(d.artifact, views)
    decreases |views|
  {
    if views != [] {
      KnownFirst(d.artifact, views);
      var (id, more) := views[0];
      if id in d.artifact.cells {
        var all := d.artifact.cells[id].views + more;
        var next := d.(artifact := d.artifact.(cells := d.artifact.cells[id := d.artifact.cells[id].(views := all)]));
        UpsertsGoThroughIff(next, views[1..]);
        ViewsAlone(d.artifact, id, all);
        KnownAfter(d.artifact, next.artifact, views[1..]);
      }
    }
  }

  /** A representation goes through if and only if its cells are known, the views it removes are there and named
      once, it brings a presentation only where there is authority, and appends only to one. */
  lemma RepresentationGoesThroughIff(d: Draft, r: Representation, authored: Option<Presentation>)
    ensures Represent(d, r, authored).Drafted?
       <==> && KnownCells(d.artifact, r.removeViews) && Removable(d.artifact, Pairs(r.removeViews))
            && KnownCells(d.artifact, r.views)
            && (r.presentation.Some? ==> authored.Some? || d.presentation.Some?)
            && (r.append.Some? ==> r.presentation.Some? || d.presentation.Some?)
  {
    hide RemoveViews, UpsertViews, Removable;
    RemovalsGoThroughIff(d, r.removeViews);
    var removed := RemoveViews(d, r.removeViews);
    if removed.Drafted? {
      RemoveViewsKeeps(d, r.removeViews);
      UpsertsGoThroughIff(removed.draft, r.views);
      KnownAfter(d.artifact, removed.draft.artifact, r.views);
      if UpsertViews(removed.draft, r.views).Drafted? {
        UpsertViewsKeeps(removed.draft, r.views);
      }
    }
  }

  // ---- decorators ----------------------------------------------------------------------------------------

  ghost predicate ViewDecorated(d: Decorator, before: View, after: View) {
    && after.body == before.body
    && after.before == before.before + (if d.before.Some? then [d.before.value] else [])
    && after.after == before.after + (if d.after.Some? then [d.after.value] else [])
  }

  /** Every view of every selected cell is decorated once, however often the selector names the cell; all other
      cells stay. */
  ghost predicate CellsDecorated(d: Decorator, selected: set<string>, before: Artifact, after: Artifact) {
    && after.cells.Keys == before.cells.Keys
    && (forall cell :: cell in before.cells && cell !in selected ==> after.cells[cell] == before.cells[cell])
    && (forall cell :: cell in before.cells && cell in selected ==>
          && before.cells[cell].views != map[]
          && after.cells[cell].views.Keys == before.cells[cell].views.Keys
          && forall name :: name in before.cells[cell].views ==>
               ViewDecorated(d, before.cells[cell].views[name], after.cells[cell].views[name]))
  }

  function Named(cells: seq<string>): set<string> {
    set cell | cell in cells
  }

  lemma {:induction false} DecoratedCells(a: Artifact, r: Representation, d: Decorator, cells: seq<string>,
      done: set<string>)
    requires DecorateCells(a, r, d, cells, done).Lowered?
    ensures var b := DecorateCells(a, r, d, cells, done).artifact;
            && Named(cells) - done <= a.cells.Keys
            && CellsDecorated(d, Named(cells) - done, a, b) && b.externals == a.externals
    decreases |cells|
  {
    hide DecorateView;
    if cells != [] {
      assert Named(cells) == {cells[0]} + Named(cells[1..]) by {
        assert cells == [cells[0]] + cells[1..];
      }
      if cells[0] in done {
        DecoratedCells(a, r, d, cells[1..], done);
        assert Named(cells) - done == Named(cells[1..]) - done;
      } else {
        var c := a.cells[cells[0]];
        var decorated := c.(views := map name | name in c.views :: DecorateView(c.views[name], d));
        var next := a.(cells := a.cells[cells[0] := decorated]);
        DecoratedCells(next, r, d, cells[1..], done + {cells[0]});
        DecorateOne(a, d, cells[0]);
        assert Named(cells) - done == {cells[0]} + (Named(cells[1..]) - (done + {cells[0]}));
        var b := DecorateCells(a, r, d, cells, done).artifact;
        assert b == DecorateCells(next, r, d, cells[1..], done + {cells[0]}).artifact;
        DecoratedBoth(d, cells[0], Named(cells[1..]) - (done + {cells[0]}), a, next, b);
      }
    }
  }

  lemma DecorateOne(a: Artifact, d: Decorator, cell: string)
    requires cell in a.cells && a.cells[cell].views != map[]
    ensures var c := a.cells[cell];
            var decorated := c.(views := map name | name in c.views :: DecorateView(c.views[name], d));
            CellsDecorated(d, {cell}, a, a.(cells := a.cells[cell := decorated]))
  {
    forall name | name in a.cells[cell].views
      ensures ViewDecorated(d, a.cells[cell].views[name], DecorateView(a.cells[cell].views[name], d))
    {
      OneViewDecorated(a.cells[cell].views[name], d);
    }
    hide ViewDecorated, DecorateView;
  }

  lemma OneViewDecorated(v: View, d: Decorator)
    ensures ViewDecorated(d, v, DecorateView(v, d))
  {
    assert v.before + [] == v.before && v.after + [] == v.after;
  }

  lemma DecoratedBoth(d: Decorator, cell: string, rest: set<string>, a: Artifact, b: Artifact, c: Artifact)
    requires cell !in rest && cell in a.cells
    requires CellsDecorated(d, {cell}, a, b) && CellsDecorated(d, rest, b, c)
    ensures CellsDecorated(d, {cell} + rest, a, c)
  {
    hide ViewDecorated;
  }

  /** A declared capability is in use under its alias, beside what was; nothing else of the externals moves. */
  ghost predicate CapabilityDeclared(capability: string, before: map<string, External>, after: map<string, External>) {
    exists alias, name :: NamesAndDeclares(capability, alias, name, before, after)
  }

  ghost predicate NamesAndDeclares(capability: string, alias: string, name: string, before: map<string, External>,
      after: map<string, External>)
  {
    && NamesCapability(capability, alias, name)
    && after.Keys == before.Keys + {alias}
    && (forall other :: other in before && other != alias ==> after[other] == before[other])
    && after[alias].origin == (if alias in before then before[alias].origin else alias)
    && after[alias].use == (if alias in before then before[alias].use else {}) + {name}
  }

  lemma {:induction false} ColonIsFirst(s: string)
    ensures forall i :: 0 <= i < Colon(s) ==> s[i] != ':'
  {
    if s != "" && s[0] != ':' {
      ColonIsFirst(s[1..]);
      assert forall i :: 0 < i < Colon(s) ==> s[i] == s[1..][i - 1];
    }
  }

  ghost predicate NamesCapability(capability: string, alias: string, name: string) {
    capability == alias + ":" + name && alias != "" && name != "" && ':' !in alias
  }

  lemma WellNamedIff(capability: string)
    ensures WellNamed(capability) <==> exists alias, name :: NamesCapability(capability, alias, name)
    ensures WellNamed(capability) ==>
              NamesCapability(capability, capability[..Colon(capability)], capability[Colon(capability) + 1..])
  {
    ColonIsFirst(capability);
    var at := Colon(capability);
    if WellNamed(capability) {
      assert capability == capability[..at] + ":" + capability[at + 1..];
      assert NamesCapability(capability, capability[..at], capability[at + 1..]);
    }
    if alias, name :| NamesCapability(capability, alias, name) {
      ColonAfter(alias, name);
    }
  }

  /** Declaring goes through exactly for `alias:name`, both non-empty. */
  lemma CapabilityIsDeclared(a: Artifact, capability: string)
    ensures DeclareCapability(a, capability).Lowered?
       <==> exists alias, name :: NamesCapability(capability, alias, name)
    ensures DeclareCapability(a, capability).Lowered? ==>
              var b := DeclareCapability(a, capability).artifact;
              b == a.(externals := b.externals) && CapabilityDeclared(capability, a.externals, b.externals)
  {
    hide Colon, NamesCapability;
    WellNamedIff(capability);
    if WellNamed(capability) {
      var at := Colon(capability);
      var b := DeclareCapability(a, capability).artifact;
      assert NamesAndDeclares(capability, capability[..at], capability[at + 1..], a.externals, b.externals);
    }
  }

  lemma {:induction false} ColonAfter(alias: string, name: string)
    requires ':' !in alias
    ensures Colon(alias + ":" + name) == |alias|
  {
    var s := alias + ":" + name;
    if alias != "" {
      assert s[0] == alias[0] && alias[0] in alias;
      assert s[1..] == alias[1..] + ":" + name;
      ColonAfter(alias[1..], name);
    }
  }

  /** A decorator declares its capabilities and then decorates what its selector names in the artifact. */
  lemma DecoratorFollows(select: Selector, a: Artifact, r: Representation, d: Decorator)
    requires Decorate(select, a, r, d).Lowered?
    ensures var b := Decorate(select, a, r, d).artifact;
            var declared := DeclareBoth(a, d).artifact;
            && DeclareBoth(a, d).Lowered? && declared == a.(externals := declared.externals)
            && select(d.select, declared).Some?
            && CellsDecorated(d, Named(select(d.select, declared).value), a, b) && b.externals == declared.externals
  {
    hide DecorateCells, DeclareCapability, CellsDecorated;
    if d.before.Some? {
      CapabilityIsDeclared(a, d.before.value.capability);
    }
    if d.after.Some? {
      var before := if d.before.Some? then DeclareCapability(a, d.before.value.capability) else Lowered(a);
      CapabilityIsDeclared(before.artifact, d.after.value.capability);
    }
    var declared := DeclareBoth(a, d).artifact;
    var cells := select(d.select, declared).value;
    DecoratedCells(declared, r, d, cells, {});
    assert Named(cells) - {} == Named(cells);
    SameCellsDecorated(d, Named(cells), a, declared, Decorate(select, a, r, d).artifact);
  }

  lemma SameCellsDecorated(d: Decorator, selected: set<string>, a: Artifact, declared: Artifact, b: Artifact)
    requires declared == a.(externals := declared.externals) && CellsDecorated(d, selected, declared, b)
    ensures CellsDecorated(d, selected, a, b)
  {
  }

  // ---- the stage --------------------------------------------------------------------------------------------

  /** Draft by draft along the lineage: each representation's views and presentation follow the one before. */
  ghost predicate Drafts(authored: Option<Presentation>, chain: seq<Representation>, drafts: seq<Draft>) {
    && |drafts| == |chain| + 1
    && forall i :: 0 <= i < |chain| ==>
         && ViewsFollow(chain[i], drafts[i].artifact, drafts[i + 1].artifact)
         && PresentationFollows(chain[i], authored, drafts[i].presentation, drafts[i + 1].presentation)
  }

  lemma {:induction false} ChainDrafts(d: Draft, chain: seq<Representation>, authored: Option<Presentation>)
      returns (drafts: seq<Draft>)
    requires RepresentAll(d, chain, authored).Drafted?
    ensures Drafts(authored, chain, drafts) && drafts[0] == d
        && drafts[|chain|] == RepresentAll(d, chain, authored).draft
    decreases |chain|
  {
    hide Represent, ViewsFollow, PresentationFollows;
    if chain == [] {
      drafts := [d];
    } else {
      RepresentationFollows(d, chain[0], authored);
      var rest := ChainDrafts(Represent(d, chain[0], authored).draft, chain[1..], authored);
      drafts := [d] + rest;
      forall i | 0 < i < |chain|
        ensures ViewsFollow(chain[i], drafts[i].artifact, drafts[i + 1].artifact)
                && PresentationFollows(chain[i], authored, drafts[i].presentation, drafts[i + 1].presentation)
      {
        assert chain[i] == chain[1..][i - 1] && drafts[i] == rest[i - 1] && drafts[i + 1] == rest[i];
      }
    }
  }

  /** The decorators of the whole lineage, ancestors first. */
  function AllDecorators(chain: seq<Representation>): seq<Decorator> {
    if chain == [] then [] else chain[0].decorators + AllDecorators(chain[1..])
  }

  /** One decorator applied to an artifact. */
  ghost predicate Decorated(select: Selector, d: Decorator, a: Artifact, b: Artifact) {
    var declared := DeclareBoth(a, d);
    && declared.Lowered? && declared.artifact == a.(externals := declared.artifact.externals)
    && select(d.select, declared.artifact).Some?
    && CellsDecorated(d, Named(select(d.select, declared.artifact).value), a, b)
    && b.externals == declared.artifact.externals
  }

  ghost predicate Decorations(select: Selector, decorators: seq<Decorator>, artifacts: seq<Artifact>) {
    && |artifacts| == |decorators| + 1
    && forall i :: 0 <= i < |decorators| ==> Decorated(select, decorators[i], artifacts[i], artifacts[i + 1])
  }

  lemma DecorationsJoin(select: Selector, x: seq<Decorator>, y: seq<Decorator>, a: seq<Artifact>, b: seq<Artifact>)
    requires Decorations(select, x, a) && Decorations(select, y, b) && a[|x|] == b[0]
    ensures Decorations(select, x + y, a + b[1..])
  {
    hide Decorated;
    var all := a + b[1..];
    forall i | 0 <= i < |x + y|
      ensures Decorated(select, (x + y)[i], all[i], all[i + 1])
    {
      if i < |x| {
        assert all[i] == a[i] && all[i + 1] == a[i + 1];
      } else {
        assert all[i] == b[i - |x|] && all[i + 1] == b[i - |x| + 1] && (x + y)[i] == y[i - |x|];
      }
    }
  }

  lemma {:induction false} OneRepresentationDecorates(select: Selector, a: Artifact, r: Representation,
      decorators: seq<Decorator>) returns (artifacts: seq<Artifact>)
    requires DecorateAll(select, a, r, decorators).Lowered?
    ensures Decorations(select, decorators, artifacts) && artifacts[0] == a
    ensures artifacts[|decorators|] == DecorateAll(select, a, r, decorators).artifact
    decreases |decorators|
  {
    hide Decorate, Decorated;
    if decorators == [] {
      artifacts := [a];
    } else {
      var next := Decorate(select, a, r, decorators[0]).artifact;
      OneDecorates(select, a, r, decorators[0]);
      var rest := OneRepresentationDecorates(select, next, r, decorators[1..]);
      artifacts := [a] + rest;
      forall i | 0 < i < |decorators|
        ensures Decorated(select, decorators[i], artifacts[i], artifacts[i + 1])
      {
        assert decorators[i] == decorators[1..][i - 1] && artifacts[i] == rest[i - 1] && artifacts[i + 1] == rest[i];
      }
    }
  }

  lemma OneDecorates(select: Selector, a: Artifact, r: Representation, d: Decorator)
    requires Decorate(select, a, r, d).Lowered?
    ensures Decorated(select, d, a, Decorate(select, a, r, d).artifact)
  {
    DecoratorFollows(select, a, r, d);
  }

  lemma {:induction false} ChainDecorates(select: Selector, a: Artifact, chain: seq<Representation>)
      returns (artifacts: seq<Artifact>)
    requires DecorateChain(select, a, chain).Lowered?
    ensures Decorations(select, AllDecorators(chain), artifacts) && artifacts[0] == a
    ensures artifacts[|AllDecorators(chain)|] == DecorateChain(select, a, chain).artifact
    decreases |chain|
  {
    hide DecorateAll, Decorated;
    if chain == [] {
      artifacts := [a];
    } else {
      var first := OneRepresentationDecorates(select, a, chain[0], chain[0].decorators);
      var rest := ChainDecorates(select, DecorateAll(select, a, chain[0], chain[0].decorators).artifact, chain[1..]);
      DecorationsJoin(select, chain[0].decorators, AllDecorators(chain[1..]), first, rest);
      artifacts := first + rest[1..];
    }
  }

  /** A stage that goes through: draft by draft along the lineage, then decorator by decorator, and at the end the
      presentation of the last draft. */
  lemma StageFollows(select: Selector, a: Artifact, chain: seq<Representation>)
      returns (drafts: seq<Draft>, artifacts: seq<Artifact>)
    requires ProjectionStage(select, a, chain).Lowered?
    ensures Drafts(a.presentation, chain, drafts) && drafts[0] == Draft(a, a.presentation)
    ensures Decorations(select, AllDecorators(chain), artifacts) && artifacts[0] == drafts[|chain|].artifact
    ensures drafts[|chain|].presentation.Some?
    ensures ProjectionStage(select, a, chain).artifact
         == artifacts[|AllDecorators(chain)|].(presentation := drafts[|chain|].presentation)
  {
    hide RepresentAll, DecorateChain, Decorated, ViewsFollow, PresentationFollows;
    drafts := ChainDrafts(Draft(a, a.presentation), chain, a.presentation);
    artifacts := ChainDecorates(select, drafts[|chain|].artifact, chain);
  }
}
