/** The projection axis of lowering, and both axes together
    (blueprint/src/fixed-lowering-meta-graph.ts:207-246, 270-340, 366-442). */
module ProjectionLowering {
  import opened Json
  import opened ServiceLowering

  datatype Decorator = Decorator(select: string, before: Option<Decoration>, after: Option<Decoration>)

  /** An empty `parent` stands for none. */
  datatype Representation = Representation(
    id: string,
    when: Option<string>,
    parent: string,
    removeViews: seq<(string, seq<string>)>,
    views: seq<(string, map<string, View>)>,
    decorators: seq<Decorator>,
    presentation: Option<(seq<Json>, Json)>,
    append: Option<seq<Json>>)

  datatype ProjectionRecipe = ProjectionRecipe(id: string, representations: seq<Representation>, fallback: string)

  /** What a decorator's selector evaluates to: cell ids, or None for anything else. */
  type Selector = (string, Artifact) -> Option<seq<string>>

  // ---- inheritance ------------------------------------------------------------------------------

  function LastRepresentation(representations: seq<Representation>, id: string): Option<Representation> {
    if representations == [] then None
    else if representations[|representations| - 1].id == id then Some(representations[|representations| - 1])
    else LastRepresentation(representations[..|representations| - 1], id)
  }

  lemma {:induction false} LastRepresentationFound(representations: seq<Representation>, id: string)
    ensures var r := LastRepresentation(representations, id); r.Some? ==> r.value in representations && r.value.id == id
  {
    if representations != [] {
      LastRepresentationFound(representations[..|representations| - 1], id);
    }
  }

  datatype Inherited = Chain(chain: seq<Representation>) | Broken(refusal: Refusal)

  /** Ancestors first; each extends the one before it, the first extends none. */
  ghost predicate Lineage(representations: seq<Representation>, chain: seq<Representation>) {
    && chain != [] && chain[0].parent == ""
    && forall i :: 0 < i < |chain| ==>
        chain[i].parent != ""
        && LastRepresentation(representations, chain[i].parent) == Some(chain[i - 1])
  }

  ghost function Ids(representations: seq<Representation>): set<string> {
    set r | r in representations :: r.id
  }

  /** The walk so far, from a representation down to the selected one. */
  ghost predicate Descends(representations: seq<Representation>, chain: seq<Representation>) {
    forall i :: 0 < i < |chain| ==>
        chain[i].parent != ""
        && LastRepresentation(representations, chain[i].parent) == Some(chain[i - 1])
  }

  ghost predicate HasLineage(representations: seq<Representation>, selected: Representation) {
    exists chain :: Lineage(representations, chain) && chain[|chain| - 1] == selected
  }

  lemma IdsGrow(representations: seq<Representation>, current: Representation, chain: seq<Representation>)
    ensures Ids([current] + chain) == Ids(chain) + {current.id}
    ensures current in representations ==> current.id in Ids(representations)
  {
    forall id
      ensures id in Ids([current] + chain) <==> id in Ids(chain) + {current.id}
    {
      if id in Ids(chain) + {current.id} && id != current.id {
        var r :| r in chain && r.id == id;
        assert r in [current] + chain;
      }
    }
  }

  lemma ParentDescends(representations: seq<Representation>, parent: Representation, walk: seq<Representation>)
    requires walk != [] && Descends(representations, walk)
    requires walk[0].parent != "" && LastRepresentation(representations, walk[0].parent) == Some(parent)
    ensures Descends(representations, [parent] + walk)
  {
    hide LastRepresentation;
    forall i | 0 < i < |[parent] + walk|
      ensures ([parent] + walk)[i].parent != "" && LastRepresentation(representations, ([parent] + walk)[i].parent)
          == Some(([parent] + walk)[i - 1])
    {
      assert ([parent] + walk)[i] == walk[i - 1];
    }
  }

  /** Everything on the walk but the selected one is the representation its id finds. */
  ghost predicate Known(representations: seq<Representation>, walk: seq<Representation>, selected: Representation) {
    forall c :: c in walk ==> c == selected || LastRepresentation(representations, c.id) == Some(c)
  }

  lemma SameIdIsSame(representations: seq<Representation>, current: Representation, chain: seq<Representation>,
      selected: Representation)
    requires Known(representations, [current] + chain, selected) && current.id in Ids(chain)
    requires LastRepresentation(representations, selected.id) == Some(selected)
    ensures current in chain
  {
    hide LastRepresentation;
    var again :| again in chain && again.id == current.id;
    assert again in [current] + chain && current in [current] + chain;
  }

  /** The inheritance loop.  What it returns is a lineage; and unless another representation of the same id
      hides the selected one, it fails, with a cycle or an unknown ancestor, only where there is none. */
  method InheritanceChain(representations: seq<Representation>, selected: Representation) returns (r: Inherited)
    requires selected in representations
    ensures r.Chain? ==> Lineage(representations, r.chain) && r.chain[|r.chain| - 1] == selected
    ensures LastRepresentation(representations, selected.id) == Some(selected)
        ==> (r.Chain? <==> HasLineage(representations, selected))
    ensures r.Broken? ==> r.refusal.InheritanceCycle? || r.refusal.UnknownRepresentation?
  {
    hide LastRepresentation, Ids, Descends, Known;
    var chain: seq<Representation> := [];
    var seen: set<string> := {};
    var current := selected;
    WalkStarts(representations, selected);
    while true
      invariant Descends(representations, [current] + chain) && ([current] + chain)[|chain|] == selected
      invariant seen == Ids(chain) && seen <= Ids(representations)
      invariant current in representations
      invariant Known(representations, [current] + chain, selected)
      decreases Ids(representations) - seen
    {
      if current.id in seen {
        if LastRepresentation(representations, selected.id) == Some(selected) {
          SameIdIsSame(representations, current, chain, selected);
          NoLineageWithCycle(representations, current, chain, selected);
        }
        return Broken(InheritanceCycle(current.id));
      }
      IdsGrow(representations, current, chain);
      seen := seen + {current.id};
      chain := [current] + chain;
      if current.parent == "" {
        WalkFromTheTop(representations, chain, selected);
        return Chain(chain);
      }
      var parent := LastRepresentation(representations, current.parent);
      if parent.None? {
        NoLineageWithoutParent(representations, chain, selected);
        return Broken(UnknownRepresentation(current.parent));
      }
      LastRepresentationFound(representations, current.parent);
      ParentDescends(representations, parent.value, chain);
      ParentKnown(representations, parent.value, chain, selected);
      current := parent.value;
    }
  }

  lemma WalkStarts(representations: seq<Representation>, selected: Representation)
    ensures Descends(representations, [selected] + []) && Known(representations, [selected] + [], selected)
        && Ids([]) == {}
  {
  }

  lemma ParentKnown(representations: seq<Representation>, parent: Representation, walk: seq<Representation>,
      selected: Representation)
    requires Known(representations, walk, selected) && LastRepresentation(representations, parent.id) == Some(parent)
    ensures Known(representations, [parent] + walk, selected)
  {
  }

  lemma WalkFromTheTop(representations: seq<Representation>, chain: seq<Representation>, selected: Representation)
    requires Descends(representations, chain) && chain != [] && chain[0].parent == "" && chain[|chain| - 1] == selected
    ensures Lineage(representations, chain) && HasLineage(representations, selected)
  {
  }

  /** A walk down from some ancestor is the end of every lineage of where it ends. */
  lemma {:induction false} WalkIsSuffix(representations: seq<Representation>, walk: seq<Representation>,
      lineage: seq<Representation>, k: nat)
    requires walk != [] && Descends(representations, walk) && Lineage(representations, lineage)
    requires walk[|walk| - 1] == lineage[|lineage| - 1] && k < |walk|
    ensures k < |lineage| && walk[|walk| - 1 - k] == lineage[|lineage| - 1 - k]
  {
    if k > 0 {
      WalkIsSuffix(representations, walk, lineage, k - 1);
      var child := walk[|walk| - k];
      assert child.parent != "";
    }
  }

  /** A lineage cannot meet a representation twice: it would have no beginning. */
  lemma {:induction false} LineageMeetsOnce(representations: seq<Representation>, lineage: seq<Representation>, i: nat,
      j: nat)
    requires Lineage(representations, lineage) && i < j < |lineage|
    ensures lineage[i] != lineage[j]
    decreases i
  {
    if i > 0 {
      LineageMeetsOnce(representations, lineage, i - 1, j - 1);
    }
  }

  lemma NoLineageWithCycle(representations: seq<Representation>, current: Representation, chain: seq<Representation>,
      selected: Representation)
    requires Descends(representations, [current] + chain) && ([current] + chain)[|chain|] == selected
    requires current in chain
    ensures forall lineage :: !(Lineage(representations, lineage) && lineage[|lineage| - 1] == selected)
  {
    var walk := [current] + chain;
    var at :| 0 <= at < |chain| && chain[at] == current;
    forall lineage
      ensures !(Lineage(representations, lineage) && lineage[|lineage| - 1] == selected)
    {
      if Lineage(representations, lineage) && lineage[|lineage| - 1] == selected {
        WalkIsSuffix(representations, walk, lineage, |walk| - 1);
        WalkIsSuffix(representations, walk, lineage, |walk| - 2 - at);
        LineageMeetsOnce(representations, lineage, |lineage| - |walk|, |lineage| - |walk| + at + 1);
      }
    }
  }

  lemma BeginningHasNoParent(representations: seq<Representation>, lineage: seq<Representation>, i: nat)
    requires Lineage(representations, lineage) && i < |lineage|
    ensures lineage[i].parent == "" || LastRepresentation(representations, lineage[i].parent).Some?
  {
    if i > 0 {
      assert LastRepresentation(representations, lineage[i].parent) == Some(lineage[i - 1]);
    }
  }

  lemma NoLineageWithoutParent(representations: seq<Representation>, walk: seq<Representation>,
      selected: Representation)
    requires walk != [] && Descends(representations, walk) && walk[|walk| - 1] == selected
    requires walk[0].parent != "" && LastRepresentation(representations, walk[0].parent).None?
    ensures forall lineage :: !(Lineage(representations, lineage) && lineage[|lineage| - 1] == selected)
  {
    forall lineage
      ensures !(Lineage(representations, lineage) && lineage[|lineage| - 1] == selected)
    {
      if Lineage(representations, lineage) && lineage[|lineage| - 1] == selected {
        WalkIsSuffix(representations, walk, lineage, |walk| - 1);
        BeginningHasNoParent(representations, lineage, |lineage| - |walk|);
      }
    }
  }

  // ---- one representation ---------------------------------------------------------------------------

  /** What a stage works on: the artifact and the presentation it is going to have. */
  datatype Draft = Draft(artifact: Artifact, presentation: Option<Presentation>)

  datatype Drafted = Drafted(draft: Draft) | Rejected(refusal: Refusal)

  function RemoveViewsOf(d: Draft, cell: string, names: seq<string>): Drafted
    requires cell in d.artifact.cells
    decreases |names|
  {
    if names == [] then Drafted(d)
    else
      var c := d.artifact.cells[cell];
      if names[0] !in c.views then Rejected(UnknownView(cell, names[0]))
      else
        var cells := d.artifact.cells[cell := c.(views := c.views - {names[0]})];
        RemoveViewsOf(d.(artifact := d.artifact.(cells := cells)), cell, names[1..])
  }

  function RemoveViews(d: Draft, removals: seq<(string, seq<string>)>): Drafted
    decreases |removals|
  {
    if removals == [] then Drafted(d)
    else if removals[0].0 !in d.artifact.cells then Rejected(UnknownCell(removals[0].0))
    else
      var first := RemoveViewsOf(d, removals[0].0, removals[0].1);
      if first.Rejected? then first else RemoveViews(first.draft, removals[1..])
  }

  function UpsertViews(d: Draft, views: seq<(string, map<string, View>)>): Drafted
    decreases |views|
  {
    if views == [] then Drafted(d)
    else if views[0].0 !in d.artifact.cells then Rejected(UnknownCell(views[0].0))
    else
      var c := d.artifact.cells[views[0].0];
      UpsertViews(d.(artifact := d.artifact.(cells := d.artifact.cells[views[0].0 := c.(views := c.views
          + views[0].1)])), views[1..])
  }

  /** `authored` is the presentation the stage started from: it alone holds the authority over capabilities. */
  function Present(d: Draft, r: Representation, authored: Option<Presentation>): Drafted {
    var allowed := if authored.Some? then Some(authored.value.allowedCapabilities)
                   else if d.presentation.Some? then Some(d.presentation.value.allowedCapabilities)
                   else None;
    if r.presentation.Some? && allowed.None? then Rejected(NoAuthority(r.id))
    else
      var replaced := if r.presentation.Some?
          then Some(Presentation(r.presentation.value.0, r.presentation.value.1, allowed.value)) else d.presentation;
      if r.append.Some? && replaced.None? then Rejected(NoPresentation)
      else
        Drafted(d.(presentation :=
          if r.append.Some? then Some(replaced.value.(slots := replaced.value.slots + r.append.value)) else replaced))
  }

  function Represent(d: Draft, r: Representation, authored: Option<Presentation>): Drafted {
    var removed := RemoveViews(d, r.removeViews);
    if removed.Rejected? then removed
    else
      var upserted := UpsertViews(removed.draft, r.views);
      if upserted.Rejected? then upserted else Present(upserted.draft, r, authored)
  }

  function RepresentAll(d: Draft, chain: seq<Representation>, authored: Option<Presentation>): Drafted
    decreases |chain|
  {
    if chain == [] then Drafted(d)
    else
      var first := Represent(d, chain[0], authored);
      if first.Rejected? then first else RepresentAll(first.draft, chain[1..], authored)
  }

  // ---- decorators --------------------------------------------------------------------------------------

  /** `alias:name`, both non-empty; split at the first colon. */
  function Colon(s: string): (i: nat)
    ensures i <= |s|
    ensures i < |s| ==> s[i] == ':'
  {
    if s == "" || s[0] == ':' then 0 else 1 + Colon(s[1..])
  }

  predicate WellNamed(capability: string) {
    0 < Colon(capability) < |capability| - 1
  }

  function DeclareCapability(a: Artifact, capability: string): Lowered {
    if !WellNamed(capability) then Refused(BadCapability(capability))
    else
      var at := Colon(capability);
      var alias, name := capability[..at], capability[at + 1..];
      Lowered(a.(externals := a.externals[alias :=
        if alias in a.externals then a.externals[alias].(use := a.externals[alias].use + {name})
            else External(alias, {name})]))
  }

  function DeclareBoth(a: Artifact, d: Decorator): Lowered {
    var before := if d.before.Some? then DeclareCapability(a, d.before.value.capability) else Lowered(a);
    if before.Refused? || d.after.None? then before else DeclareCapability(before.artifact, d.after.value.capability)
  }

  function DecorateView(v: View, d: Decorator): View {
    v.(before := if d.before.Some? then v.before + [d.before.value] else v.before,
       after := if d.after.Some? then v.after + [d.after.value] else v.after)
  }

  /** Every view of every selected cell; `done` holds the cells already decorated, for a selector may name one
      twice. */
  function DecorateCells(a: Artifact, r: Representation, d: Decorator, cells: seq<string>, done: set<string>): Lowered
    decreases |cells|
  {
    if cells == [] then Lowered(a)
    else if cells[0] in done then DecorateCells(a, r, d, cells[1..], done)
    else if cells[0] !in a.cells then Refused(UnknownCell(cells[0]))
    else if a.cells[cells[0]].views == map[] then Refused(BadSelection(r.id))
    else
      var c := a.cells[cells[0]];
      var decorated := c.(views := map name | name in c.views :: DecorateView(c.views[name], d));
      DecorateCells(a.(cells := a.cells[cells[0] := decorated]), r, d, cells[1..], done + {cells[0]})
  }

  function Decorate(select: Selector, a: Artifact, r: Representation, d: Decorator): Lowered {
    var declared := DeclareBoth(a, d);
    if declared.Refused? then declared
    else
      var cells := select(d.select, declared.artifact);
      if cells.None? then Refused(BadSelection(r.id)) else DecorateCells(declared.artifact, r, d, cells.value, {})
  }

  function DecorateAll(select: Selector, a: Artifact, r: Representation, decorators: seq<Decorator>): Lowered
    decreases |decorators|
  {
    if decorators == [] then Lowered(a)
    else
      var first := Decorate(select, a, r, decorators[0]);
      if first.Refused? then first else DecorateAll(select, first.artifact, r, decorators[1..])
  }

  function DecorateChain(select: Selector, a: Artifact, chain: seq<Representation>): Lowered
    decreases |chain|
  {
    if chain == [] then Lowered(a)
    else
      var first := DecorateAll(select, a, chain[0], chain[0].decorators);
      if first.Refused? then first else DecorateChain(select, first.artifact, chain[1..])
  }

  // ---- one stage ----------------------------------------------------------------------------------------

  ghost predicate UniqueRepresentations(representations: seq<Representation>) {
    forall i, j :: 0 <= i < j < |representations| ==> representations[i].id != representations[j].id
  }

  /** What a stage does once the inheritance chain is known. */
  function ProjectionStage(select: Selector, a: Artifact, chain: seq<Representation>): Lowered {
    var drafted := RepresentAll(Draft(a, a.presentation), chain, a.presentation);
    if drafted.Rejected? then Refused(drafted.refusal)
    else
      var decorated := DecorateChain(select, drafted.draft.artifact, chain);
      if decorated.Refused? then decorated
      else if drafted.draft.presentation.None? then Refused(NoPresentation)
      else Lowered(decorated.artifact.(presentation := drafted.draft.presentation))
  }

  /** applyProjectionRecipe: the stage of the selected representation's lineage, or a refusal where it has none. */
  method ApplyProjectionRecipe(holds: Condition, select: Selector, a: Artifact,
      recipe: ProjectionRecipe) returns (r: Lowered, chain: seq<Representation>)
    ensures Selected(holds, recipe).None? ==> r == Refused(UnknownFallback(recipe.id))
    ensures chain != [] ==>
              Lineage(recipe.representations, chain) && Selected(holds, recipe) == Some(chain[|chain| - 1])
                  && r == ProjectionStage(select, a, chain)
    ensures chain == [] ==> r.Refused?
    ensures && UniqueRepresentations(recipe.representations) && Selected(holds, recipe).Some?
            && HasLineage(recipe.representations, Selected(holds, recipe).value)
            ==> chain != []
  {
    chain := [];
    var selected := Selected(holds, recipe);
    if selected.None? {
      return Refused(UnknownFallback(recipe.id)), chain;
    }
    SelectedIsMember(holds, recipe);
    if UniqueRepresentations(recipe.representations) {
      MemberIsLast(recipe.representations, selected.value);
    }
    var inherited := InheritanceChain(recipe.representations, selected.value);
    if inherited.Broken? {
      return Refused(inherited.refusal), chain;
    }
    chain := inherited.chain;
    var draft := Draft(a, a.presentation);
    for i := 0 to |chain|
      invariant RepresentAll(Draft(a, a.presentation), chain, a.presentation)
          == RepresentAll(draft, chain[i..], a.presentation)
    {
      var next := Represent(draft, chain[i], a.presentation);
      assert chain[i..][1..] == chain[i + 1..];
      if next.Rejected? {
        return Refused(next.refusal), chain;
      }
      draft := next.draft;
    }
    var artifact := draft.artifact;
    for i := 0 to |chain|
      invariant DecorateChain(select, draft.artifact, chain) == DecorateChain(select, artifact, chain[i..])
    {
      var next := DecorateAll(select, artifact, chain[i], chain[i].decorators);
      assert chain[i..][1..] == chain[i + 1..];
      if next.Refused? {
        return next, chain;
      }
      artifact := next.artifact;
    }
    if draft.presentation.None? {
      return Refused(NoPresentation), chain;
    }
    r := Lowered(artifact.(presentation := draft.presentation));
  }

  function FirstRepresentation(holds: Condition, representations: seq<Representation>): Option<Representation> {
    if representations == [] then None
    else if representations[0].when.Some? && holds(representations[0].when.value) then Some(representations[0])
    else FirstRepresentation(holds, representations[1..])
  }

  function Selected(holds: Condition, recipe: ProjectionRecipe): Option<Representation> {
    var first := FirstRepresentation(holds, recipe.representations);
    if first.Some? then first else LastRepresentation(recipe.representations, recipe.fallback)
  }

  lemma {:induction false} FirstIsMember(holds: Condition, representations: seq<Representation>)
    ensures var r := FirstRepresentation(holds, representations); r.Some? ==> r.value in representations
  {
    if representations != [] {
      FirstIsMember(holds, representations[1..]);
    }
  }

  lemma {:induction false} MemberIsLast(representations: seq<Representation>, r: Representation)
    requires UniqueRepresentations(representations) && r in representations
    ensures LastRepresentation(representations, r.id) == Some(r)
  {
    var last := |representations| - 1;
    var i :| 0 <= i < |representations| && representations[i] == r;
    if i < last {
      assert representations[..last][i] == r;
      MemberIsLast(representations[..last], r);
    }
  }

  lemma SelectedIsMember(holds: Condition, recipe: ProjectionRecipe)
    requires Selected(holds, recipe).Some?
    ensures Selected(holds, recipe).value in recipe.representations
  {
    FirstIsMember(holds, recipe.representations);
    LastRepresentationFound(recipe.representations, recipe.fallback);
  }

  // ---- what a stage keeps ----------------------------------------------------------------------------------

  /** The seam of the projection axis: nothing of a cell but its views, no service, no contract; declared
      externals only grow. */
  ghost predicate ProjectionSeam(a: Artifact, b: Artifact) {
    && SameServiceSide(a, b)
    && a.externals.Keys <= b.externals.Keys
    && forall alias :: alias in a.externals ==>
        b.externals[alias].origin == a.externals[alias].origin
        && a.externals[alias].use <= b.externals[alias].use
  }

  lemma ProjectionSeamComposes(a: Artifact, b: Artifact, c: Artifact)
    requires ProjectionSeam(a, b) && ProjectionSeam(b, c)
    ensures ProjectionSeam(a, c)
  {
  }

  lemma ProjectionSeamReflexive(a: Artifact)
    ensures ProjectionSeam(a, a)
  {
  }

  lemma ViewsAlone(a: Artifact, cell: string, views: map<string, View>)
    requires cell in a.cells
    ensures ProjectionSeam(a, a.(cells := a.cells[cell := a.cells[cell].(views := views)]))
  {
  }

  lemma {:induction false} RemoveViewsOfKeeps(d: Draft, cell: string, names: seq<string>)
    requires cell in d.artifact.cells && RemoveViewsOf(d, cell, names).Drafted?
    ensures ProjectionSeam(d.artifact, RemoveViewsOf(d, cell, names).draft.artifact)
    ensures RemoveViewsOf(d, cell, names).draft.presentation == d.presentation
    decreases |names|
  {
    hide ProjectionSeam;
    if names == [] {
      ProjectionSeamReflexive(d.artifact);
    } else {
      var views := d.artifact.cells[cell].views - {names[0]};
      var cells := d.artifact.cells[cell := d.artifact.cells[cell].(views := views)];
      var next := d.(artifact := d.artifact.(cells := cells));
      ViewsAlone(d.artifact, cell, views);
      RemoveViewsOfKeeps(next, cell, names[1..]);
      ProjectionSeamComposes(d.artifact, next.artifact, RemoveViewsOf(d, cell, names).draft.artifact);
    }
  }

  lemma {:induction false} RemoveViewsKeeps(d: Draft, removals: seq<(string, seq<string>)>)
    requires RemoveViews(d, removals).Drafted?
    ensures ProjectionSeam(d.artifact, RemoveViews(d, removals).draft.artifact)
    ensures RemoveViews(d, removals).draft.presentation == d.presentation
    decreases |removals|
  {
    hide ProjectionSeam, RemoveViewsOf;
    if removals == [] {
      ProjectionSeamReflexive(d.artifact);
    } else {
      var next := RemoveViewsOf(d, removals[0].0, removals[0].1).draft;
      RemoveViewsOfKeeps(d, removals[0].0, removals[0].1);
      RemoveViewsKeeps(next, removals[1..]);
      ProjectionSeamComposes(d.artifact, next.artifact, RemoveViews(d, removals).draft.artifact);
    }
  }

  lemma {:induction false} UpsertViewsKeeps(d: Draft, views: seq<(string, map<string, View>)>)
    requires UpsertViews(d, views).Drafted?
    ensures ProjectionSeam(d.artifact, UpsertViews(d, views).draft.artifact)
    ensures UpsertViews(d, views).draft.presentation == d.presentation
    decreases |views|
  {
    hide ProjectionSeam;
    if views == [] {
      ProjectionSeamReflexive(d.artifact);
    } else {
      var cell := views[0].0;
      var all := d.artifact.cells[cell].views + views[0].1;
      var next := d.(artifact := d.artifact.(cells := d.artifact.cells[cell := d.artifact.cells[cell].(views := all)]));
      ViewsAlone(d.artifact, cell, all);
      UpsertViewsKeeps(next, views[1..]);
      ProjectionSeamComposes(d.artifact, next.artifact, UpsertViews(d, views).draft.artifact);
    }
  }

  /** The presentation in work never gains authority: its capabilities are the authored ones, and without an
      authored presentation there is none. */
  ghost predicate Authorised(d: Draft, authored: Option<Presentation>) {
    if authored.None? then d.presentation.None?
    else d.presentation.Some? && d.presentation.value.allowedCapabilities == authored.value.allowedCapabilities
  }

  lemma RepresentKeeps(d: Draft, r: Representation, authored: Option<Presentation>)
    requires Authorised(d, authored) && Represent(d, r, authored).Drafted?
    ensures ProjectionSeam(d.artifact, Represent(d, r, authored).draft.artifact)
    ensures Authorised(Represent(d, r, authored).draft, authored)
  {
    hide ProjectionSeam, RemoveViews, UpsertViews;
    var removed := RemoveViews(d, r.removeViews).draft;
    var upserted := UpsertViews(removed, r.views).draft;
    RemoveViewsKeeps(d, r.removeViews);
    UpsertViewsKeeps(removed, r.views);
    ProjectionSeamComposes(d.artifact, removed.artifact, upserted.artifact);
  }

  lemma {:induction false} RepresentAllKeeps(d: Draft, chain: seq<Representation>, authored: Option<Presentation>)
    requires Authorised(d, authored) && RepresentAll(d, chain, authored).Drafted?
    ensures ProjectionSeam(d.artifact, RepresentAll(d, chain, authored).draft.artifact)
    ensures Authorised(RepresentAll(d, chain, authored).draft, authored)
    decreases |chain|
  {
    hide ProjectionSeam, Represent, Authorised;
    if chain == [] {
      ProjectionSeamReflexive(d.artifact);
    } else {
      var next := Represent(d, chain[0], authored).draft;
      RepresentKeeps(d, chain[0], authored);
      RepresentAllKeeps(next, chain[1..], authored);
      ProjectionSeamComposes(d.artifact, next.artifact, RepresentAll(d, chain, authored).draft.artifact);
    }
  }

  lemma DeclareKeeps(a: Artifact, d: Decorator)
    requires DeclareBoth(a, d).Lowered?
    ensures ProjectionSeam(a, DeclareBoth(a, d).artifact)
  {
    hide Colon;
  }

  lemma {:induction false} DecorateCellsKeep(a: Artifact, r: Representation, d: Decorator, cells: seq<string>,
      done: set<string>)
    requires DecorateCells(a, r, d, cells, done).Lowered?
    ensures ProjectionSeam(a, DecorateCells(a, r, d, cells, done).artifact)
    decreases |cells|
  {
    hide ProjectionSeam, DecorateView;
    if cells == [] {
      ProjectionSeamReflexive(a);
    } else if cells[0] in done {
      DecorateCellsKeep(a, r, d, cells[1..], done);
    } else {
      var views := map name | name in a.cells[cells[0]].views :: DecorateView(a.cells[cells[0]].views[name], d);
      var next := a.(cells := a.cells[cells[0] := a.cells[cells[0]].(views := views)]);
      ViewsAlone(a, cells[0], views);
      DecorateCellsKeep(next, r, d, cells[1..], done + {cells[0]});
      ProjectionSeamComposes(a, next, DecorateCells(a, r, d, cells, done).artifact);
    }
  }

  lemma {:induction false} DecorateAllKeeps(select: Selector, a: Artifact, r: Representation,
      decorators: seq<Decorator>)
    requires DecorateAll(select, a, r, decorators).Lowered?
    ensures ProjectionSeam(a, DecorateAll(select, a, r, decorators).artifact)
    decreases |decorators|
  {
    hide ProjectionSeam, DeclareBoth, DecorateCells;
    if decorators == [] {
      ProjectionSeamReflexive(a);
    } else {
      var declared := DeclareBoth(a, decorators[0]).artifact;
      var first := Decorate(select, a, r, decorators[0]).artifact;
      DeclareKeeps(a, decorators[0]);
      DecorateCellsKeep(declared, r, decorators[0], select(decorators[0].select, declared).value, {});
      ProjectionSeamComposes(a, declared, first);
      DecorateAllKeeps(select, first, r, decorators[1..]);
      ProjectionSeamComposes(a, first, DecorateAll(select, a, r, decorators).artifact);
    }
  }

  lemma {:induction false} DecorateChainKeeps(select: Selector, a: Artifact, chain: seq<Representation>)
    requires DecorateChain(select, a, chain).Lowered?
    ensures ProjectionSeam(a, DecorateChain(select, a, chain).artifact)
    decreases |chain|
  {
    hide ProjectionSeam, DecorateAll;
    if chain == [] {
      ProjectionSeamReflexive(a);
    } else {
      var first := DecorateAll(select, a, chain[0], chain[0].decorators).artifact;
      DecorateAllKeeps(select, a, chain[0], chain[0].decorators);
      DecorateChainKeeps(select, first, chain[1..]);
      ProjectionSeamComposes(a, first, DecorateChain(select, a, chain).artifact);
    }
  }

  /** A projection stage that goes through started from a presentation, kept its authority over capabilities,
      and changed nothing on the service side. */
  lemma ProjectionStageKeeps(select: Selector, a: Artifact, chain: seq<Representation>)
    requires ProjectionStage(select, a, chain).Lowered?
    ensures var b := ProjectionStage(select, a, chain).artifact;
            && ProjectionSeam(a, b)
            && a.presentation.Some? && b.presentation.Some?
            && b.presentation.value.allowedCapabilities == a.presentation.value.allowedCapabilities
  {
    hide RepresentAll, DecorateChain;
    var drafted := RepresentAll(Draft(a, a.presentation), chain, a.presentation).draft;
    RepresentAllKeeps(Draft(a, a.presentation), chain, a.presentation);
    DecorateChainKeeps(select, drafted.artifact, chain);
    ProjectionSeamComposes(a, drafted.artifact, DecorateChain(select, drafted.artifact, chain).artifact);
  }

  // ---- both axes ----------------------------------------------------------------------------------------------

  /** apply-lowering-chain: the service chain first, then the projection chain, one inheritance chain a recipe;
      `admits` is the capability check after each projection stage. */
  function ProjectionChain(select: Selector, admits: Artifact -> bool, a: Artifact,
      chains: seq<seq<Representation>>): Lowered
    decreases |chains|
  {
    if chains == [] then Lowered(a)
    else
      var first := ProjectionStage(select, a, chains[0]);
      if first.Refused? then first
      else if !admits(first.artifact) then Refused(NoAuthority(""))
      else ProjectionChain(select, admits, first.artifact, chains[1..])
  }

  lemma {:induction false} ProjectionChainKeeps(select: Selector, admits: Artifact -> bool, a: Artifact,
      chains: seq<seq<Representation>>)
    requires ProjectionChain(select, admits, a, chains).Lowered?
    ensures ProjectionSeam(a, ProjectionChain(select, admits, a, chains).artifact)
    decreases |chains|
  {
    hide ProjectionSeam, ProjectionStage;
    if chains == [] {
      ProjectionSeamReflexive(a);
    } else {
      var first := ProjectionStage(select, a, chains[0]).artifact;
      ProjectionStageKeeps(select, a, chains[0]);
      ProjectionChainKeeps(select, admits, first, chains[1..]);
      ProjectionSeamComposes(a, first, ProjectionChain(select, admits, a, chains).artifact);
    }
  }

  /** Lowering as a whole: every cell keeps its identity, ports and events, and each of its source ids resolves
      in the lowered services to the contract it resolved to in the authored ones. */
  lemma LoweringKeepsContracts(holds: Condition, select: Selector, admits: Artifact -> bool,
                               a: Artifact, recipes: seq<ServiceRecipe>, chains: seq<seq<Representation>>)
    requires ServiceChain(holds, a, recipes).Lowered?
    requires ProjectionChain(select, admits, ServiceChain(holds, a, recipes).artifact, chains).Lowered?
    ensures var b := ProjectionChain(select, admits, ServiceChain(holds, a, recipes).artifact, chains).artifact;
            && b.cells.Keys == a.cells.Keys && b.body == a.body
            && forall id :: id in a.cells ==>
                 && b.cells[id].id == a.cells[id].id && b.cells[id].ports == a.cells[id].ports
                 && b.cells[id].events == a.cells[id].events && b.cells[id].body == a.cells[id].body
                 && CellResolution(b, id) == CellResolution(a, id)
  {
    hide ServiceChain, ProjectionChain, Resolution, ContractOf;
    var lowered := ServiceChain(holds, a, recipes).artifact;
    ServiceChainKeepsContracts(holds, a, recipes);
    ProjectionChainKeeps(select, admits, lowered, chains);
    var b := ProjectionChain(select, admits, lowered, chains).artifact;
    forall id | id in a.cells
      ensures CellResolution(b, id) == CellResolution(lowered, id)
    {
      assert SourcesOf(b.cells[id]) == SourcesOf(lowered.cells[id]);
    }
  }

  /** The order of application is the only thing the axes share: projecting first would have selected the same
      implementations, or refused for the same reason. */
  lemma ServiceSelectionIgnoresProjection(holds: Condition, select: Selector, admits: Artifact -> bool,
                                          a: Artifact, recipes: seq<ServiceRecipe>, chains: seq<seq<Representation>>)
    requires ProjectionChain(select, admits, a, chains).Lowered?
    ensures SameOutcome(ServiceChain(holds, a, recipes),
        ServiceChain(holds, ProjectionChain(select, admits, a, chains).artifact, recipes))
  {
    hide ServiceChain, ProjectionChain, SameOutcome;
    ProjectionChainKeeps(select, admits, a, chains);
    ServiceChainBlind(holds, a, ProjectionChain(select, admits, a, chains).artifact, recipes);
  }
}
