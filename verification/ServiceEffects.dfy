/** What a service stage installs, and when it goes through (blueprint/src/fixed-lowering-meta-graph.ts:444-557),
    by place in the program's lists. */
module ServiceEffects {
  import opened Json
  import opened ServiceLowering

  // ---- the last entry that sets something -------------------------------------------------------

  /** The value given by the last entry for `id` that has one, else the authored one. */
  ghost predicate Given<E, T>(entries: seq<(string, E)>, id: string, get: E -> Option<T>, value: Option<T>,
      authored: Option<T>)
  {
    || (exists i :: GivenAt(entries, id, get, value, i))
    || (value == authored && forall j :: 0 <= j < |entries| && entries[j].0 == id ==> get(entries[j].1).None?)
  }

  ghost predicate GivenAt<E, T>(entries: seq<(string, E)>, id: string, get: E -> Option<T>,
      value: Option<T>, i: int)
  {
    && 0 <= i < |entries| && entries[i].0 == id && value.Some? && value == get(entries[i].1)
    && forall j :: i < j < |entries| && entries[j].0 == id ==> get(entries[j].1).None?
  }

  lemma GivenByNone<E, T>(id: string, get: E -> Option<T>, authored: Option<T>)
    ensures Given<E, T>([], id, get, authored, authored)
  {
  }

  /** Entries one after the other: the later ones win over what the earlier ones left. */
  lemma GivenConcat<E, T>(a: seq<(string, E)>, b: seq<(string, E)>, id: string, get: E -> Option<T>,
      value: Option<T>, middle: Option<T>, authored: Option<T>)
    requires Given(a, id, get, middle, authored) && Given(b, id, get, value, middle)
    ensures Given(a + b, id, get, value, authored)
  {
    assert forall j :: 0 <= j < |a| ==> (a + b)[j] == a[j];
    assert forall j :: |a| <= j < |a + b| ==> (a + b)[j] == b[j - |a|];
    if i :| GivenAt(b, id, get, value, i) {
      assert GivenAt(a + b, id, get, value, |a| + i);
    } else if i :| GivenAt(a, id, get, middle, i) {
      assert GivenAt(a + b, id, get, value, i);
    }
  }

  lemma GivenByOne<E, T>(entry: (string, E), id: string, get: E -> Option<T>, authored: Option<T>)
    ensures Given([entry], id, get, if entry.0 == id && get(entry.1).Some? then get(entry.1) else authored, authored)
  {
    if entry.0 == id && get(entry.1).Some? {
      assert GivenAt([entry], id, get, get(entry.1), 0);
    }
  }

  // ---- cells ---------------------------------------------------------------------------------------

  const SOURCES := (o: Override) => o.sources
  const COMPUTE := (o: Override) => o.compute
  const BEHAVIOR := (o: Override) => o.behavior
  const ITSELF := (s: Service) => Some(s)

  /** The cell differs from the authored one in what the entries give, and in nothing else. */
  ghost predicate CellInstalled(entries: seq<(string, Override)>, id: string, authored: Cell, cell: Cell) {
    && Given(entries, id, SOURCES, cell.sources, authored.sources)
    && Given(entries, id, COMPUTE, cell.compute, authored.compute)
    && Given(entries, id, BEHAVIOR, cell.behavior, authored.behavior)
    && cell == authored.(sources := cell.sources, compute := cell.compute, behavior := cell.behavior)
  }

  ghost predicate CellsInstalled(entries: seq<(string, Override)>, a: Artifact, b: Artifact) {
    b.cells.Keys == a.cells.Keys && forall id :: id in a.cells ==> CellInstalled(entries, id, a.cells[id], b.cells[id])
  }

  ghost predicate ServicesInstalled(entries: seq<(string, Service)>, a: Artifact, b: Artifact) {
    && b.services.Keys == a.services.Keys
    && forall id :: id in a.services ==> Given(entries, id, ITSELF, Some(b.services[id]), Some(a.services[id]))
  }

  lemma CellUntouched(id: string, cell: Cell)
    ensures CellInstalled([], id, cell, cell)
  {
    GivenByNone<Override, seq<Source>>(id, SOURCES, cell.sources);
    GivenByNone<Override, Json>(id, COMPUTE, cell.compute);
    GivenByNone<Override, Behavior>(id, BEHAVIOR, cell.behavior);
  }

  lemma CellInstalledConcat(a: seq<(string, Override)>, b: seq<(string, Override)>, id: string, authored: Cell,
      middle: Cell, cell: Cell)
    requires CellInstalled(a, id, authored, middle) && CellInstalled(b, id, middle, cell)
    ensures CellInstalled(a + b, id, authored, cell)
  {
    hide Given;
    GivenConcat(a, b, id, SOURCES, cell.sources, middle.sources, authored.sources);
    GivenConcat(a, b, id, COMPUTE, cell.compute, middle.compute, authored.compute);
    GivenConcat(a, b, id, BEHAVIOR, cell.behavior, middle.behavior, authored.behavior);
  }

  lemma CellsInstalledConcat(x: seq<(string, Override)>, y: seq<(string, Override)>, a: Artifact, b: Artifact,
      c: Artifact)
    requires CellsInstalled(x, a, b) && CellsInstalled(y, b, c)
    ensures CellsInstalled(x + y, a, c)
  {
    hide CellInstalled;
    forall id | id in a.cells
      ensures CellInstalled(x + y, id, a.cells[id], c.cells[id])
    {
      CellInstalledConcat(x, y, id, a.cells[id], b.cells[id], c.cells[id]);
    }
  }

  lemma OneCellInstalled(a: Artifact, id: string, o: Override)
    requires OverrideCell(a, id, o).Lowered?
    ensures CellsInstalled([(id, o)], a, OverrideCell(a, id, o).artifact)
    ensures OverrideCell(a, id, o).artifact == a.(cells := OverrideCell(a, id, o).artifact.cells)
  {
    hide Given, ContractMap, HandlesDeclared;
    var b := OverrideCell(a, id, o).artifact;
    forall other | other in a.cells
      ensures CellInstalled([(id, o)], other, a.cells[other], b.cells[other])
    {
      var cell := a.cells[other];
      GivenByOne((id, o), other, SOURCES, cell.sources);
      GivenByOne((id, o), other, COMPUTE, cell.compute);
      GivenByOne((id, o), other, BEHAVIOR, cell.behavior);
    }
  }

  lemma {:induction false} CellsAreInstalled(a: Artifact, cells: seq<(string, Override)>)
    requires OverrideCells(a, cells).Lowered?
    ensures CellsInstalled(cells, a, OverrideCells(a, cells).artifact)
    ensures OverrideCells(a, cells).artifact == a.(cells := OverrideCells(a, cells).artifact.cells)
    decreases |cells|
  {
    hide OverrideCell, CellInstalled;
    if cells == [] {
      forall id | id in a.cells
        ensures CellInstalled([], id, a.cells[id], a.cells[id])
      {
        CellUntouched(id, a.cells[id]);
      }
    } else {
      var first := OverrideCell(a, cells[0].0, cells[0].1).artifact;
      OneCellInstalled(a, cells[0].0, cells[0].1);
      CellsAreInstalled(first, cells[1..]);
      CellsInstalledConcat([cells[0]], cells[1..], a, first, OverrideCells(a, cells).artifact);
      assert [cells[0]] + cells[1..] == cells && cells[0] == (cells[0].0, cells[0].1);
    }
  }

  // ---- services ---------------------------------------------------------------------------------------

  lemma ServicesInstalledConcat(x: seq<(string, Service)>, y: seq<(string, Service)>, a: Artifact, b: Artifact,
      c: Artifact)
    requires ServicesInstalled(x, a, b) && ServicesInstalled(y, b, c)
    ensures ServicesInstalled(x + y, a, c)
  {
    hide Given;
    forall id | id in a.services
      ensures Given(x + y, id, ITSELF, Some(c.services[id]), Some(a.services[id]))
    {
      GivenConcat(x, y, id, ITSELF, Some(c.services[id]), Some(b.services[id]), Some(a.services[id]));
    }
  }

  lemma {:induction false} ServicesAreInstalled(a: Artifact, services: seq<(string, Service)>)
    requires OverrideServices(a, services).Lowered?
    ensures ServicesInstalled(services, a, OverrideServices(a, services).artifact)
    ensures OverrideServices(a, services).artifact == a.(services := OverrideServices(a, services).artifact.services)
    decreases |services|
  {
    hide Given, SameEntries, IsOperationMap;
    if services == [] {
      forall id | id in a.services
        ensures Given([], id, ITSELF, Some(a.services[id]), Some(a.services[id]))
      {
        GivenByNone<Service, Service>(id, ITSELF, Some(a.services[id]));
      }
    } else {
      var (id, declaration) := services[0];
      var first := OverrideService(a, id, declaration).artifact;
      forall other | other in a.services
        ensures Given([services[0]], other, ITSELF, Some(first.services[other]), Some(a.services[other]))
      {
        GivenByOne(services[0], other, ITSELF, Some(a.services[other]));
      }
      ServicesAreInstalled(first, services[1..]);
      ServicesInstalledConcat([services[0]], services[1..], a, first, OverrideServices(a, services).artifact);
      assert [services[0]] + services[1..] == services;
    }
  }

  // ---- the program --------------------------------------------------------------------------------------

  ghost predicate Holds(holds: Condition, program: Program) {
    program.when.Some? && holds(program.when.value)
  }

  /** The first program whose condition holds, else the last one with the fallback id. */
  ghost predicate Chosen(holds: Condition, recipe: ServiceRecipe, i: int) {
    && 0 <= i < |recipe.programs|
    && if Holds(holds, recipe.programs[i]) then forall j :: 0 <= j < i ==> !Holds(holds, recipe.programs[j])
       else
         && (forall j :: 0 <= j < |recipe.programs| ==> !Holds(holds, recipe.programs[j]))
         && recipe.programs[i].id == recipe.fallback
         && forall j :: i < j < |recipe.programs| ==> recipe.programs[j].id != recipe.fallback
  }

  lemma {:induction false} FirstHoldingIs(holds: Condition, programs: seq<Program>)
    ensures var r := FirstHolding(holds, programs);
            && (r.None? ==> forall j :: 0 <= j < |programs| ==> !Holds(holds, programs[j]))
            && (r.Some? ==> exists i :: 0 <= i < |programs| && programs[i] == r.value && Holds(holds, programs[i])
                              && forall j :: 0 <= j < i ==> !Holds(holds, programs[j]))
  {
    if programs != [] && !Holds(holds, programs[0]) {
      FirstHoldingIs(holds, programs[1..]);
      var r := FirstHolding(holds, programs[1..]);
      assert forall j :: 0 < j < |programs| ==> programs[j] == programs[1..][j - 1];
      if r.Some? {
        var i :| 0 <= i < |programs[1..]| && programs[1..][i] == r.value && Holds(holds, programs[1..][i])
          && forall j :: 0 <= j < i ==> !Holds(holds, programs[1..][j]);
        assert programs[i + 1] == r.value;
      }
    }
  }

  lemma {:induction false} LastWithIdIs(programs: seq<Program>, id: string)
    ensures var r := LastWithId(programs, id);
            && (r.None? ==> forall j :: 0 <= j < |programs| ==> programs[j].id != id)
            && (r.Some? ==> exists i :: 0 <= i < |programs| && programs[i] == r.value && programs[i].id == id
                              && forall j :: i < j < |programs| ==> programs[j].id != id)
  {
    if programs != [] && programs[|programs| - 1].id != id {
      LastWithIdIs(programs[..|programs| - 1], id);
    }
  }

  /** A stage is refused for its fallback exactly when no program can be chosen; at most one place can. */
  lemma SelectionIs(holds: Condition, recipe: ServiceRecipe)
    ensures SelectProgram(holds, recipe).Some? ==>
              exists i :: Chosen(holds, recipe, i) && recipe.programs[i] == SelectProgram(holds, recipe).value
    ensures SelectProgram(holds, recipe).None? ==> forall i :: !Chosen(holds, recipe, i)
    ensures forall i, j :: Chosen(holds, recipe, i) && Chosen(holds, recipe, j) ==> i == j
  {
    FirstHoldingIs(holds, recipe.programs);
    LastWithIdIs(recipe.programs, recipe.fallback);
    hide FirstHolding, LastWithId;
    if FirstHolding(holds, recipe.programs).Some? {
      var i :| 0 <= i < |recipe.programs| && recipe.programs[i] == FirstHolding(holds, recipe.programs).value
        && Holds(holds, recipe.programs[i]) && forall j :: 0 <= j < i ==> !Holds(holds, recipe.programs[j]);
      assert Chosen(holds, recipe, i);
    } else if LastWithId(recipe.programs, recipe.fallback).Some? {
      var i :| 0 <= i < |recipe.programs| && recipe.programs[i] == LastWithId(recipe.programs, recipe.fallback).value
        && recipe.programs[i].id == recipe.fallback
        && forall j :: i < j < |recipe.programs| ==> recipe.programs[j].id != recipe.fallback;
      assert Chosen(holds, recipe, i);
    }
  }

  // ---- stages and chains ---------------------------------------------------------------------------------

  /** Every cell, service and everything else of the lowered artifact. */
  ghost predicate Installed(cells: seq<(string, Override)>, services: seq<(string, Service)>, a: Artifact,
      b: Artifact) {
    CellsInstalled(cells, a, b) && ServicesInstalled(services, a, b)
        && b == a.(cells := b.cells, services := b.services)
  }

  /** A stage that goes through installs the chosen program. */
  lemma StageInstalls(holds: Condition, a: Artifact, recipe: ServiceRecipe) returns (i: int)
    requires ServiceStage(holds, a, recipe).Lowered?
    ensures Chosen(holds, recipe, i)
    ensures Installed(recipe.programs[i].cells, recipe.programs[i].services, a, ServiceStage(holds, a, recipe).artifact)
  {
    hide Given, CellInstalled, OverrideCells, OverrideServices, Chosen, SelectProgram;
    SelectionIs(holds, recipe);
    ChosenInRange(holds, recipe);
    i :| Chosen(holds, recipe, i) && recipe.programs[i] == SelectProgram(holds, recipe).value;
    var program := SelectProgram(holds, recipe).value;
    CellsAreInstalled(a, program.cells);
    ServicesAreInstalled(OverrideCells(a, program.cells).artifact, program.services);
  }

  lemma ChosenInRange(holds: Condition, recipe: ServiceRecipe)
    ensures forall i :: Chosen(holds, recipe, i) ==> 0 <= i < |recipe.programs|
  {
  }

  function AllCells(programs: seq<Program>): seq<(string, Override)> {
    if programs == [] then [] else programs[0].cells + AllCells(programs[1..])
  }

  function AllServices(programs: seq<Program>): seq<(string, Service)> {
    if programs == [] then [] else programs[0].services + AllServices(programs[1..])
  }

  ghost predicate ChosenProgram(holds: Condition, recipe: ServiceRecipe, program: Program) {
    exists i :: Chosen(holds, recipe, i) && recipe.programs[i] == program
  }

  ghost predicate ChosenAll(holds: Condition, recipes: seq<ServiceRecipe>, programs: seq<Program>) {
    && |programs| == |recipes|
    && forall k :: 0 <= k < |recipes| ==> ChosenProgram(holds, recipes[k], programs[k])
  }

  lemma InstalledConcat(program: Program, more: seq<(string, Override)>, services: seq<(string, Service)>, a: Artifact,
      b: Artifact, c: Artifact)
    requires Installed(program.cells, program.services, a, b) && Installed(more, services, b, c)
    ensures Installed(program.cells + more, program.services + services, a, c)
  {
    hide Given, CellInstalled;
    CellsInstalledConcat(program.cells, more, a, b, c);
    ServicesInstalledConcat(program.services, services, a, b, c);
  }

  /** A chain that goes through installs the programs chosen for its recipes, one after the other: whatever a cell
      or a service ends with was given by the last of all their entries that sets it, or is the authored one. */
  lemma {:induction false} ChainInstalls(holds: Condition, a: Artifact, recipes: seq<ServiceRecipe>)
      returns (programs: seq<Program>)
    requires ServiceChain(holds, a, recipes).Lowered?
    ensures ChosenAll(holds, recipes, programs)
    ensures Installed(AllCells(programs), AllServices(programs), a, ServiceChain(holds, a, recipes).artifact)
    decreases |recipes|
  {
    hide Given, CellInstalled, ServiceStage, Chosen, Installed;
    if recipes == [] {
      programs := [];
      NothingInstalled(a);
    } else {
      var i := StageInstalls(holds, a, recipes[0]);
      ChosenInRange(holds, recipes[0]);
      var first := ServiceStage(holds, a, recipes[0]).artifact;
      var rest := ChainInstalls(holds, first, recipes[1..]);
      programs := [recipes[0].programs[i]] + rest;
      assert programs[1..] == rest;
      assert ChosenProgram(holds, recipes[0], programs[0]);
      forall k | 0 < k < |recipes|
        ensures ChosenProgram(holds, recipes[k], programs[k])
      {
        assert recipes[k] == recipes[1..][k - 1] && programs[k] == rest[k - 1];
      }
      InstalledConcat(programs[0], AllCells(rest), AllServices(rest), a, first,
          ServiceChain(holds, a, recipes).artifact);
    }
  }

  lemma NothingInstalled(a: Artifact)
    ensures Installed([], [], a, a)
  {
    forall id | id in a.cells
      ensures CellInstalled([], id, a.cells[id], a.cells[id])
    {
      CellUntouched(id, a.cells[id]);
    }
    forall id | id in a.services
      ensures Given([], id, ITSELF, Some(a.services[id]), Some(a.services[id]))
    {
      GivenByNone<Service, Service>(id, ITSELF, Some(a.services[id]));
    }
  }

  // ---- when a stage goes through -------------------------------------------------------------------------

  /** An entry is acceptable to the authored artifact: the cell is there, replaced sources resolve to the same
      contracts, and handled events are declared. */
  ghost predicate CellAcceptable(a: Artifact, id: string, o: Override) {
    && id in a.cells
    && (o.sources.Some? ==>
          && ContractMap(a.services, SourcesOf(a.cells[id])).Some?
          && ContractMap(a.services, o.sources.value) == ContractMap(a.services, SourcesOf(a.cells[id])))
    && (o.behavior.Some? ==> forall event :: event in o.behavior.value.on ==> event in a.cells[id].events)
  }

  ghost predicate ServiceAcceptable(a: Artifact, id: string, declaration: Service) {
    && id in a.services && IsOperationMap(a.services[id]) && IsOperationMap(declaration)
    && declaration.operations == a.services[id].operations
  }

  lemma AcceptableIff(a: Artifact, id: string, o: Override)
    ensures OverrideCell(a, id, o).Lowered? <==> CellAcceptable(a, id, o)
  {
    if id in a.cells && o.sources.Some? {
      var authored, selected := ContractMap(a.services, SourcesOf(a.cells[id])),
          ContractMap(a.services, o.sources.value);
      if authored.Some? && selected.Some? {
        SameEntriesIffEqual(authored.value, selected.value);
      }
    }
  }

  /** One entry does not change what is acceptable afterwards. */
  lemma StillAcceptable(a: Artifact, id: string, o: Override, other: string, p: Override)
    requires OverrideCell(a, id, o).Lowered?
    ensures CellAcceptable(OverrideCell(a, id, o).artifact, other, p) <==> CellAcceptable(a, other, p)
  {
    AcceptableIff(a, id, o);
  }

  /** The entries of a program go through together if and only if the authored artifact could take each alone. */
  lemma {:induction false} CellsGoThroughIff(a: Artifact, cells: seq<(string, Override)>)
    ensures OverrideCells(a, cells).Lowered?
       <==> forall i :: 0 <= i < |cells| ==> CellAcceptable(a, cells[i].0, cells[i].1)
    decreases |cells|
  {
    hide OverrideCell, CellAcceptable;
    if cells != [] {
      AcceptableIff(a, cells[0].0, cells[0].1);
      if OverrideCell(a, cells[0].0, cells[0].1).Lowered? {
        var first := OverrideCell(a, cells[0].0, cells[0].1).artifact;
        CellsGoThroughIff(first, cells[1..]);
        forall i | 0 < i < |cells|
          ensures CellAcceptable(first, cells[i].0, cells[i].1) <==> CellAcceptable(a, cells[i].0, cells[i].1)
        {
          StillAcceptable(a, cells[0].0, cells[0].1, cells[i].0, cells[i].1);
        }
        assert forall i :: 0 < i < |cells| ==> cells[i] == cells[1..][i - 1];
      }
    }
  }

  lemma ServiceAcceptableIff(a: Artifact, id: string, declaration: Service)
    ensures OverrideService(a, id, declaration).Lowered? <==> ServiceAcceptable(a, id, declaration)
  {
    if id in a.services && IsOperationMap(a.services[id]) && IsOperationMap(declaration) {
      SameEntriesIffEqual(a.services[id].operations.value, declaration.operations.value);
    }
  }

  lemma {:induction false} ServicesGoThroughIff(a: Artifact, services: seq<(string, Service)>)
    ensures OverrideServices(a, services).Lowered?
       <==> forall i :: 0 <= i < |services| ==> ServiceAcceptable(a, services[i].0, services[i].1)
    decreases |services|
  {
    hide OverrideService;
    if services != [] {
      ServiceAcceptableIff(a, services[0].0, services[0].1);
      if OverrideService(a, services[0].0, services[0].1).Lowered? {
        var first := OverrideService(a, services[0].0, services[0].1).artifact;
        ServicesGoThroughIff(first, services[1..]);
        forall i | 0 < i < |services|
          ensures ServiceAcceptable(first, services[i].0, services[i].1)
             <==> ServiceAcceptable(a, services[i].0, services[i].1)
        {
          StillAcceptableService(a, services[0].0, services[0].1, services[i].0, services[i].1);
        }
        hide ServiceAcceptable;
        assert forall i :: 0 < i < |services| ==> services[i] == services[1..][i - 1];
      }
    }
  }

  lemma StillAcceptableService(a: Artifact, id: string, declaration: Service, other: string, later: Service)
    requires OverrideService(a, id, declaration).Lowered?
    ensures ServiceAcceptable(OverrideService(a, id, declaration).artifact, other, later)
       <==> ServiceAcceptable(a, other, later)
  {
    ServiceAcceptableIff(a, id, declaration);
  }

  /** A stage goes through if and only if a program can be chosen and the authored artifact could take every one of
      its entries. */
  lemma StageGoesThroughIff(holds: Condition, a: Artifact, recipe: ServiceRecipe)
    ensures ServiceStage(holds, a, recipe).Lowered?
       <==> exists i :: Chosen(holds, recipe, i) && Acceptable(a, recipe.programs[i])
  {
    hide Chosen, OverrideCells, OverrideServices, SelectProgram, CellAcceptable, ServiceAcceptable;
    SelectionIs(holds, recipe);
    var selected := SelectProgram(holds, recipe);
    if selected.Some? {
      ChosenInRange(holds, recipe);
      var i :| Chosen(holds, recipe, i) && recipe.programs[i] == selected.value;
      CellsGoThroughIff(a, selected.value.cells);
      if OverrideCells(a, selected.value.cells).Lowered? {
        CellsAreInstalled(a, selected.value.cells);
        var middle := OverrideCells(a, selected.value.cells).artifact;
        ServicesGoThroughIff(middle, selected.value.services);
        forall k | 0 <= k < |selected.value.services|
          ensures var (id, s) := selected.value.services[k];
              ServiceAcceptable(middle, id, s)
              <==> ServiceAcceptable(a, id, s)
        {
          SameServicesAcceptable(a, middle, selected.value.services[k].0, selected.value.services[k].1);
        }
      }
    }
  }

  ghost predicate Acceptable(a: Artifact, program: Program) {
    && (forall k :: 0 <= k < |program.cells| ==> CellAcceptable(a, program.cells[k].0, program.cells[k].1))
    && (forall k :: 0 <= k < |program.services| ==> ServiceAcceptable(a, program.services[k].0, program.services[k].1))
  }

  lemma SameServicesAcceptable(a: Artifact, b: Artifact, id: string, s: Service)
    requires a.services == b.services
    ensures ServiceAcceptable(a, id, s) <==> ServiceAcceptable(b, id, s)
  {
  }
}
