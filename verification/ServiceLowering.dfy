/** The service axis of lowering (blueprint/src/fixed-lowering-meta-graph.ts:444-562): programs replace the
    implementations behind authored contracts. */
module ServiceLowering {
  import opened Json

  datatype Source = Source(id: string, service: string, operation: string, body: Json)

  /** `on` holds the event handlers. */
  datatype Behavior = Behavior(on: map<string, Json>, body: Json)

  datatype Decoration = Decoration(capability: string, body: Json)

  datatype View = View(body: Json, before: seq<Decoration>, after: seq<Decoration>)

  /** `ports` stands for inputs, system inputs and outputs, `body` for the remaining fields. */
  datatype Cell = Cell(
    id: string,
    ports: Json,
    events: map<string, Json>,
    sources: Option<seq<Source>>,
    compute: Option<Json>,
    behavior: Option<Behavior>,
    views: map<string, View>,
    body: Json)

  /** `operations` maps an operation to its contract, None where the operation declares none; no map at all
      where the declaration's `operations` is not an object of objects. */
  datatype Service = Service(operations: Option<map<string, Option<string>>>, body: Json)

  datatype Presentation = Presentation(slots: seq<Json>, body: Json, allowedCapabilities: Json)

  datatype External = External(origin: string, use: set<string>)

  datatype Artifact = Artifact(
    cells: map<string, Cell>,
    services: map<string, Service>,
    presentation: Option<Presentation>,
    externals: map<string, External>,
    body: Json)

  datatype Override = Override(sources: Option<seq<Source>>, compute: Option<Json>, behavior: Option<Behavior>)

  datatype Program = Program(
    id: string, when: Option<string>, cells: seq<(string, Override)>, services: seq<(string, Service)>)

  datatype ServiceRecipe = ServiceRecipe(id: string, programs: seq<Program>, fallback: string)

  datatype Refusal =
    | UnknownFallback(recipe: string)
    | UnknownCell(cell: string)
    | UnresolvedOperation(cell: string)
    | SourceContractsChanged(cell: string)
    | UndeclaredEvents(cell: string)
    | UnknownService(service: string)
    | NoOperationMap(service: string)
    | OperationContractsChanged(service: string)
    | UnknownRepresentation(representation: string)
    | InheritanceCycle(representation: string)
    | UnknownView(cell: string, view: string)
    | NoAuthority(representation: string)
    | NoPresentation
    | BadSelection(representation: string)
    | BadCapability(capability: string)

  datatype Lowered = Lowered(artifact: Artifact) | Refused(refusal: Refusal)

  /** `evalSyncJsonata(when, { externalContext }) === true` for the external context of one lowering. */
  type Condition = string -> bool

  // ---- contracts ------------------------------------------------------------------------------

  /** The contract of the operation a source names; an empty one counts as none. */
  function ContractOf(services: map<string, Service>, source: Source): Option<string> {
    if source.service in services && services[source.service].operations.Some?
       && source.operation in services[source.service].operations.value
       && services[source.service].operations.value[source.operation].Some?
       && services[source.service].operations.value[source.operation].value != ""
    then services[source.service].operations.value[source.operation]
    else None
  }

  /** `new Map(sources.map(...))`: by source id, the last of several winning; None where one is unresolved. */
  function ContractMap(services: map<string, Service>, sources: seq<Source>): Option<map<string, string>> {
    if sources == [] then Some(map[])
    else
      var earlier := ContractMap(services, sources[..|sources| - 1]);
      var last := sources[|sources| - 1];
      if earlier.None? || ContractOf(services, last).None? then None
      else Some(earlier.value[last.id := ContractOf(services, last).value])
  }

  /** What a cell's sources resolve to, by source id, resolved or not. */
  function Resolution(services: map<string, Service>, sources: seq<Source>): map<string, Option<string>> {
    if sources == [] then map[]
    else
      Resolution(services,
          sources[..|sources| - 1])[sources[|sources| - 1].id := ContractOf(services, sources[|sources| - 1])]
  }

  function SourcesOf(cell: Cell): seq<Source> {
    if cell.sources.Some? then cell.sources.value else []
  }

  function CellResolution(a: Artifact, id: string): map<string, Option<string>>
    requires id in a.cells
  {
    Resolution(a.services, SourcesOf(a.cells[id]))
  }

  /** The comparison of assertStableSourceContracts and assertStableServiceContracts. */
  predicate SameEntries<V(==)>(authored: map<string, V>, selected: map<string, V>) {
    |authored| == |selected| && forall id :: id in authored ==> id in selected && selected[id] == authored[id]
  }

  /** Equal sizes make the one-sided comparison an equality. */
  lemma SameEntriesIffEqual<V>(authored: map<string, V>, selected: map<string, V>)
    ensures SameEntries(authored, selected) <==> authored == selected
  {
    if SameEntries(authored, selected) {
      assert authored.Keys <= selected.Keys;
      assert |selected.Keys - authored.Keys| == |selected.Keys| - |authored.Keys|;
      assert authored.Keys == selected.Keys;
    }
  }

  // ---- the overrides of one program -----------------------------------------------------------------

  predicate HandlesDeclared(cell: Cell, behavior: Behavior) {
    forall event :: event in behavior.on ==> event in cell.events
  }

  function OverrideCell(a: Artifact, id: string, o: Override): Lowered {
    if id !in a.cells then Refused(UnknownCell(id))
    else
      var cell := a.cells[id];
      var authored, selected := ContractMap(a.services, SourcesOf(cell)),
          ContractMap(a.services, if o.sources.Some? then o.sources.value else []);
      if o.sources.Some? && (authored.None? || selected.None?) then Refused(UnresolvedOperation(id))
      else if o.sources.Some? && !SameEntries(authored.value, selected.value) then Refused(SourceContractsChanged(id))
      else if o.behavior.Some? && !HandlesDeclared(cell, o.behavior.value) then Refused(UndeclaredEvents(id))
      else
        Lowered(a.(cells := a.cells[id := Overridden(cell, o)]))
  }

  function Overridden(cell: Cell, o: Override): Cell {
    cell.(
      sources := if o.sources.Some? then o.sources else cell.sources,
      compute := if o.compute.Some? then o.compute else cell.compute,
      behavior := if o.behavior.Some? then o.behavior else cell.behavior)
  }

  function OverrideCells(a: Artifact, cells: seq<(string, Override)>): Lowered
    decreases |cells|
  {
    if cells == [] then Lowered(a)
    else
      var first := OverrideCell(a, cells[0].0, cells[0].1);
      if first.Refused? then first else OverrideCells(first.artifact, cells[1..])
  }

  /** isOperationMap. */
  predicate IsOperationMap(s: Service) {
    s.operations.Some? && forall operation :: operation in s.operations.value ==> s.operations.value[operation].Some?
  }

  function OverrideService(a: Artifact, id: string, declaration: Service): Lowered {
    if id !in a.services then Refused(UnknownService(id))
    else if !IsOperationMap(a.services[id]) || !IsOperationMap(declaration) then Refused(NoOperationMap(id))
    else if !SameEntries(a.services[id].operations.value, declaration.operations.value)
        then Refused(OperationContractsChanged(id))
    else Lowered(a.(services := a.services[id := declaration]))
  }

  function OverrideServices(a: Artifact, services: seq<(string, Service)>): Lowered
    decreases |services|
  {
    if services == [] then Lowered(a)
    else
      var first := OverrideService(a, services[0].0, services[0].1);
      if first.Refused? then first else OverrideServices(first.artifact, services[1..])
  }

  /** The first program whose condition holds. */
  function FirstHolding(holds: Condition, programs: seq<Program>): Option<Program> {
    if programs == [] then None
    else if programs[0].when.Some? && holds(programs[0].when.value) then Some(programs[0])
    else FirstHolding(holds, programs[1..])
  }

  /** `new Map(...).get`: the last program with the id. */
  function LastWithId(programs: seq<Program>, id: string): Option<Program> {
    if programs == [] then None
    else if programs[|programs| - 1].id == id then Some(programs[|programs| - 1])
    else LastWithId(programs[..|programs| - 1], id)
  }

  function SelectProgram(holds: Condition, recipe: ServiceRecipe): Option<Program> {
    var first := FirstHolding(holds, recipe.programs);
    if first.Some? then first else LastWithId(recipe.programs, recipe.fallback)
  }

  function ServiceStage(holds: Condition, a: Artifact, recipe: ServiceRecipe): Lowered {
    var selected := SelectProgram(holds, recipe);
    if selected.None? then Refused(UnknownFallback(recipe.id))
    else
      var cells := OverrideCells(a, selected.value.cells);
      if cells.Refused? then cells else OverrideServices(cells.artifact, selected.value.services)
  }

  function ServiceChain(holds: Condition, a: Artifact, recipes: seq<ServiceRecipe>): Lowered
    decreases |recipes|
  {
    if recipes == [] then Lowered(a)
    else
      var first := ServiceStage(holds, a, recipes[0]);
      if first.Refused? then first else ServiceChain(holds, first.artifact, recipes[1..])
  }

  // ---- the loops ---------------------------------------------------------------------------------

  method ApplyCellImplementationOverrides(a: Artifact, program: Program) returns (r: Lowered)
    ensures r == OverrideCells(a, program.cells)
  {
    var artifact := a;
    for i := 0 to |program.cells|
      invariant OverrideCells(a, program.cells) == OverrideCells(artifact, program.cells[i..])
    {
      var (id, override) := program.cells[i];
      assert program.cells[i..][1..] == program.cells[i + 1..];
      if id !in artifact.cells {
        return Refused(UnknownCell(id));
      }
      var cell := artifact.cells[id];
      if override.sources.Some? {
        var authored := ContractMap(artifact.services, SourcesOf(cell));
        var selected := ContractMap(artifact.services, override.sources.value);
        if authored.None? || selected.None? {
          return Refused(UnresolvedOperation(id));
        }
        if !SameEntries(authored.value, selected.value) {
          return Refused(SourceContractsChanged(id));
        }
      }
      if override.behavior.Some? && !HandlesDeclared(cell, override.behavior.value) {
        return Refused(UndeclaredEvents(id));
      }
      if override.sources.Some? {
        cell := cell.(sources := override.sources);
      }
      if override.compute.Some? {
        cell := cell.(compute := override.compute);
      }
      if override.behavior.Some? {
        cell := cell.(behavior := override.behavior);
      }
      artifact := artifact.(cells := artifact.cells[id := cell]);
    }
    r := Lowered(artifact);
  }

  method ApplyServiceImplementationOverrides(a: Artifact, program: Program) returns (r: Lowered)
    ensures r == OverrideServices(a, program.services)
  {
    var artifact := a;
    for i := 0 to |program.services|
      invariant OverrideServices(a, program.services) == OverrideServices(artifact, program.services[i..])
    {
      var (id, declaration) := program.services[i];
      assert program.services[i..][1..] == program.services[i + 1..];
      if id !in artifact.services {
        return Refused(UnknownService(id));
      }
      if !IsOperationMap(artifact.services[id]) || !IsOperationMap(declaration) {
        return Refused(NoOperationMap(id));
      }
      if !SameEntries(artifact.services[id].operations.value, declaration.operations.value) {
        return Refused(OperationContractsChanged(id));
      }
      artifact := artifact.(services := artifact.services[id := declaration]);
    }
    r := Lowered(artifact);
  }

  method ApplyServiceRecipe(holds: Condition, a: Artifact, recipe: ServiceRecipe) returns (r: Lowered)
    ensures r == ServiceStage(holds, a, recipe)
  {
    var selected := SelectProgram(holds, recipe);
    if selected.None? {
      return Refused(UnknownFallback(recipe.id));
    }
    r := ApplyCellImplementationOverrides(a, selected.value);
    if r.Lowered? {
      r := ApplyServiceImplementationOverrides(r.artifact, selected.value);
    }
  }

  // ---- what a chain keeps -----------------------------------------------------------------------------

  lemma {:induction false} ResolvedContracts(services: map<string, Service>, sources: seq<Source>)
    requires ContractMap(services, sources).Some?
    ensures Resolution(services, sources).Keys == ContractMap(services, sources).value.Keys
    ensures forall id :: id in Resolution(services, sources) ==>
              Resolution(services, sources)[id] == Some(ContractMap(services, sources).value[id])
  {
    if sources != [] {
      ResolvedContracts(services, sources[..|sources| - 1]);
    }
  }

  lemma EqualMapsResolveEqually(services: map<string, Service>, a: seq<Source>, b: seq<Source>)
    requires ContractMap(services, a).Some? && ContractMap(services, a) == ContractMap(services, b)
    ensures Resolution(services, a) == Resolution(services, b)
  {
    ResolvedContracts(services, a);
    ResolvedContracts(services, b);
  }

  /** Services of equal contracts resolve every source alike. */
  lemma {:induction false} SameServicesResolveEqually(before: map<string, Service>, after: map<string, Service>,
      sources: seq<Source>)
    requires forall s: Source :: ContractOf(before, s) == ContractOf(after, s)
    ensures Resolution(before, sources) == Resolution(after, sources)
  {
    if sources != [] {
      SameServicesResolveEqually(before, after, sources[..|sources| - 1]);
    }
  }

  /** The seam of the service axis: cells keep their identity, ports, events and views, their sources keep ids
      and resolve to the same contracts; presentation and everything else stays. */
  ghost predicate ServiceSeam(a: Artifact, b: Artifact) {
    && b.presentation == a.presentation && b.externals == a.externals && b.body == a.body
    && b.cells.Keys == a.cells.Keys && b.services.Keys == a.services.Keys
    && (forall id :: id in a.cells ==>
          && b.cells[id]
              == a.cells[id].(sources := b.cells[id].sources, compute := b.cells[id].compute,
              behavior := b.cells[id].behavior)
          && CellResolution(b, id) == CellResolution(a, id))
    && forall s: Source :: ContractOf(b.services, s) == ContractOf(a.services, s)
  }

  lemma SeamComposes(a: Artifact, b: Artifact, c: Artifact)
    requires ServiceSeam(a, b) && ServiceSeam(b, c)
    ensures ServiceSeam(a, c)
  {
    hide CellResolution, ContractOf;
  }

  lemma OverrideCellKeeps(a: Artifact, id: string, o: Override)
    requires OverrideCell(a, id, o).Lowered?
    ensures ServiceSeam(a, OverrideCell(a, id, o).artifact)
  {
    hide ContractOf;
    var b := OverrideCell(a, id, o).artifact;
    if o.sources.Some? {
      var authored, selected := ContractMap(a.services, SourcesOf(a.cells[id])),
          ContractMap(a.services, o.sources.value);
      SameEntriesIffEqual(authored.value, selected.value);
      EqualMapsResolveEqually(a.services, SourcesOf(a.cells[id]), o.sources.value);
    }
  }

  lemma OverrideServiceKeeps(a: Artifact, id: string, declaration: Service)
    requires OverrideService(a, id, declaration).Lowered?
    ensures ServiceSeam(a, OverrideService(a, id, declaration).artifact)
  {
    var b := OverrideService(a, id, declaration).artifact;
    SameEntriesIffEqual(a.services[id].operations.value, declaration.operations.value);
    forall s: Source
      ensures ContractOf(b.services, s) == ContractOf(a.services, s)
    {
    }
    forall cell | cell in a.cells
      ensures CellResolution(b, cell) == CellResolution(a, cell)
    {
      SameServicesResolveEqually(a.services, b.services, SourcesOf(a.cells[cell]));
    }
  }

  lemma SeamIsReflexive(a: Artifact)
    ensures ServiceSeam(a, a)
  {
  }

  lemma {:induction false} OverrideCellsKeep(a: Artifact, cells: seq<(string, Override)>)
    requires OverrideCells(a, cells).Lowered?
    ensures ServiceSeam(a, OverrideCells(a, cells).artifact)
    decreases |cells|
  {
    hide ServiceSeam, OverrideCell;
    if cells == [] {
      SeamIsReflexive(a);
    } else {
      var first := OverrideCell(a, cells[0].0, cells[0].1).artifact;
      OverrideCellKeeps(a, cells[0].0, cells[0].1);
      OverrideCellsKeep(first, cells[1..]);
      SeamComposes(a, first, OverrideCells(a, cells).artifact);
    }
  }

  lemma {:induction false} OverrideServicesKeep(a: Artifact, services: seq<(string, Service)>)
    requires OverrideServices(a, services).Lowered?
    ensures ServiceSeam(a, OverrideServices(a, services).artifact)
    decreases |services|
  {
    hide ServiceSeam, OverrideService;
    if services == [] {
      SeamIsReflexive(a);
    } else {
      var first := OverrideService(a, services[0].0, services[0].1).artifact;
      OverrideServiceKeeps(a, services[0].0, services[0].1);
      OverrideServicesKeep(first, services[1..]);
      SeamComposes(a, first, OverrideServices(a, services).artifact);
    }
  }

  /** Whatever programs the conditions select, a service chain that goes through preserves every contract. */
  lemma {:induction false} ServiceChainKeepsContracts(holds: Condition, a: Artifact, recipes: seq<ServiceRecipe>)
    requires ServiceChain(holds, a, recipes).Lowered?
    ensures ServiceSeam(a, ServiceChain(holds, a, recipes).artifact)
    decreases |recipes|
  {
    hide ServiceSeam, OverrideCells, OverrideServices;
    if recipes == [] {
      SeamIsReflexive(a);
    } else {
      var program := SelectProgram(holds, recipes[0]).value;
      var cells := OverrideCells(a, program.cells).artifact;
      var first := ServiceStage(holds, a, recipes[0]).artifact;
      OverrideCellsKeep(a, program.cells);
      OverrideServicesKeep(cells, program.services);
      SeamComposes(a, cells, first);
      ServiceChainKeepsContracts(holds, first, recipes[1..]);
      SeamComposes(a, first, ServiceChain(holds, a, recipes).artifact);
    }
  }

  /** A cell handles only events it declares. */
  ghost predicate HandlersDeclared(a: Artifact) {
    forall id :: id in a.cells && a.cells[id].behavior.Some?
        ==> HandlesDeclared(a.cells[id], a.cells[id].behavior.value)
  }

  lemma {:induction false} OverridesKeepHandlersDeclared(a: Artifact, cells: seq<(string, Override)>)
    requires HandlersDeclared(a) && OverrideCells(a, cells).Lowered?
    ensures HandlersDeclared(OverrideCells(a, cells).artifact)
    decreases |cells|
  {
    hide ContractMap, SameEntries;
    if cells != [] {
      OverridesKeepHandlersDeclared(OverrideCell(a, cells[0].0, cells[0].1).artifact, cells[1..]);
    }
  }

  lemma {:induction false} ServicesLeaveCells(a: Artifact, services: seq<(string, Service)>)
    requires OverrideServices(a, services).Lowered?
    ensures OverrideServices(a, services).artifact.cells == a.cells
    decreases |services|
  {
    if services != [] {
      ServicesLeaveCells(OverrideService(a, services[0].0, services[0].1).artifact, services[1..]);
    }
  }

  lemma {:induction false} ServiceChainKeepsHandlersDeclared(holds: Condition, a: Artifact, recipes: seq<ServiceRecipe>)
    requires HandlersDeclared(a) && ServiceChain(holds, a, recipes).Lowered?
    ensures HandlersDeclared(ServiceChain(holds, a, recipes).artifact)
    decreases |recipes|
  {
    hide OverrideCells, OverrideServices;
    if recipes != [] {
      var program := SelectProgram(holds, recipes[0]).value;
      OverridesKeepHandlersDeclared(a, program.cells);
      ServicesLeaveCells(OverrideCells(a, program.cells).artifact, program.services);
      ServiceChainKeepsHandlersDeclared(holds, ServiceStage(holds, a, recipes[0]).artifact, recipes[1..]);
    }
  }

  /** With unique source ids the same is true source by source: no source is lost, added or bound to another
      contract. */
  lemma EachSourceKeepsItsContract(holds: Condition, a: Artifact, recipes: seq<ServiceRecipe>, id: string,
      source: Source)
    requires ServiceChain(holds, a, recipes).Lowered? && id in a.cells && source in SourcesOf(a.cells[id])
    requires var b := ServiceChain(holds, a, recipes).artifact;
        id in b.cells && UniqueIds(SourcesOf(a.cells[id]))
        && UniqueIds(SourcesOf(b.cells[id]))
    ensures var b := ServiceChain(holds, a, recipes).artifact;
            exists s :: s in SourcesOf(b.cells[id]) && s.id == source.id
                && ContractOf(b.services, s) == ContractOf(a.services, source)
  {
    hide ContractOf, ServiceChain;
    var b := ServiceChain(holds, a, recipes).artifact;
    ServiceChainKeepsContracts(holds, a, recipes);
    ResolutionOf(a.services, SourcesOf(a.cells[id]), source);
    assert CellResolution(b, id) == CellResolution(a, id);
    var s := SourceWithId(b.services, SourcesOf(b.cells[id]), source.id);
    ResolutionOf(b.services, SourcesOf(b.cells[id]), s);
  }

  ghost predicate UniqueIds(sources: seq<Source>) {
    forall i, j :: 0 <= i < j < |sources| ==> sources[i].id != sources[j].id
  }

  lemma {:induction false} ResolutionOf(services: map<string, Service>, sources: seq<Source>, source: Source)
    requires UniqueIds(sources) && source in sources
    ensures source.id in Resolution(services, sources)
        && Resolution(services, sources)[source.id] == ContractOf(services, source)
  {
    var last := |sources| - 1;
    var i :| 0 <= i < |sources| && sources[i] == source;
    if i < last {
      assert sources[..last][i] == source;
      ResolutionOf(services, sources[..last], source);
    }
  }

  lemma {:induction false} SourceWithId(services: map<string, Service>, sources: seq<Source>,
      id: string) returns (s: Source)
    requires id in Resolution(services, sources)
    ensures s in sources && s.id == id
  {
    var last := sources[|sources| - 1];
    if last.id == id {
      s := last;
    } else {
      s := SourceWithId(services, sources[..|sources| - 1], id);
    }
  }

  // ---- the service axis never looks at the presentation ---------------------------------------------------

  /** Two artifacts that differ at most in views, presentation and declared externals. */
  ghost predicate SameServiceSide(a: Artifact, b: Artifact) {
    && a.services == b.services && a.body == b.body && a.cells.Keys == b.cells.Keys
    && forall id :: id in a.cells ==> b.cells[id] == a.cells[id].(views := b.cells[id].views)
  }

  ghost predicate SameOutcome(r: Lowered, s: Lowered) {
    if r.Refused? then s == r else s.Lowered? && SameServiceSide(r.artifact, s.artifact)
  }

  lemma SameHandling(c: Cell, d: Cell, o: Override)
    requires d == c.(views := d.views)
    ensures o.behavior.Some? ==> (HandlesDeclared(c, o.behavior.value) <==> HandlesDeclared(d, o.behavior.value))
    ensures SourcesOf(c) == SourcesOf(d) && Overridden(d, o) == Overridden(c, o).(views := Overridden(d, o).views)
  {
  }

  lemma SameUpdate(a: Artifact, b: Artifact, id: string, c: Cell, d: Cell)
    requires SameServiceSide(a, b) && d == c.(views := d.views)
    ensures SameServiceSide(a.(cells := a.cells[id := c]), b.(cells := b.cells[id := d]))
  {
  }

  lemma OverrideCellBlind(a: Artifact, b: Artifact, id: string, o: Override)
    requires SameServiceSide(a, b)
    ensures SameOutcome(OverrideCell(a, id, o), OverrideCell(b, id, o))
  {
    assert a.services == b.services && (id in a.cells <==> id in b.cells);
    assert id in a.cells ==> b.cells[id] == a.cells[id].(views := b.cells[id].views);
    hide ContractMap, SameEntries, HandlesDeclared, SourcesOf, Overridden, SameServiceSide;
    if id in a.cells {
      SameHandling(a.cells[id], b.cells[id], o);
      SameUpdate(a, b, id, Overridden(a.cells[id], o), Overridden(b.cells[id], o));
    }
  }

  lemma {:induction false} OverrideCellsBlind(a: Artifact, b: Artifact, cells: seq<(string, Override)>)
    requires SameServiceSide(a, b)
    ensures SameOutcome(OverrideCells(a, cells), OverrideCells(b, cells))
    decreases |cells|
  {
    hide OverrideCell, SameServiceSide;
    if cells != [] {
      OverrideCellBlind(a, b, cells[0].0, cells[0].1);
      var first, second := OverrideCell(a, cells[0].0, cells[0].1), OverrideCell(b, cells[0].0, cells[0].1);
      if first.Lowered? {
        OverrideCellsBlind(first.artifact, second.artifact, cells[1..]);
      }
    }
  }

  lemma {:induction false} OverrideServicesBlind(a: Artifact, b: Artifact, services: seq<(string, Service)>)
    requires SameServiceSide(a, b)
    ensures SameOutcome(OverrideServices(a, services), OverrideServices(b, services))
    decreases |services|
  {
    hide SameEntries, IsOperationMap;
    if services != [] {
      var first, second := OverrideService(a, services[0].0, services[0].1),
          OverrideService(b, services[0].0, services[0].1);
      if first.Lowered? {
        OverrideServicesBlind(first.artifact, second.artifact, services[1..]);
      }
    }
  }

  /** So which programs a chain selects, and whether it goes through, no projection can influence. */
  lemma {:induction false} ServiceChainBlind(holds: Condition, a: Artifact, b: Artifact, recipes: seq<ServiceRecipe>)
    requires SameServiceSide(a, b)
    ensures SameOutcome(ServiceChain(holds, a, recipes), ServiceChain(holds, b, recipes))
    decreases |recipes|
  {
    hide SameServiceSide, OverrideCells, OverrideServices;
    if recipes != [] {
      var selected := SelectProgram(holds, recipes[0]);
      if selected.Some? {
        OverrideCellsBlind(a, b, selected.value.cells);
        var cells, others := OverrideCells(a, selected.value.cells), OverrideCells(b, selected.value.cells);
        if cells.Lowered? {
          OverrideServicesBlind(cells.artifact, others.artifact, selected.value.services);
        }
      }
      var first, second := ServiceStage(holds, a, recipes[0]), ServiceStage(holds, b, recipes[0]);
      if first.Lowered? {
        ServiceChainBlind(holds, first.artifact, second.artifact, recipes[1..]);
      }
    }
  }
}
