/** Program patches: application and difference (kernel/src/program-patch.ts:50-149). */
module ProgramPatches {
  import opened Json
  import opened Graphs
  import opened GraphMutations
  import opened Derivations

  /** A handler or a machine: an id and everything else about it. */
  datatype Item = Item(id: string, body: Json)

  datatype Program = Program(
    vocabulary: Option<string>,
    graph: Option<Graph>,
    root: Option<Json>,
    handlers: Option<seq<Item>>,
    machines: Option<seq<Item>>,
    derivations: Option<seq<Derivation>>)

  datatype Edit<T> = Upsert(value: T) | Remove(id: string)

  datatype Operation =
    | MutateGraph(mutations: seq<Mutation>)
    | SetGraph(graph: Graph)
    | RemoveGraph
    | SetRoot(root: Json)
    | RemoveRoot
    | EditHandlers(handler: Edit<Item>)
    | EditMachines(machine: Edit<Item>)
    | EditDerivations(derivation: Edit<Derivation>)

  // ---- lists kept by id ------------------------------------------------------------------------

  function ListOf<T>(items: Option<seq<T>>): seq<T> {
    if items.Some? then items.value else []
  }

  /** `find` by id: the first of several. */
  function Lookup<T>(id: T -> string, items: seq<T>, key: string): Option<T> {
    if items == [] then None
    else if id(items[0]) == key then Some(items[0])
    else Lookup(id, items[1..], key)
  }

  function ReplaceOrPush<T>(id: T -> string, items: seq<T>, value: T): seq<T> {
    if items == [] then [value]
    else if id(items[0]) == id(value) then [value] + items[1..]
    else [items[0]] + ReplaceOrPush(id, items[1..], value)
  }

  function UpsertById<T>(id: T -> string, items: Option<seq<T>>, value: T): Option<seq<T>> {
    Some(ReplaceOrPush(id, ListOf(items), value))
  }

  function Dropped<T>(id: T -> string, items: seq<T>, key: string): seq<T> {
    if items == [] then []
    else (if id(items[0]) == key then [] else [items[0]]) + Dropped(id, items[1..], key)
  }

  /** An emptied list is a missing one. */
  function RemoveById<T>(id: T -> string, items: Option<seq<T>>, key: string): Option<seq<T>> {
    var remaining := Dropped(id, ListOf(items), key);
    if |remaining| > 0 then Some(remaining) else None
  }

  function EditOne<T>(id: T -> string, items: Option<seq<T>>, edit: Edit<T>): Option<seq<T>> {
    match edit
    case Upsert(value) => UpsertById(id, items, value)
    case Remove(key) => RemoveById(id, items, key)
  }

  function EditAll<T>(id: T -> string, items: Option<seq<T>>, edits: seq<Edit<T>>): Option<seq<T>>
    decreases |edits|
  {
    if edits == [] then items else EditAll(id, EditOne(id, items, edits[0]), edits[1..])
  }

  // ---- applyProgramPatch -----------------------------------------------------------------------

  const ITEM_ID := (item: Item) => item.id
  const DERIVATION_ID := (d: Derivation) => d.id

  /** None where the code throws: a graph mutation without a graph, or one that is refused. */
  function Apply(p: Program, operation: Operation): Option<Program> {
    match operation
    case MutateGraph(mutations) =>
      if p.graph.None? then None
      else
        var graph := MutateAll(p.graph.value, mutations);
        if graph.None? then None else Some(p.(graph := graph))
    case SetGraph(graph) => Some(p.(graph := Some(graph)))
    case RemoveGraph => Some(p.(graph := None))
    case SetRoot(root) => Some(p.(root := Some(root)))
    case RemoveRoot => Some(p.(root := None))
    case EditHandlers(edit) => Some(p.(handlers := EditOne(ITEM_ID, p.handlers, edit)))
    case EditMachines(edit) => Some(p.(machines := EditOne(ITEM_ID, p.machines, edit)))
    case EditDerivations(edit) => Some(p.(derivations := EditOne(DERIVATION_ID, p.derivations, edit)))
  }

  function ApplyPatch(p: Program, patch: seq<Operation>): Option<Program>
    decreases |patch|
  {
    if patch == [] then Some(p)
    else
      var next := Apply(p, patch[0]);
      if next.None? then None else ApplyPatch(next.value, patch[1..])
  }

  /** The loop of `applyProgramPatch`. */
  method ApplyProgramPatch(p: Program, patch: seq<Operation>) returns (r: Option<Program>)
    ensures r == ApplyPatch(p, patch)
  {
    var next := p;
    for i := 0 to |patch|
      invariant ApplyPatch(p, patch) == ApplyPatch(next, patch[i..])
    {
      var applied: Option<Program>;
      if patch[i].MutateGraph? && next.graph.Some? {
        var graph := ApplyGraphMutations(next.graph.value, patch[i].mutations);
        applied := if graph.None? then None else Some(next.(graph := graph));
      } else {
        applied := Apply(next, patch[i]);
      }
      assert patch[i..][0] == patch[i] && patch[i..][1..] == patch[i + 1..];
      if applied.None? {
        return None;
      }
      next := applied.value;
    }
    r := Some(next);
  }

  // ---- diffProgram -----------------------------------------------------------------------------

  function Removals<T>(id: T -> string, current: seq<T>, target: seq<T>): seq<Edit<T>> {
    if current == [] then []
    else
      (if Lookup(id, target, id(current[0])).None? then [Remove(id(current[0]))] else [])
      + Removals(id, current[1..], target)
  }

  function Upserts<T(==)>(id: T -> string, current: seq<T>, target: seq<T>): seq<Edit<T>> {
    if target == [] then []
    else
      (if Lookup(id, current, id(target[0])) == Some(target[0]) then [] else [Upsert(target[0])])
      + Upserts(id, current, target[1..])
  }

  function Edits<T(==)>(id: T -> string, current: Option<seq<T>>, target: Option<seq<T>>): seq<Edit<T>> {
    Removals(id, ListOf(current), ListOf(target)) + Upserts(id, ListOf(current), ListOf(target))
  }

  lemma RemovalsFrom<T>(id: T -> string, current: seq<T>, target: seq<T>, i: nat)
    requires i <= |current|
    ensures Removals(id, current[i..], target) ==
            if i == |current| then []
            else
              (if Lookup(id, target, id(current[i])).None? then [Remove(id(current[i]))] else [])
              + Removals(id, current[i + 1..], target)
  {
    if i < |current| {
      assert current[i..][1..] == current[i + 1..];
    }
  }

  lemma UpsertsFrom<T>(id: T -> string, current: seq<T>, target: seq<T>, i: nat)
    requires i <= |target|
    ensures Upserts(id, current, target[i..]) ==
            if i == |target| then []
            else
              (if Lookup(id, current, id(target[i])) == Some(target[i]) then [] else [Upsert(target[i])])
              + Upserts(id, current, target[i + 1..])
  {
    if i < |target| {
      assert target[i..][1..] == target[i + 1..];
    }
  }

  lemma RemovalStep<T>(id: T -> string, cs: seq<T>, ts: seq<T>, i: nat, edits: seq<Edit<T>>, all: seq<Edit<T>>)
    requires i < |cs| && edits + Removals(id, cs[i..], ts) == all
    ensures Lookup(id, ts, id(cs[i])).None? ==> (edits + [Remove(id(cs[i]))]) + Removals(id, cs[i + 1..], ts) == all
    ensures Lookup(id, ts, id(cs[i])).Some? ==> edits + Removals(id, cs[i + 1..], ts) == all
  {
    hide Lookup, Removals;
    RemovalsFrom(id, cs, ts, i);
  }

  lemma UpsertStep<T>(id: T -> string, cs: seq<T>, ts: seq<T>, i: nat, edits: seq<Edit<T>>, all: seq<Edit<T>>)
    requires i < |ts| && edits + Upserts(id, cs, ts[i..]) == all
    ensures Lookup(id, cs, id(ts[i])) != Some(ts[i]) ==> (edits + [Upsert(ts[i])]) + Upserts(id, cs, ts[i + 1..]) == all
    ensures Lookup(id, cs, id(ts[i])) == Some(ts[i]) ==> edits + Upserts(id, cs, ts[i + 1..]) == all
  {
    hide Lookup, Upserts;
    UpsertsFrom(id, cs, ts, i);
  }

  /** diffById. */
  method DiffById<T(==)>(id: T -> string, current: Option<seq<T>>, target: Option<seq<T>>) returns (edits: seq<Edit<T>>)
    ensures edits == Edits(id, current, target)
  {
    hide Lookup, Removals, Upserts, ListOf;
    var cs, ts := ListOf(current), ListOf(target);
    edits := [];
    assert cs[0..] == cs && ts[0..] == ts;
    for i := 0 to |cs|
      invariant edits + Removals(id, cs[i..], ts) == Removals(id, cs, ts)
    {
      RemovalStep(id, cs, ts, i, edits, Removals(id, cs, ts));
      if Lookup(id, ts, id(cs[i])).None? {
        edits := edits + [Remove(id(cs[i]))];
      }
    }
    RemovalsFrom(id, cs, ts, |cs|);
    for i := 0 to |ts|
      invariant edits + Upserts(id, cs, ts[i..]) == Edits(id, current, target)
    {
      UpsertStep(id, cs, ts, i, edits, Edits(id, current, target));
      var existing := Lookup(id, cs, id(ts[i]));
      if existing.None? || existing.value != ts[i] {
        edits := edits + [Upsert(ts[i])];
      }
    }
    UpsertsFrom(id, cs, ts, |ts|);
  }

  function Map<T, U>(f: T -> U, s: seq<T>): (r: seq<U>)
    ensures |r| == |s| && forall i :: 0 <= i < |s| ==> r[i] == f(s[i])
  {
    if s == [] then [] else [f(s[0])] + Map(f, s[1..])
  }

  function GraphEdit(current: Option<Graph>, target: Option<Graph>): seq<Operation> {
    if current == target then [] else if target.Some? then [SetGraph(target.value)] else [RemoveGraph]
  }

  function RootEdit(current: Option<Json>, target: Option<Json>): seq<Operation> {
    if current == target then [] else if target.Some? then [SetRoot(target.value)] else [RemoveRoot]
  }

  function HandlerEdit(edit: Edit<Item>): Operation { EditHandlers(edit) }
  function MachineEdit(edit: Edit<Item>): Operation { EditMachines(edit) }
  function DerivationEdit(edit: Edit<Derivation>): Operation { EditDerivations(edit) }

  function Diff(current: Program, target: Program): seq<Operation> {
    GraphEdit(current.graph, target.graph) + RootEdit(current.root, target.root)
    + Map(HandlerEdit, Edits(ITEM_ID, current.handlers, target.handlers))
    + Map(MachineEdit, Edits(ITEM_ID, current.machines, target.machines))
    + Map(DerivationEdit, Edits(DERIVATION_ID, current.derivations, target.derivations))
  }

  method DiffProgram(current: Program, target: Program) returns (patch: seq<Operation>)
    ensures patch == Diff(current, target)
  {
    hide Edits, Map;
    patch := [];
    if current.graph != target.graph {
      patch := patch + [if target.graph.Some? then SetGraph(target.graph.value) else RemoveGraph];
    }
    if current.root != target.root {
      patch := patch + [if target.root.Some? then SetRoot(target.root.value) else RemoveRoot];
    }
    var handlers := DiffById(ITEM_ID, current.handlers, target.handlers);
    var machines := DiffById(ITEM_ID, current.machines, target.machines);
    var derivations := DiffById(DERIVATION_ID, current.derivations, target.derivations);
    patch := patch + Map(HandlerEdit, handlers) + Map(MachineEdit, machines) + Map(DerivationEdit, derivations);
  }

  // ---- one list there and back --------------------------------------------------------------------

  lemma {:induction false} LookupReplaced<T>(id: T -> string, items: seq<T>, value: T, key: string)
    ensures Lookup(id, ReplaceOrPush(id, items, value), key) == if key == id(value) then Some(value)
        else Lookup(id, items, key)
  {
    if items != [] && id(items[0]) != id(value) {
      LookupReplaced(id, items[1..], value, key);
    }
  }

  lemma {:induction false} LookupDropped<T>(id: T -> string, items: seq<T>, gone: string, key: string)
    ensures Lookup(id, Dropped(id, items, gone), key) == if key == gone then None else Lookup(id, items, key)
  {
    if items != [] {
      LookupDropped(id, items[1..], gone, key);
      var rest := Dropped(id, items[1..], gone);
      assert ([items[0]] + rest)[1..] == rest && [] + rest == rest;
    }
  }

  function LookupIn<T>(id: T -> string, items: Option<seq<T>>, key: string): Option<T> {
    Lookup(id, ListOf(items), key)
  }

  lemma LookupEdited<T>(id: T -> string, items: Option<seq<T>>, edit: Edit<T>, key: string)
    ensures LookupIn(id, EditOne(id, items, edit), key) ==
            if edit.Upsert? then (if key == id(edit.value) then Some(edit.value) else LookupIn(id, items, key))
            else if key == edit.id then None
            else LookupIn(id, items, key)
  {
    if edit.Upsert? {
      LookupReplaced(id, ListOf(items), edit.value, key);
    } else {
      LookupDropped(id, ListOf(items), edit.id, key);
    }
  }

  lemma {:induction false} EditAllConcat<T>(id: T -> string, items: Option<seq<T>>, a: seq<Edit<T>>, b: seq<Edit<T>>)
    ensures EditAll(id, items, a + b) == EditAll(id, EditAll(id, items, a), b)
    decreases |a|
  {
    if a == [] {
      assert a + b == b;
    } else {
      assert (a + b)[1..] == a[1..] + b;
      EditAllConcat(id, EditOne(id, items, a[0]), a[1..], b);
    }
  }

  lemma {:induction false} AfterRemovals<T>(id: T -> string, current: seq<T>, target: seq<T>, items: Option<seq<T>>,
      key: string)
    ensures LookupIn(id, EditAll(id, items, Removals(id, current, target)), key) ==
            if Lookup(id, current, key).Some? && Lookup(id, target, key).None? then None else LookupIn(id, items, key)
    decreases |current|
  {
    if current != [] {
      var first := id(current[0]);
      if Lookup(id, target, first).None? {
        LookupEdited(id, items, Remove(first), key);
        AfterRemovals(id, current[1..], target, EditOne(id, items, Remove(first)), key);
        assert ([Remove(first)] + Removals(id, current[1..], target))[1..] == Removals(id, current[1..], target);
      } else {
        AfterRemovals(id, current[1..], target, items, key);
        assert [] + Removals(id, current[1..], target) == Removals(id, current[1..], target);
      }
    }
  }

  /** The last value of `target` under a key that the current list does not already hold there. */
  function LastNew<T(==)>(id: T -> string, current: seq<T>, target: seq<T>, key: string): Option<T> {
    if target == [] then None
    else
      var later := LastNew(id, current, target[1..], key);
      if later.Some? then later
      else if id(target[0]) == key && Lookup(id, current, key) != Some(target[0]) then Some(target[0])
      else None
  }

  lemma {:induction false} AfterUpserts<T>(id: T -> string, current: seq<T>, target: seq<T>, items: Option<seq<T>>,
      key: string)
    ensures LookupIn(id, EditAll(id, items, Upserts(id, current, target)), key) ==
            (var last := LastNew(id, current, target, key); if last.Some? then last else LookupIn(id, items, key))
    decreases |target|
  {
    if target != [] {
      var first := target[0];
      if Lookup(id, current, id(first)) == Some(first) {
        AfterUpserts(id, current, target[1..], items, key);
        assert [] + Upserts(id, current, target[1..]) == Upserts(id, current, target[1..]);
      } else {
        LookupEdited(id, items, Upsert(first), key);
        AfterUpserts(id, current, target[1..], EditOne(id, items, Upsert(first)), key);
        assert ([Upsert(first)] + Upserts(id, current, target[1..]))[1..] == Upserts(id, current, target[1..]);
      }
    }
  }

  /** Values with one id are one value.  Unique ids are a special case. */
  ghost predicate Consistent<T>(id: T -> string, items: seq<T>) {
    forall i, j :: 0 <= i < j < |items| && id(items[i]) == id(items[j]) ==> items[i] == items[j]
  }

  ghost predicate SameById<T>(id: T -> string, a: Option<seq<T>>, b: Option<seq<T>>) {
    forall key :: LookupIn(id, a, key) == LookupIn(id, b, key)
  }

  ghost function RoundTrip<T>(id: T -> string, current: Option<seq<T>>, target: Option<seq<T>>): Option<seq<T>> {
    EditAll(id, current, Edits(id, current, target))
  }

  lemma RoundTripLookup<T>(id: T -> string, current: Option<seq<T>>, target: Option<seq<T>>, key: string)
    ensures LookupIn(id, RoundTrip(id, current, target), key) ==
            (var last := LastNew(id, ListOf(current), ListOf(target), key);
             if last.Some? then last else if LookupIn(id, target, key).None? then None else LookupIn(id, current, key))
  {
    var cs, ts := ListOf(current), ListOf(target);
    EditAllConcat(id, current, Removals(id, cs, ts), Upserts(id, cs, ts));
    AfterUpserts(id, cs, ts, EditAll(id, current, Removals(id, cs, ts)), key);
    AfterRemovals(id, cs, ts, current, key);
  }

  lemma {:induction false} LookupFound<T>(id: T -> string, items: seq<T>, key: string)
    ensures Lookup(id, items, key).Some? ==>
        Lookup(id, items, key).value in items
        && id(Lookup(id, items, key).value) == key
    ensures Lookup(id, items, key).None? ==> forall x :: x in items ==> id(x) != key
  {
    if items != [] {
      LookupFound(id, items[1..], key);
    }
  }

  lemma {:induction false} LastNewConsistent<T>(id: T -> string, current: seq<T>, target: seq<T>, key: string)
    requires Consistent(id, target)
    ensures LastNew(id, current, target, key) ==
            if Lookup(id, current, key) == Lookup(id, target, key) then None else Lookup(id, target, key)
  {
    if target != [] {
      assert forall i :: 0 <= i < |target[1..]| ==> target[1..][i] == target[i + 1];
      LastNewConsistent(id, current, target[1..], key);
      LookupFound(id, target[1..], key);
    }
  }

  lemma {:induction false} LastNewIsNew<T>(id: T -> string, current: seq<T>, target: seq<T>, key: string)
    ensures var last := LastNew(id, current, target, key);
            && (last.Some? ==> Lookup(id, current, key) != last)
            && (last.None? ==> forall x :: x in target && id(x) == key ==> Lookup(id, current, key) == Some(x))
  {
    if target != [] {
      LastNewIsNew(id, current, target[1..], key);
    }
  }

  /** The difference leads from any list to one with the target's values under the target's ids; and it does
      so from every list if and only if the target has one value for each of its ids. */
  lemma RoundTripsIffConsistent<T(!new)>(id: T -> string, target: Option<seq<T>>)
    ensures Consistent(id, ListOf(target)) <==> forall current :: SameById(id, RoundTrip(id, current, target), target)
  {
    var ts := ListOf(target);
    if Consistent(id, ts) {
      forall current, key
        ensures LookupIn(id, RoundTrip(id, current, target), key) == LookupIn(id, target, key)
      {
        RoundTripLookup(id, current, target, key);
        LastNewConsistent(id, ListOf(current), ts, key);
      }
    } else {
      var i, j :| 0 <= i < j < |ts| && id(ts[i]) == id(ts[j]) && ts[i] != ts[j];
      var key := id(ts[i]);
      LookupFound(id, ts, key);
      assert ts[i] in ts && ts[j] in ts;
      var first := Lookup(id, ts, key).value;
      var current := Some([first]);
      RoundTripLookup(id, current, target, key);
      LastNewIsNew(id, [first], ts, key);
      assert !SameById(id, RoundTrip(id, current, target), target);
    }
  }

  // ---- unique ids stay unique, so the lists have the same elements ---------------------------------------

  ghost predicate Unique<T>(id: T -> string, items: seq<T>) {
    forall i, j :: 0 <= i < j < |items| ==> id(items[i]) != id(items[j])
  }

  lemma {:induction false} ReplaceKeepsUnique<T>(id: T -> string, items: seq<T>, value: T)
    requires Unique(id, items)
    ensures Unique(id, ReplaceOrPush(id, items, value))
    ensures forall x :: x in ReplaceOrPush(id, items, value) ==> x == value || x in items
  {
    if items != [] {
      assert forall i :: 0 <= i < |items[1..]| ==> items[1..][i] == items[i + 1];
      if id(items[0]) != id(value) {
        ReplaceKeepsUnique(id, items[1..], value);
        var rest := ReplaceOrPush(id, items[1..], value);
        forall x | x in rest
          ensures id(x) != id(items[0])
        {
          if x != value {
            var i :| 0 <= i < |items[1..]| && items[1..][i] == x;
          }
        }
      }
    }
  }

  lemma {:induction false} DropKeepsUnique<T>(id: T -> string, items: seq<T>, gone: string)
    requires Unique(id, items)
    ensures Unique(id, Dropped(id, items, gone))
    ensures forall x :: x in Dropped(id, items, gone) ==> x in items
  {
    if items != [] {
      assert forall i :: 0 <= i < |items[1..]| ==> items[1..][i] == items[i + 1];
      DropKeepsUnique(id, items[1..], gone);
      var rest := Dropped(id, items[1..], gone);
      forall x | x in rest
        ensures id(x) != id(items[0])
      {
        var i :| 0 <= i < |items[1..]| && items[1..][i] == x;
      }
    }
  }

  lemma {:induction false} EditsKeepUnique<T>(id: T -> string, items: Option<seq<T>>, edits: seq<Edit<T>>)
    requires Unique(id, ListOf(items))
    ensures Unique(id, ListOf(EditAll(id, items, edits)))
    decreases |edits|
  {
    hide Unique;
    if edits != [] {
      match edits[0] {
        case Upsert(value) => ReplaceKeepsUnique(id, ListOf(items), value);
        case Remove(key) =>
          DropKeepsUnique(id, ListOf(items), key);
          NoItemsUnique(id);
      }
      EditsKeepUnique(id, EditOne(id, items, edits[0]), edits[1..]);
    }
  }

  lemma NoItemsUnique<T>(id: T -> string)
    ensures Unique(id, [])
  {
  }

  lemma {:induction false} LookupUnique<T>(id: T -> string, items: seq<T>, x: T)
    requires Unique(id, items) && x in items
    ensures Lookup(id, items, id(x)) == Some(x)
  {
    var i :| 0 <= i < |items| && items[i] == x;
    if i > 0 {
      assert forall k :: 0 <= k < |items[1..]| ==> items[1..][k] == items[k + 1];
      assert items[1..][i - 1] == x;
      LookupUnique(id, items[1..], x);
    }
  }

  /** With unique ids on both sides the result holds exactly the target's values, each once. */
  lemma RoundTripElements<T>(id: T -> string, current: Option<seq<T>>, target: Option<seq<T>>)
    requires Unique(id, ListOf(current)) && Unique(id, ListOf(target))
    ensures Unique(id, ListOf(RoundTrip(id, current, target)))
    ensures forall x :: x in ListOf(RoundTrip(id, current, target)) <==> x in ListOf(target)
  {
    var r := RoundTrip(id, current, target);
    EditsKeepUnique(id, current, Edits(id, current, target));
    forall x
      ensures x in ListOf(r) <==> x in ListOf(target)
    {
      RoundTripLookup(id, current, target, id(x));
      LastNewConsistent(id, ListOf(current), ListOf(target), id(x));
      if x in ListOf(r) {
        LookupUnique(id, ListOf(r), x);
      }
      if x in ListOf(target) {
        LookupUnique(id, ListOf(target), x);
      }
      LookupFound(id, ListOf(r), id(x));
      LookupFound(id, ListOf(target), id(x));
    }
  }

  // ---- whole programs ------------------------------------------------------------------------------------

  lemma {:induction false} ApplyConcat(p: Program, a: seq<Operation>, b: seq<Operation>)
    ensures ApplyPatch(p, a + b) == if ApplyPatch(p, a).None? then None else ApplyPatch(ApplyPatch(p, a).value, b)
    decreases |a|
  {
    if a == [] {
      assert a + b == b;
    } else {
      assert (a + b)[1..] == a[1..] + b;
      if Apply(p, a[0]).Some? {
        ApplyConcat(Apply(p, a[0]).value, a[1..], b);
      }
    }
  }

  lemma {:induction false} ApplyHandlers(p: Program, edits: seq<Edit<Item>>)
    ensures ApplyPatch(p, Map(HandlerEdit, edits)) == Some(p.(handlers := EditAll(ITEM_ID, p.handlers, edits)))
    decreases |edits|
  {
    if edits != [] {
      ApplyHandlers(p.(handlers := EditOne(ITEM_ID, p.handlers, edits[0])), edits[1..]);
      assert Map(HandlerEdit, edits)[1..] == Map(HandlerEdit, edits[1..]);
    }
  }

  lemma {:induction false} ApplyMachines(p: Program, edits: seq<Edit<Item>>)
    ensures ApplyPatch(p, Map(MachineEdit, edits)) == Some(p.(machines := EditAll(ITEM_ID, p.machines, edits)))
    decreases |edits|
  {
    if edits != [] {
      ApplyMachines(p.(machines := EditOne(ITEM_ID, p.machines, edits[0])), edits[1..]);
      assert Map(MachineEdit, edits)[1..] == Map(MachineEdit, edits[1..]);
    }
  }

  lemma {:induction false} ApplyDerivations(p: Program, edits: seq<Edit<Derivation>>)
    ensures ApplyPatch(p, Map(DerivationEdit, edits))
        == Some(p.(derivations := EditAll(DERIVATION_ID, p.derivations, edits)))
    decreases |edits|
  {
    if edits != [] {
      ApplyDerivations(p.(derivations := EditOne(DERIVATION_ID, p.derivations, edits[0])), edits[1..]);
      assert Map(DerivationEdit, edits)[1..] == Map(DerivationEdit, edits[1..]);
    }
  }

  lemma ApplyGraphEdit(p: Program, target: Option<Graph>)
    ensures ApplyPatch(p, GraphEdit(p.graph, target)) == Some(p.(graph := target))
  {
    if p.graph != target {
      assert ApplyPatch(p, GraphEdit(p.graph, target)) == ApplyPatch(Apply(p, GraphEdit(p.graph, target)[0]).value, []);
    }
  }

  lemma ApplyRootEdit(p: Program, target: Option<Json>)
    ensures ApplyPatch(p, RootEdit(p.root, target)) == Some(p.(root := target))
  {
    if p.root != target {
      assert ApplyPatch(p, RootEdit(p.root, target)) == ApplyPatch(Apply(p, RootEdit(p.root, target)[0]).value, []);
    }
  }

  /** The difference never fails to apply, and each part of the program comes from its own part of it. */
  lemma ApplyDiff(p: Program, q: Program)
    ensures ApplyPatch(p, Diff(p, q)) == Some(Program(p.vocabulary, q.graph, q.root,
              RoundTrip(ITEM_ID, p.handlers, q.handlers), RoundTrip(ITEM_ID, p.machines, q.machines),
              RoundTrip(DERIVATION_ID, p.derivations, q.derivations)))
  {
    hide ApplyPatch, Edits, EditAll, Map, GraphEdit, RootEdit;
    var graph, root := GraphEdit(p.graph, q.graph), RootEdit(p.root, q.root);
    var handlers := Map(HandlerEdit, Edits(ITEM_ID, p.handlers, q.handlers));
    var machines := Map(MachineEdit, Edits(ITEM_ID, p.machines, q.machines));
    var derivations := Map(DerivationEdit, Edits(DERIVATION_ID, p.derivations, q.derivations));
    var p1 := p.(graph := q.graph);
    var p2 := p1.(root := q.root);
    var p3 := p2.(handlers := RoundTrip(ITEM_ID, p.handlers, q.handlers));
    var p4 := p3.(machines := RoundTrip(ITEM_ID, p.machines, q.machines));
    ApplyGraphEdit(p, q.graph);
    ApplyRootEdit(p1, q.root);
    ApplyHandlers(p2, Edits(ITEM_ID, p.handlers, q.handlers));
    ApplyMachines(p3, Edits(ITEM_ID, p.machines, q.machines));
    ApplyDerivations(p4, Edits(DERIVATION_ID, p.derivations, q.derivations));
    ApplyConcat(p, graph, root);
    ApplyConcat(p, graph + root, handlers);
    ApplyConcat(p, graph + root + handlers, machines);
    ApplyConcat(p, graph + root + handlers + machines, derivations);
  }

  ghost predicate OneValuePerId(p: Program) {
    && Consistent(ITEM_ID, ListOf(p.handlers)) && Consistent(ITEM_ID, ListOf(p.machines))
    && Consistent(DERIVATION_ID, ListOf(p.derivations))
  }

  ghost predicate SameProgram(p: Program, q: Program) {
    && p.vocabulary == q.vocabulary && p.graph == q.graph && p.root == q.root
    && SameById(ITEM_ID, p.handlers, q.handlers) && SameById(ITEM_ID, p.machines, q.machines)
    && SameById(DERIVATION_ID, p.derivations, q.derivations)
  }

  /** `applyProgramPatch(p, diffProgram(p, q))` is `q` up to the order of its lists, from whatever `p` of the
      same vocabulary: an empty list and a missing one are the same. */
  lemma DiffRoundTrips(p: Program, q: Program)
    requires OneValuePerId(q) && p.vocabulary == q.vocabulary
    ensures ApplyPatch(p, Diff(p, q)).Some? && SameProgram(ApplyPatch(p, Diff(p, q)).value, q)
  {
    hide Diff, RoundTrip, Consistent, SameById;
    ApplyDiff(p, q);
    RoundTripsIffConsistent(ITEM_ID, q.handlers);
    RoundTripsIffConsistent(ITEM_ID, q.machines);
    RoundTripsIffConsistent(DERIVATION_ID, q.derivations);
  }

  lemma {:induction false} NoRemovals<T>(id: T -> string, some: seq<T>, target: seq<T>)
    ensures Removals(id, some, target) == [] <==> forall x :: x in some ==> Lookup(id, target, id(x)).Some?
  {
    if some != [] {
      NoRemovals(id, some[1..], target);
    }
  }

  lemma {:induction false} NoUpserts<T>(id: T -> string, current: seq<T>, some: seq<T>)
    ensures Upserts(id, current, some) == [] <==> forall x :: x in some ==> Lookup(id, current, id(x)) == Some(x)
  {
    if some != [] {
      NoUpserts(id, current, some[1..]);
    }
  }

  lemma NoEditsIffConsistent<T>(id: T -> string, items: Option<seq<T>>)
    ensures Edits(id, items, items) == [] <==> Consistent(id, ListOf(items))
  {
    var s := ListOf(items);
    NoRemovals(id, s, s);
    NoUpserts(id, s, s);
    forall x | x in s
      ensures Lookup(id, s, id(x)).Some?
    {
      LookupFound(id, s, id(x));
    }
    if Consistent(id, s) {
      forall x | x in s
        ensures Lookup(id, s, id(x)) == Some(x)
      {
        LookupFound(id, s, id(x));
      }
    } else {
      var i, j :| 0 <= i < j < |s| && id(s[i]) == id(s[j]) && s[i] != s[j];
      assert s[i] in s && s[j] in s;
    }
  }

  /** A program differs from itself in nothing if and only if each id of its lists has one value. */
  lemma NoDiffIffOneValuePerId(p: Program)
    ensures Diff(p, p) == [] <==> OneValuePerId(p)
  {
    hide Edits, Consistent;
    NoEditsIffConsistent(ITEM_ID, p.handlers);
    NoEditsIffConsistent(ITEM_ID, p.machines);
    NoEditsIffConsistent(DERIVATION_ID, p.derivations);
  }
}
