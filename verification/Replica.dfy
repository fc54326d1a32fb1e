/** The broker and its clients (kernel/src/transport.ts:65-160, kernel/src/client.ts:105-139). */
module Replica {
  import opened Json
  import opened Paths
  import opened PatchStream

  const MAX_LOG: nat := 256

  datatype Message = Vocabulary(namespaces: seq<string>) | Program(document: Json) | PatchMessage(patch: Patch)

  /** What a client and a kernel need to know about program documents: their root and their patches. */
  datatype Documents = Documents(hasRoot: Json -> bool, amend: (Json, Json) -> Json)

  function AmendAll(d: Documents, document: Json, program: seq<Json>): Json {
    if program == [] then document
    else d.amend(AmendAll(d, document, program[..|program| - 1]), program[|program| - 1])
  }

  // ---- the client --------------------------------------------------------------------

  datatype Client = Client(rev: int, store: Option<Fields>, document: Option<Json>)

  const FRESH := Client(-1, None, None)

  function EmptyNamespaces(namespaces: seq<string>): Fields {
    map ns | ns in namespaces :: Obj(map[])
  }

  /** GIKClient.onMessage. */
  function Receive(d: Documents, c: Client, m: Message): Client {
    match m
    case Vocabulary(namespaces) => c.(store := Some(EmptyNamespaces(namespaces)), rev := -1)
    case Program(document) => c.(document := if d.hasRoot(document) then Some(document) else None)
    case PatchMessage(patch) =>
      if patch.rev != 0 && patch.rev <= c.rev then c
      else
        var amended := if c.document.Some? then AmendAll(d, c.document.value, patch.program) else Null;
        Client(patch.rev,
          if c.store.Some? then Some(ApplyOps(c.store.value, patch.ops)) else None,
          if c.document.None? || patch.program == [] then c.document
          else if d.hasRoot(amended) then Some(amended) else None)
  }

  class GIKClient {
    const documents: Documents
    var rev: int
    var store: Option<Fields>
    var document: Option<Json>

    constructor (documents: Documents)
      ensures this.documents == documents && TheClient() == FRESH
    {
      this.documents := documents;
      rev, store, document := -1, None, None;
    }

    ghost function TheClient(): Client
      reads this
    {
      Client(rev, store, document)
    }

    method OnMessage(m: Message)
      modifies this
      ensures TheClient() == Receive(documents, old(TheClient()), m)
    {
      match m
      case Vocabulary(namespaces) =>
        store := Some(map ns | ns in namespaces :: Obj(map[]));
        rev := -1;
      case Program(root) =>
        if documents.hasRoot(root) {
          document := Some(root);
        } else {
          document := None;
        }
      case PatchMessage(patch) =>
        if patch.rev != 0 && patch.rev <= rev {
          return;
        }
        if store.Some? {
          store := Some(ApplyOps(store.value, patch.ops));
        }
        if patch.program != [] && document.Some? {
          var amended := AmendAll(documents, document.value, patch.program);
          document := if documents.hasRoot(amended) then Some(amended) else None;
        }
        rev := patch.rev;
    }
  }

  // ---- the broker ----------------------------------------------------------------------

  function AppendLog(log: seq<Patch>, patch: Patch): seq<Patch> {
    var longer := log + [patch];
    if |longer| > MAX_LOG then longer[1..] else longer
  }

  function Newer(log: seq<Patch>, fromRev: int): seq<Patch> {
    if log == [] then []
    else Newer(log[..|log| - 1], fromRev) + if log[|log| - 1].rev > fromRev then [log[|log| - 1]] else []
  }

  function Messages(patches: seq<Patch>): seq<Message> {
    seq(|patches|, i requires 0 <= i < |patches| => PatchMessage(patches[i]))
  }

  predicate CanResume(log: seq<Patch>, fromRev: Option<int>) {
    log != [] && fromRev.Some? && log[0].rev <= fromRev.value <= log[|log| - 1].rev
  }

  /** Deltas for a client whose revision the log still covers, everything for any other. */
  function Onboard(log: seq<Patch>, fromRev: Option<int>, namespaces: seq<string>, document: Json,
      snapshot: Patch): seq<Message> {
    if CanResume(log, fromRev) then Messages(Newer(log, fromRev.value))
    else [Vocabulary(namespaces), Program(document), PatchMessage(snapshot)]
  }

  /** The broker object: connections and their undelivered messages, and the bounded log. */
  class KernelTransportHost {
    const namespaces: seq<string>
    var log: seq<Patch>
    var baselined: bool
    var outgoing: map<nat, seq<Message>>

    constructor (namespaces: seq<string>)
      ensures this.namespaces == namespaces && log == [] && !baselined && outgoing == map[]
    {
      this.namespaces := namespaces;
      log, baselined, outgoing := [], false, map[];
    }

    method EnsureBaseline(baseline: Patch)
      modifies this`log, this`baselined
      ensures baselined && log == if old(baselined) then old(log) else old(log) + [baseline]
    {
      if baselined {
        return;
      }
      log := log + [baseline];
      baselined := true;
    }

    /** Onboarding in one step; the patches still undelivered to other connections are not touched. */
    method Attach(connection: nat, fromRev: Option<int>, document: Json, baseline: Patch, snapshot: Patch)
      modifies this
      ensures baselined && log == if old(baselined) then old(log) else old(log) + [baseline]
      ensures outgoing == old(outgoing)[connection := Onboard(log, fromRev, namespaces, document, snapshot)]
    {
      EnsureBaseline(baseline);
      var messages: seq<Message>;
      if log != [] && fromRev.Some? && log[0].rev <= fromRev.value <= log[|log| - 1].rev {
        messages := [];
        for i := 0 to |log|
          invariant messages == Messages(Newer(log[..i], fromRev.value))
        {
          assert log[..i + 1][..i] == log[..i];
          if log[i].rev > fromRev.value {
            messages := messages + [PatchMessage(log[i])];
          }
        }
        assert log[..|log|] == log;
      } else {
        messages := [Vocabulary(namespaces), Program(document), PatchMessage(snapshot)];
      }
      outgoing := outgoing[connection := messages];
    }

    method Detach(connection: nat)
      modifies this`outgoing
      ensures outgoing == old(outgoing) - {connection}
    {
      outgoing := outgoing - {connection};
    }

    method OnKernelPatch(patch: Patch)
      modifies this`log, this`outgoing
      ensures log == AppendLog(old(log), patch)
      ensures outgoing == map c | c in old(outgoing) :: old(outgoing)[c] + [PatchMessage(patch)]
    {
      log := log + [patch];
      if |log| > MAX_LOG {
        log := log[1..];
      }
      outgoing := map c | c in outgoing :: outgoing[c] + [PatchMessage(patch)];
    }
  }

  // ---- snapshots --------------------------------------------------------------------------

  ghost function KeySeq(keys: set<string>): (s: seq<string>)
    ensures forall k :: k in s <==> k in keys
    decreases keys
  {
    if keys == {} then [] else var k :| k in keys; KeySeq(keys - {k}) + [k]
  }

  ghost function SetKeys(data: Fields, keys: seq<string>): seq<PatchOp>
    requires forall k :: k in keys ==> k in data
  {
    seq(|keys|, i requires 0 <= i < |keys| => SetOp(keys[i], data[keys[i]]))
  }

  /** Kernel.snapshotPatch: one `set` per namespace. */
  ghost function SnapshotOps(data: Fields): seq<PatchOp> {
    SetKeys(data, KeySeq(data.Keys))
  }

  /** A key that is a single path segment. */
  predicate Dotless(key: string) {
    Split(key) == [key]
  }

  ghost predicate DotlessKeys(data: Fields) {
    forall k :: k in data ==> Dotless(k)
  }

  lemma NothingApplied(onto: Fields, ops: seq<PatchOp>)
    requires ops == []
    ensures ApplyOps(onto, ops) == onto
  {
  }

  lemma LastKeySet(data: Fields, rest: seq<string>, last: string, onto: Fields)
    requires (forall k :: k in rest ==> k in data) && last in data && Dotless(last)
    ensures ApplyOps(onto, SetKeys(data, rest + [last])) == ApplyOps(onto, SetKeys(data, rest))[last := data[last]]
  {
    assert SetKeys(data, rest + [last])[..|rest|] == SetKeys(data, rest);
  }

  lemma {:induction false} ApplySetKeys(data: Fields, keys: seq<string>, onto: Fields)
    requires forall k :: k in keys ==> k in data && Dotless(k)
    ensures var r := ApplyOps(onto, SetKeys(data, keys));
            && r.Keys == onto.Keys + (set k | k in keys)
            && (forall k :: k in keys ==> r[k] == data[k])
            && (forall k :: k in onto && k !in keys ==> r[k] == onto[k])
  {
    hide ApplyOps, Dotless;
    if keys == [] {
      NothingApplied(onto, SetKeys(data, keys));
    } else {
      var rest, last := keys[..|keys| - 1], keys[|keys| - 1];
      ApplySetKeys(data, rest, onto);
      assert keys == rest + [last];
      LastKeySet(data, rest, last, onto);
    }
  }

  /** A full snapshot rebuilds the store on a fresh replica whose namespaces the store still has. */
  lemma SnapshotRebuilds(data: Fields, namespaces: seq<string>)
    requires DotlessKeys(data) && forall ns :: ns in namespaces ==> ns in data
    ensures ApplyOps(EmptyNamespaces(namespaces), SnapshotOps(data)) == data
  {
    ApplySetKeys(data, KeySeq(data.Keys), EmptyNamespaces(namespaces));
  }

  lemma {:induction false} SegmentsDotless(path: string)
    ensures forall i :: 0 <= i < |Split(path)| ==> Dotless(Split(path)[i])
  {
    if path != "" {
      SegmentsDotless(path[1..]);
      var rest := Split(path[1..]);
      if path[0] != '.' {
        var s := [path[0]] + rest[0];
        assert s[1..] == rest[0];
        assert Split(s) == Push(path[0], Split(rest[0]));
      }
    }
  }

  lemma OpKeepsDotless(data: Fields, op: PatchOp)
    requires DotlessKeys(data)
    ensures DotlessKeys(ApplyOp(data, op))
  {
    SegmentsDotless(op.path);
    var key := Split(op.path)[0];
    assert ApplyOp(data, op).Keys <= data.Keys + {key};
  }

  lemma {:induction false} OpsKeepDotless(data: Fields, ops: seq<PatchOp>)
    requires DotlessKeys(data)
    ensures DotlessKeys(ApplyOps(data, ops))
  {
    if ops != [] {
      OpsKeepDotless(data, ops[..|ops| - 1]);
      OpKeepsDotless(ApplyOps(data, ops[..|ops| - 1]), ops[|ops| - 1]);
    }
  }
}
