/** Every run of one kernel, its broker and any number of clients that come, go and resume. */
module ReplicaConvergence {
  import opened Json
  import opened Paths
  import opened PatchStream
  import opened Replica
  import opened Derivations

  /** What stays fixed: the vocabulary's namespaces, the documents, and the operations `init` seeds. */
  datatype Setting = Setting(namespaces: seq<string>, documents: Documents, seeds: seq<PatchOp>)

  /** A client, and the position in the stream of the last document a full onboarding gave it. */
  datatype Reader = Reader(client: Client, since: int)

  const NEWCOMER := Reader(FRESH, 0)

  /** `published` is everything ever put in the log, `baseline` the index of the baseline patch in it; the
      broker's own log is what is left of it after truncation. */
  datatype Net = Net(
    rev: nat, data: Fields, document: Json,
    log: seq<Patch>,
    published: seq<Patch>,
    baseline: Option<nat>,
    baseData: Fields, baseDocument: Json,
    clients: map<nat, Reader>,
    inboxes: map<nat, seq<Message>>)

  datatype Step =
    | KernelMoves(raises: bool, publishes: bool, ops: seq<PatchOp>, program: seq<Json>)
    | Attach(client: nat, fromRev: Option<int>)
    | Deliver(client: nat)
    | Redeliver(client: nat, patch: Patch)
    | Disconnect(client: nat)

  ghost function Initial(data: Fields, document: Json): Net {
    Net(0, data, document, [], [], None, data, document, map[], map[])
  }

  function ClientOf(s: Net, id: nat): Reader {
    if id in s.clients then s.clients[id] else NEWCOMER
  }

  ghost predicate NamespacesKept(e: Setting, data: Fields) {
    forall ns :: ns in e.namespaces ==> ns in data
  }

  /** The patch was published, or is the snapshot of some onboarding. */
  ghost predicate WasSent(s: Net, patch: Patch) {
    || patch in s.published
    || (s.baseline.Some? && exists n ::
          s.baseline.value < n <= |s.published| && patch == Patch(patch.rev, SnapshotOps(DataAt(s, n)), [])
          && Covers(s.published, n, patch.rev))
  }

  /** A patch that changes something raises the revision and is published; a client resumes from no further
      than it got; a redelivered patch is one the client already has, and has revision 0 only while the
      client has. */
  ghost predicate Enabled(e: Setting, s: Net, step: Step) {
    match step
    case KernelMoves(raises, publishes, ops, program) =>
      (ops != [] || program != [] ==> raises && publishes) && NamespacesKept(e, ApplyOps(s.data, ops))
    case Attach(id, fromRev) =>
      id !in s.inboxes && (fromRev.Some? ==> fromRev.value <= ClientOf(s, id).client.rev)
          && e.documents.hasRoot(s.document)
      && NamespacesKept(e, ApplyOps(s.data, e.seeds))
    case Deliver(id) => id in s.inboxes && s.inboxes[id] != []
    case Redeliver(id, patch) =>
      patch.rev <= ClientOf(s, id).client.rev
          && (patch.rev == 0 ==> ClientOf(s, id).client.rev == 0 && WasSent(s, patch))
    case Disconnect(id) => true
  }

  ghost function EnsureBaseline(e: Setting, s: Net): Net {
    if s.baseline.Some? then s
    else
      var data := ApplyOps(s.data, e.seeds);
      var patch := Patch(s.rev, SnapshotOps(data), []);
      s.(data := data, log := s.log + [patch], published := s.published + [patch], baseline := Some(|s.published|),
         baseData := data, baseDocument := s.document)
  }

  /** The client takes its first undelivered message.  A document comes two messages before the patches
      published since it was sent. */
  function Take(d: Documents, c: Reader, inbox: seq<Message>, published: nat): Reader
    requires inbox != []
  {
    Reader(Receive(d, c.client, inbox[0]), if inbox[0].Program? then published - (|inbox| - 2) else c.since)
  }

  function Again(d: Documents, c: Reader, patch: Patch): Reader {
    c.(client := Receive(d, c.client, PatchMessage(patch)))
  }

  ghost function Next(e: Setting, s: Net, step: Step): Net
    requires Enabled(e, s, step)
  {
    match step
    case KernelMoves(raises, publishes, ops, program) =>
      var rev := if raises then s.rev + 1 else s.rev;
      var moved := s.(rev := rev, data := ApplyOps(s.data, ops),
          document := AmendAll(e.documents, s.document, program));
      var patch := Patch(rev, ops, program);
      if publishes
      then moved.(log := AppendLog(s.log, patch), published := s.published + [patch],
                  inboxes := map id | id in s.inboxes :: s.inboxes[id] + [PatchMessage(patch)])
      else moved
    case Attach(id, fromRev) =>
      var t := EnsureBaseline(e, s);
      t.(inboxes := t.inboxes[id := Onboard(t.log, fromRev, e.namespaces, t.document,
          Patch(t.rev, SnapshotOps(t.data), []))])
    case Deliver(id) =>
      s.(clients := s.clients[id := Take(e.documents, ClientOf(s, id), s.inboxes[id], |s.published|)],
         inboxes := s.inboxes[id := s.inboxes[id][1..]])
    case Redeliver(id, patch) =>
      s.(clients := s.clients[id := Again(e.documents, ClientOf(s, id), patch)])
    case Disconnect(id) => s.(inboxes := s.inboxes - {id})
  }

  /** Every kernel transition is such a move. */
  lemma TransitionsAreMoves(eval: Evaluator, k: Kernel, kind: Kind, acts: seq<Act>)
    requires Admissible(kind, acts)
    ensures var (k', patch) := Transition(eval, k, kind, acts);
            var raises, publishes := k'.rev != k.rev, patch.Some?;
            var ops := if publishes then patch.value.ops else [];
            var program := if publishes then patch.value.program else [];
            && (ops != [] || program != [] ==> raises && publishes)
            && k'.rev == (if raises then k.rev + 1 else k.rev)
            && k'.data == ApplyOps(k.data, ops) && k'.program == k.program + program
            && patch == if publishes then Some(Patch(k'.rev, ops, program)) else None
  {
    TransitionTellsAll(eval, k, kind, acts);
    assert k.program + [] == k.program;
  }

  // ---- positions in the stream -------------------------------------------------------------

  /** The kernel's store and document after the first `k` published patches, counted from the baseline. */
  ghost function DataAt(s: Net, k: nat): Fields
    requires s.baseline.Some? && s.baseline.value < k <= |s.published|
  {
    ApplyOps(s.baseData, AllOps(s.published[s.baseline.value + 1..k]))
  }

  ghost function DocumentAt(e: Setting, s: Net, k: nat): Json
    requires s.baseline.Some? && s.baseline.value < k <= |s.published|
  {
    AmendAll(e.documents, s.baseDocument, AllProgram(s.published[s.baseline.value + 1..k]))
  }

  /** The document had a root at every position from `n` to `k`. */
  ghost predicate RootKept(e: Setting, s: Net, n: int, k: nat)
    requires s.baseline.Some? && s.baseline.value < n && k <= |s.published|
  {
    forall i: nat :: n <= i <= k ==> e.documents.hasRoot(DocumentAt(e, s, i))
  }

  /** What a client holds at `k` that got its document at `n`. */
  ghost function DocumentHeld(e: Setting, s: Net, n: int, k: nat): Option<Json>
    requires s.baseline.Some? && s.baseline.value < n <= k <= |s.published|
  {
    if RootKept(e, s, n, k) then Some(DocumentAt(e, s, k)) else None
  }

  // The stream's revisions, stated over its patches alone.

  ghost predicate EndOf(log: seq<Patch>, published: seq<Patch>) {
    exists cut :: 0 <= cut <= |published| && log == published[cut..]
  }

  ghost predicate RevsRise(published: seq<Patch>, rev: int) {
    && (forall i, j :: 0 <= i < j < |published| ==> published[i].rev <= published[j].rev)
    && (forall i :: 0 <= i < |published| ==> published[i].rev <= rev)
  }

  predicate Changes(patch: Patch) {
    patch.ops != [] || patch.program != []
  }

  /** A patch past the baseline that changes something has a revision of its own. */
  ghost predicate ChangesRise(published: seq<Patch>, b: nat) {
    forall i, j :: 0 <= i < j && b < j < |published| && Changes(published[j]) ==> published[i].rev < published[j].rev
  }

  /** Revision `rev` covers the first `k` patches and nothing later that changes anything. */
  ghost predicate Covers(published: seq<Patch>, k: nat, rev: int)
    requires k <= |published|
  {
    && (forall i :: 0 <= i < k ==> published[i].rev <= rev)
    && (forall i :: k <= i < |published| && Changes(published[i]) ==> published[i].rev > rev)
  }

  /** From `j` on, a patch of revision 0 comes after the baseline and finds a reader at revision 0. */
  ghost predicate ZeroesLate(published: seq<Patch>, b: nat, j: nat, rev: int) {
    forall i :: j <= i < |published| && published[i].rev == 0 ==> rev == 0 && i > b
  }

  /** Of the patches of revision 0 only the baseline changes anything. */
  ghost predicate ZeroesQuiet(published: seq<Patch>, baseline: Option<nat>) {
    forall i: nat :: i < |published| && published[i].rev == 0 && baseline != Some(i) ==> !Changes(published[i])
  }

  /** The broker's log is the end of the stream, revisions rise, and the baseline splits off the past. */
  ghost predicate StreamInvariant(e: Setting, s: Net) {
    && DotlessKeys(s.data)
    && EndOf(s.log, s.published) && (s.published != [] ==> s.log != [])
    && RevsRise(s.published, s.rev)
    && ZeroesQuiet(s.published, s.baseline)
    && (s.baseline.None? ==> s.inboxes == map[] && forall id :: ClientOf(s, id).client.rev == -1)
    && (s.baseline.Some? ==> BaselineInvariant(e, s))
  }

  ghost predicate BaselineInvariant(e: Setting, s: Net)
    requires s.baseline.Some?
  {
    && s.baseline.value < |s.published|
    && ChangesRise(s.published, s.baseline.value)
    && s.published[s.baseline.value] == Patch(s.published[s.baseline.value].rev, SnapshotOps(s.baseData), [])
    && DotlessKeys(s.baseData)
    && s.data == DataAt(s, |s.published|)
    && s.document == DocumentAt(e, s, |s.published|)
    && NamespacesKept(e, s.data)
  }

  /** The client holds the kernel's state as of position `k` and knows which patches that covers. */
  ghost predicate At(e: Setting, s: Net, c: Reader, k: nat)
    requires s.baseline.Some? && s.baseline.value < |s.published|
  {
    && s.baseline.value < c.since <= k <= |s.published|
    && c.client.store == Some(DataAt(s, k))
    && 0 <= c.client.rev <= s.rev
    && Covers(s.published, k, c.client.rev)
    && c.client.document == DocumentHeld(e, s, c.since, k)
  }

  ghost predicate Positioned(e: Setting, s: Net, c: Reader)
    requires s.baseline.Some? && s.baseline.value < |s.published|
  {
    c.client.rev == -1 || exists k: nat :: At(e, s, c, k)
  }

  /** Undelivered patches: the stream from `j` on, nothing of it beyond what the client lacks. */
  ghost predicate CatchingUp(e: Setting, s: Net, c: Reader, inbox: seq<Message>, j: nat, k: nat)
    requires s.baseline.Some? && s.baseline.value < |s.published|
  {
    && At(e, s, c, k) && j <= k
    && inbox == Messages(s.published[j..])
    && ZeroesLate(s.published, s.baseline.value, j, c.client.rev)
  }

  ghost function Greeting(e: Setting, s: Net, n: nat, rev: nat): (r: seq<Message>)
    requires s.baseline.Some? && s.baseline.value < n <= |s.published|
    ensures |r| == 3
  {
    [Vocabulary(e.namespaces), Program(DocumentAt(e, s, n)), PatchMessage(Patch(rev, SnapshotOps(DataAt(s, n)), []))]
  }

  /** A full onboarding taken at position `n`, of which the first `stage` messages were delivered. */
  ghost predicate BeingOnboarded(e: Setting, s: Net, c: Reader, inbox: seq<Message>, n: nat, rev: nat, stage: nat)
    requires s.baseline.Some? && s.baseline.value < |s.published|
  {
    && s.baseline.value < n <= |s.published| && stage <= 2 && rev <= s.rev
    && inbox == Greeting(e, s, n, rev)[stage..] + Messages(s.published[n..])
    && NamespacesKept(e, DataAt(s, n)) && DotlessKeys(DataAt(s, n))
    && Covers(s.published, n, rev)
    && ZeroesLate(s.published, s.baseline.value, n, rev)
    && (stage == 0 ==> Positioned(e, s, c))
    && (stage >= 1 ==> c.client.rev == -1 && c.client.store == Some(EmptyNamespaces(e.namespaces)))
    && e.documents.hasRoot(DocumentAt(e, s, n))
    && (stage == 2 ==> c.since == n && c.client.document == Some(DocumentAt(e, s, n)))
  }

  ghost predicate Attached(e: Setting, s: Net, c: Reader, inbox: seq<Message>)
    requires s.baseline.Some? && s.baseline.value < |s.published|
  {
    || (exists j: nat, k: nat :: CatchingUp(e, s, c, inbox, j, k))
    || (exists n: nat, rev: nat, stage: nat :: BeingOnboarded(e, s, c, inbox, n, rev, stage))
  }

  ghost predicate ClientInvariant(e: Setting, s: Net, id: nat)
    requires s.baseline.Some? && s.baseline.value < |s.published|
  {
    if id in s.inboxes then Attached(e, s, ClientOf(s, id), s.inboxes[id]) else Positioned(e, s, ClientOf(s, id))
  }

  ghost predicate Invariant(e: Setting, s: Net) {
    && StreamInvariant(e, s)
    && (s.baseline.Some? ==> forall id: nat :: ClientInvariant(e, s, id))
  }

  lemma EndOfAppend(log: seq<Patch>, published: seq<Patch>, patch: Patch)
    requires EndOf(log, published)
    ensures EndOf(AppendLog(log, patch), published + [patch]) && AppendLog(log, patch) != []
  {
    var cut :| 0 <= cut <= |published| && log == published[cut..];
    var longer := log + [patch];
    assert longer == (published + [patch])[cut..];
    assert longer[1..] == (published + [patch])[cut + 1..];
  }

  lemma RevsAppend(published: seq<Patch>, rev: int, patch: Patch)
    requires RevsRise(published, rev) && rev <= patch.rev
    ensures RevsRise(published + [patch], patch.rev)
  {
  }

  lemma ChangesAppend(published: seq<Patch>, b: nat, rev: int, patch: Patch)
    requires RevsRise(published, rev) && ChangesRise(published, b)
    requires Changes(patch) ==> rev < patch.rev
    ensures ChangesRise(published + [patch], b)
  {
  }

  lemma CoversAppend(published: seq<Patch>, k: nat, rev: int, patch: Patch)
    requires k <= |published| && Covers(published, k, rev)
    requires Changes(patch) ==> rev < patch.rev
    ensures Covers(published + [patch], k, rev)
  {
  }

  lemma ZeroesAppend(published: seq<Patch>, b: nat, j: nat, rev: int, patch: Patch)
    requires ZeroesLate(published, b, j, rev) && b < |published|
    requires patch.rev == 0 ==> rev == 0
    ensures ZeroesLate(published + [patch], b, j, rev)
  {
  }

  // ---- the kernel moves ---------------------------------------------------------------------

  lemma {:induction false} AmendConcat(d: Documents, document: Json, a: seq<Json>, b: seq<Json>)
    ensures AmendAll(d, document, a + b) == AmendAll(d, AmendAll(d, document, a), b)
  {
    if b == [] {
      assert a + b == a;
    } else {
      AmendConcat(d, document, a, b[..|b| - 1]);
      assert (a + b)[..|a + b| - 1] == a + b[..|b| - 1];
    }
  }

  /** A longer stream agrees with the shorter one on every position of it. */
  lemma SamePositions(e: Setting, s: Net, t: Net, patch: Patch, k: nat)
    requires s.baseline.Some? && s.baseline.value < k <= |s.published|
    requires t.published == s.published + [patch] && t.baseline == s.baseline
    requires t.baseData == s.baseData && t.baseDocument == s.baseDocument
    ensures DataAt(t, k) == DataAt(s, k) && DocumentAt(e, t, k) == DocumentAt(e, s, k)
  {
    hide ApplyOps, AmendAll, AllOps, AllProgram;
    SliceOfLonger(s.published, patch, s.baseline.value + 1, k);
  }

  lemma SliceOfLonger(published: seq<Patch>, patch: Patch, from: nat, to: nat)
    requires from <= to <= |published|
    ensures (published + [patch])[from..to] == published[from..to]
  {
  }

  lemma LastPosition(e: Setting, s: Net, t: Net, patch: Patch)
    requires s.baseline.Some? && s.baseline.value < |s.published|
    requires t.published == s.published + [patch] && t.baseline == s.baseline
    requires t.baseData == s.baseData && t.baseDocument == s.baseDocument
    ensures DataAt(t, |t.published|) == ApplyOps(DataAt(s, |s.published|), patch.ops)
    ensures DocumentAt(e, t, |t.published|) == AmendAll(e.documents, DocumentAt(e, s, |s.published|), patch.program)
  {
    hide ApplyOps, AmendAll, AllOps, AllProgram;
    var b := s.baseline.value + 1;
    assert t.published[b..|t.published|] == s.published[b..|s.published|] + [patch];
    AllOpsAppend(s.published[b..|s.published|], patch);
    ApplyOpsConcat(s.baseData, AllOps(s.published[b..|s.published|]), patch.ops);
    AmendConcat(e.documents, s.baseDocument, AllProgram(s.published[b..|s.published|]), patch.program);
  }

  lemma SameDocumentHeld(e: Setting, s: Net, t: Net, patch: Patch, n: int, k: nat)
    requires s.baseline.Some? && s.baseline.value < n <= k <= |s.published|
    requires t.published == s.published + [patch] && t.baseline == s.baseline
    requires t.baseData == s.baseData && t.baseDocument == s.baseDocument
    ensures DocumentHeld(e, t, n, k) == DocumentHeld(e, s, n, k)
  {
    hide DataAt, DocumentAt;
    forall i: nat | n <= i <= k
      ensures DocumentAt(e, t, i) == DocumentAt(e, s, i)
    {
      SamePositions(e, s, t, patch, i);
    }
  }

  /** `t` is `s` after a published patch. */
  ghost predicate Extends(s: Net, t: Net, patch: Patch) {
    && t.published == s.published + [patch] && t.baseline == s.baseline
    && t.baseData == s.baseData && t.baseDocument == s.baseDocument
    && t.clients == s.clients && t.rev == patch.rev
    && s.rev <= t.rev && (Changes(patch) ==> s.rev < t.rev)
  }

  lemma AtAfterPatch(e: Setting, s: Net, t: Net, patch: Patch, c: Reader, k: nat)
    requires s.baseline.Some? && s.baseline.value < |s.published| && Extends(s, t, patch) && At(e, s, c, k)
    ensures At(e, t, c, k)
  {
    hide Covers, DataAt, DocumentHeld;
    SamePositions(e, s, t, patch, k);
    CoversAppend(s.published, k, c.client.rev, patch);
    SameDocumentHeld(e, s, t, patch, c.since, k);
  }

  lemma MessagesAppend(published: seq<Patch>, patch: Patch, j: nat)
    requires j <= |published|
    ensures Messages((published + [patch])[j..]) == Messages(published[j..]) + [PatchMessage(patch)]
  {
    assert (published + [patch])[j..] == published[j..] + [patch];
  }

  lemma CatchingUpAfterPatch(e: Setting, s: Net, t: Net, patch: Patch, c: Reader, inbox: seq<Message>, j: nat, k: nat)
    requires s.baseline.Some? && s.baseline.value < |s.published| && Extends(s, t, patch)
    requires CatchingUp(e, s, c, inbox, j, k)
    ensures CatchingUp(e, t, c, inbox + [PatchMessage(patch)], j, k)
  {
    hide ZeroesLate, Messages, Covers;
    AtAfterPatch(e, s, t, patch, c, k);
    MessagesAppend(s.published, patch, j);
    ZeroesAppend(s.published, s.baseline.value, j, c.client.rev, patch);
  }

  lemma PositionedAfterPatch(e: Setting, s: Net, t: Net, patch: Patch, c: Reader)
    requires s.baseline.Some? && s.baseline.value < |s.published| && Extends(s, t, patch) && Positioned(e, s, c)
    ensures Positioned(e, t, c)
  {
    hide At;
    if c.client.rev != -1 {
      var k: nat :| At(e, s, c, k);
      AtAfterPatch(e, s, t, patch, c, k);
    }
  }

  lemma OnboardedAfterPatch(e: Setting, s: Net, t: Net, patch: Patch, c: Reader, inbox: seq<Message>, n: nat, rev: nat,
      stage: nat)
    requires s.baseline.Some? && s.baseline.value < |s.published| && Extends(s, t, patch)
    requires BeingOnboarded(e, s, c, inbox, n, rev, stage)
    ensures BeingOnboarded(e, t, c, inbox + [PatchMessage(patch)], n, rev, stage)
  {
    hide Messages, Covers, ZeroesLate, Positioned, NamespacesKept, DotlessKeys;
    SamePositions(e, s, t, patch, n);
    MessagesAppend(s.published, patch, n);
    CoversAppend(s.published, n, rev, patch);
    ZeroesAppend(s.published, s.baseline.value, n, rev, patch);
    assert Greeting(e, t, n, rev) == Greeting(e, s, n, rev);
    assert inbox + [PatchMessage(patch)] == Greeting(e, t, n, rev)[stage..] + Messages(t.published[n..]);
    if stage == 0 {
      PositionedAfterPatch(e, s, t, patch, c);
    }
  }

  lemma StreamAfterPatch(e: Setting, s: Net, t: Net, patch: Patch)
    requires StreamInvariant(e, s) && Extends(s, t, patch)
    requires t.log == AppendLog(s.log, patch) && t.data == ApplyOps(s.data, patch.ops) && NamespacesKept(e, t.data)
    requires t.document == AmendAll(e.documents, s.document, patch.program)
    requires t.inboxes.Keys == s.inboxes.Keys
    ensures StreamInvariant(e, t)
  {
    hide EndOf, RevsRise, ChangesRise, AppendLog, ApplyOps, AmendAll, DataAt, DocumentAt, NamespacesKept, DotlessKeys;
    OpsKeepDotless(s.data, patch.ops);
    EndOfAppend(s.log, s.published, patch);
    RevsAppend(s.published, s.rev, patch);
    if s.baseline.Some? {
      LastPosition(e, s, t, patch);
      ChangesAppend(s.published, s.baseline.value, s.rev, patch);
    } else {
      assert forall id :: ClientOf(t, id) == ClientOf(s, id);
    }
  }

  lemma AttachedAfterPatch(e: Setting, s: Net, t: Net, patch: Patch, c: Reader, inbox: seq<Message>)
    requires s.baseline.Some? && s.baseline.value < |s.published| && Extends(s, t, patch) && Attached(e, s, c, inbox)
    ensures Attached(e, t, c, inbox + [PatchMessage(patch)])
  {
    hide CatchingUp, BeingOnboarded;
    if j: nat, k: nat :| CatchingUp(e, s, c, inbox, j, k) {
      CatchingUpAfterPatch(e, s, t, patch, c, inbox, j, k);
    } else {
      var n: nat, rev: nat, stage: nat :| BeingOnboarded(e, s, c, inbox, n, rev, stage);
      OnboardedAfterPatch(e, s, t, patch, c, inbox, n, rev, stage);
    }
  }

  lemma ClientAfterPatch(e: Setting, s: Net, t: Net, patch: Patch, id: nat)
    requires s.baseline.Some? && s.baseline.value < |s.published| && Extends(s, t, patch) && ClientInvariant(e, s, id)
    requires t.inboxes == map i | i in s.inboxes :: s.inboxes[i] + [PatchMessage(patch)]
    ensures ClientInvariant(e, t, id)
  {
    hide Attached, Positioned;
    var c := ClientOf(s, id);
    assert ClientOf(t, id) == c;
    if id in s.inboxes {
      AttachedAfterPatch(e, s, t, patch, c, s.inboxes[id]);
    } else {
      PositionedAfterPatch(e, s, t, patch, c);
    }
  }

  lemma MoveKeeps(e: Setting, s: Net, raises: bool, publishes: bool, ops: seq<PatchOp>, program: seq<Json>)
    requires Invariant(e, s) && Enabled(e, s, KernelMoves(raises, publishes, ops, program))
    ensures Invariant(e, Next(e, s, KernelMoves(raises, publishes, ops, program)))
  {
    hide StreamInvariant, ClientInvariant, NamespacesKept, AppendLog;
    var t := Next(e, s, KernelMoves(raises, publishes, ops, program));
    var patch := Patch(t.rev, ops, program);
    StreamSize(e, s);
    if publishes {
      StreamAfterPatch(e, s, t, patch);
      if s.baseline.Some? {
        forall id: nat
          ensures ClientInvariant(e, t, id)
        {
          ClientAfterPatch(e, s, t, patch, id);
        }
      }
    } else {
      assert ApplyOps(s.data, ops) == s.data && AmendAll(e.documents, s.document, program) == s.document;
      assert t == s.(rev := t.rev);
      NoBaselineNoClients(e, s);
      assert forall id :: ClientOf(t, id) == ClientOf(s, id);
      SameStreamKeeps(e, s, t);
      if s.baseline.Some? {
        forall id: nat
          ensures ClientInvariant(e, t, id)
        {
          SameStreamSameClient(e, s, t, id);
        }
      }
    }
  }

  lemma StreamSize(e: Setting, s: Net)
    requires StreamInvariant(e, s)
    ensures s.baseline.Some? ==> s.baseline.value < |s.published|
  {
  }

  /** Two nets with one stream: only connections, clients and the revision may differ. */
  ghost predicate SameStream(s: Net, t: Net) {
    && t.published == s.published && t.baseline == s.baseline && t.log == s.log
    && t.baseData == s.baseData && t.baseDocument == s.baseDocument && s.rev <= t.rev
    && t.data == s.data && t.document == s.document
  }

  lemma SameStreamKeeps(e: Setting, s: Net, t: Net)
    requires StreamInvariant(e, s) && SameStream(s, t)
    requires s.baseline.None? ==> t.inboxes == map[] && forall id :: ClientOf(t, id).client.rev == -1
    ensures StreamInvariant(e, t)
  {
    hide EndOf, ChangesRise, ApplyOps, AmendAll, NamespacesKept, DotlessKeys;
    if s.baseline.Some? {
      SamePlaces(e, s, t, |s.published|);
    }
  }

  lemma SamePlaces(e: Setting, s: Net, t: Net, k: nat)
    requires s.baseline.Some? && s.baseline.value < k <= |s.published| && SameStream(s, t)
    ensures DataAt(t, k) == DataAt(s, k) && DocumentAt(e, t, k) == DocumentAt(e, s, k)
  {
  }

  lemma SameHeld(e: Setting, s: Net, t: Net, n: int, k: nat)
    requires s.baseline.Some? && s.baseline.value < n <= k <= |s.published| && SameStream(s, t)
    ensures DocumentHeld(e, t, n, k) == DocumentHeld(e, s, n, k)
  {
    hide DocumentAt;
    forall i: nat | n <= i <= k
      ensures DocumentAt(e, t, i) == DocumentAt(e, s, i)
    {
      SamePlaces(e, s, t, i);
    }
  }

  lemma SameStreamAt(e: Setting, s: Net, t: Net, c: Reader, k: nat)
    requires s.baseline.Some? && s.baseline.value < |s.published| && SameStream(s, t) && At(e, s, c, k)
    ensures At(e, t, c, k)
  {
    hide Covers, DataAt, DocumentHeld;
    SameHeld(e, s, t, c.since, k);
    SamePlaces(e, s, t, k);
  }

  lemma SameStreamPositioned(e: Setting, s: Net, t: Net, c: Reader)
    requires s.baseline.Some? && s.baseline.value < |s.published| && SameStream(s, t)
    requires Positioned(e, s, c)
    ensures Positioned(e, t, c)
  {
    hide At;
    if c.client.rev != -1 {
      var k: nat :| At(e, s, c, k);
      SameStreamAt(e, s, t, c, k);
    }
  }

  lemma SameStreamCatching(e: Setting, s: Net, t: Net, c: Reader, inbox: seq<Message>, j: nat, k: nat)
    requires s.baseline.Some? && s.baseline.value < |s.published| && SameStream(s, t)
    requires CatchingUp(e, s, c, inbox, j, k)
    ensures CatchingUp(e, t, c, inbox, j, k)
  {
    hide DataAt, DocumentHeld, Covers, ZeroesLate;
    SameStreamAt(e, s, t, c, k);
  }

  lemma SameStreamOnboarded(e: Setting, s: Net, t: Net, c: Reader, inbox: seq<Message>, n: nat, rev: nat, stage: nat)
    requires s.baseline.Some? && s.baseline.value < |s.published| && SameStream(s, t)
    requires BeingOnboarded(e, s, c, inbox, n, rev, stage)
    ensures BeingOnboarded(e, t, c, inbox, n, rev, stage)
  {
    hide DataAt, DocumentAt, Covers, ZeroesLate, Positioned, NamespacesKept, DotlessKeys, Messages;
    SamePlaces(e, s, t, n);
    assert Greeting(e, t, n, rev) == Greeting(e, s, n, rev);
    if stage == 0 {
      SameStreamPositioned(e, s, t, c);
    }
  }

  lemma SameStreamAttached(e: Setting, s: Net, t: Net, c: Reader, inbox: seq<Message>)
    requires s.baseline.Some? && s.baseline.value < |s.published| && SameStream(s, t) && Attached(e, s, c, inbox)
    ensures Attached(e, t, c, inbox)
  {
    hide CatchingUp, BeingOnboarded;
    if j: nat, k: nat :| CatchingUp(e, s, c, inbox, j, k) {
      SameStreamCatching(e, s, t, c, inbox, j, k);
    } else {
      var n: nat, rev: nat, stage: nat :| BeingOnboarded(e, s, c, inbox, n, rev, stage);
      SameStreamOnboarded(e, s, t, c, inbox, n, rev, stage);
    }
  }

  lemma SameStreamSameClient(e: Setting, s: Net, t: Net, id: nat)
    requires s.baseline.Some? && s.baseline.value < |s.published| && SameStream(s, t) && ClientInvariant(e, s, id)
    requires ClientOf(t, id) == ClientOf(s, id)
    requires id in t.inboxes <==> id in s.inboxes
    requires id in s.inboxes ==> t.inboxes[id] == s.inboxes[id]
    ensures ClientInvariant(e, t, id)
  {
    hide Attached, Positioned;
    if id in s.inboxes {
      SameStreamAttached(e, s, t, ClientOf(s, id), s.inboxes[id]);
    } else {
      SameStreamPositioned(e, s, t, ClientOf(s, id));
    }
  }

  // ---- attach --------------------------------------------------------------------------------

  lemma BaselineKeepsStream(e: Setting, s: Net)
    requires StreamInvariant(e, s) && NamespacesKept(e, ApplyOps(s.data, e.seeds)) && s.baseline.None?
    ensures StreamInvariant(e, EnsureBaseline(e, s))
  {
    hide EndOf, RevsRise, NamespacesKept, DotlessKeys;
    var t := EnsureBaseline(e, s);
    var patch := t.published[|s.published|];
    OpsKeepDotless(s.data, e.seeds);
    LogGainsBaseline(s.log, s.published, patch);
    RevsAppend(s.published, s.rev, patch);
    assert t.published[t.baseline.value + 1..|t.published|] == [];
  }

  lemma LogGainsBaseline(log: seq<Patch>, published: seq<Patch>, patch: Patch)
    requires EndOf(log, published)
    ensures EndOf(log + [patch], published + [patch])
  {
    var cut :| 0 <= cut <= |published| && log == published[cut..];
    assert log + [patch] == (published + [patch])[cut..];
  }

  lemma BaselineKeeps(e: Setting, s: Net)
    requires Invariant(e, s) && NamespacesKept(e, ApplyOps(s.data, e.seeds))
    ensures Invariant(e, EnsureBaseline(e, s))
  {
    var t := EnsureBaseline(e, s);
    if s.baseline.None? {
      BaselineKeepsStream(e, s);
      forall id: nat
        ensures ClientInvariant(e, t, id)
      {
        assert ClientOf(t, id) == ClientOf(s, id);
        assert id !in t.inboxes;
      }
    }
  }

  ghost predicate SplitsAt(patches: seq<Patch>, fromRev: int, j: nat) {
    && j <= |patches|
    && (forall i :: 0 <= i < j ==> patches[i].rev <= fromRev)
    && (forall i :: j <= i < |patches| ==> patches[i].rev > fromRev)
  }

  lemma NothingSplits(fromRev: int)
    ensures SplitsAt([], fromRev, 0)
  {
  }

  lemma NewerStep(rest: seq<Patch>, last: Patch, fromRev: int, j: nat) returns (k: nat)
    requires SplitsAt(rest, fromRev, j) && (j < |rest| ==> fromRev < last.rev)
    ensures SplitsAt(rest + [last], fromRev, k) && (k < |rest| + 1 ==> fromRev < last.rev)
    ensures (rest + [last])[k..] == rest[j..] + if last.rev > fromRev then [last] else []
  {
    if last.rev > fromRev {
      k := j;
      assert (rest + [last])[j..] == rest[j..] + [last];
    } else {
      k := j + 1;
      assert rest[j..] == [] && (rest + [last])[k..] == [];
    }
  }

  lemma PrefixRises(patches: seq<Patch>, top: int)
    requires RevsRise(patches, top) && patches != []
    ensures RevsRise(patches[..|patches| - 1], patches[|patches| - 1].rev)
    ensures patches[|patches| - 1].rev <= top
  {
  }

  /** What the broker replays is the stream from some position on: nothing the client lacks is missing. */
  lemma {:induction false} NewerIsSuffix(patches: seq<Patch>, fromRev: int, top: int) returns (j: nat)
    requires RevsRise(patches, top)
    ensures SplitsAt(patches, fromRev, j) && Newer(patches, fromRev) == patches[j..]
    ensures j < |patches| ==> fromRev < top
  {
    hide RevsRise, SplitsAt;
    if patches == [] {
      j := 0;
      assert SplitsAt([], fromRev, 0) by {
        NothingSplits(fromRev);
      }
    } else {
      var rest, last := patches[..|patches| - 1], patches[|patches| - 1];
      PrefixRises(patches, top);
      j := NewerIsSuffix(rest, fromRev, last.rev);
      assert patches == rest + [last];
      j := NewerStep(rest, last, fromRev, j);
    }
  }

  lemma SuffixRises(published: seq<Patch>, cut: nat, top: int)
    requires RevsRise(published, top) && cut <= |published|
    ensures RevsRise(published[cut..], top)
    ensures cut < |published| ==> forall i :: 0 <= i < cut ==> published[i].rev <= published[cut..][0].rev
  {
  }

  /** A replay from the log is a replay from the stream: what truncation dropped is at or below the oldest
      revision kept. */
  lemma ReplayIsSuffix(log: seq<Patch>, published: seq<Patch>, fromRev: int, top: int) returns (j: nat)
    requires EndOf(log, published) && RevsRise(published, top) && CanResume(log, Some(fromRev))
    ensures SplitsAt(published, fromRev, j) && Newer(log, fromRev) == published[j..]
  {
    hide RevsRise, Newer, SplitsAt;
    var cut :| 0 <= cut <= |published| && log == published[cut..];
    SuffixRises(published, cut, top);
    var kept := NewerIsSuffix(log, fromRev, top);
    j := cut + kept;
    SplitLater(published, cut, fromRev, kept);
  }

  lemma SplitLater(published: seq<Patch>, cut: nat, fromRev: int, kept: nat)
    requires cut <= |published| && SplitsAt(published[cut..], fromRev, kept)
    requires forall i :: 0 <= i < cut ==> published[i].rev <= fromRev
    ensures SplitsAt(published, fromRev, cut + kept) && published[cut..][kept..] == published[cut + kept..]
  {
    assert forall i :: cut <= i < |published| ==> published[i] == published[cut..][i - cut];
  }

  /** Truncation costs a resuming client nothing. */
  lemma ResumeCatchesUp(e: Setting, s: Net, c: Reader, fromRev: int) returns (j: nat, k: nat)
    requires StreamInvariant(e, s) && s.baseline.Some?
    requires Positioned(e, s, c) && c.client.rev != -1
    requires CanResume(s.log, Some(fromRev)) && fromRev <= c.client.rev
    ensures CatchingUp(e, s, c, Messages(Newer(s.log, fromRev)), j, k)
  {
    hide EndOf, RevsRise, ChangesRise, DataAt, DocumentAt, DocumentHeld, NamespacesKept, DotlessKeys, Newer, Messages,
        Covers, At;
    j := ReplayIsSuffix(s.log, s.published, fromRev, s.rev);
    k :| At(e, s, c, k);
    OldestNotNegative(s.log, fromRev);
    if k < j {
      AtInRange(e, s, c, k);
      SkipIrrelevant(e, s, c, k, j);
      k := j;
    }
  }

  lemma OldestNotNegative(log: seq<Patch>, fromRev: int)
    requires CanResume(log, Some(fromRev))
    ensures fromRev >= 0
  {
  }

  lemma AtInRange(e: Setting, s: Net, c: Reader, k: nat)
    requires s.baseline.Some? && s.baseline.value < |s.published| && At(e, s, c, k)
    ensures s.baseline.value < k <= |s.published|
  {
  }

  /** Patches the client's revision already covers change nothing, so it is also at every position past them. */
  lemma {:induction false} SkipIrrelevant(e: Setting, s: Net, c: Reader, k: nat, j: nat)
    requires s.baseline.Some? && s.baseline.value < |s.published| && At(e, s, c, k) && k <= j <= |s.published|
    requires forall i :: k <= i < j ==> s.published[i].rev <= c.client.rev
    ensures At(e, s, c, j)
    decreases j - k
  {
    hide DataAt, DocumentAt;
    if k < j {
      NextPosition(e, s, k);
      assert !Changes(s.published[k]);
      assert At(e, s, c, k + 1);
      SkipIrrelevant(e, s, c, k + 1, j);
    }
  }

  lemma NextPosition(e: Setting, s: Net, k: nat)
    requires s.baseline.Some? && s.baseline.value < k < |s.published|
    ensures DataAt(s, k + 1) == ApplyOps(DataAt(s, k), s.published[k].ops)
    ensures DocumentAt(e, s, k + 1) == AmendAll(e.documents, DocumentAt(e, s, k), s.published[k].program)
  {
    hide ApplyOps, AmendAll, AllOps, AllProgram;
    var b := s.baseline.value + 1;
    assert s.published[b..k + 1] == s.published[b..k] + [s.published[k]];
    AllOpsAppend(s.published[b..k], s.published[k]);
    ApplyOpsConcat(s.baseData, AllOps(s.published[b..k]), s.published[k].ops);
    AmendConcat(e.documents, s.baseDocument, AllProgram(s.published[b..k]), s.published[k].program);
  }

  /** The connection that just attached is either catching up or at the start of a full onboarding. */
  lemma AttachedNow(e: Setting, t: Net, c: Reader, fromRev: Option<int>)
    requires StreamInvariant(e, t) && t.baseline.Some? && Positioned(e, t, c) && e.documents.hasRoot(t.document)
    requires fromRev.Some? ==> fromRev.value <= c.client.rev
    ensures Attached(e, t, c, Onboard(t.log, fromRev, e.namespaces, t.document, Patch(t.rev, SnapshotOps(t.data), [])))
  {
    hide EndOf, ChangesRise, DocumentHeld, NamespacesKept, DotlessKeys, Newer, At, DataAt, DocumentAt, SnapshotOps;
    if CanResume(t.log, fromRev) {
      OldestNotNegative(t.log, fromRev.value);
      var j, k := ResumeCatchesUp(e, t, c, fromRev.value);
    } else {
      var n := |t.published|;
      assert Messages(t.published[n..]) == [];
      assert Greeting(e, t, n, t.rev)[0..] + Messages(t.published[n..]) == Greeting(e, t, n, t.rev);
      assert BeingOnboarded(e, t, c, Greeting(e, t, n, t.rev), n, t.rev, 0);
    }
  }

  lemma AttachKeeps(e: Setting, s: Net, id: nat, fromRev: Option<int>)
    requires Invariant(e, s) && Enabled(e, s, Attach(id, fromRev))
    ensures Invariant(e, Next(e, s, Attach(id, fromRev)))
  {
    hide StreamInvariant, Attached, Positioned, NamespacesKept, Onboard;
    var t := EnsureBaseline(e, s);
    var u := Next(e, s, Attach(id, fromRev));
    BaselineKeeps(e, s);
    StreamSize(e, t);
    SameStreamKeeps(e, t, u);
    var c := ClientOf(t, id);
    assert c == ClientOf(s, id) == ClientOf(u, id);
    assert ClientInvariant(e, t, id);
    AttachedNow(e, t, c, fromRev);
    SameStreamAttached(e, t, u, c, u.inboxes[id]);
    forall other: nat
      ensures ClientInvariant(e, u, other)
    {
      if other != id {
        assert ClientInvariant(e, t, other) && ClientOf(u, other) == ClientOf(t, other);
        SameStreamSameClient(e, t, u, other);
      }
    }
  }

  // ---- deliver ----------------------------------------------------------------------------------

  /** A patch from the stream, taken in its turn. */
  lemma DeliverPatch(e: Setting, s: Net, c: Reader, inbox: seq<Message>, j: nat, k: nat) returns (k': nat)
    requires StreamInvariant(e, s) && s.baseline.Some?
    requires CatchingUp(e, s, c, inbox, j, k) && inbox != []
    ensures CatchingUp(e, s, Take(e.documents, c, inbox, |s.published|), inbox[1..], j + 1, k')
  {
    hide EndOf, RevsRise, DataAt, DocumentAt, NamespacesKept, DotlessKeys, ApplyOps, AmendAll;
    var patch := s.published[j];
    ZeroesNext(s.published, s.baseline.value, j, c.client.rev, s.rev);
    assert inbox[0] == PatchMessage(patch) && inbox[1..] == Messages(s.published[j + 1..]);
    if j < k {
      k' := k;
      assert patch.rev <= c.client.rev;
      if patch.rev == 0 {
        assert s.published[s.baseline.value].rev == 0;
        assert !Changes(patch);
        NothingApplied(c.client.store.value, patch.ops);
      }
      assert Take(e.documents, c, inbox, |s.published|) == Again(e.documents, c, patch);
      Idle(e.documents, c, patch);
    } else {
      k' := k + 1;
      if patch.rev != 0 && patch.rev <= c.client.rev {
        SkipIrrelevant(e, s, c, k, k + 1);
      } else {
        AtNext(e, s, c, k);
      }
    }
  }

  lemma ZeroesNext(published: seq<Patch>, b: nat, j: nat, rev: nat, top: int)
    requires RevsRise(published, top) && ZeroesLate(published, b, j, rev) && j < |published|
    ensures ZeroesLate(published, b, j + 1, rev)
    ensures published[j].rev > rev || published[j].rev == 0 ==> ZeroesLate(published, b, j + 1, published[j].rev)
  {
  }

  /** A patch of the client's own revision that changes nothing changes nothing. */
  lemma Idle(d: Documents, c: Reader, patch: Patch)
    requires c.client.store.Some? && patch.rev <= c.client.rev
    requires patch.rev == 0 ==> c.client.rev == 0 && patch.program == []
                                && ApplyOps(c.client.store.value, patch.ops) == c.client.store.value
    ensures Again(d, c, patch) == c
  {
  }

  lemma CoversNext(published: seq<Patch>, b: nat, k: nat, top: int)
    requires RevsRise(published, top) && ChangesRise(published, b) && b < k < |published|
    ensures Covers(published, k + 1, published[k].rev) && 0 <= published[k].rev <= top
  {
  }

  lemma AtNext(e: Setting, s: Net, c: Reader, k: nat)
    requires StreamInvariant(e, s) && s.baseline.Some? && At(e, s, c, k) && k < |s.published|
    requires s.published[k].rev > c.client.rev || s.published[k].rev == 0 == c.client.rev
    ensures At(e, s, Again(e.documents, c, s.published[k]), k + 1)
  {
    hide EndOf, DataAt, DocumentAt, NamespacesKept, DotlessKeys, ApplyOps, Covers, RevsRise, ChangesRise;
    NextPosition(e, s, k);
    CoversNext(s.published, s.baseline.value, k, s.rev);
  }

  /** The three messages of a full onboarding, taken in their turn. */
  lemma DeliverGreeting(e: Setting, s: Net, c: Reader, inbox: seq<Message>, n: nat, rev: nat, stage: nat)
    requires StreamInvariant(e, s) && s.baseline.Some?
    requires BeingOnboarded(e, s, c, inbox, n, rev, stage)
    ensures inbox != []
    ensures Attached(e, s, Take(e.documents, c, inbox, |s.published|), inbox[1..])
  {
    hide EndOf, RevsRise, ChangesRise, DataAt, DocumentAt, Covers, ZeroesLate, Messages, Positioned, ApplyOps, AmendAll;
    var c' := Take(e.documents, c, inbox, |s.published|);
    var greeting := Greeting(e, s, n, rev);
    assert inbox[0] == greeting[stage];
    assert inbox[1..] == greeting[stage + 1..] + Messages(s.published[n..]);
    MessagesSize(s.published[n..]);
    if stage < 2 {
      assert BeingOnboarded(e, s, c', inbox[1..], n, rev, stage + 1);
    } else {
      SnapshotRebuilds(DataAt(s, n), e.namespaces);
      assert greeting[3..] == [];
      assert inbox[1..] == Messages(s.published[n..]);
      assert At(e, s, c', n);
      assert CatchingUp(e, s, c', inbox[1..], n, n);
    }
  }

  lemma MessagesSize(patches: seq<Patch>)
    ensures |Messages(patches)| == |patches|
  {
  }

  lemma DeliverAttached(e: Setting, s: Net, c: Reader, inbox: seq<Message>)
    requires StreamInvariant(e, s) && s.baseline.Some? && Attached(e, s, c, inbox) && inbox != []
    ensures Attached(e, s, Take(e.documents, c, inbox, |s.published|), inbox[1..])
  {
    hide CatchingUp, BeingOnboarded, Receive;
    if j: nat, k: nat :| CatchingUp(e, s, c, inbox, j, k) {
      var k' := DeliverPatch(e, s, c, inbox, j, k);
    } else {
      var n: nat, rev: nat, stage: nat :| BeingOnboarded(e, s, c, inbox, n, rev, stage);
      DeliverGreeting(e, s, c, inbox, n, rev, stage);
    }
  }

  lemma DeliverKeeps(e: Setting, s: Net, id: nat)
    requires Invariant(e, s) && Enabled(e, s, Deliver(id))
    ensures Invariant(e, Next(e, s, Deliver(id)))
  {
    hide StreamInvariant, Attached, Positioned, Receive;
    var t := Next(e, s, Deliver(id));
    ConnectionNeedsBaseline(e, s, id);
    StreamSize(e, s);
    SameStreamKeeps(e, s, t);
    var c, inbox := ClientOf(s, id), s.inboxes[id];
    assert ClientInvariant(e, s, id);
    DeliverAttached(e, s, c, inbox);
    SameStreamAttached(e, s, t, ClientOf(t, id), t.inboxes[id]);
    forall other: nat
      ensures ClientInvariant(e, t, other)
    {
      if other != id {
        assert ClientInvariant(e, s, other) && ClientOf(t, other) == ClientOf(s, other);
        SameStreamSameClient(e, s, t, other);
      }
    }
  }

  lemma ConnectionNeedsBaseline(e: Setting, s: Net, id: nat)
    requires StreamInvariant(e, s) && id in s.inboxes
    ensures s.baseline.Some?
  {
  }

  // ---- redelivery and disconnection -----------------------------------------------------------------

  /** Applying a snapshot of one state to another puts back every namespace the snapshot has. */
  lemma SnapshotPutsBack(data: Fields, onto: Fields)
    requires DotlessKeys(data)
    ensures ApplyOps(onto, SnapshotOps(data)) == onto
        <==> forall ns :: ns in data ==> ns in onto && onto[ns] == data[ns]
  {
    ApplySetKeys(data, KeySeq(data.Keys), onto);
    var r := ApplyOps(onto, SnapshotOps(data));
    if forall ns :: ns in data ==> ns in onto && onto[ns] == data[ns] {
      assert r.Keys == onto.Keys;
      assert forall ns :: ns in r ==> r[ns] == onto[ns];
    }
  }

  /** Where the stream has only revision 0, the store is the baseline's. */
  lemma {:induction false} StillAtBaseline(e: Setting, s: Net, k: nat)
    requires StreamInvariant(e, s) && s.baseline.Some? && s.baseline.value < k <= |s.published|
    requires Covers(s.published, k, 0)
    ensures DataAt(s, k) == s.baseData
    decreases k
  {
    hide DataAt, DocumentAt, EndOf, RevsRise, ChangesRise, ZeroesQuiet, Covers, NamespacesKept, DotlessKeys;
    hide SnapshotOps, ApplyOps;
    if k == s.baseline.value + 1 {
      NothingSinceBaseline(s);
    } else {
      var j := k - 1;
      NextPosition(e, s, j);
      LastIsQuiet(s.published, s.baseline, k);
      NothingApplied(DataAt(s, j), s.published[j].ops);
      StillAtBaseline(e, s, j);
    }
  }

  lemma NothingSinceBaseline(s: Net)
    requires s.baseline.Some? && s.baseline.value < |s.published|
    ensures DataAt(s, s.baseline.value + 1) == s.baseData
  {
    var k := s.baseline.value + 1;
    assert s.published[k..k] == [];
  }

  lemma LastIsQuiet(published: seq<Patch>, baseline: Option<nat>, k: nat)
    requires 0 < k <= |published| && baseline != Some(k - 1)
    requires ZeroesQuiet(published, baseline) && Covers(published, k, 0)
    ensures !Changes(published[k - 1]) && Covers(published, k - 1, 0)
  {
    assert published[k - 1].rev == 0;
  }

  /** Whatever was sent under revision 0 gives a client at revision 0 what it has. */
  lemma ZeroAgain(e: Setting, s: Net, c: Reader, patch: Patch)
    requires StreamInvariant(e, s) && s.baseline.Some? && Positioned(e, s, c) && c.client.rev == 0
    requires patch.rev == 0 && WasSent(s, patch)
    ensures Again(e.documents, c, patch) == c
  {
    hide EndOf, RevsRise, ChangesRise, DataAt, DocumentAt, DocumentHeld, NamespacesKept, DotlessKeys, Covers,
        SnapshotOps, ApplyOps;
    var k: nat :| At(e, s, c, k);
    StillAtBaseline(e, s, k);
    SnapshotPutsBack(s.baseData, s.baseData);
    if patch in s.published {
      var i :| 0 <= i < |s.published| && s.published[i] == patch;
      if i != s.baseline.value {
        assert !Changes(patch);
        NothingApplied(s.baseData, patch.ops);
      }
    } else {
      var n :| s.baseline.value < n <= |s.published| && patch == Patch(patch.rev, SnapshotOps(DataAt(s, n)), [])
        && Covers(s.published, n, patch.rev);
      StillAtBaseline(e, s, n);
    }
    Idle(e.documents, c, patch);
  }

  lemma AgainKeeps(e: Setting, s: Net, c: Reader, id: nat, patch: Patch)
    requires StreamInvariant(e, s) && (s.baseline.Some? ==> Positioned(e, s, c))
    requires c == ClientOf(s, id) && Enabled(e, s, Redeliver(id, patch))
    ensures Again(e.documents, c, patch) == c
  {
    hide Positioned, EndOf, RevsRise, ChangesRise, DataAt, DocumentAt, NamespacesKept, DotlessKeys, Covers, WasSent;
    NoBaselineNoClients(e, s);
    if patch.rev == 0 {
      ZeroAgain(e, s, c, patch);
    }
  }

  lemma DisconnectKeeps(e: Setting, s: Net, id: nat)
    requires Invariant(e, s)
    ensures Invariant(e, Next(e, s, Disconnect(id)))
  {
    hide StreamInvariant, Positioned;
    var t := Next(e, s, Disconnect(id));
    assert forall other :: ClientOf(t, other) == ClientOf(s, other);
    NoBaselineNoClients(e, s);
    StreamSize(e, s);
    SameStreamKeeps(e, s, t);
    if s.baseline.Some? {
      forall other: nat
        ensures ClientInvariant(e, t, other)
      {
        assert ClientInvariant(e, s, other);
        if other != id {
          SameStreamSameClient(e, s, t, other);
        } else {
          AttachedOrNotPositioned(e, s, ClientOf(s, id), id);
          SameStreamPositioned(e, s, t, ClientOf(s, id));
        }
      }
    }
  }

  lemma NoBaselineNoClients(e: Setting, s: Net)
    requires StreamInvariant(e, s)
    ensures s.baseline.None? ==> s.inboxes == map[] && forall id :: ClientOf(s, id).client.rev == -1
  {
  }

  /** Whatever was still undelivered, the client is somewhere in the stream. */
  lemma AttachedOrNotPositioned(e: Setting, s: Net, c: Reader, id: nat)
    requires s.baseline.Some? && s.baseline.value < |s.published| && ClientInvariant(e, s, id) && c == ClientOf(s, id)
    ensures Positioned(e, s, c)
  {
    hide At;
    if id in s.inboxes {
      if j: nat, k: nat :| CatchingUp(e, s, c, s.inboxes[id], j, k) {
      } else {
        var n: nat, rev: nat, stage: nat :| BeingOnboarded(e, s, c, s.inboxes[id], n, rev, stage);
      }
    }
  }

  lemma RedeliverKeeps(e: Setting, s: Net, id: nat, patch: Patch)
    requires Invariant(e, s) && Enabled(e, s, Redeliver(id, patch))
    ensures Invariant(e, Next(e, s, Redeliver(id, patch)))
  {
    hide StreamInvariant, ClientInvariant, Enabled;
    var t := Next(e, s, Redeliver(id, patch));
    NoBaselineNoClients(e, s);
    StreamSize(e, s);
    if s.baseline.Some? {
      assert ClientInvariant(e, s, id);
      AttachedOrNotPositioned(e, s, ClientOf(s, id), id);
    }
    AgainKeeps(e, s, ClientOf(s, id), id, patch);
    assert forall other :: ClientOf(t, other) == ClientOf(s, other);
    SameStreamKeeps(e, s, t);
    if s.baseline.Some? {
      forall other: nat
        ensures ClientInvariant(e, t, other)
      {
        SameStreamSameClient(e, s, t, other);
      }
    }
  }

  lemma NextKeeps(e: Setting, s: Net, step: Step)
    requires Invariant(e, s) && Enabled(e, s, step)
    ensures Invariant(e, Next(e, s, step))
  {
    hide Invariant, Enabled, Next;
    match step
    case KernelMoves(raises, publishes, ops, program) => MoveKeeps(e, s, raises, publishes, ops, program);
    case Attach(id, fromRev) => AttachKeeps(e, s, id, fromRev);
    case Deliver(id) => DeliverKeeps(e, s, id);
    case Disconnect(id) => DisconnectKeeps(e, s, id);
    case Redeliver(id, patch) => RedeliverKeeps(e, s, id, patch);
  }

  // ---- convergence --------------------------------------------------------------------------------------

  ghost function After(e: Setting, data: Fields, document: Json, run: seq<Step>): Net {
    if run == [] then Initial(data, document)
    else
      var s := After(e, data, document, run[..|run| - 1]);
      if Enabled(e, s, run[|run| - 1]) then Next(e, s, run[|run| - 1]) else s
  }

  lemma InitialInvariant(e: Setting, data: Fields, document: Json)
    requires DotlessKeys(data)
    ensures Invariant(e, Initial(data, document))
  {
    assert [] == Initial(data, document).published[0..];
  }

  lemma {:induction false} RunsKeep(e: Setting, data: Fields, document: Json, run: seq<Step>)
    requires DotlessKeys(data)
    ensures Invariant(e, After(e, data, document, run))
  {
    hide Invariant, Enabled, Next, Initial, DotlessKeys;
    if run == [] {
      InitialInvariant(e, data, document);
    } else {
      RunsKeep(e, data, document, run[..|run| - 1]);
      var s := After(e, data, document, run[..|run| - 1]);
      if Enabled(e, s, run[|run| - 1]) {
        NextKeeps(e, s, run[|run| - 1]);
      }
    }
  }

  ghost predicate NewestKept(log: seq<Patch>, published: seq<Patch>, extra: nat) {
    EndOf(log, published) && |log| <= MAX_LOG + extra && (|log| >= MAX_LOG || log == published)
  }

  lemma NewestAppend(log: seq<Patch>, published: seq<Patch>, extra: nat, patch: Patch)
    requires NewestKept(log, published, extra)
    ensures NewestKept(AppendLog(log, patch), published + [patch], extra)
  {
    EndOfAppend(log, published, patch);
  }

  lemma NewestBaseline(log: seq<Patch>, published: seq<Patch>, patch: Patch)
    requires NewestKept(log, published, 0)
    ensures NewestKept(log + [patch], published + [patch], 1)
  {
    LogGainsBaseline(log, published, patch);
  }

  function Extra(s: Net): nat {
    if s.baseline.Some? then 1 else 0
  }

  /** The broker keeps the newest patches, all of them until there are more than the bound, and never many more. */
  lemma {:induction false} LogKeepsNewest(e: Setting, data: Fields, document: Json, run: seq<Step>)
    ensures var s := After(e, data, document, run); NewestKept(s.log, s.published, Extra(s))
  {
    hide Receive, SnapshotOps, ApplyOps, AmendAll, NewestKept, AppendLog, Enabled, Onboard, Take, Again;
    if run == [] {
      NoneKept();
    } else {
      LogKeepsNewest(e, data, document, run[..|run| - 1]);
      var s := After(e, data, document, run[..|run| - 1]);
      var step := run[|run| - 1];
      if Enabled(e, s, step) {
        if step.Attach? {
          NewestOnAttach(e, s);
        } else if step.KernelMoves? {
          var rev := if step.raises then s.rev + 1 else s.rev;
          NewestAppend(s.log, s.published, Extra(s), Patch(rev, step.ops, step.program));
        }
      }
    }
  }

  lemma NoneKept()
    ensures NewestKept([], [], 0)
  {
    var none: seq<Patch> := [];
    assert none == none[0..];
  }

  lemma NewestOnAttach(e: Setting, s: Net)
    requires NewestKept(s.log, s.published, Extra(s))
    ensures var t := EnsureBaseline(e, s); NewestKept(t.log, t.published, Extra(t))
  {
    hide NewestKept, SnapshotOps, ApplyOps;
    var patch := Patch(s.rev, SnapshotOps(ApplyOps(s.data, e.seeds)), []);
    if s.baseline.None? {
      NewestBaseline(s.log, s.published, patch);
    }
  }

  lemma NothingUndelivered(e: Setting, s: Net, c: Reader)
    requires StreamInvariant(e, s) && s.baseline.Some? && Attached(e, s, c, [])
    ensures At(e, s, c, |s.published|)
  {
    hide At, BeingOnboarded, EndOf, RevsRise, ChangesRise, DataAt, DocumentAt, NamespacesKept, DotlessKeys;
    if j: nat, k: nat :| CatchingUp(e, s, c, [], j, k) {
      AtInRange(e, s, c, k);
      assert |Messages(s.published[j..])| == |s.published| - j;
    } else {
      var n: nat, rev: nat, stage: nat :| BeingOnboarded(e, s, c, [], n, rev, stage);
      DeliverGreeting(e, s, c, [], n, rev, stage);
    }
  }

  /** Whatever a run did, a connected client whose messages are all delivered holds exactly the kernel's
      store.  It holds the kernel's document if the document kept its root ever since the client was last
      onboarded in full, and no document otherwise. */
  lemma DrainedClientsConverge(e: Setting, data: Fields, document: Json, run: seq<Step>, id: nat)
    requires DotlessKeys(data)
    requires id in After(e, data, document, run).inboxes && After(e, data, document, run).inboxes[id] == []
    ensures var s := After(e, data, document, run);
            var c := ClientOf(s, id);
            && c.client.store == Some(s.data)
            && s.baseline.Some? && s.baseline.value < c.since <= |s.published|
            && c.client.document == if RootKept(e, s, c.since, |s.published|) then Some(s.document) else None
  {
    hide After, Attached, EndOf, RevsRise, ChangesRise, DataAt, DocumentAt, RootKept, NamespacesKept, DotlessKeys;
    var s := After(e, data, document, run);
    RunsKeep(e, data, document, run);
    ConnectionNeedsBaseline(e, s, id);
    assert ClientInvariant(e, s, id);
    NothingUndelivered(e, s, ClientOf(s, id));
  }

  /** In every run: what was sent, and is no further than the client got, changes nothing when it comes again
      if and only if its revision is not 0 or the client's still is. */
  lemma RedeliveryHarmlessIff(e: Setting, data: Fields, document: Json, run: seq<Step>, id: nat, patch: Patch)
    requires DotlessKeys(data)
    requires var s := After(e, data, document, run); WasSent(s, patch) && patch.rev <= ClientOf(s, id).client.rev
    ensures var c := ClientOf(After(e, data, document, run), id);
            Again(e.documents, c, patch) == c <==> patch.rev != 0 || c.client.rev == 0
  {
    hide After, Positioned, StreamInvariant, ClientInvariant, WasSent;
    var s := After(e, data, document, run);
    RunsKeep(e, data, document, run);
    if patch.rev != 0 || ClientOf(s, id).client.rev == 0 {
      NoBaselineNoClients(e, s);
      StreamSize(e, s);
      assert ClientInvariant(e, s, id);
      AttachedOrNotPositioned(e, s, ClientOf(s, id), id);
      AgainKeeps(e, s, ClientOf(s, id), id, patch);
    }
  }

  /** Why a patch of revision 0 must not come again: to a client that moved on, the baseline puts back every
      namespace as it was, and the client's revision with it.  So the client keeps the kernel's store if and
      only if every namespace is still what the baseline made it. */
  lemma ZeroRedeliveryHarmlessIff(e: Setting, data: Fields, document: Json, run: seq<Step>, id: nat)
    requires DotlessKeys(data)
    requires id in After(e, data, document, run).inboxes && After(e, data, document, run).inboxes[id] == []
    ensures var s := After(e, data, document, run);
            var c := ClientOf(s, id);
            && s.baseline.Some? && s.baseline.value < |s.published|
            && var baseline := s.published[s.baseline.value];
               baseline.rev == 0 && c.client.rev > 0 ==>
                 && Again(e.documents, c, baseline).client.rev == 0
                 && (Again(e.documents, c, baseline).client.store == Some(s.data)
                     <==> forall ns :: ns in s.baseData ==> ns in s.data && s.data[ns] == s.baseData[ns])
  {
    hide After, ApplyOps, SnapshotOps, EndOf, RevsRise, ChangesRise, ZeroesQuiet, DataAt, DocumentAt, RootKept,
        NamespacesKept;
    var s := After(e, data, document, run);
    RunsKeep(e, data, document, run);
    ConnectionNeedsBaseline(e, s, id);
    DrainedClientsConverge(e, data, document, run, id);
    SnapshotPutsBack(s.baseData, s.data);
  }

  // ---- a lost root ------------------------------------------------------------------------------------------

  function Replay(d: Documents, c: Client, patches: seq<Patch>): Client {
    if patches == [] then c
    else Receive(d, Replay(d, c, patches[..|patches| - 1]), PatchMessage(patches[|patches| - 1]))
  }

  /** Each patch is beyond the one before it, or of revision 0: none is ignored. */
  ghost predicate InTurn(rev: int, patches: seq<Patch>) {
    patches != [] ==>
      var rest, last := patches[..|patches| - 1], patches[|patches| - 1];
      InTurn(rev, rest) && (last.rev == 0 || last.rev > if rest == [] then rev else rest[|rest| - 1].rev)
  }

  /** The document has a root after every patch that amends it. */
  ghost predicate RootAfterEach(d: Documents, document: Json, patches: seq<Patch>) {
    forall i :: 0 <= i <= |patches| ==> RootAfter(d, document, patches[..i])
  }

  ghost predicate RootAfter(d: Documents, document: Json, patches: seq<Patch>) {
    patches != [] && patches[|patches| - 1].program != [] ==> d.hasRoot(AmendAll(d, document, AllProgram(patches)))
  }

  lemma RootAfterLast(d: Documents, document: Json, patches: seq<Patch>)
    requires patches != []
    ensures RootAfterEach(d, document, patches)
       <==> RootAfterEach(d, document, patches[..|patches| - 1]) && RootAfter(d, document, patches)
  {
    hide RootAfter;
    var rest := patches[..|patches| - 1];
    assert patches[..|patches|] == patches;
    forall i | 0 <= i <= |rest|
      ensures rest[..i] == patches[..i]
    {
    }
  }

  /** A client that takes patches in turn holds the amended document if every amendment left it a root, and
      from the first that did not it holds none, whatever later patches bring. */
  lemma {:induction false} ReplayedDocument(d: Documents, c: Client, patches: seq<Patch>)
    requires c.document.Some? && InTurn(c.rev, patches)
    ensures Replay(d, c, patches).document
         == if RootAfterEach(d, c.document.value, patches)
             then Some(AmendAll(d, c.document.value, AllProgram(patches))) else None
    ensures Replay(d, c, patches).rev == if patches == [] then c.rev else patches[|patches| - 1].rev
  {
    if patches != [] {
      var rest, last := patches[..|patches| - 1], patches[|patches| - 1];
      ReplayedDocument(d, c, rest);
      RootAfterLast(d, c.document.value, patches);
      AmendConcat(d, c.document.value, AllProgram(rest), last.program);
      hide RootAfterEach;
    }
  }

  lemma AfterOne(e: Setting, data: Fields, document: Json, run: seq<Step>, step: Step)
    requires Enabled(e, After(e, data, document, run), step)
    ensures After(e, data, document, run + [step]) == Next(e, After(e, data, document, run), step)
  {
    assert (run + [step])[..|run|] == run;
  }

  /** The net of a kernel without namespaces and of one connected client. */
  ghost predicate Alone(s: Net, inbox: seq<Message>, client: Client, rev: nat, document: Json) {
    && s.inboxes == map[0 := inbox] && ClientOf(s, 0).client == client
    && s.rev == rev && s.data == map[] && s.document == document
  }

  lemma AttachAlone(e: Setting, document: Json)
    requires e.namespaces == [] && e.seeds == [] && e.documents.hasRoot(document)
    ensures var s := Initial(map[], document);
            && Enabled(e, s, Attach(0, None))
            && Alone(Next(e, s, Attach(0, None)), [Vocabulary([]), Program(document), PatchMessage(Patch(0, [], []))],
                FRESH, 0, document)
  {
    assert SnapshotOps(map[]) == [];
  }

  lemma DeliverAlone(e: Setting, s: Net, inbox: seq<Message>, client: Client, rev: nat, document: Json)
    requires Alone(s, inbox, client, rev, document) && inbox != []
    ensures Enabled(e, s, Deliver(0))
    ensures Alone(Next(e, s, Deliver(0)), inbox[1..], Receive(e.documents, client, inbox[0]), rev, document)
  {
    hide Receive;
  }

  lemma MoveAlone(e: Setting, s: Net, inbox: seq<Message>, client: Client, rev: nat, document: Json, amendment: Json)
    requires Alone(s, inbox, client, rev, document) && e.namespaces == []
    ensures var move := KernelMoves(true, true, [], [amendment]);
            && Enabled(e, s, move)
            && Alone(Next(e, s, move), inbox + [PatchMessage(Patch(rev + 1, [], [amendment]))], client, rev + 1,
                     e.documents.amend(document, amendment))
  {
    AmendOne(e.documents, document, amendment);
  }

  lemma AmendOne(d: Documents, document: Json, program: Json)
    ensures AmendAll(d, document, [program]) == d.amend(document, program)
  {
    assert AmendAll(d, document, []) == document;
  }

  const ONBOARDED := [Attach(0, None), Deliver(0), Deliver(0), Deliver(0)]

  lemma OnboardedRun(d: Documents, document: Json)
    requires d.hasRoot(document)
    ensures Alone(After(Setting([], d, []), map[], document, ONBOARDED), [], Client(0, Some(map[]), Some(document)), 0,
        document)
  {
    hide Alone, Next, Enabled, Initial;
    var e := Setting([], d, []);
    var snapshot := PatchMessage(Patch(0, [], []));
    assert After(e, map[], document, []) == Initial(map[], document);
    AttachAlone(e, document);
    AfterOne(e, map[], document, [], Attach(0, None));
    hide After;
    assert [] + [Attach(0, None)] == [Attach(0, None)];
    DeliverNext(e, document, [Attach(0, None)], [Vocabulary([]), Program(document), snapshot], FRESH, 0, document);
    assert [Vocabulary([]), Program(document), snapshot][1..] == [Program(document), snapshot];
    assert [Program(document), snapshot][1..] == [snapshot] && [snapshot][1..] == [];
    assert EmptyNamespaces([]) == map[] && ApplyOps(map[], []) == map[];
    var run := [Attach(0, None)] + [Deliver(0)];
    DeliverNext(e, document, run, [Program(document), snapshot], Client(-1, Some(map[]), None), 0, document);
    DeliverNext(e, document, run + [Deliver(0)], [snapshot], Client(-1, Some(map[]), Some(document)), 0, document);
    assert run + [Deliver(0)] + [Deliver(0)] == ONBOARDED;
  }

  lemma DeliverNext(
    e: Setting, start: Json, run: seq<Step>, inbox: seq<Message>, client: Client, rev: nat, document: Json)
    requires Alone(After(e, map[], start, run), inbox, client, rev, document) && inbox != []
    ensures Alone(After(e, map[], start, run + [Deliver(0)]), inbox[1..], Receive(e.documents, client, inbox[0]), rev,
        document)
  {
    hide After, Next, Alone, Enabled;
    DeliverAlone(e, After(e, map[], start, run), inbox, client, rev, document);
    AfterOne(e, map[], start, run, Deliver(0));
  }

  lemma MoveNext(
    e: Setting, start: Json, run: seq<Step>, inbox: seq<Message>, client: Client, rev: nat, document: Json,
        amendment: Json)
    requires Alone(After(e, map[], start, run), inbox, client, rev, document) && e.namespaces == []
    ensures Alone(After(e, map[], start, run + [KernelMoves(true, true, [], [amendment])]),
                  inbox + [PatchMessage(Patch(rev + 1, [], [amendment]))], client, rev + 1,
                      e.documents.amend(document, amendment))
  {
    hide After, Next, Alone, Enabled;
    MoveAlone(e, After(e, map[], start, run), inbox, client, rev, document, amendment);
    AfterOne(e, map[], start, run, KernelMoves(true, true, [], [amendment]));
  }

  lemma RootLost(d: Documents, document: Json, lost: Json, back: Json)
    requires !d.hasRoot(d.amend(document, lost))
    ensures Receive(d, Client(0, Some(map[]), Some(document)), PatchMessage(Patch(1, [], [lost])))
        == Client(1, Some(map[]), None)
    ensures Receive(d, Client(1, Some(map[]), None), PatchMessage(Patch(2, [], [back]))) == Client(2, Some(map[]), None)
  {
    AmendOne(d, document, lost);
    assert ApplyOps(map[], []) == map[];
  }

  /** The root may come back to the kernel and not to the client, which stays without a document although all
      messages are delivered. */
  lemma RootReturnsToKernelOnly(d: Documents, document: Json, lost: Json, back: Json)
    requires d.hasRoot(document) && !d.hasRoot(d.amend(document, lost))
        && d.hasRoot(d.amend(d.amend(document, lost), back))
    ensures var moves := [KernelMoves(true, true, [], [lost]), KernelMoves(true, true, [], [back]), Deliver(0),
        Deliver(0)];
            var s := After(Setting([], d, []), map[], document, ONBOARDED + moves);
            && s.inboxes == map[0 := []] && d.hasRoot(s.document) && ClientOf(s, 0).client.document.None?
  {
    hide After, Receive, Alone;
    var e := Setting([], d, []);
    var losing, returning := KernelMoves(true, true, [], [lost]), KernelMoves(true, true, [], [back]);
    var one, two := PatchMessage(Patch(1, [], [lost])), PatchMessage(Patch(2, [], [back]));
    var now := d.amend(d.amend(document, lost), back);
    var run := ONBOARDED + [losing] + [returning];
    BothMoves(d, document, lost, back);
    RootLost(d, document, lost, back);
    assert [one, two][1..] == [two] && [two][1..] == [];
    DeliverNext(e, document, run, [one, two], Client(0, Some(map[]), Some(document)), 2, now);
    DeliverNext(e, document, run + [Deliver(0)], [two], Client(1, Some(map[]), None), 2, now);
    assert run + [Deliver(0)] + [Deliver(0)] == ONBOARDED + [losing, returning, Deliver(0), Deliver(0)];
    AloneEnds(After(e, map[], document, run + [Deliver(0)] + [Deliver(0)]), [], Client(2, Some(map[]), None), 2, now);
  }

  lemma AloneEnds(s: Net, inbox: seq<Message>, client: Client, rev: nat, document: Json)
    requires Alone(s, inbox, client, rev, document)
    ensures s.inboxes == map[0 := inbox] && s.document == document && ClientOf(s, 0).client == client
  {
  }

  lemma BothMoves(d: Documents, document: Json, lost: Json, back: Json)
    requires d.hasRoot(document)
    ensures var run := ONBOARDED + [KernelMoves(true, true, [], [lost])] + [KernelMoves(true, true, [], [back])];
            Alone(After(Setting([], d, []), map[], document, run),
                  [PatchMessage(Patch(1, [], [lost])), PatchMessage(Patch(2, [], [back]))],
                  Client(0, Some(map[]), Some(document)), 2, d.amend(d.amend(document, lost), back))
  {
    hide After, Alone;
    var e, client := Setting([], d, []), Client(0, Some(map[]), Some(document));
    var losing := KernelMoves(true, true, [], [lost]);
    var one, two := PatchMessage(Patch(1, [], [lost])), PatchMessage(Patch(2, [], [back]));
    OnboardedRun(d, document);
    MoveNext(e, document, ONBOARDED, [], client, 0, document, lost);
    assert [] + [one] == [one] && [one] + [two] == [one, two];
    MoveNext(e, document, ONBOARDED + [losing], [one], client, 1, d.amend(document, lost), back);
  }
}
