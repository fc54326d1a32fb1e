/** Dotted paths into a namespaced JSON store (kernel/src/providers.ts:35-84, 236-254). */
module Paths {
  import opened Json

  type Fields = map<string, Json>

  // ---- paths as strings and as segments -----------------------------------------

  /** `path.split(".")`: never empty, and the empty path has one empty segment. */
  function Split(path: string): (parts: seq<string>)
    ensures parts != []
  {
    if path == "" then [""] else Push(path[0], Split(path[1..]))
  }

  function Push(c: char, parts: seq<string>): (r: seq<string>)
    requires parts != []
    ensures r != []
  {
    if c == '.' then [""] + parts else [[c] + parts[0]] + parts[1..]
  }

  lemma PushConcat(c: char, a: seq<string>, b: seq<string>)
    requires a != []
    ensures Push(c, a + b) == Push(c, a) + b
  {
    assert (a + b)[1..] == a[1..] + b;
    if c == '.' {
      assert [""] + (a + b) == ([""] + a) + b;
    } else {
      assert [[c] + a[0]] + (a[1..] + b) == ([[c] + a[0]] + a[1..]) + b;
    }
  }

  function Join(parts: seq<string>): string
    requires parts != []
  {
    if |parts| == 1 then parts[0] else parts[0] + "." + Join(parts[1..])
  }

  lemma {:induction false} JoinSplit(path: string)
    ensures Join(Split(path)) == path
  {
    if path != "" {
      JoinSplit(path[1..]);
      var rest := Split(path[1..]);
      if path[0] == '.' {
        assert Split(path)[1..] == rest;
      } else {
        assert Split(path)[1..] == rest[1..];
      }
    }
  }

  lemma {:induction false} SplitConcat(left: string, right: string)
    ensures Split(left + "." + right) == Split(left) + Split(right)
  {
    var whole := left + "." + right;
    if left == "" {
      assert whole[1..] == right;
    } else {
      SplitConcat(left[1..], right);
      assert whole[1..] == left[1..] + "." + right;
      hide Split, Push;
      SplitOne(whole);
      SplitOne(left);
      PushConcat(left[0], Split(left[1..]), Split(right));
    }
  }

  lemma SplitOne(path: string)
    requires path != ""
    ensures Split(path) == Push(path[0], Split(path[1..]))
  {
  }

  lemma {:induction false} JoinConcat(left: seq<string>, right: seq<string>)
    requires left != [] && right != []
    ensures Join(left + right) == Join(left) + "." + Join(right)
  {
    if |left| == 1 {
      assert (left + right)[1..] == right;
    } else {
      JoinConcat(left[1..], right);
      assert (left + right)[1..] == left[1..] + right;
    }
  }

  /** kernel/src/derivations.ts:4-6. */
  predicate PathsOverlap(left: string, right: string) {
    left == right || right + "." <= left || left + "." <= right
  }

  predicate Comparable(p: seq<string>, q: seq<string>) {
    p <= q || q <= p
  }

  /** The string test with its trailing dots is exactly "one path is a prefix of the other, by segments". */
  lemma OverlapIsPrefix(left: string, right: string)
    ensures PathsOverlap(left, right) <==> Comparable(Split(left), Split(right))
  {
    DottedPrefix(left, right);
    DottedPrefix(right, left);
    JoinSplit(left);
    JoinSplit(right);
    assert Split(left) <= Split(right) <==> Split(left) < Split(right) || Split(left) == Split(right);
    assert Split(right) <= Split(left) <==> Split(right) < Split(left) || Split(left) == Split(right);
  }

  lemma DottedPrefix(left: string, right: string)
    ensures left + "." <= right <==> Split(left) < Split(right)
  {
    if left + "." <= right {
      var rest := right[|left| + 1..];
      assert right == left + "." + rest;
      SplitConcat(left, rest);
    }
    if Split(left) < Split(right) {
      var rest := Split(right)[|Split(left)|..];
      assert Split(right) == Split(left) + rest;
      JoinConcat(Split(left), rest);
      JoinSplit(left);
      JoinSplit(right);
    }
  }

  // ---- reading and writing by segments ---------------------------------------------

  /** Null where a segment is missing or the walk meets something that is not a plain object. */
  function GetParts(value: Json, parts: seq<string>): Json {
    if parts == [] then value
    else if !value.Obj? || parts[0] !in value.fields then Null
    else GetParts(value.fields[parts[0]], parts[1..])
  }

  function ChildFields(fields: Fields, key: string): Fields {
    if key in fields && fields[key].Obj? then fields[key].fields else map[]
  }

  /** Missing or non-object segments on the way are replaced by empty objects. */
  function SetParts(fields: Fields, parts: seq<string>, value: Json): Fields
    requires parts != []
    decreases parts
  {
    if |parts| == 1 then fields[parts[0] := value]
    else fields[parts[0] := Obj(SetParts(ChildFields(fields, parts[0]), parts[1..], value))]
  }

  function Digit(c: char): bool { '0' <= c <= '9' }

  function Decimal(key: string): nat
    requires forall i :: 0 <= i < |key| ==> Digit(key[i])
  {
    if key == "" then 0 else
      assert Digit(key[|key| - 1]);
      10 * Decimal(key[..|key| - 1]) + (key[|key| - 1] as int - '0' as int)
  }

  /** A property key that names an array element: a canonical decimal. */
  predicate IsIndex(key: string) {
    key != "" && (forall i :: 0 <= i < |key| ==> Digit(key[i])) && (key[0] == '0' ==> |key| == 1)
  }

  /** Removal walks through arrays as well as objects; a deleted element leaves a hole, which reads as null. */
  function RemoveParts(value: Json, parts: seq<string>): Json
    requires parts != []
    decreases parts
  {
    var key := parts[0];
    match value
    case Obj(fields) =>
      if key !in fields then value
      else if |parts| == 1 then Obj(fields - {key})
      else Obj(fields[key := RemoveParts(fields[key], parts[1..])])
    case Arr(items) =>
      if !IsIndex(key) || Decimal(key) >= |items| then value
      else if |parts| == 1 then Arr(items[Decimal(key) := Null])
      else Arr(items[Decimal(key) := RemoveParts(items[Decimal(key)], parts[1..])])
    case _ => value
  }

  // ---- the store operations ------------------------------------------------------------

  datatype PatchOp =
    | SetOp(path: string, value: Json)
    | MergeOp(path: string, fields: Fields)
    | RemoveOp(path: string)

  function GetPath(data: Fields, path: string): Json {
    GetParts(Obj(data), Split(path))
  }

  function SetPath(data: Fields, path: string, value: Json): Fields {
    SetParts(data, Split(path), value)
  }

  function RemovePath(data: Fields, path: string): Fields {
    var r := RemoveParts(Obj(data), Split(path));
    if r.Obj? then r.fields else data
  }

  function ApplyOp(data: Fields, op: PatchOp): Fields {
    match op
    case RemoveOp(path) => RemovePath(data, path)
    case MergeOp(path, fields) =>
      var existing := GetPath(data, path);
      SetPath(data, path, Obj((if existing.Obj? then existing.fields else map[]) + fields))
    case SetOp(path, value) => SetPath(data, path, value)
  }

  function ApplyOps(data: Fields, ops: seq<PatchOp>): Fields {
    if ops == [] then data else ApplyOp(ApplyOps(data, ops[..|ops| - 1]), ops[|ops| - 1])
  }

  lemma {:induction false} ApplyOpsConcat(data: Fields, a: seq<PatchOp>, b: seq<PatchOp>)
    ensures ApplyOps(data, a + b) == ApplyOps(ApplyOps(data, a), b)
  {
    if b == [] {
      assert a + b == a;
    } else {
      ApplyOpsConcat(data, a, b[..|b| - 1]);
      assert (a + b)[..|a + b| - 1] == a + b[..|b| - 1];
    }
  }

  /** The loop of `getPath`. */
  method ReadPath(data: Fields, path: string) returns (value: Json)
    ensures value == GetPath(data, path)
  {
    var parts := Split(path);
    value := Obj(data);
    for i := 0 to |parts|
      invariant GetParts(value, parts[i..]) == GetPath(data, path)
    {
      if !value.Obj? || parts[i] !in value.fields {
        return Null;
      }
      assert parts[i..][1..] == parts[i + 1..];
      value := value.fields[parts[i]];
    }
  }

  // ---- laws -------------------------------------------------------------------------------

  /** A read at or below a written path reads the written value; one beside it is unaffected. */
  lemma {:induction false} GetAfterSet(fields: Fields, p: seq<string>, value: Json, q: seq<string>)
    requires p != []
    ensures p <= q ==> GetParts(Obj(SetParts(fields, p, value)), q) == GetParts(value, q[|p|..])
    ensures !Comparable(p, q) ==> GetParts(Obj(SetParts(fields, p, value)), q) == GetParts(Obj(fields), q)
    decreases p
  {
    if |p| == 1 {
      assert p <= q ==> q[0] == p[0] && q[1..] == q[|p|..];
      if q != [] && q[0] == p[0] {
        assert p <= q;
      }
    } else if q != [] && q[0] == p[0] {
      GetAfterSet(ChildFields(fields, p[0]), p[1..], value, q[1..]);
      if p <= q {
        assert p[1..] <= q[1..];
        assert q[1..][|p[1..]|..] == q[|p|..];
      }
      if Comparable(p[1..], q[1..]) {
        assert p == [p[0]] + p[1..] && q == [q[0]] + q[1..];
      }
    }
  }

  /** What is read on the way down to a written path is the object that holds the write. */
  lemma {:induction false} GetAboveSet(fields: Fields, p: seq<string>, value: Json, q: seq<string>)
    requires q < p
    ensures var above := GetParts(Obj(fields), q);
            GetParts(Obj(SetParts(fields, p, value)), q)
            == Obj(SetParts(if above.Obj? then above.fields else map[], p[|q|..], value))
    decreases p
  {
    if q == [] {
      assert p[|q|..] == p;
    } else {
      GetAboveSet(ChildFields(fields, p[0]), p[1..], value, q[1..]);
      assert p[1..][|q[1..]|..] == p[|q|..];
      EmptyChild(q[1..]);
    }
  }

  lemma {:induction false} EmptyChild(q: seq<string>)
    ensures q != [] ==> GetParts(Obj(map[]), q) == Null
  {
  }

  /** After a removal the path reads null, and paths beside it are unaffected. */
  lemma {:induction false} GetAfterRemove(value: Json, p: seq<string>, q: seq<string>)
    requires p != []
    ensures p <= q ==> GetParts(RemoveParts(value, p), q) == Null
    ensures !Comparable(p, q) ==> GetParts(RemoveParts(value, p), q) == GetParts(value, q)
    decreases p
  {
    if q != [] && value.Obj? && p[0] in value.fields && q[0] == p[0] {
      if |p| == 1 {
        assert p <= q;
      } else {
        GetAfterRemove(value.fields[p[0]], p[1..], q[1..]);
        assert p == [p[0]] + p[1..] && q == [q[0]] + q[1..];
        if p <= q {
          assert p[1..] <= q[1..];
        }
      }
    }
  }

  /** Writes to paths of which neither extends the other commute. */
  lemma {:induction false} SetsCommute(fields: Fields, p: seq<string>, v: Json, q: seq<string>, w: Json)
    requires p != [] && q != [] && !Comparable(p, q)
    ensures SetParts(SetParts(fields, p, v), q, w) == SetParts(SetParts(fields, q, w), p, v)
    decreases p
  {
    hide SetParts, ChildFields;
    if p[0] == q[0] {
      assert p == [p[0]] + p[1..] && q == [q[0]] + q[1..];
      assert |p| == 1 ==> p <= q;
      assert |q| == 1 ==> q <= p;
      SetsCommute(ChildFields(fields, p[0]), p[1..], v, q[1..], w);
      SetBothBelow(fields, p, v, q, w);
      SetBothBelow(fields, q, w, p, v);
    } else {
      SetsCommuteAtTop(fields, p, v, q, w);
    }
  }

  lemma SetBothBelow(fields: Fields, p: seq<string>, v: Json, q: seq<string>, w: Json)
    requires |p| > 1 && |q| > 1 && p[0] == q[0]
    ensures SetParts(SetParts(fields, p, v), q, w)
         == fields[p[0] := Obj(SetParts(SetParts(ChildFields(fields, p[0]), p[1..], v), q[1..], w))]
  {
    var a := Obj(SetParts(ChildFields(fields, p[0]), p[1..], v));
    assert SetParts(fields, p, v) == fields[p[0] := a];
    assert SetParts(SetParts(fields, p, v), q, w) == fields[p[0] := a][q[0] := Obj(SetParts(a.fields, q[1..], w))];
  }

  lemma SetBeside(fields: Fields, p: seq<string>, v: Json, key: string)
    requires p != [] && p[0] != key
    ensures ChildFields(SetParts(fields, p, v), key) == ChildFields(fields, key)
    ensures key in SetParts(fields, p, v) <==> key in fields
  {
  }

  lemma SetsCommuteAtTop(fields: Fields, p: seq<string>, v: Json, q: seq<string>, w: Json)
    requires p != [] && q != [] && p[0] != q[0]
    ensures SetParts(SetParts(fields, p, v), q, w) == SetParts(SetParts(fields, q, w), p, v)
  {
    var below := (f: Fields, r: seq<string>, x: Json) requires r != [] =>
      if |r| == 1 then x else Obj(SetParts(ChildFields(f, r[0]), r[1..], x));
    SetBeside(fields, p, v, q[0]);
    SetBeside(fields, q, w, p[0]);
    var a, b := below(fields, p, v), below(fields, q, w);
    assert SetParts(fields, p, v) == fields[p[0] := a];
    assert SetParts(fields, q, w) == fields[q[0] := b];
    assert SetParts(SetParts(fields, p, v), q, w) == fields[p[0] := a][q[0] := b];
    assert SetParts(SetParts(fields, q, w), p, v) == fields[q[0] := b][p[0] := a];
  }

  /** The last write to a path wins outright. */
  lemma {:induction false} SetOverwrites(fields: Fields, p: seq<string>, v: Json, w: Json)
    requires p != []
    ensures SetParts(SetParts(fields, p, v), p, w) == SetParts(fields, p, w)
    decreases p
  {
    if |p| > 1 {
      SetOverwrites(ChildFields(fields, p[0]), p[1..], v, w);
    }
  }

  lemma SetPathGet(data: Fields, path: string, value: Json)
    ensures GetPath(SetPath(data, path, value), path) == value
  {
    GetAfterSet(data, Split(path), value, Split(path));
  }

  /** What `PathsOverlap` is for: no operation on a path is visible at a path it does not overlap. */
  lemma OpFrame(data: Fields, op: PatchOp, path: string)
    requires !PathsOverlap(op.path, path)
    ensures GetPath(ApplyOp(data, op), path) == GetPath(data, path)
  {
    OverlapIsPrefix(op.path, path);
    if op.RemoveOp? {
      GetAfterRemove(Obj(data), Split(op.path), Split(path));
    } else {
      var value := match op
        case SetOp(_, v) => v
        case MergeOp(p, fields) =>
          var existing := GetPath(data, p);
          Obj((if existing.Obj? then existing.fields else map[]) + fields)
        case RemoveOp(_) => Null;
      GetAfterSet(data, Split(op.path), value, Split(path));
    }
  }

  // ---- merges and removals at their own path --------------------------------------------------------

  function MembersOf(value: Json): Fields {
    if value.Obj? then value.fields else map[]
  }

  /** A merge leaves an object with exactly the merged members and, beside them, the old ones. */
  lemma MergeAtPath(data: Fields, path: string, fields: Fields)
    ensures var was, now := MembersOf(GetPath(data, path)), GetPath(ApplyOp(data, MergeOp(path, fields)), path);
            && now.Obj?
            && (forall key :: key in now.fields <==> key in fields || key in was)
            && (forall key :: key in fields ==> now.fields[key] == fields[key])
            && (forall key :: key in was && key !in fields ==> now.fields[key] == was[key])
  {
    SetPathGet(data, path, Obj(MembersOf(GetPath(data, path)) + fields));
  }

  /** The same below the path: a merged member reads as merged, any other as before. */
  lemma MergeBelowPath(data: Fields, path: string, fields: Fields, key: string, rest: seq<string>)
    ensures GetParts(Obj(ApplyOp(data, MergeOp(path, fields))), Split(path) + [key] + rest)
         == if key in fields then GetParts(fields[key], rest) else GetParts(Obj(data), Split(path) + [key] + rest)
  {
    var p := Split(path);
    var q := p + ([key] + rest);
    assert p + [key] + rest == q && q[|p|..] == [key] + rest && ([key] + rest)[1..] == rest;
    var merged := Obj(MembersOf(GetPath(data, path)) + fields);
    GetAfterSet(data, p, merged, q);
    GetConcat(Obj(data), p, [key] + rest);
  }

  lemma {:induction false} GetConcat(value: Json, p: seq<string>, q: seq<string>)
    ensures GetParts(value, p + q) == GetParts(GetParts(value, p), q)
  {
    if p == [] {
      assert p + q == q;
    } else {
      assert (p + q)[1..] == p[1..] + q;
      if value.Obj? && p[0] in value.fields {
        GetConcat(value.fields[p[0]], p[1..], q);
      }
    }
  }

  function Merges(path: string, all: seq<Fields>): seq<PatchOp> {
    seq(|all|, i requires 0 <= i < |all| => MergeOp(path, all[i]))
  }

  /** The last of several merges that names a member. */
  function LastMerged(all: seq<Fields>, key: string): Option<Json> {
    if all == [] then None
    else if key in all[|all| - 1] then Some(all[|all| - 1][key])
    else LastMerged(all[..|all| - 1], key)
  }

  /** After several merges at one path every member is as the last merge that names it left it, or as it was. */
  lemma {:induction false} MergesAtPath(data: Fields, path: string, all: seq<Fields>)
    requires all != []
    ensures var was, now := MembersOf(GetPath(data, path)), GetPath(ApplyOps(data, Merges(path, all)), path);
            && now.Obj?
            && (forall key :: key in now.fields <==> LastMerged(all, key).Some? || key in was)
            && (forall key :: key in now.fields ==>
                  now.fields[key] == if LastMerged(all, key).Some? then LastMerged(all, key).value else was[key])
  {
    hide ApplyOp, GetPath;
    var rest, last := all[..|all| - 1], all[|all| - 1];
    assert Merges(path, all)[..|all| - 1] == Merges(path, rest);
    if rest == [] {
      assert ApplyOps(data, Merges(path, rest)) == data;
    } else {
      MergesAtPath(data, path, rest);
    }
    MergeAtPath(ApplyOps(data, Merges(path, rest)), path, last);
  }

  /** A removal takes exactly the one member out of the object that holds it, and out of an array nothing but
      the element's value. */
  lemma {:induction false} RemoveAtParent(value: Json, q: seq<string>, key: string)
    ensures var was, now := GetParts(value, q), GetParts(RemoveParts(value, q + [key]), q);
            && (was.Obj? ==> now == Obj(was.fields - {key}))
            && (was.Arr? ==>
                  && now.Arr? && |now.items| == |was.items|
                  && forall i :: 0 <= i < |was.items| ==>
                       now.items[i] == if IsIndex(key) && Decimal(key) == i then Null else was.items[i])
            && (!was.Obj? && !was.Arr? ==> now == was)
  {
    if q != [] {
      assert (q + [key])[1..] == q[1..] + [key] && (q + [key])[0] == q[0];
      if value.Obj? && q[0] in value.fields {
        RemoveAtParent(value.fields[q[0]], q[1..], key);
      }
    }
  }

  /** The in-memory store: one mutable record of namespaces. */
  class InMemoryStateModel {
    var data: Fields

    constructor (namespaces: seq<string>)
      ensures data == map ns | ns in namespaces :: Obj(map[])
    {
      data := map ns | ns in namespaces :: Obj(map[]);
    }

    method Get(path: string) returns (value: Json)
      ensures value == GetPath(data, path)
    {
      value := ReadPath(data, path);
    }

    method Apply(ops: seq<PatchOp>)
      modifies this
      ensures data == ApplyOps(old(data), ops)
    {
      for i := 0 to |ops|
        invariant data == ApplyOps(old(data), ops[..i])
      {
        assert ops[..i + 1][..i] == ops[..i];
        data := ApplyOp(data, ops[i]);
      }
      assert ops[..|ops|] == ops;
    }
  }
}
