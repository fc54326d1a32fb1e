/** Framing of messages as server-sent events (transports/http-sse/src/codec.ts:8-37), the part of sections
    9.2.5 and 9.2.6 of the WHATWG HTML Living Standard the transport uses. */
module SseCodec {
  import opened Json

  // ---- JSON text ------------------------------------------------------------------------------

  /** The keys of an object in the order its members are written. */
  type KeyOrder = map<string, Json> -> seq<string>

  /** Back to a message; `None` where `JSON.parse` throws. */
  type Parser = string -> Option<Json>

  predicate OneLine(s: string) {
    '\n' !in s
  }

  function Hex(n: nat): char
    requires n < 16
  {
    "0123456789abcdef"[n]
  }

  /** The escapes of section 7 of RFC 8259: no control character is written as it is. */
  function EscapeChar(c: char): string {
    if c == '"' then "\\\""
    else if c == '\\' then "\\\\"
    else if c == '\n' then "\\n"
    else if c == '\r' then "\\r"
    else if c == '\t' then "\\t"
    else if c as int == 8 then "\\b"
    else if c as int == 12 then "\\f"
    else if c as int < 32 then "\\u00" + [Hex(c as int / 16), Hex(c as int % 16)]
    else [c]
  }

  function Escape(s: string): string {
    if s == "" then "" else EscapeChar(s[0]) + Escape(s[1..])
  }

  function Quote(s: string): string {
    "\"" + Escape(s) + "\""
  }

  function Decimal(n: nat): string {
    if n < 10 then [Hex(n)] else Decimal(n / 10) + [Hex(n % 10)]
  }

  function JoinWith(separator: string, parts: seq<string>): string {
    if parts == [] then ""
    else if |parts| == 1 then parts[0]
    else parts[0] + separator + JoinWith(separator, parts[1..])
  }

  /** `JSON.stringify`. */
  function Stringify(order: KeyOrder, j: Json): string
    decreases j, 1, 0
  {
    match j
    case Null => "null"
    case Bool(b) => if b then "true" else "false"
    case Num(n) => if n < 0 then "-" + Decimal(-n) else Decimal(n)
    case Str(s) => Quote(s)
    case Arr(items) => "[" + JoinWith(",", Items(order, j, |items|)) + "]"
    case Obj(fields) => "{" + JoinWith(",", Members(order, j, order(fields))) + "}"
  }

  function Items(order: KeyOrder, j: Json, n: nat): (r: seq<string>)
    requires j.Arr? && n <= |j.items|
    decreases j, 0, n
  {
    if n == 0 then [] else Items(order, j, n - 1) + [Stringify(order, j.items[n - 1])]
  }

  function Members(order: KeyOrder, j: Json, keys: seq<string>): (r: seq<string>)
    requires j.Obj?
    decreases j, 0, |keys|
  {
    if keys == [] then []
    else
      (if keys[0] in j.fields then [Quote(keys[0]) + ":" + Stringify(order, j.fields[keys[0]])] else [])
      + Members(order, j, keys[1..])
  }

  lemma {:induction false} EscapeOneLine(s: string)
    ensures OneLine(Escape(s))
  {
    if s != "" {
      EscapeOneLine(s[1..]);
    }
  }

  lemma {:induction false} DecimalOneLine(n: nat)
    ensures OneLine(Decimal(n))
  {
    assert forall k :: 0 <= k < 16 ==> "0123456789abcdef"[k] != '\n';
    if n >= 10 {
      DecimalOneLine(n / 10);
    }
  }

  lemma {:induction false} JoinOneLine(separator: string, parts: seq<string>)
    requires OneLine(separator) && forall p :: p in parts ==> OneLine(p)
    ensures OneLine(JoinWith(separator, parts))
  {
    if |parts| > 1 {
      JoinOneLine(separator, parts[1..]);
      assert parts[0] in parts;
    } else if |parts| == 1 {
      assert parts[0] in parts;
    }
  }

  /** A message's text holds no line break, whatever strings are in the message. */
  lemma {:induction false} StringifyOneLine(order: KeyOrder, j: Json)
    ensures OneLine(Stringify(order, j))
    decreases j, 1, 0
  {
    match j
    case Null =>
    case Bool(b) =>
    case Num(n) => DecimalOneLine(if n < 0 then -n else n);
    case Str(s) => EscapeOneLine(s);
    case Arr(items) =>
      ItemsOneLine(order, j, |items|);
      JoinOneLine(",", Items(order, j, |items|));
    case Obj(fields) =>
      MembersOneLine(order, j, order(fields));
      JoinOneLine(",", Members(order, j, order(fields)));
  }

  lemma {:induction false} ItemsOneLine(order: KeyOrder, j: Json, n: nat)
    requires j.Arr? && n <= |j.items|
    ensures forall p :: p in Items(order, j, n) ==> OneLine(p)
    decreases j, 0, n
  {
    if n > 0 {
      ItemsOneLine(order, j, n - 1);
      StringifyOneLine(order, j.items[n - 1]);
    }
  }

  lemma {:induction false} MembersOneLine(order: KeyOrder, j: Json, keys: seq<string>)
    requires j.Obj?
    ensures forall p :: p in Members(order, j, keys) ==> OneLine(p)
    decreases j, 0, |keys|
  {
    if keys != [] {
      MembersOneLine(order, j, keys[1..]);
      EscapeOneLine(keys[0]);
      if keys[0] in j.fields {
        StringifyOneLine(order, j.fields[keys[0]]);
      }
    }
  }

  // ---- frames -----------------------------------------------------------------------------------

  const BREAK := "\n\n"

  /** encodeSseFrame. */
  function EncodeSseFrame(order: KeyOrder, message: Json): string {
    "data: " + Stringify(order, message) + BREAK
  }

  predicate BreakAt(s: string, k: int) {
    0 <= k < |s| - 1 && s[k] == '\n' && s[k + 1] == '\n'
  }

  /** `buffer.indexOf("\n\n")`. */
  function FirstBreak(s: string): (i: int)
    ensures -1 <= i && i + 2 <= |s| + 1 && (i >= 0 ==> i + 2 <= |s|)
  {
    if |s| < 2 then -1
    else if BreakAt(s, 0) then 0
    else
      var rest := FirstBreak(s[1..]);
      if rest < 0 then -1 else rest + 1
  }

  lemma {:induction false} FirstBreakIsFirst(s: string, k: int)
    ensures FirstBreak(s) >= 0 ==> BreakAt(s, FirstBreak(s))
    ensures BreakAt(s, k) ==> 0 <= FirstBreak(s) <= k
  {
    if |s| >= 2 && !BreakAt(s, 0) {
      FirstBreakIsFirst(s[1..], k - 1);
    }
  }

  function Lines(s: string): (r: seq<string>)
    ensures r != []
  {
    if s == "" then [""]
    else
      var rest := Lines(s[1..]);
      if s[0] == '\n' then [""] + rest else [[s[0]] + rest[0]] + rest[1..]
  }

  predicate IsData(line: string) {
    |line| >= 5 && line[..5] == "data:"
  }

  function DataOf(line: string): string
    requires IsData(line)
  {
    if |line| > 5 && line[5] == ' ' then line[6..] else line[5..]
  }

  function DataLines(lines: seq<string>): seq<string> {
    if lines == [] then []
    else (if IsData(lines[0]) then [DataOf(lines[0])] else []) + DataLines(lines[1..])
  }

  function Data(frame: string): string {
    JoinWith("\n", DataLines(Lines(frame)))
  }

  datatype Pushed = Messages(messages: seq<Json>) | Thrown

  function After(messages: seq<Json>, p: Pushed): Pushed {
    if p.Thrown? then Thrown else Messages(messages + p.messages)
  }

  lemma AfterAfter(a: seq<Json>, b: seq<Json>, p: Pushed)
    ensures After(a, After(b, p)) == After(a + b, p) && After([], p) == p
    ensures After(a, Messages([])) == Messages(a) && After(a, Thrown) == Thrown
  {
    if p.Messages? {
      assert a + (b + p.messages) == (a + b) + p.messages;
    }
  }

  /** All complete frames of a text, up to the first whose data does not parse, and the text after them. */
  function Frames(parse: Parser, text: string): (Pushed, string)
    decreases |text|
  {
    var i := FirstBreak(text);
    if i < 0 then (Messages([]), text)
    else
      var data := Data(text[..i]);
      if data == "" then Frames(parse, text[i + 2..])
      else if parse(data).None? then (Thrown, text[i + 2..])
      else
        var (p, rest) := Frames(parse, text[i + 2..]);
        (After([parse(data).value], p), rest)
  }

  class SseFrameParser {
    const parse: Parser
    var buffer: string

    constructor (parse: Parser)
      ensures this.parse == parse && buffer == ""
    {
      this.parse := parse;
      buffer := "";
    }

    method Push(chunk: string) returns (r: Pushed)
      modifies this
      ensures (r, buffer) == Frames(parse, old(buffer) + chunk)
    {
      hide Data, FirstBreak, After;
      buffer := buffer + chunk;
      ghost var all := buffer;
      var messages: seq<Json> := [];
      var sep := FirstBreak(buffer);
      AfterAfter([], [], Frames(parse, buffer).0);
      while sep != -1
        invariant sep == FirstBreak(buffer)
        invariant Frames(parse, all) == (After(messages, Frames(parse, buffer).0), Frames(parse, buffer).1)
        decreases |buffer|
      {
        var frame := buffer[..sep];
        buffer := buffer[sep + 2..];
        var data := Data(frame);
        if data != "" {
          var message := parse(data);
          if message.None? {
            AfterAfter(messages, [], Thrown);
            return Thrown;
          }
          AfterAfter(messages, [message.value], Frames(parse, buffer).0);
          messages := messages + [message.value];
        }
        sep := FirstBreak(buffer);
      }
      AfterAfter(messages, [], Thrown);
      r := Messages(messages);
    }
  }

  // ---- chunks do not matter -------------------------------------------------------------------------

  /** A break found in a text is still the first one when the text goes on. */
  lemma BreakStays(a: string, b: string)
    requires FirstBreak(a) >= 0
    ensures FirstBreak(a + b) == FirstBreak(a)
  {
    var i, j := FirstBreak(a), FirstBreak(a + b);
    FirstBreakIsFirst(a, j);
    FirstBreakIsFirst(a + b, i);
  }

  /** Reading two chunks one after the other is reading them joined. */
  lemma {:induction false} FramesConcat(parse: Parser, a: string, b: string)
    requires Frames(parse, a).0.Messages?
    ensures var rest := Frames(parse, Frames(parse, a).1 + b);
            Frames(parse, a + b) == (After(Frames(parse, a).0.messages, rest.0), rest.1)
    decreases |a|
  {
    var i := FirstBreak(a);
    var p, rest := Frames(parse, a).0, Frames(parse, Frames(parse, a).1 + b);
    if i < 0 {
      AfterAfter([], [], rest.0);
    } else {
      BreakStays(a, b);
      var tail, data := a[i + 2..], Data(a[..i]);
      assert (a + b)[..i] == a[..i] && (a + b)[i + 2..] == tail + b;
      FramesConcat(parse, tail, b);
      if data != "" {
        AfterAfter([parse(data).value], Frames(parse, tail).0.messages, rest.0);
      }
    }
  }

  /** The messages before the first frame that does not parse. */
  function Before(parse: Parser, text: string): seq<Json>
    decreases |text|
  {
    var i := FirstBreak(text);
    if i < 0 then []
    else
      var data := Data(text[..i]);
      if data == "" then Before(parse, text[i + 2..])
      else if parse(data).None? then []
      else [parse(data).value] + Before(parse, text[i + 2..])
  }

  /** What a throw leaves unread grows with the text after it. */
  lemma {:induction false} ThrowLeaves(parse: Parser, a: string, b: string)
    requires Frames(parse, a).0.Thrown?
    ensures Frames(parse, a + b) == (Thrown, Frames(parse, a).1 + b)
    ensures Before(parse, a + b) == Before(parse, a)
    decreases |a|
  {
    var i := FirstBreak(a);
    BreakStays(a, b);
    var tail := a[i + 2..];
    assert (a + b)[..i] == a[..i] && (a + b)[i + 2..] == tail + b;
    if Frames(parse, tail).0.Thrown? {
      ThrowLeaves(parse, tail, b);
    }
  }

  function Concat(chunks: seq<string>): string {
    if chunks == [] then "" else chunks[0] + Concat(chunks[1..])
  }

  /** The results of pushing the chunks one by one, and the buffer in the end. */
  function PushAll(parse: Parser, buffer: string, chunks: seq<string>): (seq<Pushed>, string)
    decreases |chunks|
  {
    if chunks == [] then ([], buffer)
    else
      var (p, rest) := Frames(parse, buffer + chunks[0]);
      var (ps, end) := PushAll(parse, rest, chunks[1..]);
      ([p] + ps, end)
  }

  function AllMessages(ps: seq<Pushed>): seq<Json> {
    if ps == [] then [] else (if ps[0].Messages? then ps[0].messages else []) + AllMessages(ps[1..])
  }

  predicate NoneThrown(ps: seq<Pushed>) {
    forall p :: p in ps ==> p.Messages?
  }

  /** For any text and any way to cut it: some push throws exactly when one push of the whole throws, and
      otherwise messages and buffer in the end are those of the whole. */
  lemma {:induction false} ChunksDoNotMatter(parse: Parser, buffer: string, chunks: seq<string>)
    requires FirstBreak(buffer) < 0
    ensures var (ps, end) := PushAll(parse, buffer, chunks);
            var (p, rest) := Frames(parse, buffer + Concat(chunks));
            && (NoneThrown(ps) <==> p.Messages?)
            && (NoneThrown(ps) ==> AllMessages(ps) == p.messages && end == rest)
    decreases |chunks|
  {
    if chunks == [] {
      assert buffer + Concat(chunks) == buffer;
    } else {
      var first := buffer + chunks[0];
      var p, rest := Frames(parse, first).0, Frames(parse, first).1;
      assert buffer + Concat(chunks) == first + Concat(chunks[1..]);
      var ps := PushAll(parse, rest, chunks[1..]).0;
      assert NoneThrown([p] + ps) <==> p.Messages? && NoneThrown(ps);
      if p.Messages? {
        NothingLeftOver(parse, first);
        FramesConcat(parse, first, Concat(chunks[1..]));
        ChunksDoNotMatter(parse, rest, chunks[1..]);
      } else {
        ThrowLeaves(parse, first, Concat(chunks[1..]));
      }
    }
  }

  lemma {:induction false} NothingLeftOver(parse: Parser, text: string)
    requires Frames(parse, text).0.Messages?
    ensures FirstBreak(Frames(parse, text).1) < 0
    decreases |text|
  {
    var i := FirstBreak(text);
    if i >= 0 {
      NothingLeftOver(parse, text[i + 2..]);
    }
  }

  // ---- texts with a frame that does not parse --------------------------------------------------------

  /** Where the first frame that does not parse begins. */
  function ThrowsAt(parse: Parser, text: string): (k: nat)
    requires Frames(parse, text).0.Thrown?
    ensures k <= |text|
    decreases |text|
  {
    var i := FirstBreak(text);
    var data := Data(text[..i]);
    if data != "" && parse(data).None? then 0 else i + 2 + ThrowsAt(parse, text[i + 2..])
  }

  /** A fresh parser is left the same by every way to cut the text: the same messages, the same buffer. */
  ghost predicate CutsAgree(parse: Parser, text: string) {
    forall chunks :: Concat(chunks) == text ==> SameAsWhole(parse, text, chunks)
  }

  ghost predicate SameAsWhole(parse: Parser, text: string, chunks: seq<string>) {
    && AllMessages(PushAll(parse, "", chunks).0) == AllMessages(PushAll(parse, "", [text]).0)
    && PushAll(parse, "", chunks).1 == PushAll(parse, "", [text]).1
  }

  lemma PushOne(parse: Parser, buffer: string, text: string)
    ensures PushAll(parse, buffer, [text]) == ([Frames(parse, buffer + text).0], Frames(parse, buffer + text).1)
    ensures AllMessages([Frames(parse, buffer + text).0])
         == if Frames(parse, buffer + text).0.Messages? then Frames(parse, buffer + text).0.messages else []
  {
    hide Frames;
    var p, rest := Frames(parse, buffer + text).0, Frames(parse, buffer + text).1;
    assert [text][1..] == [] && PushAll(parse, rest, []) == ([], rest);
    assert [p] + [] == [p] && [p][1..] == [] && AllMessages([]) == [];
  }

  lemma PushTwo(parse: Parser, a: string, b: string)
    ensures var first := Frames(parse, a);
            var (ps, end) := PushAll(parse, "", [a, b]);
            && AllMessages(ps) == (if first.0.Messages? then first.0.messages else [])
                                  + AllMessages(PushAll(parse, first.1, [b]).0)
            && end == PushAll(parse, first.1, [b]).1
  {
    hide Frames;
    assert "" + a == a && [a, b][1..] == [b];
    var p, rest := Frames(parse, a).0, PushAll(parse, Frames(parse, a).1, [b]).0;
    assert ([p] + rest)[1..] == rest;
  }

  lemma TwoChunks(a: string, b: string)
    ensures Concat([a, b]) == a + b && Concat([a + b]) == a + b
  {
    assert [a, b][1..] == [b] && [b][1..] == [] && [a + b][1..] == [];
    assert Concat([b]) == b + "" == b && Concat([a + b]) == (a + b) + "" == a + b;
  }

  /** The text before the first frame that does not parse is a text of frames that do. */
  lemma {:induction false} SplitAtThrow(parse: Parser, text: string)
    requires Frames(parse, text).0.Thrown?
    ensures var k := ThrowsAt(parse, text);
            && Frames(parse, text[..k]) == (Messages(Before(parse, text)), "")
            && Frames(parse, text[k..]) == (Thrown, Frames(parse, text).1)
    decreases |text|
  {
    hide Frames, Before, Data, FirstBreak, After;
    var i := FirstBreak(text);
    if i < 0 {
      NoBreakNoFrames(parse, text);
    } else {
      var data, tail := Data(text[..i]), text[i + 2..];
      FirstFrame(parse, text, i);
      if data != "" && parse(data).None? {
        NoBreakInNothing();
        NoBreakNoFrames(parse, "");
        assert text[..0] == "" && text[0..] == text;
      } else {
        StillThrows(parse, text, i);
        SplitAtThrow(parse, tail);
        var k := ThrowsAt(parse, tail);
        var before := text[..i + 2 + k];
        assert before == text[..i + 2] + tail[..k] && text[i + 2 + k..] == tail[k..];
        BreakKept(text, i, tail[..k]);
        FirstFrame(parse, before, i);
        if data != "" {
          AfterAfter([parse(data).value], [], Frames(parse, tail[..k]).0);
          AfterMessages([parse(data).value], Before(parse, tail));
        }
      }
    }
  }

  lemma AfterMessages(a: seq<Json>, b: seq<Json>)
    ensures After(a, Messages(b)) == Messages(a + b)
  {
  }

  lemma StillThrows(parse: Parser, text: string, i: int)
    requires i == FirstBreak(text) >= 0 && Frames(parse, text).0.Thrown?
    requires Data(text[..i]) == "" || parse(Data(text[..i])).Some?
    ensures Frames(parse, text[i + 2..]) == (Thrown, Frames(parse, text).1)
  {
  }

  /** The first frame of a text and what comes after it. */
  lemma FirstFrame(parse: Parser, text: string, i: int)
    requires i == FirstBreak(text) >= 0
    ensures var data, tail := Data(text[..i]), text[i + 2..];
            if data == "" then Frames(parse, text) == Frames(parse, tail) && Before(parse, text) == Before(parse, tail)
            else if parse(data).None? then Frames(parse, text) == (Thrown, tail) && Before(parse, text) == []
            else
              && Frames(parse, text) == (After([parse(data).value], Frames(parse, tail).0), Frames(parse, tail).1)
              && Before(parse, text) == [parse(data).value] + Before(parse, tail)
  {
  }

  lemma {:induction false} BeforeConcat(parse: Parser, a: string, b: string)
    requires Frames(parse, a).0.Messages?
    ensures Before(parse, a + b) == Frames(parse, a).0.messages + Before(parse, Frames(parse, a).1 + b)
    decreases |a|
  {
    hide Frames, Before, Data, FirstBreak;
    var i := FirstBreak(a);
    if i < 0 {
      NoBreakNoFrames(parse, a);
    } else {
      BreakStays(a, b);
      var tail := a[i + 2..];
      assert (a + b)[..i] == a[..i] && (a + b)[i + 2..] == tail + b;
      FirstFrame(parse, a, i);
      FirstFrame(parse, a + b, i);
      BeforeConcat(parse, tail, b);
    }
  }

  lemma NoBreakNoFrames(parse: Parser, text: string)
    requires FirstBreak(text) < 0
    ensures Frames(parse, text) == (Messages([]), text)
  {
  }

  lemma NoBreakInPrefix(a: string, b: string)
    requires FirstBreak(a + b) < 0
    ensures FirstBreak(a) < 0
  {
    if FirstBreak(a) >= 0 {
      BreakStays(a, b);
    }
  }

  /** A lone frame that does not parse, with nothing delivered before it and no whole frame after it. */
  ghost predicate LoneThrow(parse: Parser, text: string) {
    Frames(parse, text).0.Thrown? && Before(parse, text) == [] && FirstBreak(Frames(parse, text).1) < 0
  }

  lemma NoThrowWithoutBreak(parse: Parser, buffer: string)
    requires FirstBreak(buffer) < 0
    ensures !LoneThrow(parse, buffer + Concat([]))
  {
    assert buffer + Concat([]) == buffer;
  }

  lemma FirstPush(parse: Parser, buffer: string, chunks: seq<string>)
    requires chunks != []
    ensures var (p, rest) := Frames(parse, buffer + chunks[0]);
            var (ps, end) := PushAll(parse, rest, chunks[1..]);
            && PushAll(parse, buffer, chunks).1 == end
            && AllMessages(PushAll(parse, buffer, chunks).0)
                == (if p.Messages? then p.messages else []) + AllMessages(ps)
  {
    hide Frames;
    var (p, rest) := Frames(parse, buffer + chunks[0]);
    var ps := PushAll(parse, rest, chunks[1..]).0;
    assert ([p] + ps)[1..] == ps;
  }

  /** A chunk that does not end the frame delivers nothing and leaves the rest of such a text. */
  lemma LoneThrowGoesOn(parse: Parser, first: string, later: string)
    requires LoneThrow(parse, first + later) && Frames(parse, first).0.Messages?
    ensures var rest := Frames(parse, first).1;
            && Frames(parse, first).0.messages == [] && FirstBreak(rest) < 0
            && LoneThrow(parse, rest + later) && Frames(parse, rest + later).1 == Frames(parse, first + later).1
  {
    hide Frames, Before, FirstBreak;
    FramesConcat(parse, first, later);
    BeforeConcat(parse, first, later);
    NothingLeftOver(parse, first);
  }

  /** A chunk that ends the frame leaves text without a whole frame. */
  lemma LoneThrowIsOver(parse: Parser, first: string, later: string)
    requires LoneThrow(parse, first + later) && Frames(parse, first).0.Thrown?
    ensures var rest := Frames(parse, first).1;
            && Frames(parse, first + later).1 == rest + later
            && FirstBreak(rest) < 0 && Frames(parse, rest + later) == (Messages([]), rest + later)
  {
    hide Frames, Before, FirstBreak;
    ThrowLeaves(parse, first, later);
    NoBreakInPrefix(Frames(parse, first).1, later);
    NoBreakNoFrames(parse, Frames(parse, first).1 + later);
  }

  /** However such a text is cut, nothing is delivered and the text after the frame stays. */
  lemma {:induction false} LoneThrowAgrees(parse: Parser, buffer: string, chunks: seq<string>)
    requires FirstBreak(buffer) < 0 && LoneThrow(parse, buffer + Concat(chunks))
    ensures var (ps, end) := PushAll(parse, buffer, chunks);
            AllMessages(ps) == [] && end == Frames(parse, buffer + Concat(chunks)).1
    decreases |chunks|
  {
    hide Frames, Before, FirstBreak, LoneThrow, PushAll, AllMessages;
    if chunks == [] {
      NoThrowWithoutBreak(parse, buffer);
    } else {
      var first, later := buffer + chunks[0], Concat(chunks[1..]);
      var rest := Frames(parse, first).1;
      assert buffer + Concat(chunks) == first + later;
      FirstPush(parse, buffer, chunks);
      if Frames(parse, first).0.Messages? {
        LoneThrowGoesOn(parse, first, later);
        LoneThrowAgrees(parse, rest, chunks[1..]);
      } else {
        LoneThrowIsOver(parse, first, later);
        ChunksDoNotMatter(parse, rest, chunks[1..]);
      }
    }
  }

  /** A message before the frame that does not parse is lost with the throw when both come in one chunk,
      and delivered when the cut is between them. */
  lemma ThrowDropsItsChunk(parse: Parser, text: string)
    requires Frames(parse, text).0.Thrown?
    ensures var k := ThrowsAt(parse, text);
            && AllMessages(PushAll(parse, "", [text]).0) == []
            && AllMessages(PushAll(parse, "", [text[..k], text[k..]]).0) == Before(parse, text)
  {
    hide Frames, Before;
    var k := ThrowsAt(parse, text);
    SplitAtThrow(parse, text);
    assert "" + text == text && "" + text[k..] == text[k..];
    PushOne(parse, "", text);
    PushTwo(parse, text[..k], text[k..]);
    PushOne(parse, "", text[k..]);
  }

  lemma {:induction false} RestIsShorter(parse: Parser, text: string)
    requires FirstBreak(text) >= 0
    ensures |Frames(parse, text).1| < |text|
    decreases |text|
  {
    var tail := text[FirstBreak(text) + 2..];
    if FirstBreak(tail) >= 0 {
      RestIsShorter(parse, tail);
    }
  }

  /** A whole frame after the one that does not parse stays unread when both come in one chunk, and is read
      when the cut is between them. */
  lemma {:induction false} ThrowDelaysTheRest(parse: Parser, text: string, bad: string)
    requires Frames(parse, text).0.Thrown? && text == bad + Frames(parse, text).1
    requires Frames(parse, bad) == (Thrown, "")
    ensures PushAll(parse, "", [text]).1 == Frames(parse, text).1
    ensures PushAll(parse, "", [bad, Frames(parse, text).1]).1 == Frames(parse, Frames(parse, text).1).1
  {
    hide Frames;
    var rest := Frames(parse, text).1;
    assert "" + text == text && "" + rest == rest;
    PushOne(parse, "", text);
    PushTwo(parse, bad, rest);
    PushOne(parse, "", rest);
  }

  /** The text up to and with the first frame that does not parse. */
  lemma {:induction false} UpToThrow(parse: Parser, text: string) returns (bad: string)
    requires Frames(parse, text).0.Thrown?
    ensures text == bad + Frames(parse, text).1 && Frames(parse, bad) == (Thrown, "")
    decreases |text|
  {
    hide Frames, Before, Data, FirstBreak;
    var i := FirstBreak(text);
    if i < 0 {
      NoBreakNoFrames(parse, text);
    } else {
      var data, tail := Data(text[..i]), text[i + 2..];
      FirstFrame(parse, text, i);
      var later := "";
      if data == "" || parse(data).Some? {
        later := UpToThrow(parse, tail);
      }
      bad := text[..i + 2] + later;
      BreakKept(text, i, later);
      FirstFrame(parse, bad, i);
      assert text == text[..i + 2] + tail;
    }
  }

  lemma BreakKept(text: string, i: int, later: string)
    requires i == FirstBreak(text) >= 0
    ensures var s := text[..i + 2] + later;
            FirstBreak(s) == i && s[..i] == text[..i] && s[i + 2..] == later
  {
    var a := text[..i + 2];
    FirstBreakIsFirst(text, i);
    assert BreakAt(a, i);
    FirstBreakIsFirst(a, i);
    FirstBreakIsFirst(text, FirstBreak(a));
    BreakStays(a, later);
  }

  lemma LoneThrowCutsAgree(parse: Parser, text: string)
    requires LoneThrow(parse, text)
    ensures CutsAgree(parse, text)
  {
    hide Frames, Before, PushAll, AllMessages, Concat, FirstBreak;
    assert "" + text == text;
    PushOne(parse, "", text);
    NoBreakInNothing();
    forall chunks | Concat(chunks) == text
      ensures SameAsWhole(parse, text, chunks)
    {
      assert "" + Concat(chunks) == text;
      LoneThrowAgrees(parse, "", chunks);
    }
  }

  lemma CutBeforeThrow(parse: Parser, text: string)
    requires Frames(parse, text).0.Thrown? && Before(parse, text) != []
    ensures !CutsAgree(parse, text)
  {
    hide Frames, Before, PushAll, AllMessages, Concat;
    var k := ThrowsAt(parse, text);
    ThrowDropsItsChunk(parse, text);
    TwoChunks(text[..k], text[k..]);
    assert text[..k] + text[k..] == text;
    assert !SameAsWhole(parse, text, [text[..k], text[k..]]);
  }

  lemma CutAfterThrow(parse: Parser, text: string)
    requires Frames(parse, text).0.Thrown? && FirstBreak(Frames(parse, text).1) >= 0
    ensures !CutsAgree(parse, text)
  {
    hide Frames, Before, PushAll, AllMessages, Concat, FirstBreak;
    var rest := Frames(parse, text).1;
    var bad := UpToThrow(parse, text);
    ThrowDelaysTheRest(parse, text, bad);
    RestIsShorter(parse, rest);
    TwoChunks(bad, rest);
    assert !SameAsWhole(parse, text, [bad, rest]);
  }

  /** The cut does not matter if and only if every frame parses, or no message comes before the first one
      that does not and no whole frame after it. */
  lemma CutsAgreeIff(parse: Parser, text: string)
    ensures CutsAgree(parse, text)
       <==> Frames(parse, text).0.Messages?
            || (Before(parse, text) == [] && FirstBreak(Frames(parse, text).1) < 0)
  {
    hide Frames, Before, FirstBreak, SameAsWhole;
    if Frames(parse, text).0.Messages? {
      forall chunks | Concat(chunks) == text
        ensures SameAsWhole(parse, text, chunks)
      {
        WholeAgrees(parse, text, chunks);
      }
    } else if LoneThrow(parse, text) {
      LoneThrowCutsAgree(parse, text);
    } else if Before(parse, text) != [] {
      CutBeforeThrow(parse, text);
    } else {
      CutAfterThrow(parse, text);
    }
  }

  lemma NoBreakInNothing()
    ensures FirstBreak("") < 0
  {
  }

  lemma WholeAgrees(parse: Parser, text: string, chunks: seq<string>)
    requires Frames(parse, text).0.Messages? && Concat(chunks) == text
    ensures SameAsWhole(parse, text, chunks)
  {
    hide Frames, PushAll, AllMessages, Concat;
    assert "" + text == text;
    ChunksDoNotMatter(parse, "", chunks);
    PushOne(parse, "", text);
  }

  // ---- what is sent arrives ---------------------------------------------------------------------------

  /** What a server writes: messages, and comments such as heartbeats. */
  datatype Written = Frame(message: Json) | Comment(text: string)

  function Wire(order: KeyOrder, written: seq<Written>): string {
    if written == [] then ""
    else
      (match written[0] case Frame(message) => EncodeSseFrame(order, message) case Comment(text) => ":" + text + BREAK)
      + Wire(order, written[1..])
  }

  function Sent(written: seq<Written>): seq<Json> {
    if written == [] then []
    else (if written[0].Frame? then [written[0].message] else []) + Sent(written[1..])
  }

  /** The parser understands the texts of the messages written. */
  ghost predicate Understands(parse: Parser, order: KeyOrder, written: seq<Written>) {
    forall w :: w in written ==> if w.Frame? then parse(Stringify(order, w.message)) == Some(w.message)
        else OneLine(w.text)
  }

  lemma {:induction false} OneLineOnly(s: string)
    requires OneLine(s)
    ensures Lines(s) == [s]
  {
    if s != "" {
      OneLineOnly(s[1..]);
      assert s[0] in s && s == [s[0]] + s[1..];
      assert Lines(s) == [[s[0]] + s[1..]] + Lines(s[1..])[1..];
    }
  }

  lemma {:induction false} NoBreakBefore(s: string, rest: string)
    requires OneLine(s) && s != ""
    ensures FirstBreak(s + BREAK + rest) == |s|
  {
    var text := s + BREAK + rest;
    forall k | 0 <= k < |s|
      ensures !BreakAt(text, k)
    {
      assert text[k] == s[k];
    }
    assert text[|s|] == BREAK[0] && text[|s| + 1] == BREAK[1];
    FirstBreakIsFirst(text, |s|);
  }

  lemma StringifyNotEmpty(order: KeyOrder, j: Json)
    ensures Stringify(order, j) != ""
  {
  }

  lemma FrameData(order: KeyOrder, message: Json)
    ensures Data("data: " + Stringify(order, message)) == Stringify(order, message)
  {
    var body := Stringify(order, message);
    var line := "data: " + body;
    StringifyOneLine(order, message);
    OneLineOnly(line);
    assert line[..5] == "data:" && line[6..] == body;
    assert DataLines([line]) == [body] + DataLines([line][1..]);
  }

  lemma CommentData(text: string)
    requires OneLine(text)
    ensures Data(":" + text) == ""
  {
    var line := ":" + text;
    OneLineOnly(line);
    assert |line| >= 5 ==> line[..5][0] == ':' && "data:"[0] == 'd';
    assert DataLines([line]) == DataLines([line][1..]);
  }

  lemma {:induction false} WholeWireArrives(parse: Parser, order: KeyOrder, written: seq<Written>)
    requires Understands(parse, order, written)
    ensures Frames(parse, Wire(order, written)) == (Messages(Sent(written)), "")
  {
    if written != [] {
      var rest := Wire(order, written[1..]);
      assert written[0] in written && forall w :: w in written[1..] ==> w in written;
      WholeWireArrives(parse, order, written[1..]);
      match written[0]
      case Frame(message) =>
        var s := "data: " + Stringify(order, message);
        StringifyOneLine(order, message);
        NoBreakBefore(s, rest);
        FrameData(order, message);
        StringifyNotEmpty(order, message);
        assert Wire(order, written) == s + BREAK + rest;
        assert (s + BREAK + rest)[..|s|] == s && (s + BREAK + rest)[|s| + 2..] == rest;
      case Comment(text) =>
        var s := ":" + text;
        NoBreakBefore(s, rest);
        CommentData(text);
        assert Sent(written) == Sent(written[1..]);
        assert Wire(order, written) == s + BREAK + rest;
        assert (s + BREAK + rest)[..|s|] == s && (s + BREAK + rest)[|s| + 2..] == rest;
    }
  }

  /** Messages arrive whole, once and in order, and nothing stays in the buffer, however the wire is cut. */
  lemma SentIsReceived(parse: Parser, order: KeyOrder, written: seq<Written>, chunks: seq<string>)
    requires Understands(parse, order, written) && Concat(chunks) == Wire(order, written)
    ensures var (ps, end) := PushAll(parse, "", chunks);
            NoneThrown(ps) && AllMessages(ps) == Sent(written) && end == ""
  {
    WholeWireArrives(parse, order, written);
    ChunksDoNotMatter(parse, "", chunks);
    assert "" + Concat(chunks) == Concat(chunks);
  }
}
