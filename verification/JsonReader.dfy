/** Reading back what the server writes: the text of a message determines the message, by the grammar of
    RFC 8259 (transports/http-sse/src/codec.ts:8-10, 33). */
module JsonReader {
  import opened Json
  import opened SseCodec

  // ---- numbers ---------------------------------------------------------------------------------

  predicate IsDigit(c: char) {
    '0' <= c <= '9'
  }

  function DigitOf(c: char): nat
    requires IsDigit(c)
  {
    c as int - '0' as int
  }

  /** The digits at the beginning of a text, after digits worth `value`, and the rest. */
  function ReadDigits(value: nat, s: string): (nat, string)
    decreases |s|
  {
    if s == "" || !IsDigit(s[0]) then (value, s) else ReadDigits(10 * value + DigitOf(s[0]), s[1..])
  }

  predicate AllDigits(s: string) {
    forall i :: 0 <= i < |s| ==> IsDigit(s[i])
  }

  function Worth(value: nat, s: string): nat
    requires AllDigits(s)
  {
    if s == "" then value else 10 * Worth(value, s[..|s| - 1]) + DigitOf(s[|s| - 1])
  }

  predicate NoDigitFirst(s: string) {
    s == "" || !IsDigit(s[0])
  }

  lemma {:induction false} WorthFirst(value: nat, s: string)
    requires AllDigits(s) && s != ""
    ensures Worth(value, s) == Worth(10 * value + DigitOf(s[0]), s[1..])
  {
    if |s| == 1 {
      assert s[..0] == "" && s[1..] == "";
    } else {
      WorthFirst(value, s[..|s| - 1]);
      assert s[..|s| - 1][1..] == s[1..][..|s| - 2] && s[1..][|s| - 2] == s[|s| - 1];
    }
  }

  lemma {:induction false} DigitsRead(value: nat, digits: string, rest: string)
    requires AllDigits(digits) && NoDigitFirst(rest)
    ensures ReadDigits(value, digits + rest) == (Worth(value, digits), rest)
    decreases |digits|
  {
    if digits == "" {
      assert digits + rest == rest;
    } else {
      assert (digits + rest)[1..] == digits[1..] + rest;
      DigitsRead(10 * value + DigitOf(digits[0]), digits[1..], rest);
      WorthFirst(value, digits);
    }
  }

  lemma HexDigit(n: nat)
    requires n < 10
    ensures IsDigit(Hex(n)) && DigitOf(Hex(n)) == n
  {
    assert "0123456789abcdef" == ['0', '1', '2', '3', '4', '5', '6', '7', '8', '9', 'a', 'b', 'c', 'd', 'e', 'f'];
  }

  lemma {:induction false} DecimalWorth(n: nat)
    ensures AllDigits(Decimal(n)) && Decimal(n) != "" && Worth(0, Decimal(n)) == n
  {
    HexDigit(n % 10);
    if n < 10 {
      assert Decimal(n)[..0] == "";
    } else {
      DecimalWorth(n / 10);
      assert Decimal(n)[..|Decimal(n)| - 1] == Decimal(n / 10);
    }
  }

  // ---- strings -----------------------------------------------------------------------------------

  function HexValue(c: char): Option<nat> {
    if '0' <= c <= '9' then Some(c as int - '0' as int)
    else if 'a' <= c <= 'f' then Some(c as int - 'a' as int + 10)
    else if 'A' <= c <= 'F' then Some(c as int - 'A' as int + 10)
    else None
  }

  /** Four hexadecimal digits; surrogates are no characters of their own. */
  function ReadCode(s: string): Option<char> {
    if |s| < 4 || exists i :: 0 <= i < 4 && HexValue(s[i]).None? then None
    else
      var code := 4096 * HexValue(s[0]).value + 256 * HexValue(s[1]).value + 16 * HexValue(s[2]).value
          + HexValue(s[3]).value;
      if 0 <= code < 0xD800 || 0xE000 <= code < 0x10000 then Some(code as char) else None
  }

  /** The character after a backslash, except for `u`. */
  function Unescape(c: char): Option<char> {
    if c == '"' || c == '\\' || c == '/' then Some(c)
    else if c == 'n' then Some('\n')
    else if c == 'r' then Some('\r')
    else if c == 't' then Some('\t')
    else if c == 'b' then Some(8 as char)
    else if c == 'f' then Some(12 as char)
    else None
  }

  /** The first character of a string's text and what comes after it. */
  function ReadChar(s: string): (r: Option<(char, string)>)
    ensures r.Some? ==> |r.value.1| < |s|
  {
    if s == "" || s[0] as int < 32 || s[0] == '"' then None
    else if s[0] != '\\' then Some((s[0], s[1..]))
    else if |s| < 2 then None
    else if s[1] == 'u' then
      if ReadCode(s[2..]).Some? then Some((ReadCode(s[2..]).value, s[6..])) else None
    else if Unescape(s[1]).Some? then Some((Unescape(s[1]).value, s[2..]))
    else None
  }

  /** A string's text up to its closing quote. */
  function ReadString(s: string): (r: Option<(string, string)>)
    ensures r.Some? ==> |r.value.1| < |s|
    decreases |s|
  {
    if s == "" then None
    else if s[0] == '"' then Some(("", s[1..]))
    else
      match ReadChar(s)
      case None => None
      case Some((c, after)) =>
        match ReadString(after)
        case None => None
        case Some((t, rest)) => Some(([c] + t, rest))
  }

  lemma HexRead(n: nat)
    requires n < 16
    ensures HexValue(Hex(n)) == Some(n)
  {
    assert "0123456789abcdef" == ['0', '1', '2', '3', '4', '5', '6', '7', '8', '9', 'a', 'b', 'c', 'd', 'e', 'f'];
  }

  lemma CodeRead(c: char, rest: string)
    requires c as int < 32
    ensures ReadCode("00" + [Hex(c as int / 16), Hex(c as int % 16)] + rest) == Some(c)
  {
    var n := c as int;
    var s := "00" + [Hex(n / 16), Hex(n % 16)] + rest;
    HexRead(n / 16);
    HexRead(n % 16);
    assert s[0] == '0' && s[1] == '0' && s[2] == Hex(n / 16) && s[3] == Hex(n % 16);
  }

  lemma CharRead(c: char, rest: string)
    ensures ReadChar(EscapeChar(c) + rest) == Some((c, rest)) && EscapeChar(c) != "" && EscapeChar(c)[0] != '"'
  {
    var s := EscapeChar(c) + rest;
    if c == '"' || c == '\\' || c == '\n' || c == '\r' || c == '\t' || c as int == 8 || c as int == 12 {
      assert s[2..] == rest;
    } else if c as int < 32 {
      CodeRead(c, rest);
      assert s[2..] == "00" + [Hex(c as int / 16), Hex(c as int % 16)] + rest;
      assert s[6..] == rest;
    } else {
      assert s[1..] == rest;
    }
  }

  lemma {:induction false} StringRead(t: string, rest: string)
    ensures ReadString(Escape(t) + "\"" + rest) == Some((t, rest))
    decreases |t|
  {
    if t == "" {
      assert (Escape(t) + "\"" + rest)[1..] == rest;
    } else {
      var after := Escape(t[1..]) + "\"" + rest;
      assert Escape(t) + "\"" + rest == EscapeChar(t[0]) + after;
      CharRead(t[0], after);
      StringRead(t[1..], rest);
      assert [t[0]] + t[1..] == t;
    }
  }

  // ---- values -------------------------------------------------------------------------------------

  /** A value at the beginning of a text, and what comes after it. */
  function ReadValue(s: string): (r: Option<(Json, string)>)
    ensures r.Some? ==> |r.value.1| < |s|
    decreases |s|, 1
  {
    if s == "" then None
    else if "null" <= s then Some((Null, s[4..]))
    else if "true" <= s then Some((Bool(true), s[4..]))
    else if "false" <= s then Some((Bool(false), s[5..]))
    else if s[0] == '-' then
      if NoDigitFirst(s[1..]) then None
      else
        ReadShorter(0, s[1..]);
        var n: int := ReadDigits(0, s[1..]).0;
        Some((Num(-n), ReadDigits(0, s[1..]).1))
    else if IsDigit(s[0]) then
      ReadShorter(0, s);
      Some((Num(ReadDigits(0, s).0), ReadDigits(0, s).1))
    else if s[0] == '"' then
      match ReadString(s[1..])
      case None => None
      case Some((t, rest)) => Some((Str(t), rest))
    else if s[0] == '[' then
      if |s| > 1 && s[1] == ']' then Some((Arr([]), s[2..]))
      else
        match ReadItems(s[1..])
        case None => None
        case Some((items, rest)) => Some((Arr(items), rest))
    else if s[0] == '{' then
      if |s| > 1 && s[1] == '}' then Some((Obj(map[]), s[2..]))
      else
        match ReadMembers(s[1..])
        case None => None
        case Some((fields, rest)) => Some((Obj(fields), rest))
    else None
  }

  lemma {:induction false} ReadShorter(value: nat, s: string)
    ensures |ReadDigits(value, s).1| <= |s| && (!NoDigitFirst(s) ==> |ReadDigits(value, s).1| < |s|)
    decreases |s|
  {
    if !NoDigitFirst(s) {
      ReadShorter(10 * value + DigitOf(s[0]), s[1..]);
    }
  }

  /** Items up to the closing bracket. */
  function ReadItems(s: string): (r: Option<(seq<Json>, string)>)
    ensures r.Some? ==> |r.value.1| < |s|
    decreases |s|, 2
  {
    match ReadValue(s)
    case None => None
    case Some((item, after)) =>
      if after == "" then None
      else if after[0] == ']' then Some(([item], after[1..]))
      else if after[0] != ',' then None
      else
        match ReadItems(after[1..])
        case None => None
        case Some((items, rest)) => Some(([item] + items, rest))
  }

  /** Members up to the closing brace; of several members of one name the last one stays. */
  function ReadMembers(s: string): (r: Option<(map<string, Json>, string)>)
    ensures r.Some? ==> |r.value.1| < |s|
    decreases |s|, 2
  {
    if s == "" || s[0] != '"' then None
    else
      match ReadString(s[1..])
      case None => None
      case Some((key, colon)) =>
        if colon == "" || colon[0] != ':' then None
        else
          match ReadValue(colon[1..])
          case None => None
          case Some((value, after)) =>
            if after == "" then None
            else if after[0] == '}' then Some((map[key := value], after[1..]))
            else if after[0] != ',' then None
            else
              match ReadMembers(after[1..])
              case None => None
              case Some((fields, rest)) => Some((map[key := value] + fields, rest))
  }

  /** The whole text is one value. */
  function Read(s: string): Option<Json> {
    match ReadValue(s)
    case None => None
    case Some((value, rest)) => if rest == "" then Some(value) else None
  }

  // ---- what was written is read -----------------------------------------------------------------------

  /** The member order leaves no member out. */
  ghost predicate Complete(order: KeyOrder) {
    forall fields: map<string, Json>, key :: key in fields ==> key in order(fields)
  }

  lemma NumberRead(n: int, rest: string)
    requires NoDigitFirst(rest)
    ensures ReadValue((if n < 0 then "-" + Decimal(-n) else Decimal(n)) + rest) == Some((Num(n), rest))
  {
    hide ReadDigits, Decimal, Worth;
    var m: nat := if n < 0 then -n else n;
    DecimalWorth(m);
    DigitsRead(0, Decimal(m), rest);
    var s := (if n < 0 then "-" + Decimal(m) else Decimal(m)) + rest;
    if n < 0 {
      assert s[0] == '-' && s[1..] == Decimal(m) + rest;
      assert (Decimal(m) + rest)[0] == Decimal(m)[0];
    } else {
      assert s == Decimal(m) + rest && s[0] == Decimal(m)[0];
    }
  }

  lemma TextRead(t: string, rest: string)
    ensures ReadValue(Quote(t) + rest) == Some((Str(t), rest))
  {
    var s := Quote(t) + rest;
    assert s[0] == '"' && s[1..] == Escape(t) + "\"" + rest;
    StringRead(t, rest);
  }

  lemma LiteralRead(j: Json, order: KeyOrder, rest: string)
    requires j.Null? || j.Bool?
    ensures ReadValue(Stringify(order, j) + rest) == Some((j, rest))
  {
    var s := Stringify(order, j) + rest;
    if j.Null? {
      assert s[4..] == rest;
    } else if j.b {
      assert s[0] == 't' && s[4..] == rest;
    } else {
      assert s[0] == 'f' && s[5..] == rest;
    }
  }

  lemma JoinFirst(parts: seq<string>)
    requires |parts| > 0
    ensures JoinWith(",", parts) == if |parts| == 1 then parts[0] else parts[0] + "," + JoinWith(",", parts[1..])
  {
  }

  function ItemsFrom(order: KeyOrder, j: Json, k: nat): (r: seq<string>)
    requires j.Arr? && k <= |j.items|
    ensures |r| == |j.items| - k
    decreases j, 0, |j.items| - k
  {
    if k == |j.items| then [] else [Stringify(order, j.items[k])] + ItemsFrom(order, j, k + 1)
  }

  lemma {:induction false} ItemsJoin(order: KeyOrder, j: Json, k: nat)
    requires j.Arr? && k <= |j.items|
    ensures Items(order, j, k) + ItemsFrom(order, j, k) == Items(order, j, |j.items|)
    decreases |j.items| - k
  {
    if k == |j.items| {
      assert Items(order, j, k) + [] == Items(order, j, k);
    } else {
      ItemsJoin(order, j, k + 1);
      assert Items(order, j, k + 1) + ItemsFrom(order, j, k + 1) == Items(order, j, k) + ItemsFrom(order, j, k);
    }
  }

  /** A value's text is never mistaken for the end of an array. */
  lemma TextBegins(order: KeyOrder, j: Json)
    ensures Stringify(order, j) != "" && Stringify(order, j)[0] != ']' && Stringify(order, j)[0] != '}'
  {
    if j.Num? {
      DecimalWorth(if j.n < 0 then -j.n else j.n);
    }
  }

  lemma ReadArray(body: string)
    requires body != ""
    ensures ReadValue("[" + body)
         == if body[0] == ']' then Some((Arr([]), body[1..]))
            else if ReadItems(body).None? then None
            else Some((Arr(ReadItems(body).value.0), ReadItems(body).value.1))
  {
    hide ReadItems;
    var s := "[" + body;
    assert s[0] == '[' && s[1..] == body && s[2..] == body[1..];
  }

  lemma ReadObject(body: string)
    requires body != ""
    ensures ReadValue("{" + body)
         == if body[0] == '}' then Some((Obj(map[]), body[1..]))
            else if ReadMembers(body).None? then None
            else Some((Obj(ReadMembers(body).value.0), ReadMembers(body).value.1))
  {
    hide ReadMembers;
    var s := "{" + body;
    assert s[0] == '{' && s[1..] == body && s[2..] == body[1..];
  }

  lemma ReadFirstItem(text: string, item: Json, after: string)
    requires ReadValue(text + after) == Some((item, after)) && after != ""
    ensures after[0] == ']' ==> ReadItems(text + after) == Some(([item], after[1..]))
    ensures after[0] == ',' ==>
              ReadItems(text + after)
              == if ReadItems(after[1..]).None? then None
                 else Some(([item] + ReadItems(after[1..]).value.0, ReadItems(after[1..]).value.1))
  {
    hide ReadValue;
  }

  lemma ReadFirstMember(s: string, key: string, colon: string, value: Json, after: string)
    requires s != "" && s[0] == '"' && ReadString(s[1..]) == Some((key, colon))
    requires colon != "" && colon[0] == ':' && ReadValue(colon[1..]) == Some((value, after)) && after != ""
    ensures after[0] == '}' ==> ReadMembers(s) == Some((map[key := value], after[1..]))
    ensures after[0] == ',' ==>
              ReadMembers(s)
              == if ReadMembers(after[1..]).None? then None
                 else Some((map[key := value] + ReadMembers(after[1..]).value.0, ReadMembers(after[1..]).value.1))
  {
    hide ReadValue, ReadString;
  }

  /** What is read back is what was written, whatever follows it. */
  lemma {:induction false} ValueRead(order: KeyOrder, j: Json, rest: string)
    requires Complete(order) && NoDigitFirst(rest)
    ensures ReadValue(Stringify(order, j) + rest) == Some((j, rest))
    decreases j, 1, 0
  {
    hide ReadValue, ReadItems, ReadMembers, Complete;
    match j
    case Null => LiteralRead(j, order, rest);
    case Bool(b) => LiteralRead(j, order, rest);
    case Num(n) => NumberRead(n, rest);
    case Str(t) => TextRead(t, rest);
    case Arr(items) =>
      if items != [] {
        ItemsRead(order, j, 0, rest);
      }
      ArrayRead(order, j, rest);
    case Obj(fields) =>
      if Members(order, j, order(fields)) != [] {
        MembersRead(order, j, order(fields), rest);
      }
      ObjectRead(order, j, rest);
  }

  lemma ArrayRead(order: KeyOrder, j: Json, rest: string)
    requires j.Arr?
    requires j.items != [] ==>
               ReadItems(JoinWith(",", ItemsFrom(order, j, 0)) + "]" + rest) == Some((j.items[0..], rest))
    ensures ReadValue(Stringify(order, j) + rest) == Some((j, rest))
  {
    hide ReadValue, ReadItems;
    var parts := Items(order, j, |j.items|);
    var body := JoinWith(",", parts) + "]" + rest;
    assert Stringify(order, j) + rest == "[" + body;
    ItemsJoin(order, j, 0);
    assert Items(order, j, 0) + ItemsFrom(order, j, 0) == ItemsFrom(order, j, 0);
    ReadArray(body);
    if j.items == [] {
      assert body == "]" + rest && body[1..] == rest;
    } else {
      TextBegins(order, j.items[0]);
      JoinFirst(parts);
      assert parts[0] == Stringify(order, j.items[0]);
      assert body[0] == parts[0][0];
      assert j.items[0..] == j.items;
    }
  }

  lemma ObjectRead(order: KeyOrder, j: Json, rest: string)
    requires Complete(order) && j.Obj?
    requires var parts := Members(order, j, order(j.fields));
             parts != [] ==>
                 ReadMembers(JoinWith(",", parts) + "}" + rest)
                 == Some((FieldsOf(j, order(j.fields)), rest))
    ensures ReadValue(Stringify(order, j) + rest) == Some((j, rest))
  {
    hide ReadValue, ReadMembers;
    var keys := order(j.fields);
    var parts := Members(order, j, keys);
    var body := JoinWith(",", parts) + "}" + rest;
    assert Stringify(order, j) + rest == "{" + body;
    MembersFound(order, j, keys);
    assert FieldsOf(j, keys) == j.fields;
    ReadObject(body);
    if parts == [] {
      assert body == "}" + rest && body[1..] == rest;
    } else {
      JoinFirst(parts);
      MembersQuoted(order, j, keys);
      assert body[0] == parts[0][0] == '"';
    }
  }

  /** The members an order names. */
  function FieldsOf(j: Json, keys: seq<string>): map<string, Json>
    requires j.Obj?
  {
    map key | key in keys && key in j.fields :: j.fields[key]
  }

  lemma {:induction false} MembersFound(order: KeyOrder, j: Json, keys: seq<string>)
    requires j.Obj?
    ensures Members(order, j, keys) == [] <==> FieldsOf(j, keys) == map[]
  {
    if keys != [] {
      MembersFound(order, j, keys[1..]);
      if keys[0] in j.fields {
        assert keys[0] in FieldsOf(j, keys);
      } else {
        assert FieldsOf(j, keys) == FieldsOf(j, keys[1..]);
      }
    }
  }

  lemma {:induction false} MembersQuoted(order: KeyOrder, j: Json, keys: seq<string>)
    requires j.Obj? && Members(order, j, keys) != []
    ensures Members(order, j, keys)[0] != "" && Members(order, j, keys)[0][0] == '"'
  {
    if keys[0] !in j.fields {
      MembersQuoted(order, j, keys[1..]);
    }
  }

  /** The texts of the items from the k-th on: the first of them, and what comes after it. */
  lemma ItemsText(order: KeyOrder, j: Json, k: nat, rest: string) returns (after: string)
    requires j.Arr? && k < |j.items|
    ensures JoinWith(",", ItemsFrom(order, j, k)) + "]" + rest == Stringify(order, j.items[k]) + after && after != ""
    ensures k + 1 == |j.items| ==> after[0] == ']' && after[1..] == rest
    ensures k + 1 < |j.items| ==>
              after[0] == ',' && after[1..] == JoinWith(",", ItemsFrom(order, j, k + 1)) + "]" + rest
  {
    hide JoinWith, Stringify;
    var parts := ItemsFrom(order, j, k);
    assert parts[1..] == ItemsFrom(order, j, k + 1);
    JoinFirst(parts);
    after := if k + 1 == |j.items| then "]" + rest else "," + (JoinWith(",", parts[1..]) + "]" + rest);
  }

  lemma {:induction false} ItemsRead(order: KeyOrder, j: Json, k: nat, rest: string)
    requires Complete(order) && j.Arr? && k < |j.items|
    ensures ReadItems(JoinWith(",", ItemsFrom(order, j, k)) + "]" + rest) == Some((j.items[k..], rest))
    decreases j, 0, |j.items| - k
  {
    hide ReadValue, ReadItems, Complete, JoinWith, Stringify, ItemsFrom;
    var after := ItemsText(order, j, k, rest);
    ValueRead(order, j.items[k], after);
    ReadFirstItem(Stringify(order, j.items[k]), j.items[k], after);
    if k + 1 < |j.items| {
      ItemsRead(order, j, k + 1, rest);
      assert j.items[k..] == [j.items[k]] + j.items[k + 1..];
    } else {
      assert j.items[k..] == [j.items[k]];
    }
  }

  lemma {:induction false} MembersRead(order: KeyOrder, j: Json, keys: seq<string>, rest: string)
    requires Complete(order) && j.Obj? && Members(order, j, keys) != []
    ensures ReadMembers(JoinWith(",", Members(order, j, keys)) + "}" + rest) == Some((FieldsOf(j, keys), rest))
    decreases j, 0, |keys|
  {
    hide ReadValue, ReadMembers, ReadString, Complete, JoinWith, Stringify, Quote;
    if keys[0] !in j.fields {
      assert Members(order, j, keys) == Members(order, j, keys[1..]);
      MembersRead(order, j, keys[1..], rest);
      assert FieldsOf(j, keys) == FieldsOf(j, keys[1..]);
    } else {
      var key, value, more := keys[0], j.fields[keys[0]], Members(order, j, keys[1..]);
      var parts := [Quote(key) + ":" + Stringify(order, value)] + more;
      var later := JoinWith(",", more) + "}" + rest;
      var after := if more == [] then "}" + rest else "," + later;
      assert Members(order, j, keys) == parts && parts[1..] == more;
      JoinFirst(parts);
      var s, colon := JoinWith(",", parts) + "}" + rest, ":" + (Stringify(order, value) + after);
      assert s == Quote(key) + colon;
      assert after[1..] == if more == [] then rest else later;
      OneMemberRead(order, key, value, after);
      ValueRead(order, value, after);
      ReadFirstMember(s, key, colon, value, after);
      MembersFound(order, j, keys[1..]);
      if more != [] {
        MembersRead(order, j, keys[1..], rest);
      }
      FieldsOfFirst(j, keys);
    }
  }

  lemma FieldsOfFirst(j: Json, keys: seq<string>)
    requires j.Obj? && keys != [] && keys[0] in j.fields
    ensures FieldsOf(j, keys) == map[keys[0] := j.fields[keys[0]]] + FieldsOf(j, keys[1..])
    ensures FieldsOf(j, keys[1..]) == map[] ==> FieldsOf(j, keys) == map[keys[0] := j.fields[keys[0]]]
  {
    assert keys == [keys[0]] + keys[1..];
  }

  lemma OneMemberRead(order: KeyOrder, key: string, value: Json, after: string)
    ensures var s := Quote(key) + (":" + (Stringify(order, value) + after));
            && s != "" && s[0] == '"'
            && ReadString(s[1..]) == Some((key, ":" + (Stringify(order, value) + after)))
    ensures (":" + (Stringify(order, value) + after))[1..] == Stringify(order, value) + after
  {
    var tail := ":" + (Stringify(order, value) + after);
    var s := Quote(key) + tail;
    assert s[1..] == Escape(key) + "\"" + tail;
    StringRead(key, tail);
  }

  /** Every message is determined by its text. */
  lemma TextIsRead(order: KeyOrder, j: Json)
    requires Complete(order)
    ensures Read(Stringify(order, j)) == Some(j)
  {
    ValueRead(order, j, "");
    assert Stringify(order, j) + "" == Stringify(order, j);
  }

  // ---- the wire ------------------------------------------------------------------------------------------

  /** With the reader above the messages sent are the messages received, however the wire is cut; comments may
      hold any text of one line. */
  lemma SentIsRead(order: KeyOrder, written: seq<Written>, chunks: seq<string>)
    requires Complete(order) && Concat(chunks) == Wire(order, written)
    requires forall w :: w in written && w.Comment? ==> OneLine(w.text)
    ensures var (ps, end) := PushAll(Read, "", chunks);
            NoneThrown(ps) && AllMessages(ps) == Sent(written) && end == ""
  {
    hide Complete;
    forall w | w in written && w.Frame?
      ensures Read(Stringify(order, w.message)) == Some(w.message)
    {
      TextIsRead(order, w.message);
    }
    SentIsReceived(Read, order, written, chunks);
  }

  // ---- frames of several lines ----------------------------------------------------------------------------

  /** A frame with one `data:` line for each part, a space after the colon or none. */
  function DataFrame(parts: seq<string>, spaced: seq<bool>): seq<string>
    requires |spaced| == |parts|
  {
    if parts == [] then []
    else [(if spaced[0] then "data: " else "data:") + parts[0]] + DataFrame(parts[1..], spaced[1..])
  }

  lemma {:induction false} DataOfLines(parts: seq<string>, spaced: seq<bool>)
    requires |spaced| == |parts|
    requires forall k :: 0 <= k < |parts| && !spaced[k] ==> parts[k] == "" || parts[k][0] != ' '
    ensures DataLines(DataFrame(parts, spaced)) == parts
  {
    if parts != [] {
      DataOfLines(parts[1..], spaced[1..]);
      var line := (if spaced[0] then "data: " else "data:") + parts[0];
      assert line[..5] == "data:";
      if spaced[0] {
        assert line[5] == ' ' && line[6..] == parts[0];
      } else {
        assert line[5..] == parts[0];
        assert |line| > 5 ==> line[5] == parts[0][0];
      }
      assert DataFrame(parts, spaced)[1..] == DataFrame(parts[1..], spaced[1..]);
    }
  }

  lemma {:induction false} LinesOfJoined(parts: seq<string>)
    requires parts != [] && forall p :: p in parts ==> OneLine(p)
    ensures Lines(JoinWith("\n", parts)) == parts
  {
    assert parts[0] in parts;
    if |parts| == 1 {
      OneLineOnly(parts[0]);
    } else {
      LinesOfJoined(parts[1..]);
      LineThenMore(parts[0], JoinWith("\n", parts[1..]));
      assert parts == [parts[0]] + parts[1..];
    }
  }

  lemma {:induction false} LineThenMore(line: string, more: string)
    requires OneLine(line)
    ensures Lines(line + "\n" + more) == [line] + Lines(more)
  {
    var s := line + "\n" + more;
    if line == "" {
      assert s[1..] == more;
    } else {
      assert s[0] == line[0] && line[0] in line && s[1..] == line[1..] + "\n" + more;
      LineThenMore(line[1..], more);
      assert [line[0]] + line[1..] == line;
    }
  }

  /** The data of a frame is its data lines joined by line breaks; other fields add nothing. */
  lemma FrameOfLines(parts: seq<string>, spaced: seq<bool>)
    requires parts != [] && |spaced| == |parts| && forall p :: p in parts ==> OneLine(p)
    requires forall k :: 0 <= k < |parts| && !spaced[k] ==> parts[k] == "" || parts[k][0] != ' '
    ensures Data(JoinWith("\n", DataFrame(parts, spaced))) == JoinWith("\n", parts)
  {
    FrameLinesAreLines(parts, spaced);
    LinesOfJoined(DataFrame(parts, spaced));
    DataOfLines(parts, spaced);
  }

  lemma {:induction false} FrameLinesAreLines(parts: seq<string>, spaced: seq<bool>)
    requires |spaced| == |parts| && forall p :: p in parts ==> OneLine(p)
    ensures |DataFrame(parts, spaced)| == |parts| && forall p :: p in DataFrame(parts, spaced) ==> OneLine(p)
  {
    if parts != [] {
      assert parts[0] in parts;
      FrameLinesAreLines(parts[1..], spaced[1..]);
    }
  }
}
