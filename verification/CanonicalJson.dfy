/**
 * The canonical text of an audit record: compact JSON with sorted keys and ASCII escapes, as
 * Python's json.dumps(sort_keys=True, separators=(",", ":")) writes it (src/ab_audit/store.py). A
 * reader recovers every value from its text, even when other text follows; so no two values have
 * the same text.
 */
module CanonicalJson {
  import opened Common

  /** An object is its list of fields in key order: what is left of a dictionary once keys are sorted. */
  datatype Json =
    | Null
    | Bool(b: bool)
    | Int(n: int)
    | Str(s: string)
    | Arr(items: Items)
    | Obj(fields: Fields)

  datatype Items = NoItems | Item(head: Json, tail: Items)

  datatype Fields = NoFields | Field(key: string, value: Json, rest: Fields)

  // ---------------------------------------------------------------- numbers

  function Digit(d: nat): char
    requires d < 10
  {
    ('0' as int + d) as char
  }

  predicate IsDigit(c: char) {
    '0' <= c <= '9'
  }

  function Digits(n: nat): (t: string)
    ensures t != "" && forall k :: 0 <= k < |t| ==> IsDigit(t[k])
  {
    if n < 10 then [Digit(n)] else Digits(n / 10) + [Digit(n % 10)]
  }

  /** Text that cannot extend a number. */
  predicate Stops(t: string) {
    t == "" || !IsDigit(t[0])
  }

  lemma SameHalves(a: string, x: string, b: string, y: string)
    requires a + x == b + y && |a| == |b|
    ensures a == b && x == y
  {
    assert a == (a + x)[..|a|] && b == (b + y)[..|b|];
    assert x == (a + x)[|a|..] && y == (b + y)[|b|..];
  }

  function Number(n: int): string {
    if n < 0 then "-" + Digits(0 - n) else Digits(n)
  }

  // ---------------------------------------------------------------- strings

  function HexDigit(d: nat): char
    requires d < 16
  {
    if d < 10 then ('0' as int + d) as char else ('a' as int + (d - 10)) as char
  }

  function Hex(n: nat, width: nat): (t: string)
    ensures |t| == width
  {
    if width == 0 then "" else Hex(n / 16, width - 1) + [HexDigit(n % 16)]
  }

  function Power16(k: nat): nat {
    if k == 0 then 1 else 16 * Power16(k - 1)
  }

  function Unit(n: nat): string {
    "\\u" + Hex(n, 4)
  }

  /** Characters outside the printable ASCII are written as UTF-16 code units. */
  function Escape(c: char): string {
    if c == '\"' then "\\\""
    else if c == '\\' then "\\\\"
    else if c == '\n' then "\\n"
    else if c == '\r' then "\\r"
    else if c == '\t' then "\\t"
    else if c as int == 0x0c then "\\f"
    else if c as int == 0x08 then "\\b"
    else if ' ' <= c <= '~' then [c]
    else if c as int < 0x10000 then Unit(c as int)
    else Unit(0xD800 + (c as int - 0x10000) / 1024) + Unit(0xDC00 + (c as int - 0x10000) % 1024)
  }

  // Each text is written in front of what follows it.

  /** The rest of a string literal: its characters, the closing quote and what follows. */
  function Escaped(s: string, after: string): string {
    if s == "" then "\"" + after else Escape(s[0]) + Escaped(s[1..], after)
  }

  function Quoted(s: string, after: string): string {
    "\"" + Escaped(s, after)
  }

  // ---------------------------------------------------------------- values

  function Encode(j: Json, after: string): string {
    match j
    case Null => "null" + after
    case Bool(b) => (if b then "true" else "false") + after
    case Int(n) => Number(n) + after
    case Str(s) => Quoted(s, after)
    case Arr(items) => "[" + EncodeItems(items, true, after)
    case Obj(fields) => "{" + EncodeFields(fields, true, after)
  }

  function Comma(first: bool): string {
    if first then "" else ","
  }

  function EncodeItems(items: Items, first: bool, after: string): string {
    match items
    case NoItems => "]" + after
    case Item(head, tail) => Comma(first) + Encode(head, EncodeItems(tail, false, after))
  }

  function EncodeFields(fields: Fields, first: bool, after: string): string {
    match fields
    case NoFields => "}" + after
    case Field(key, value, rest) =>
      Comma(first) + Quoted(key, ":" + Encode(value, EncodeFields(rest, false, after)))
  }

  // ---------------------------------------------------------------- the reader

  /** The value at the front of a text and what follows it. */
  datatype Read<T> = Failed | Got(value: T, rest: string)

  function ReadDigits(soFar: nat, t: string): (r: Read<nat>)
    ensures r.Got? && |r.rest| <= |t|
    decreases |t|
  {
    if t == "" || !IsDigit(t[0]) then Got(soFar, t)
    else ReadDigits(10 * soFar + (t[0] as int - '0' as int), t[1..])
  }

  function ReadNumber(t: string): (r: Read<Json>)
    ensures r.Got? ==> |r.rest| < |t|
  {
    if t != "" && IsDigit(t[0]) then
      var n := ReadDigits(t[0] as int - '0' as int, t[1..]); Got(Int(n.value), n.rest)
    else if |t| >= 2 && t[0] == '-' && IsDigit(t[1]) then
      var n := ReadDigits(0, t[1..]); Got(Int(0 - n.value), n.rest)
    else Failed
  }

  /** Hexadecimal digits in lower case. */
  function FromHex(t: string): Option<nat> {
    if t == "" then Some(0)
    else
      var high, c := FromHex(t[..|t| - 1]), t[|t| - 1];
      if high == None then None
      else if IsDigit(c) then Some(16 * high.value + (c as int - '0' as int))
      else if 'a' <= c <= 'f' then Some(16 * high.value + (c as int - 'a' as int) + 10)
      else None
  }

  function ReadUnit(t: string): (r: Read<nat>)
    ensures r.Got? ==> |r.rest| < |t|
  {
    if |t| >= 6 && t[0] == '\\' && t[1] == 'u' && FromHex(t[2..6]).Some? then Got(FromHex(t[2..6]).value, t[6..])
    else Failed
  }

  /** One UTF-16 code unit, or a surrogate pair. */
  function ReadCoded(t: string): (r: Read<char>)
    ensures r.Got? ==> |r.rest| < |t|
  {
    var high := ReadUnit(t);
    if high.Failed? || 0xDC00 <= high.value < 0xE000 || high.value >= 0x10000 then Failed
    else if high.value < 0xD800 || high.value >= 0xE000 then Got(high.value as char, high.rest)
    else
      var low := ReadUnit(high.rest);
      if low.Failed? || low.value < 0xDC00 || low.value >= 0xE000 then Failed
      else Got((0x10000 + (high.value - 0xD800) * 1024 + (low.value - 0xDC00)) as char, low.rest)
  }

  /** One character of a string: itself if printable ASCII, else after a backslash. */
  function ReadChar(t: string): (r: Read<char>)
    ensures r.Got? ==> |r.rest| < |t|
  {
    if t == "" || t[0] == '\"' || !(' ' <= t[0] <= '~') then Failed
    else if t[0] != '\\' then Got(t[0], t[1..])
    else if |t| == 1 then Failed
    else match t[1]
      case '\"' => Got('\"', t[2..])
      case '\\' => Got('\\', t[2..])
      case 'n' => Got('\n', t[2..])
      case 'r' => Got('\r', t[2..])
      case 't' => Got('\t', t[2..])
      case 'f' => Got(0x0c as char, t[2..])
      case 'b' => Got(0x08 as char, t[2..])
      case _ => ReadCoded(t)
  }

  /** The rest of a string literal, up to its closing quote. */
  function ReadString(t: string): (r: Read<string>)
    ensures r.Got? ==> |r.rest| < |t|
    decreases |t|
  {
    if t != "" && t[0] == '\"' then Got("", t[1..])
    else
      var c := ReadChar(t);
      if c.Failed? then Failed
      else
        var s := ReadString(c.rest);
        if s.Failed? then Failed else Got([c.value] + s.value, s.rest)
  }

  function ReadValue(t: string): (r: Read<Json>)
    ensures r.Got? ==> |r.rest| < |t|
    decreases |t|, 2
  {
    if "null" <= t then Got(Null, t[4..])
    else if "true" <= t then Got(Bool(true), t[4..])
    else if "false" <= t then Got(Bool(false), t[5..])
    else if t != "" && t[0] == '\"' then
      var s := ReadString(t[1..]); if s.Failed? then Failed else Got(Str(s.value), s.rest)
    else if t != "" && t[0] == '[' then
      var items := ReadItems(t[1..], true); if items.Failed? then Failed else Got(Arr(items.value), items.rest)
    else if t != "" && t[0] == '{' then
      var fields := ReadFields(t[1..], true); if fields.Failed? then Failed else Got(Obj(fields.value), fields.rest)
    else ReadNumber(t)
  }

  /** What follows a comma; the first element has none. */
  function AfterComma(t: string, first: bool): Option<string> {
    if first then Some(t) else if t != "" && t[0] == ',' then Some(t[1..]) else None
  }

  function ReadItems(t: string, first: bool): (r: Read<Items>)
    ensures r.Got? ==> |r.rest| < |t|
    decreases |t|, 3
  {
    if t != "" && t[0] == ']' then Got(NoItems, t[1..])
    else
      var u := AfterComma(t, first);
      if u == None then Failed
      else
        var head := ReadValue(u.value);
        if head.Failed? then Failed
        else
          var tail := ReadItems(head.rest, false);
          if tail.Failed? then Failed else Got(Item(head.value, tail.value), tail.rest)
  }

  function ReadFields(t: string, first: bool): (r: Read<Fields>)
    ensures r.Got? ==> |r.rest| < |t|
    decreases |t|, 3
  {
    if t != "" && t[0] == '}' then Got(NoFields, t[1..])
    else
      var u := AfterComma(t, first);
      if u == None || u.value == "" || u.value[0] != '\"' then Failed
      else
        var key := ReadString(u.value[1..]);
        if key.Failed? || key.rest == "" || key.rest[0] != ':' then Failed
        else
          var value := ReadValue(key.rest[1..]);
          if value.Failed? then Failed
          else
            var rest := ReadFields(value.rest, false);
            if rest.Failed? then Failed else Got(Field(key.value, value.value, rest.value), rest.rest)
  }

  // ---------------------------------------------------------------- reading what was written

  lemma OneDigitRead(n: nat, x: string)
    ensures ReadDigits(n / 10, [Digit(n % 10)] + x) == ReadDigits(n, x)
  {
    assert ([Digit(n % 10)] + x)[1..] == x;
    assert 10 * (n / 10) + n % 10 == n;
  }

  lemma {:induction false} DigitsRead(n: nat, x: string)
    ensures ReadDigits(0, Digits(n) + x) == ReadDigits(n, x)
  {
    if n < 10 {
      assert (Digits(n) + x)[1..] == x;
    } else {
      var y := [Digit(n % 10)] + x;
      DigitsRead(n / 10, y);
      assert Digits(n) == Digits(n / 10) + [Digit(n % 10)];
      assert Digits(n) + x == Digits(n / 10) + y;
      OneDigitRead(n, x);
    }
  }

  lemma NumberRead(n: int, x: string)
    requires Stops(x)
    ensures ReadNumber(Number(n) + x) == Got(Int(n), x)
  {
    var m := if n < 0 then 0 - n else n;
    var t := Digits(m) + x;
    DigitsRead(m, x);
    assert ReadDigits(0, t) == ReadDigits(t[0] as int - '0' as int, t[1..]);
    if n < 0 {
      assert Number(n) + x == "-" + t;
      assert ("-" + t)[1..] == t;
    }
  }

  lemma {:induction false} HexRead(n: nat, width: nat)
    requires n < Power16(width)
    ensures FromHex(Hex(n, width)) == Some(n)
  {
    if width > 0 {
      var t := Hex(n, width);
      HexRead(n / 16, width - 1);
      assert t[..width - 1] == Hex(n / 16, width - 1) && t[width - 1] == HexDigit(n % 16);
    }
  }

  lemma UnitRead(n: nat, x: string)
    requires n < 0x10000
    ensures ReadUnit(Unit(n) + x) == Got(n, x)
  {
    var t := Unit(n) + x;
    assert Power16(4) == 0x10000;
    HexRead(n, 4);
    assert t[0] == '\\' && t[1] == 'u' && t[2..6] == Hex(n, 4) && t[6..] == x;
  }

  lemma WideRead(c: char, x: string)
    requires c as int >= 0x10000
    ensures ReadCoded(Escape(c) + x) == Got(c, x)
  {
    var over := c as int - 0x10000;
    var y := Unit(0xDC00 + over % 1024) + x;
    assert Escape(c) + x == Unit(0xD800 + over / 1024) + y;
    UnitRead(0xD800 + over / 1024, y);
    UnitRead(0xDC00 + over % 1024, x);
  }

  lemma CharRead(c: char, x: string)
    ensures ReadChar(Escape(c) + x) == Got(c, x)
  {
    var t := Escape(c) + x;
    if |Escape(c)| == 1 {
      assert t[0] == c && t[1..] == x;
    } else if |Escape(c)| == 2 {
      assert t[0] == '\\' && t[1] == Escape(c)[1] && t[2..] == x;
    } else {
      assert t[0] == '\\' && t[1] == 'u';
      if c as int >= 0x10000 { WideRead(c, x); } else { UnitRead(c as int, x); }
    }
  }

  lemma {:induction false} StringRead(s: string, x: string)
    ensures ReadString(Escaped(s, x)) == Got(s, x)
  {
    if s == "" {
      assert Escaped(s, x)[1..] == x;
    } else {
      StringRead(s[1..], x);
      CharRead(s[0], Escaped(s[1..], x));
      assert s == [s[0]] + s[1..];
    }
  }

  lemma ItemsStart(items: Items, first: bool, x: string)
    ensures var t := EncodeItems(items, first, x);
      t != "" && (items.NoItems? ==> t[0] == ']' && t[1..] == x) && (!first ==> Stops(t))
  {}

  lemma FieldsStart(fields: Fields, first: bool, x: string)
    ensures var t := EncodeFields(fields, first, x);
      t != "" && (fields.NoFields? ==> t[0] == '}' && t[1..] == x) && (!first ==> Stops(t))
  {}

  lemma ValueStart(j: Json, x: string)
    ensures Encode(j, x) != "" && Encode(j, x)[0] != ']'
  {}

  lemma CommaRead(first: bool, u: string)
    ensures AfterComma(Comma(first) + u, first) == Some(u)
  {
    if first {
      assert Comma(first) + u == u;
    } else {
      assert (Comma(first) + u)[1..] == u;
    }
  }

  lemma LiteralRead(j: Json, x: string)
    requires j.Null? || j.Bool?
    ensures ReadValue(Encode(j, x)) == Got(j, x)
  {
    var t := Encode(j, x);
    if j.Null? {
      assert t[4..] == x;
    } else {
      assert t[0] == if j.b then 't' else 'f';
      assert if j.b then "true" <= t && t[4..] == x else "false" <= t && t[5..] == x;
    }
  }

  lemma NumberFirst(n: int, x: string)
    requires Stops(x)
    ensures ReadValue(Number(n) + x) == Got(Int(n), x)
  {
    var t := Number(n) + x;
    assert t[0] == Number(n)[0];
    NumberRead(n, x);
  }

  lemma StringFirst(s: string, x: string)
    ensures ReadValue(Quoted(s, x)) == Got(Str(s), x)
  {
    var t := Quoted(s, x);
    StringRead(s, x);
    assert t[0] == '\"' && t[1..] == Escaped(s, x);
  }

  /** Every value is read back from its text, followed by any text that cannot extend a number. */
  lemma {:induction false} ValueRead(j: Json, x: string)
    requires Stops(x)
    ensures ReadValue(Encode(j, x)) == Got(j, x)
    decreases j
  {
    var t := Encode(j, x);
    match j {
      case Null => LiteralRead(j, x);
      case Bool(_) => LiteralRead(j, x);
      case Int(n) => NumberFirst(n, x);
      case Str(s) => StringFirst(s, x);
      case Arr(items) =>
        ItemsRead(items, true, x);
        assert t[1..] == EncodeItems(items, true, x);
      case Obj(fields) =>
        FieldsRead(fields, true, x);
        assert t[1..] == EncodeFields(fields, true, x);
    }
  }

  lemma {:induction false} ItemsRead(items: Items, first: bool, x: string)
    ensures ReadItems(EncodeItems(items, first, x), first) == Got(items, x)
    decreases items
  {
    var t := EncodeItems(items, first, x);
    ItemsStart(items, first, x);
    if items.Item? {
      var after := EncodeItems(items.tail, false, x);
      ItemsStart(items.tail, false, x);
      ValueStart(items.head, after);
      ValueRead(items.head, after);
      ItemsRead(items.tail, false, x);
      assert t == Comma(first) + Encode(items.head, after);
      CommaRead(first, Encode(items.head, after));
    }
  }

  lemma {:induction false} FieldsRead(fields: Fields, first: bool, x: string)
    ensures ReadFields(EncodeFields(fields, first, x), first) == Got(fields, x)
    decreases fields
  {
    var t := EncodeFields(fields, first, x);
    FieldsStart(fields, first, x);
    if fields.Field? {
      var after := EncodeFields(fields.rest, false, x);
      var valued := ":" + Encode(fields.value, after);
      FieldsStart(fields.rest, false, x);
      StringRead(fields.key, valued);
      ValueRead(fields.value, after);
      FieldsRead(fields.rest, false, x);
      assert t == Comma(first) + Quoted(fields.key, valued);
      CommaRead(first, Quoted(fields.key, valued));
      assert Quoted(fields.key, valued)[1..] == Escaped(fields.key, valued);
      assert valued[1..] == Encode(fields.value, after);
    }
  }

  /** Equal texts, each followed by text that cannot extend a number, come from equal values. */
  lemma SameValue(j: Json, k: Json, x: string, y: string)
    requires Encode(j, x) == Encode(k, y) && Stops(x) && Stops(y)
    ensures j == k && x == y
  {
    ValueRead(j, x);
    ValueRead(k, y);
  }

  /** Equal canonical texts, equal values. */
  lemma EncodeInjective(j: Json, k: Json)
    requires Encode(j, "") == Encode(k, "")
    ensures j == k
  {
    SameValue(j, k, "", "");
  }
}
