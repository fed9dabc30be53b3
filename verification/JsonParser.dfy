/**
  A reader for JSON texts, written from the grammar of RFC 8259 (sections 2 to 7) without
  insignificant whitespace, and the theorem that it reads every canonical text back as the value
  it was printed from. It shares nothing with the printer but the type of values.
 */
module JsonParser {
  import opened Json

  datatype Parsed<+T> = Failed | Got(value: T, rest: string)

  // ------------------------------------------------------------- strings

  /** The value of a hexadecimal digit of either case, or -1. */
  function HexValue(c: char): (n: int)
    ensures -1 <= n < 16
  {
    var code := c as int;
    if 0x30 <= code <= 0x39 then code - 0x30
    else if 0x41 <= code <= 0x46 then code - 0x41 + 10
    else if 0x61 <= code <= 0x66 then code - 0x61 + 10
    else -1
  }

  /** The number written by the first four characters, or -1. */
  function CodeUnit(s: string): (n: int)
    ensures -1 <= n < 0x10000
    ensures n >= 0 ==> |s| >= 4
  {
    if |s| < 4 || HexValue(s[0]) < 0 || HexValue(s[1]) < 0 || HexValue(s[2]) < 0 || HexValue(s[3]) < 0 then -1
    else HexValue(s[0]) * 0x1000 + HexValue(s[1]) * 0x100 + HexValue(s[2]) * 0x10 + HexValue(s[3])
  }

  /** The code point that a two-character escape with this letter stands for, or -1. */
  function EscapeMeaning(letter: char): (n: int)
    ensures -1 <= n < 0x80
  {
    match letter as int
    case 0x22 => 0x22  // quotation mark
    case 0x5C => 0x5C  // reverse solidus
    case 0x2F => 0x2F  // solidus
    case 0x62 => 0x08  // b: backspace
    case 0x66 => 0x0C  // f: form feed
    case 0x6E => 0x0A  // n: line feed
    case 0x72 => 0x0D  // r: carriage return
    case 0x74 => 0x09  // t: tab
    case _ => -1
  }

  /** A numeric escape: what follows the backslash and the `u`. Surrogates must come in pairs. */
  function ParseUnicode(s: string): (r: Parsed<char>)
    ensures r.Got? ==> |r.rest| < |s|
  {
    var unit := CodeUnit(s);
    if unit < 0 then Failed
    else if unit < 0xD800 || unit >= 0xE000 then Got(unit as char, s[4..])
    else if unit >= 0xDC00 || |s| < 6 || s[4] as int != 0x5C || s[5] as int != 0x75 then Failed
    else
      var low := CodeUnit(s[6..]);
      if low < 0xDC00 || low >= 0xE000 then Failed
      else Got((0x10000 + (unit - 0xD800) * 0x400 + (low - 0xDC00)) as char, s[10..])
  }

  /** One character of a string. */
  function ParseChar(s: string): (r: Parsed<char>)
    ensures r.Got? ==> |r.rest| < |s|
  {
    if s == [] || s[0] as int < 0x20 || s[0] as int == 0x22 then Failed
    else if s[0] as int != 0x5C then Got(s[0], s[1..])
    else if |s| < 2 then Failed
    else if s[1] as int == 0x75 then ParseUnicode(s[2..])
    else
      var meaning := EscapeMeaning(s[1]);
      if meaning < 0 then Failed else Got(meaning as char, s[2..])
  }

  /** The characters up to and past the closing quotation mark. */
  function ParseChars(s: string): (r: Parsed<string>)
    ensures r.Got? ==> |r.rest| < |s|
    decreases |s|
  {
    if s == [] then Failed
    else if s[0] as int == 0x22 then Got("", s[1..])
    else
      var first := ParseChar(s);
      if first.Failed? then Failed
      else
        var more := ParseChars(first.rest);
        if more.Failed? then Failed else Got([first.value] + more.value, more.rest)
  }

  function ParseString(s: string): (r: Parsed<string>)
    ensures r.Got? ==> |r.rest| < |s|
  {
    if s == [] || s[0] as int != 0x22 then Failed else ParseChars(s[1..])
  }

  // ------------------------------------------------------------- values

  /** How many characters of the number alphabet the text starts with. */
  function NumberSpan(s: string): (n: nat)
    ensures n <= |s|
    ensures forall i :: 0 <= i < n ==> NumberChar(s[i])
    ensures n < |s| ==> !NumberChar(s[n])
  {
    if s == [] || !NumberChar(s[0]) then 0 else 1 + NumberSpan(s[1..])
  }

  function ParseNumber(s: string): (r: Parsed<Json>)
    ensures r.Got? ==> |r.rest| < |s|
  {
    var n := NumberSpan(s);
    if NumberToken(s[..n]) then Got(Number(s[..n]), s[n..]) else Failed
  }

  function ParseLiteral(s: string, literal: string, v: Json): (r: Parsed<Json>)
    requires literal != []
    ensures r.Got? ==> |r.rest| < |s|
  {
    if literal <= s then Got(v, s[|literal|..]) else Failed
  }

  function ParseValue(s: string): (r: Parsed<Json>)
    ensures r.Got? ==> |r.rest| < |s|
    decreases |s|, 0
  {
    if s == [] then Failed
    else if s[0] == '\"' then
      var text := ParseString(s);
      if text.Failed? then Failed else Got(String(text.value), text.rest)
    else if s[0] == '[' then
      var items := ParseArray(s[1..]);
      if items.Failed? then Failed else Got(Array(items.value), items.rest)
    else if s[0] == '{' then
      var fields := ParseObject(s[1..]);
      if fields.Failed? then Failed else Got(Object(fields.value), fields.rest)
    else if s[0] == 'n' then ParseLiteral(s, "null", Null)
    else if s[0] == 't' then ParseLiteral(s, "true", Bool(true))
    else if s[0] == 'f' then ParseLiteral(s, "false", Bool(false))
    else ParseNumber(s)
  }

  /** What follows an opening bracket. */
  function ParseArray(s: string): (r: Parsed<seq<Json>>)
    ensures r.Got? ==> |r.rest| < |s|
    decreases |s|, 2
  {
    if s != [] && s[0] == ']' then Got([], s[1..]) else ParseItems(s)
  }

  /** One item or more, up to and past the closing bracket. */
  function ParseItems(s: string): (r: Parsed<seq<Json>>)
    ensures r.Got? ==> |r.rest| < |s|
    decreases |s|, 1
  {
    var first := ParseValue(s);
    if first.Failed? || first.rest == [] then Failed
    else if first.rest[0] == ']' then Got([first.value], first.rest[1..])
    else if first.rest[0] != ',' then Failed
    else
      var more := ParseItems(first.rest[1..]);
      if more.Failed? then Failed else Got([first.value] + more.value, more.rest)
  }

  /** What follows an opening brace. */
  function ParseObject(s: string): (r: Parsed<map<string, Json>>)
    ensures r.Got? ==> |r.rest| < |s|
    decreases |s|, 2
  {
    if s != [] && s[0] == '}' then Got(map[], s[1..]) else ParseFields(s)
  }

  /** A `name:value` pair. */
  function ParseField(s: string): (r: Parsed<(string, Json)>)
    ensures r.Got? ==> |r.rest| < |s|
    decreases |s|, 0
  {
    var name := ParseString(s);
    if name.Failed? || name.rest == [] || name.rest[0] != ':' then Failed
    else
      var value := ParseValue(name.rest[1..]);
      if value.Failed? then Failed else Got((name.value, value.value), value.rest)
  }

  /** One field or more, up to and past the closing brace; of repeated names the last one counts. */
  function ParseFields(s: string): (r: Parsed<map<string, Json>>)
    ensures r.Got? ==> |r.rest| < |s|
    decreases |s|, 1
  {
    var first := ParseField(s);
    if first.Failed? || first.rest == [] then Failed
    else
      var field := map[first.value.0 := first.value.1];
      if first.rest[0] == '}' then Got(field, first.rest[1..])
      else if first.rest[0] != ',' then Failed
      else
        var more := ParseFields(first.rest[1..]);
        if more.Failed? then Failed else Got(field + more.value, more.rest)
  }

  /** A whole text: one value and nothing after it. */
  function Parse(s: string): Parsed<Json> {
    var v := ParseValue(s);
    if v.Got? && v.rest == [] then v else Failed
  }

  // ------------------------------------------------------------- strings read back

  lemma HexReadsBack(n: nat)
    requires n < 16
    ensures HexValue(HexDigit(n)) == n
  {
    if n < 10 {
      assert HexDigit(n) as int == 0x30 + n;
    } else {
      assert HexDigit(n) as int == 0x61 + n - 10;
    }
  }

  lemma CodeUnitReadsBack(n: nat, s: string)
    requires n < 0x10000
    ensures CodeUnit(Hex4(n) + s) == n
  {
    HexReadsBack(n / 4096);
    HexReadsBack(n / 256 % 16);
    HexReadsBack(n / 16 % 16);
    HexReadsBack(n % 16);
    HexDigitsSum(n);
    var x := Hex4(n) + s;
    assert x[0] == HexDigit(n / 4096) && x[1] == HexDigit(n / 256 % 16);
    assert x[2] == HexDigit(n / 16 % 16) && x[3] == HexDigit(n % 16);
  }

  lemma SurrogatesReadBack(c: char)
    requires c as int >= 0x10000
    ensures 0x10000 + (HighSurrogate(c) - 0xD800) * 0x400 + (LowSurrogate(c) - 0xDC00) == c as int
  {
    var n := c as int - 0x10000;
    assert n == n / 0x400 * 0x400 + n % 0x400;
  }

  lemma PairReadsBack(c: char, s: string)
    requires c as int >= 0x10000
    ensures ParseUnicode(Hex4(HighSurrogate(c)) + ("\\u" + (Hex4(LowSurrogate(c)) + s))) == Got(c, s)
  {
    var low := Hex4(LowSurrogate(c)) + s;
    var tail := "\\u" + low;
    var x := Hex4(HighSurrogate(c)) + tail;
    CodeUnitReadsBack(HighSurrogate(c), tail);
    CodeUnitReadsBack(LowSurrogate(c), s);
    assert x[4] == '\\' && x[5] == 'u' && x[6..] == low && x[10..] == s;
    SurrogatesReadBack(c);
  }

  lemma UnicodeReadsBack(c: char, s: string)
    ensures |EscapedUnicode(c)| >= 2 && EscapedUnicode(c)[0] as int == 0x5C && EscapedUnicode(c)[1] as int == 0x75
    ensures ParseUnicode((EscapedUnicode(c) + s)[2..]) == Got(c, s)
  {
    if c as int < 0x10000 {
      assert (EscapedUnicode(c) + s)[2..] == Hex4(c as int) + s;
      CodeUnitReadsBack(c as int, s);
      assert (Hex4(c as int) + s)[4..] == s;
    } else {
      assert (EscapedUnicode(c) + s)[2..] == Hex4(HighSurrogate(c)) + ("\\u" + (Hex4(LowSurrogate(c)) + s));
      PairReadsBack(c, s);
    }
  }

  lemma ShortReadsBack(c: char)
    requires ShortEscape(c) != ' '
    ensures EscapeMeaning(ShortEscape(c)) == c as int && ShortEscape(c) as int != 0x75
  {
  }

  lemma CharReadsBack(style: Escaping, c: char, s: string)
    ensures EncodeChar(style, c) != [] && (EncodeChar(style, c) + s)[0] as int != 0x22
    ensures ParseChar(EncodeChar(style, c) + s) == Got(c, s)
  {
    var x := EncodeChar(style, c) + s;
    if ShortEscape(c) != ' ' {
      ShortReadsBack(c);
      assert x[0] == '\\' && x[1] == ShortEscape(c) && x[2..] == s;
    } else if Verbatim(style, c) {
      assert x[0] == c && x[1..] == s;
    } else {
      UnicodeReadsBack(c, s);
      assert x[0] as int == 0x5C && x[1] as int == 0x75;
    }
  }

  lemma {:induction false} CharsReadBack(style: Escaping, a: string, s: string)
    ensures ParseChars(EncodeChars(style, a) + ("\"" + s)) == Got(a, s)
    decreases |a|
  {
    if a == [] {
      assert EncodeChars(style, a) + ("\"" + s) == "\"" + s;
      assert ("\"" + s)[1..] == s;
    } else {
      var rest := EncodeChars(style, a[1..]) + ("\"" + s);
      Regroup([], EncodeChar(style, a[0]), EncodeChars(style, a[1..]), "\"" + s);
      assert EncodeChars(style, a) + ("\"" + s) == EncodeChar(style, a[0]) + rest;
      CharReadsBack(style, a[0], rest);
      CharsReadBack(style, a[1..], s);
      assert a == [a[0]] + a[1..];
    }
  }

  /** An encoded string reads back as itself, whatever follows it, in both styles. */
  lemma StringReadsBack(style: Escaping, a: string, s: string)
    ensures ParseString(EncodeString(style, a) + s) == Got(a, s)
  {
    var x := EncodeString(style, a) + s;
    Regroup("\"", EncodeChars(style, a), "\"", s);
    assert x[0] == '\"' && x[1..] == EncodeChars(style, a) + ("\"" + s);
    CharsReadBack(style, a, s);
  }

  // ------------------------------------------------------------- values read back

  lemma NumberReadsBack(text: NumberText, s: string)
    requires Delimited(s)
    ensures ParseNumber(text + s) == Got(Number(text), s)
  {
    var x := text + s;
    NumberEnd(text, s);
    assert NumberSpan(x) == |text|;
    assert x[..|text|] == text && x[|text|..] == s;
  }

  lemma LiteralReadsBack(literal: string, v: Json, s: string)
    requires literal != []
    ensures ParseLiteral(literal + s, literal, v) == Got(v, s)
  {
  }

  lemma {:induction false} ValueReadsBack(style: Escaping, v: Json, s: string)
    requires Delimited(s)
    ensures ParseValue(Canonical(style, v) + s) == Got(v, s)
    decreases v, 3, 0
  {
    CanonicalStart(style, v);
    HeadOfSum(Canonical(style, v), s);
    match v
    case Null => LiteralReadsBack("null", Null, s);
    case Bool(b) => LiteralReadsBack(if b then "true" else "false", v, s);
    case Number(text) => NumberReadsBack(text, s);
    case String(text) => StringReadsBack(style, text, s);
    case Array(items) => ArrayReadsBack(style, v, s);
    case Object(fields) => ObjectReadsBack(style, v, s);
  }

  lemma {:induction false} ArrayReadsBack(style: Escaping, v: Json, s: string)
    requires v.Array?
    ensures ParseValue(Canonical(style, v) + s) == Got(v, s)
    decreases v, 2, 0
  {
    var x := Canonical(style, v) + s;
    Regroup("[", CanonicalItems(style, v.items), "]", s);
    assert x[0] == '[' && x[1..] == CanonicalItems(style, v.items) + ("]" + s);
    ItemsHead(style, v.items, s);
    if v.items == [] {
      assert ("]" + s)[1..] == s;
    } else {
      ItemsReadBack(style, v.items, s);
    }
  }

  lemma AfterStarts(rest: string, more: bool, close: string, s: string)
    requires close == "]" || close == "}"
    ensures var x := After(rest, more, close, s);
      && Delimited(x) && x != [] && x[0] == (if more then ',' else close[0])
      && x[1..] == if more then rest + (close + s) else s
  {
  }

  lemma ItemsEnd(x: string, v: Json, s: string)
    requires ParseValue(x) == Got(v, "]" + s)
    ensures ParseItems(x) == Got([v], s)
  {
    assert ("]" + s)[1..] == s;
  }

  lemma ItemsGoOn(x: string, v: Json, rest: string, vs: seq<Json>, s: string)
    requires ParseValue(x) == Got(v, "," + rest) && ParseItems(rest) == Got(vs, s)
    ensures ParseItems(x) == Got([v] + vs, s)
  {
    assert ("," + rest)[1..] == rest;
  }

  lemma {:induction false} ItemsReadBack(style: Escaping, vs: seq<Json>, s: string)
    requires vs != []
    ensures ParseItems(CanonicalItems(style, vs) + ("]" + s)) == Got(vs, s)
    decreases vs, 1, 0
  {
    var x, tail := CanonicalItems(style, vs) + ("]" + s), CanonicalItems(style, vs[1..]);
    ItemsHead(style, vs, s);
    AfterStarts(tail, |vs| > 1, "]", s);
    ValueReadsBack(style, vs[0], After(tail, |vs| > 1, "]", s));
    assert vs == [vs[0]] + vs[1..];
    if |vs| > 1 {
      ItemsReadBack(style, vs[1..], s);
      ItemsGoOn(x, vs[0], tail + ("]" + s), vs[1..], s);
    } else {
      assert vs == [vs[0]];
      ItemsEnd(x, vs[0], s);
    }
  }

  lemma {:induction false} ObjectReadsBack(style: Escaping, v: Json, s: string)
    requires v.Object?
    ensures ParseValue(Canonical(style, v) + s) == Got(v, s)
    decreases v, 2, 0
  {
    var ks := SortedKeys(v.fields.Keys);
    BraceOpens(style, v, s, CanonicalFields(style, v, ks) + ("}" + s));
    FieldsHead(style, v, ks, s);
    assert Chosen(v, ks) == v.fields;
    if ks == [] {
      assert ("}" + s)[1..] == s;
    } else {
      FieldsReadBack(style, v, ks, s);
    }
  }

  lemma BraceOpens(style: Escaping, v: Json, s: string, inside: string)
    requires v.Object? && inside == CanonicalFields(style, v, SortedKeys(v.fields.Keys)) + ("}" + s)
    ensures Canonical(style, v) + s == "{" + inside
    ensures ("{" + inside)[0] == '{' && ("{" + inside)[1..] == inside
  {
    Regroup("{", CanonicalFields(style, v, SortedKeys(v.fields.Keys)), "}", s);
  }

  /** The fields of an object with the given names. */
  function Chosen(v: Json, ks: seq<string>): map<string, Json>
    requires v.Object? && forall k :: k in ks ==> k in v.fields
  {
    map k | k in ks :: v.fields[k]
  }

  lemma {:induction false} FieldReadsBack(style: Escaping, v: Json, k: string, s: string)
    requires v.Object? && k in v.fields && Delimited(s)
    ensures ParseField(CanonicalField(style, v, k) + s) == Got((k, v.fields[k]), s)
    decreases v, 0, 0
  {
    var value := Canonical(style, v.fields[k]) + s;
    Regroup(EncodeString(style, k), ":", Canonical(style, v.fields[k]), s);
    StringReadsBack(style, k, ":" + value);
    assert (":" + value)[0] == ':' && (":" + value)[1..] == value;
    ValueReadsBack(style, v.fields[k], s);
  }

  lemma FieldsEnd(x: string, k: string, v: Json, s: string)
    requires ParseField(x) == Got((k, v), "}" + s)
    ensures ParseFields(x) == Got(map[k := v], s)
  {
    assert ("}" + s)[1..] == s;
  }

  lemma FieldsGoOn(x: string, k: string, v: Json, rest: string, more: map<string, Json>, s: string)
    requires ParseField(x) == Got((k, v), "," + rest) && ParseFields(rest) == Got(more, s)
    ensures ParseFields(x) == Got(map[k := v] + more, s)
  {
    assert ("," + rest)[1..] == rest;
  }

  lemma ChosenStep(v: Json, ks: seq<string>)
    requires v.Object? && ks != [] && forall k :: k in ks ==> k in v.fields
    ensures Chosen(v, ks) == map[ks[0] := v.fields[ks[0]]] + Chosen(v, ks[1..])
  {
    assert ks == [ks[0]] + ks[1..];
  }

  lemma {:induction false} FieldsReadBack(style: Escaping, v: Json, ks: seq<string>, s: string)
    requires v.Object? && ks != [] && forall k :: k in ks ==> k in v.fields
    ensures ParseFields(CanonicalFields(style, v, ks) + ("}" + s)) == Got(Chosen(v, ks), s)
    decreases v, 1, |ks|
  {
    var x, tail := CanonicalFields(style, v, ks) + ("}" + s), CanonicalFields(style, v, ks[1..]);
    FieldsHead(style, v, ks, s);
    AfterStarts(tail, |ks| > 1, "}", s);
    FieldReadsBack(style, v, ks[0], After(tail, |ks| > 1, "}", s));
    ChosenStep(v, ks);
    if |ks| > 1 {
      FieldsReadBack(style, v, ks[1..], s);
      FieldsGoOn(x, ks[0], v.fields[ks[0]], tail + ("}" + s), Chosen(v, ks[1..]), s);
    } else {
      assert map[ks[0] := v.fields[ks[0]]] == Chosen(v, ks);
      FieldsEnd(x, ks[0], v.fields[ks[0]], s);
    }
  }

  /** Every canonical text reads back as the value it was printed from, for all nested values and both styles. */
  lemma CanonicalReadsBack(style: Escaping, v: Json)
    ensures Parse(Canonical(style, v)) == Got(v, [])
  {
    ValueReadsBack(style, v, []);
    assert Canonical(style, v) + [] == Canonical(style, v);
  }

  // ------------------------------------------------------------- no text is shorter

  /** The characters an ASCII text may have. */
  predicate Printable(style: Escaping, s: string) {
    style == Ascii ==> forall i :: 0 <= i < |s| ==> 0x20 <= s[i] as int <= 0x7E
  }

  lemma {:induction false} CharsArePrintable(style: Escaping, a: string)
    ensures Printable(style, EncodeChars(style, a))
    decreases |a|
  {
    if a != [] {
      CharsArePrintable(style, a[1..]);
      CharIsPrintable(style, a[0]);
    }
  }

  lemma HexIsPrintable(n: nat)
    requires n < 0x10000
    ensures forall i :: 0 <= i < 4 ==> 0x20 <= Hex4(n)[i] as int <= 0x7E
  {
  }

  lemma CharIsPrintable(style: Escaping, c: char)
    ensures Printable(style, EncodeChar(style, c))
  {
    if c as int < 0x10000 {
      HexIsPrintable(c as int);
    } else {
      HexIsPrintable(HighSurrogate(c));
      HexIsPrintable(LowSurrogate(c));
    }
  }

  lemma ShortestChar(style: Escaping, x: string)
    requires ParseChar(x).Got? && Printable(style, x)
    ensures |EncodeChar(style, ParseChar(x).value)| + |ParseChar(x).rest| <= |x|
  {
    var c := ParseChar(x).value;
    if x[0] as int == 0x5C && x[1] as int == 0x75 {
      assert c as int >= 0x10000 ==> |ParseChar(x).rest| + 12 == |x|;
      assert |EncodeChar(style, c)| <= if c as int < 0x10000 then 6 else 12;
    }
  }

  lemma {:induction false} ShortestChars(style: Escaping, x: string)
    requires ParseChars(x).Got? && Printable(style, x)
    ensures |EncodeChars(style, ParseChars(x).value)| + 1 + |ParseChars(x).rest| <= |x|
    decreases |x|
  {
    if x[0] as int == 0x22 {
    } else {
      var first := ParseChar(x);
      ShortestChar(style, x);
      RestIsSuffix(x);
      ShortestChars(style, first.rest);
      var more := ParseChars(first.rest).value;
      assert ([first.value] + more)[1..] == more;
    }
  }

  lemma RestIsSuffix(x: string)
    requires ParseChar(x).Got?
    ensures var rest := ParseChar(x).rest; |rest| <= |x| && rest == x[|x| - |rest|..]
  {
  }

  /**
    Of all texts that read back as a string (for the ASCII style, of all printable ASCII texts),
    the printed one, itself such a text, is the shortest: nothing is escaped that need not be, and
    by the short form where there is one.
   */
  lemma ShortestString(style: Escaping, x: string)
    requires ParseString(x).Got? && Printable(style, x)
    ensures |EncodeString(style, ParseString(x).value)| + |ParseString(x).rest| <= |x|
    ensures Printable(style, EncodeString(style, ParseString(x).value))
  {
    ShortestChars(style, x[1..]);
    CharsArePrintable(style, ParseString(x).value);
  }
}
