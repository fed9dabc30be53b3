/**
  JSON values and their canonical text: no insignificant whitespace, object keys in
  ascending code point order, strings escaped as in section 7 of RFC 8259.

  Two string encoders use the same layout: the edge verifier keeps non-ASCII characters
  (`Utf8`), the audit log and the policy service escape everything outside the printable
  ASCII range (`Ascii`). The main theorem, `CanonicalDeterminesValue`, says that equal
  canonical texts come from equal values, under either encoder.
 */
module Json {

  /** Number tokens are kept as their printed text; only the alphabet matters here. */
  predicate NumberChar(c: char) {
    '0' <= c <= '9' || c == '-' || c == '+' || c == '.' || c == 'e' || c == 'E'
  }

  predicate NumberToken(s: string) {
    && s != []
    && ('0' <= s[0] <= '9' || s[0] == '-')
    && forall i :: 0 <= i < |s| ==> NumberChar(s[i])
  }

  type NumberText = s: string | NumberToken(s) witness "0"

  datatype Json =
    | Null
    | Bool(b: bool)
    | Number(text: NumberText)
    | String(s: string)
    | Array(items: seq<Json>)
    | Object(fields: map<string, Json>)

  // ------------------------------------------------------------- key order

  /** Lexicographic order on strings by code point; a proper prefix comes first. */
  predicate Below(a: string, b: string) {
    if a == [] then true
    else if b == [] then false
    else a[0] < b[0] || (a[0] == b[0] && Below(a[1..], b[1..]))
  }

  /** The order told from the first difference: nothing left of `a`, or the smaller character. */
  lemma {:induction false} BelowExactly(a: string, b: string)
    ensures Below(a, b) <==>
            exists n :: 0 <= n <= |a| && n <= |b| && a[..n] == b[..n] && (n == |a| || (n < |b| && a[n] < b[n]))
  {
    if a != [] && b != [] && a[0] == b[0] {
      BelowExactly(a[1..], b[1..]);
      var t, u := a[1..], b[1..];
      if n :| 0 <= n <= |t| && n <= |u| && t[..n] == u[..n] && (n == |t| || (n < |u| && t[n] < u[n])) {
        assert a[..n + 1] == [a[0]] + t[..n] && b[..n + 1] == [b[0]] + u[..n];
        assert a[..n + 1] == b[..n + 1];
      }
      if n :| 0 <= n <= |a| && n <= |b| && a[..n] == b[..n] && (n == |a| || (n < |b| && a[n] < b[n])) {
        assert n > 0;
        assert t[..n - 1] == a[..n][1..] && u[..n - 1] == b[..n][1..];
        assert t[..n - 1] == u[..n - 1];
      }
    } else if Below(a, b) {
      assert a[..0] == b[..0];
    }
  }

  lemma {:induction false} BelowTotal(a: string, b: string)
    ensures Below(a, b) || Below(b, a)
  {
    if a != [] && b != [] && a[0] == b[0] {
      BelowTotal(a[1..], b[1..]);
    }
  }

  lemma {:induction false} BelowAntisymmetric(a: string, b: string)
    requires Below(a, b) && Below(b, a)
    ensures a == b
  {
    if a != [] && b != [] {
      BelowAntisymmetric(a[1..], b[1..]);
      assert a == [a[0]] + a[1..] && b == [b[0]] + b[1..];
    }
  }

  lemma {:induction false} BelowTransitive(a: string, b: string, c: string)
    requires Below(a, b) && Below(b, c)
    ensures Below(a, c)
  {
    if a != [] && b != [] && c != [] && a[0] == b[0] == c[0] {
      BelowTransitive(a[1..], b[1..], c[1..]);
    }
  }

  ghost predicate IsLeast(k: string, keys: set<string>) {
    k in keys && forall other :: other in keys ==> Below(k, other)
  }

  lemma {:induction false} LeastExists(keys: set<string>)
    requires keys != {}
    ensures exists k :: IsLeast(k, keys)
    decreases |keys|
  {
    var x :| x in keys;
    var rest := keys - {x};
    BelowTotal(x, x);
    if rest == {} {
      assert keys == {x};
      assert IsLeast(x, keys);
    } else {
      LeastExists(rest);
      var y :| IsLeast(y, rest);
      BelowTotal(x, y);
      if Below(x, y) {
        forall other | other in keys ensures Below(x, other) {
          if other != x { BelowTransitive(x, y, other); }
        }
        assert IsLeast(x, keys);
      } else {
        assert IsLeast(y, keys);
      }
    }
  }

  /** Strictly ascending, so without repetition. */
  ghost predicate Ascending(keys: seq<string>) {
    forall i, j :: 0 <= i < j < |keys| ==> keys[i] != keys[j] && Below(keys[i], keys[j])
  }

  /** The keys of an object in the order in which they are printed. */
  ghost function SortedKeys(keys: set<string>): (sorted: seq<string>)
    ensures Ascending(sorted)
    ensures forall k :: k in sorted <==> k in keys
    decreases |keys|
  {
    if keys == {} then []
    else
      LeastExists(keys);
      var k :| IsLeast(k, keys);
      var rest := SortedKeys(keys - {k});
      assert forall j :: 0 <= j < |rest| ==> rest[j] in keys - {k};
      [k] + rest
  }

  /** Sorting leaves no choice: the ascending enumeration of a key set is unique. */
  lemma {:induction false} AscendingUnique(xs: seq<string>, ys: seq<string>)
    requires Ascending(xs) && Ascending(ys)
    requires forall k :: k in xs <==> k in ys
    ensures xs == ys
  {
    assert |ys| > 0 ==> ys[0] in xs;
    if xs != [] {
      assert xs[0] in ys;
      if xs[0] != ys[0] {
        BelowAntisymmetric(xs[0], ys[0]);
        assert false;
      }
      forall k ensures k in xs[1..] <==> k in ys[1..] {
        assert k in xs <==> k == xs[0] || k in xs[1..];
        assert k in ys <==> k == ys[0] || k in ys[1..];
      }
      AscendingUnique(xs[1..], ys[1..]);
      assert xs == [xs[0]] + xs[1..] && ys == [ys[0]] + ys[1..];
    }
  }

  // ------------------------------------------------------------- strings

  datatype Escaping = Utf8 | Ascii

  function HexDigit(n: nat): (c: char)
    requires n < 16
    ensures n < 10 ==> '0' <= c <= '9'
    ensures n >= 10 ==> 'a' <= c <= 'f'
  {
    if n < 10 then '0' + n as char else 'a' + (n - 10) as char
  }

  /** Four lower-case hexadecimal digits. */
  function Hex4(n: nat): (s: string)
    requires n < 0x10000
    ensures |s| == 4
  {
    [HexDigit(n / 4096), HexDigit(n / 256 % 16), HexDigit(n / 16 % 16), HexDigit(n % 16)]
  }

  lemma HexDigitInjective(m: nat, n: nat)
    requires m < 16 && n < 16 && HexDigit(m) == HexDigit(n)
    ensures m == n
  {
    if m < 10 && n < 10 {
      assert (HexDigit(m) as int) == '0' as int + m;
      assert (HexDigit(n) as int) == '0' as int + n;
    } else if m >= 10 && n >= 10 {
      assert (HexDigit(m) as int) == 'a' as int + m - 10;
      assert (HexDigit(n) as int) == 'a' as int + n - 10;
    }
  }

  lemma HexDigitsSum(n: nat)
    requires n < 0x10000
    ensures n == 4096 * (n / 4096) + 256 * (n / 256 % 16) + 16 * (n / 16 % 16) + n % 16
  {
    assert n / 16 / 16 == n / 256 && n / 256 / 16 == n / 4096;
  }

  lemma Hex4Injective(m: nat, n: nat)
    requires m < 0x10000 && n < 0x10000 && Hex4(m) == Hex4(n)
    ensures m == n
  {
    HexDigitsSum(m);
    HexDigitsSum(n);
    assert Hex4(m)[0] == Hex4(n)[0] && Hex4(m)[1] == Hex4(n)[1];
    assert Hex4(m)[2] == Hex4(n)[2] && Hex4(m)[3] == Hex4(n)[3];
    HexDigitInjective(m / 4096, n / 4096);
    HexDigitInjective(m / 256 % 16, n / 256 % 16);
    HexDigitInjective(m / 16 % 16, n / 16 % 16);
    HexDigitInjective(m % 16, n % 16);
  }

  function HighSurrogate(c: char): (n: nat)
    requires c as int >= 0x10000
    ensures 0xD800 <= n < 0xDC00
  {
    0xD800 + (c as int - 0x10000) / 0x400
  }

  function LowSurrogate(c: char): (n: nat)
    requires c as int >= 0x10000
    ensures 0xDC00 <= n < 0xE000
  {
    0xDC00 + (c as int - 0x10000) % 0x400
  }

  function EscapedUnicode(c: char): string {
    if c as int < 0x10000
    then "\\u" + Hex4(c as int)
    else "\\u" + Hex4(HighSurrogate(c)) + "\\u" + Hex4(LowSurrogate(c))
  }

  /** The letter of a two-character escape, or a space when the character has none. */
  function ShortEscape(c: char): char {
    if c == '\"' then '\"'
    else if c == '\\' then '\\'
    else if c as int == 8 then 'b'
    else if c as int == 9 then 't'
    else if c as int == 10 then 'n'
    else if c as int == 12 then 'f'
    else if c as int == 13 then 'r'
    else ' '
  }

  predicate Verbatim(style: Escaping, c: char) {
    && ShortEscape(c) == ' '
    && c as int >= 0x20
    && (style == Ascii ==> c as int <= 0x7E)
  }

  function EncodeChar(style: Escaping, c: char): string {
    if ShortEscape(c) != ' ' then ['\\', ShortEscape(c)]
    else if Verbatim(style, c) then [c]
    else EscapedUnicode(c)
  }

  function EncodeChars(style: Escaping, s: string): string {
    if s == [] then [] else EncodeChar(style, s[0]) + EncodeChars(style, s[1..])
  }

  function EncodeString(style: Escaping, s: string): string {
    "\"" + EncodeChars(style, s) + "\""
  }

  lemma SurrogatesDetermineChar(c: char, d: char)
    requires c as int >= 0x10000 && d as int >= 0x10000
    requires HighSurrogate(c) == HighSurrogate(d) && LowSurrogate(c) == LowSurrogate(d)
    ensures c == d
  {
    var m, n := c as int - 0x10000, d as int - 0x10000;
    assert m / 0x400 == n / 0x400 && m % 0x400 == n % 0x400;
    assert m == n;
  }

  lemma UnicodeEscapeUnambiguous(c: char, d: char, s: string, t: string)
    requires EscapedUnicode(c) + s == EscapedUnicode(d) + t
    ensures c == d && s == t
  {
    var x, y := EscapedUnicode(c) + s, EscapedUnicode(d) + t;
    var m := if c as int < 0x10000 then c as int else HighSurrogate(c);
    var n := if d as int < 0x10000 then d as int else HighSurrogate(d);
    assert x[2..6] == Hex4(m) && y[2..6] == Hex4(n);
    Hex4Injective(m, n);
    if c as int >= 0x10000 {
      assert d as int >= 0x10000;
      assert x[8..12] == Hex4(LowSurrogate(c)) && y[8..12] == Hex4(LowSurrogate(d));
      Hex4Injective(LowSurrogate(c), LowSurrogate(d));
      SurrogatesDetermineChar(c, d);
    }
    assert c == d;
    assert s == x[|EscapedUnicode(c)|..] == t;
  }

  lemma CharUnambiguous(style: Escaping, c: char, d: char, s: string, t: string)
    requires EncodeChar(style, c) + s == EncodeChar(style, d) + t
    ensures c == d && s == t
  {
    var x, y := EncodeChar(style, c) + s, EncodeChar(style, d) + t;
    assert x[0] == y[0];
    if Verbatim(style, c) || Verbatim(style, d) {
      assert s == x[1..] && t == y[1..];
    } else {
      assert x[1] == y[1];
      if ShortEscape(c) != ' ' || ShortEscape(d) != ' ' {
        assert s == x[2..] && t == y[2..];
      } else {
        UnicodeEscapeUnambiguous(c, d, s, t);
      }
    }
  }

  // Rearranging concatenations; kept apart so that the proofs below see only the results.

  lemma Regroup(a: string, b: string, c: string, d: string)
    ensures a + b + c + d == a + (b + (c + d))
  {
  }

  lemma SplitAtLength(a: string, b: string, s: string, t: string)
    requires a + s == b + t && |a| == |b|
    ensures a == b && s == t
  {
    assert a == (a + s)[..|a|] && b == (b + t)[..|b|];
    assert s == (a + s)[|a|..] && t == (b + t)[|b|..];
  }

  lemma HeadOfSum(a: string, b: string)
    ensures a != [] ==> (a + b)[0] == a[0]
    ensures a == [] ==> a + b == b
  {
  }

  /** The closing quote is the first character exactly when the contents are empty. */
  lemma CharsHead(style: Escaping, a: string, s: string)
    ensures EncodeChars(style, a) + ("\"" + s) != []
    ensures (EncodeChars(style, a) + ("\"" + s))[0] == '\"' <==> a == []
  {
    HeadOfSum(EncodeChars(style, a), "\"" + s);
    if a != [] {
      HeadOfSum(EncodeChar(style, a[0]), EncodeChars(style, a[1..]));
    }
  }

  /** The closing quote delimits: encoded string contents never swallow it. */
  lemma {:induction false} CharsUnambiguous(style: Escaping, a: string, b: string, s: string, t: string)
    requires EncodeChars(style, a) + ("\"" + s) == EncodeChars(style, b) + ("\"" + t)
    ensures a == b && s == t
    decreases |a|
  {
    CharsHead(style, a, s);
    CharsHead(style, b, t);
    if a == [] {
      assert EncodeChars(style, a) + ("\"" + s) == "\"" + s;
      assert EncodeChars(style, b) + ("\"" + t) == "\"" + t;
      SplitAtLength("\"", "\"", s, t);
    } else {
      var restA, restB := EncodeChars(style, a[1..]) + ("\"" + s), EncodeChars(style, b[1..]) + ("\"" + t);
      Regroup([], EncodeChar(style, a[0]), EncodeChars(style, a[1..]), "\"" + s);
      Regroup([], EncodeChar(style, b[0]), EncodeChars(style, b[1..]), "\"" + t);
      assert EncodeChars(style, a) + ("\"" + s) == EncodeChar(style, a[0]) + restA;
      assert EncodeChars(style, b) + ("\"" + t) == EncodeChar(style, b[0]) + restB;
      CharUnambiguous(style, a[0], b[0], restA, restB);
      CharsUnambiguous(style, a[1..], b[1..], s, t);
      assert a == [a[0]] + a[1..] && b == [b[0]] + b[1..];
    }
  }

  lemma StringUnambiguous(style: Escaping, a: string, b: string, s: string, t: string)
    requires EncodeString(style, a) + s == EncodeString(style, b) + t
    ensures a == b && s == t
  {
    Regroup("\"", EncodeChars(style, a), "\"", s);
    Regroup("\"", EncodeChars(style, b), "\"", t);
    SplitAtLength("\"", "\"", EncodeChars(style, a) + ("\"" + s), EncodeChars(style, b) + ("\"" + t));
    CharsUnambiguous(style, a, b, s, t);
  }

  // ------------------------------------------------------------- canonical text

  ghost function Canonical(style: Escaping, v: Json): string
    decreases v, 2, 0
  {
    match v
    case Null => "null"
    case Bool(b) => if b then "true" else "false"
    case Number(text) => text
    case String(s) => EncodeString(style, s)
    case Array(items) => "[" + CanonicalItems(style, items) + "]"
    case Object(fields) => "{" + CanonicalFields(style, v, SortedKeys(fields.Keys)) + "}"
  }

  /** The items joined with commas. */
  ghost function CanonicalItems(style: Escaping, items: seq<Json>): string
    decreases items, 1, 0
  {
    if items == [] then ""
    else if |items| == 1 then Canonical(style, items[0])
    else Canonical(style, items[0]) + "," + CanonicalItems(style, items[1..])
  }

  ghost function CanonicalField(style: Escaping, v: Json, key: string): string
    requires v.Object? && key in v.fields
    decreases v, 0, 0
  {
    EncodeString(style, key) + ":" + Canonical(style, v.fields[key])
  }

  /** The `name:value` fields of an object, joined with commas in the given key order. */
  ghost function CanonicalFields(style: Escaping, v: Json, keys: seq<string>): string
    requires v.Object? && forall k :: k in keys ==> k in v.fields
    decreases v, 1, |keys|
  {
    if keys == [] then ""
    else if |keys| == 1 then CanonicalField(style, v, keys[0])
    else CanonicalField(style, v, keys[0]) + "," + CanonicalFields(style, v, keys[1..])
  }

  /** However the keys were enumerated before sorting, the text is the same. */
  lemma CanonicalIgnoresKeyOrder(style: Escaping, v: Json, keys: seq<string>)
    requires v.Object? && Ascending(keys)
    requires forall k :: k in keys <==> k in v.fields
    ensures Canonical(style, v) == "{" + CanonicalFields(style, v, keys) + "}"
  {
    AscendingUnique(keys, SortedKeys(v.fields.Keys));
  }

  // ------------------------------------------------------------- unambiguous prefixes

  /** What can follow a value inside a larger text: nothing, or one of `,` `]` `}`. */
  predicate Delimited(s: string) {
    s == [] || s[0] == ',' || s[0] == ']' || s[0] == '}'
  }

  /** The first character of a canonical text tells which kind of value follows. */
  predicate Starts(v: Json, c: char) {
    match v
    case Null => c == 'n'
    case Bool(b) => c == if b then 't' else 'f'
    case Number(_) => '0' <= c <= '9' || c == '-'
    case String(_) => c == '\"'
    case Array(_) => c == '['
    case Object(_) => c == '{'
  }

  lemma CanonicalStart(style: Escaping, v: Json)
    ensures Canonical(style, v) != [] && Starts(v, Canonical(style, v)[0])
  {
  }

  /** A number token ends at the first character outside its alphabet. */
  lemma NumberEnd(a: NumberText, s: string)
    requires Delimited(s)
    ensures forall i :: 0 <= i < |a| ==> NumberChar((a + s)[i])
    ensures s != [] ==> !NumberChar((a + s)[|a|])
  {
  }

  lemma NumberUnambiguous(a: NumberText, b: NumberText, s: string, t: string)
    requires Delimited(s) && Delimited(t) && a + s == b + t
    ensures a == b && s == t
  {
    NumberEnd(a, s);
    NumberEnd(b, t);
    assert |a + s| == |a| + |s| && |b + t| == |b| + |t|;
    assert |a| == |b|;
    SplitAtLength(a, b, s, t);
  }

  lemma {:induction false} CanonicalUnambiguous(style: Escaping, v: Json, w: Json, s: string, t: string)
    requires Delimited(s) && Delimited(t)
    requires Canonical(style, v) + s == Canonical(style, w) + t
    ensures v == w && s == t
    decreases v, 3, 0
  {
    CanonicalStart(style, v);
    CanonicalStart(style, w);
    HeadOfSum(Canonical(style, v), s);
    HeadOfSum(Canonical(style, w), t);
    match v
    case Null => SplitAtLength("null", "null", s, t);
    case Bool(b) => SplitAtLength(Canonical(style, v), Canonical(style, w), s, t);
    case Number(text) => NumberUnambiguous(text, w.text, s, t);
    case String(str) => StringUnambiguous(style, str, w.s, s, t);
    case Array(items) => ArrayUnambiguous(style, v, w, s, t);
    case Object(fields) => ObjectUnambiguous(style, v, w, s, t);
  }

  lemma {:induction false} ArrayUnambiguous(style: Escaping, v: Json, w: Json, s: string, t: string)
    requires v.Array? && w.Array?
    requires Canonical(style, v) + s == Canonical(style, w) + t
    ensures v == w && s == t
    decreases v, 2, 0
  {
    Regroup("[", CanonicalItems(style, v.items), "]", s);
    Regroup("[", CanonicalItems(style, w.items), "]", t);
    SplitAtLength("[", "[", CanonicalItems(style, v.items) + ("]" + s), CanonicalItems(style, w.items) + ("]" + t));
    ItemsUnambiguous(style, v.items, w.items, s, t);
  }

  lemma {:induction false} ObjectUnambiguous(style: Escaping, v: Json, w: Json, s: string, t: string)
    requires v.Object? && w.Object?
    requires Canonical(style, v) + s == Canonical(style, w) + t
    ensures v == w && s == t
    decreases v, 2, 0
  {
    var ks, ls := SortedKeys(v.fields.Keys), SortedKeys(w.fields.Keys);
    Regroup("{", CanonicalFields(style, v, ks), "}", s);
    Regroup("{", CanonicalFields(style, w, ls), "}", t);
    SplitAtLength("{", "{", CanonicalFields(style, v, ks) + ("}" + s), CanonicalFields(style, w, ls) + ("}" + t));
    FieldsUnambiguous(style, v, w, ks, ls, s, t);
    assert v.fields.Keys == w.fields.Keys;
    assert v.fields == w.fields;
  }

  /** What is left of a joined list after its first element, up to and past the closing bracket. */
  ghost function After(rest: string, more: bool, close: string, s: string): string {
    if more then "," + (rest + (close + s)) else close + s
  }

  lemma AfterUnambiguous(
    rest: string, more: bool, close: string, s: string, rest': string, more': bool, t: string)
    requires close == "]" || close == "}"
    requires After(rest, more, close, s) == After(rest', more', close, t)
    ensures more == more'
    ensures more ==> rest + (close + s) == rest' + (close + t)
    ensures !more ==> s == t
  {
    assert After(rest, more, close, s)[0] == After(rest', more', close, t)[0];
    if more {
      SplitAtLength(",", ",", rest + (close + s), rest' + (close + t));
    } else {
      SplitAtLength(close, close, s, t);
    }
  }

  lemma ItemsHead(style: Escaping, vs: seq<Json>, s: string)
    ensures CanonicalItems(style, vs) + ("]" + s) != []
    ensures (CanonicalItems(style, vs) + ("]" + s))[0] == ']' <==> vs == []
    ensures vs == [] ==> CanonicalItems(style, vs) + ("]" + s) == "]" + s
    ensures vs != [] ==>
      CanonicalItems(style, vs) + ("]" + s) ==
      Canonical(style, vs[0]) + After(CanonicalItems(style, vs[1..]), |vs| > 1, "]", s)
  {
    HeadOfSum(CanonicalItems(style, vs), "]" + s);
    if vs != [] {
      CanonicalStart(style, vs[0]);
      HeadOfSum(Canonical(style, vs[0]), "," + CanonicalItems(style, vs[1..]));
      Regroup(Canonical(style, vs[0]), ",", CanonicalItems(style, vs[1..]), "]" + s);
    }
  }

  lemma {:induction false} ItemsUnambiguous(style: Escaping, vs: seq<Json>, ws: seq<Json>, s: string, t: string)
    requires CanonicalItems(style, vs) + ("]" + s) == CanonicalItems(style, ws) + ("]" + t)
    ensures vs == ws && s == t
    decreases vs, 1, 0
  {
    ItemsHead(style, vs, s);
    ItemsHead(style, ws, t);
    if vs == [] {
      SplitAtLength("]", "]", s, t);
    } else {
      var tailV, tailW := CanonicalItems(style, vs[1..]), CanonicalItems(style, ws[1..]);
      CanonicalUnambiguous(style, vs[0], ws[0], After(tailV, |vs| > 1, "]", s), After(tailW, |ws| > 1, "]", t));
      AfterUnambiguous(tailV, |vs| > 1, "]", s, tailW, |ws| > 1, t);
      assert vs == [vs[0]] + vs[1..] && ws == [ws[0]] + ws[1..];
      if |vs| > 1 {
        ItemsUnambiguous(style, vs[1..], ws[1..], s, t);
      }
    }
  }

  lemma {:induction false} FieldUnambiguous(style: Escaping, v: Json, w: Json, k: string, l: string, s: string, t: string)
    requires v.Object? && w.Object? && k in v.fields && l in w.fields
    requires Delimited(s) && Delimited(t)
    requires CanonicalField(style, v, k) + s == CanonicalField(style, w, l) + t
    ensures k == l && v.fields[k] == w.fields[l] && s == t
    decreases v, 0, 0
  {
    var valueV, valueW := Canonical(style, v.fields[k]) + s, Canonical(style, w.fields[l]) + t;
    Regroup(EncodeString(style, k), ":", Canonical(style, v.fields[k]), s);
    Regroup(EncodeString(style, l), ":", Canonical(style, w.fields[l]), t);
    StringUnambiguous(style, k, l, ":" + valueV, ":" + valueW);
    SplitAtLength(":", ":", valueV, valueW);
    CanonicalUnambiguous(style, v.fields[k], w.fields[l], s, t);
  }

  lemma FieldsHead(style: Escaping, v: Json, ks: seq<string>, s: string)
    requires v.Object? && forall k :: k in ks ==> k in v.fields
    ensures CanonicalFields(style, v, ks) + ("}" + s) != []
    ensures (CanonicalFields(style, v, ks) + ("}" + s))[0] == '}' <==> ks == []
    ensures ks == [] ==> CanonicalFields(style, v, ks) + ("}" + s) == "}" + s
    ensures ks != [] ==>
      CanonicalFields(style, v, ks) + ("}" + s) ==
      CanonicalField(style, v, ks[0]) + After(CanonicalFields(style, v, ks[1..]), |ks| > 1, "}", s)
  {
    HeadOfSum(CanonicalFields(style, v, ks), "}" + s);
    if ks != [] {
      var field := CanonicalField(style, v, ks[0]);
      assert field[0] == '\"';
      HeadOfSum(field, "," + CanonicalFields(style, v, ks[1..]));
      Regroup(field, ",", CanonicalFields(style, v, ks[1..]), "}" + s);
    }
  }

  lemma {:induction false} FieldsUnambiguous(
    style: Escaping, v: Json, w: Json, ks: seq<string>, ls: seq<string>, s: string, t: string)
    requires v.Object? && w.Object?
    requires forall k :: k in ks ==> k in v.fields
    requires forall l :: l in ls ==> l in w.fields
    requires CanonicalFields(style, v, ks) + ("}" + s) == CanonicalFields(style, w, ls) + ("}" + t)
    ensures ks == ls && s == t
    ensures forall k :: k in ks ==> v.fields[k] == w.fields[k]
    decreases v, 1, |ks|
  {
    FieldsHead(style, v, ks, s);
    FieldsHead(style, w, ls, t);
    if ks == [] {
      SplitAtLength("}", "}", s, t);
    } else {
      var tailV, tailW := CanonicalFields(style, v, ks[1..]), CanonicalFields(style, w, ls[1..]);
      FieldUnambiguous(style, v, w, ks[0], ls[0], After(tailV, |ks| > 1, "}", s), After(tailW, |ls| > 1, "}", t));
      AfterUnambiguous(tailV, |ks| > 1, "}", s, tailW, |ls| > 1, t);
      assert ks == [ks[0]] + ks[1..] && ls == [ls[0]] + ls[1..];
      if |ks| > 1 {
        FieldsUnambiguous(style, v, w, ks[1..], ls[1..], s, t);
      }
    }
  }

  /** Equal canonical texts come from equal values, for all nested values. */
  lemma CanonicalDeterminesValue(style: Escaping, v: Json, w: Json)
    ensures Canonical(style, v) == Canonical(style, w) <==> v == w
  {
    if Canonical(style, v) == Canonical(style, w) {
      assert Canonical(style, v) + [] == Canonical(style, w) + [];
      CanonicalUnambiguous(style, v, w, [], []);
    }
  }
}
