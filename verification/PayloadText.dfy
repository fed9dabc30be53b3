/**
  What the payload estimates measure. The Rust estimate of a payload is exactly the UTF-8 length of
  its canonical text without escapes, plus one byte per container that is not empty; the Python
  estimate leaves the separators out. Printer and budget are separate code, so this ties down the
  weight of every kind of value.
 */
module PayloadText {
  import opened Json
  import opened PayloadBudget

  // ------------------------------------------------------------- bytes of a text

  lemma {:induction false} BytesAdd(a: string, b: string)
    ensures TextBytes(a + b) == TextBytes(a) + TextBytes(b)
  {
    if a == [] {
      assert a + b == b;
    } else {
      assert (a + b)[0] == a[0] && (a + b)[1..] == a[1..] + b;
      BytesAdd(a[1..], b);
    }
  }

  lemma OneByte(c: char)
    requires c as int < 0x80
    ensures TextBytes([c]) == 1
  {
    assert [c][1..] == [];
  }

  lemma {:induction false} AsciiBytes(s: string)
    requires forall i :: 0 <= i < |s| ==> s[i] as int < 0x80
    ensures TextBytes(s) == |s|
  {
    if s != [] { AsciiBytes(s[1..]); }
  }

  /** The bytes that escaping one character adds. */
  function EscapeOf(c: char): (n: nat)
  {
    EscapedIsAscii(c);
    TextBytes(EncodeChar(Utf8, c)) - Utf8Length(c)
  }

  lemma EscapedIsAscii(c: char)
    ensures TextBytes(EncodeChar(Utf8, c)) >= Utf8Length(c)
    ensures Verbatim(Utf8, c) ==> TextBytes(EncodeChar(Utf8, c)) == Utf8Length(c)
  {
    var text := EncodeChar(Utf8, c);
    if Verbatim(Utf8, c) {
      assert text[1..] == [];
    } else {
      assert c as int < 0x80;
      AsciiBytes(text);
    }
  }

  /** The bytes that escaping adds to a text. */
  function Escapes(s: string): nat {
    if s == [] then 0 else EscapeOf(s[0]) + Escapes(s[1..])
  }

  lemma {:induction false} EncodedBytes(s: string)
    ensures TextBytes(EncodeChars(Utf8, s)) == TextBytes(s) + Escapes(s)
  {
    if s != [] {
      EncodedBytes(s[1..]);
      EscapedIsAscii(s[0]);
      BytesAdd(EncodeChar(Utf8, s[0]), EncodeChars(Utf8, s[1..]));
    }
  }

  lemma StringBytes(s: string)
    ensures TextBytes(EncodeString(Utf8, s)) == TextBytes(s) + Escapes(s) + 2
  {
    EncodedBytes(s);
    OneByte('\"');
    BytesAdd("\"" + EncodeChars(Utf8, s), "\"");
    BytesAdd("\"", EncodeChars(Utf8, s));
  }

  function PowerOfTwo(n: nat): nat { if n == 0 then 1 else 2 * PowerOfTwo(n - 1) }

  /** How many code points fit into `n` bytes of UTF-8: 7 bits into one, 5n + 1 bits into more. */
  function Capacity(n: nat): nat { PowerOfTwo(if n == 1 then 7 else 5 * n + 1) }

  /** The length of a character is the least number of bytes that its code point fits into. */
  lemma Utf8LengthIsLeast(c: char)
    ensures (c as int) < Capacity(Utf8Length(c))
    ensures Utf8Length(c) > 1 ==> Capacity(Utf8Length(c) - 1) <= c as int
  {
    Powers();
  }

  lemma Powers()
    ensures Capacity(1) == 0x80 && Capacity(2) == 0x800 && Capacity(3) == 0x10000 && Capacity(4) == 0x200000
  {
    assert PowerOfTwo(7) == 0x80;
    assert PowerOfTwo(11) == 16 * PowerOfTwo(7);
    assert PowerOfTwo(16) == 32 * PowerOfTwo(11);
    assert PowerOfTwo(21) == 32 * PowerOfTwo(16);
  }

  // ------------------------------------------------------------- weights of one node

  /** The bytes that escaping adds to a set of keys. */
  ghost function KeyEscapes(keys: set<string>): nat
    decreases |keys|
  {
    if keys == {} then 0
    else
      var k :| k in keys;
      Escapes(k) + KeyEscapes(keys - {k})
  }

  lemma {:induction false} KeyEscapesRemove(keys: set<string>, k: string)
    requires k in keys
    ensures KeyEscapes(keys) == Escapes(k) + KeyEscapes(keys - {k})
    decreases |keys|
  {
    var x :| x in keys && KeyEscapes(keys) == Escapes(x) + KeyEscapes(keys - {x});
    if x != k {
      KeyEscapesRemove(keys - {x}, k);
      KeyEscapesRemove(keys - {k}, x);
      assert keys - {x} - {k} == keys - {k} - {x};
    }
  }

  /** What escaping adds to the texts of one node. */
  ghost function EscapeBytes(v: Json): nat {
    match v
    case String(s) => Escapes(s)
    case Object(fields) => KeyEscapes(fields.Keys)
    case _ => 0
  }

  /** One for an array or object that is not empty: it has one separator less than elements. */
  ghost function Container(v: Json): nat {
    match v
    case Array(items) => if items == [] then 0 else 1
    case Object(fields) => if fields.Keys == {} then 0 else 1
    case _ => 0
  }

  ghost function Printed(v: Json): nat { RustWeight(v) + EscapeBytes(v) }

  // ------------------------------------------------------------- sums

  lemma {:induction false} TotalItemsHead(weight: Json -> nat, items: seq<Json>)
    requires items != []
    ensures TotalItems(weight, items) == Total(weight, items[0]) + TotalItems(weight, items[1..])
    decreases |items|
  {
    var init, last := items[..|items| - 1], items[|items| - 1];
    if |items| == 1 {
      assert init == [] && items[1..] == [];
    } else {
      TotalItemsHead(weight, init);
      assert items[1..][..|items| - 2] == init[1..] && items[1..][|items| - 2] == last;
    }
  }

  lemma TotalOf(weight: Json -> nat, v: Json)
    ensures v.Array? ==> Total(weight, v) == weight(v) + TotalItems(weight, v.items)
    ensures v.Object? ==> Total(weight, v) == weight(v) + TotalFields(weight, v, v.fields.Keys)
    ensures !v.Array? && !v.Object? ==> Total(weight, v) == weight(v)
  {
  }

  ghost function Names(ks: seq<string>): set<string> { set k | k in ks }

  lemma NamesSplit(ks: seq<string>)
    requires ks != [] && Ascending(ks)
    ensures ks[0] in Names(ks) && Names(ks) - {ks[0]} == Names(ks[1..]) && |Names(ks)| == 1 + |Names(ks[1..])|
    ensures Ascending(ks[1..])
  {
    assert ks == [ks[0]] + ks[1..];
    assert forall j :: 1 <= j < |ks| ==> ks[0] != ks[j];
    assert Names(ks) == {ks[0]} + Names(ks[1..]);
  }

  // ------------------------------------------------------------- the text of a value

  /** The canonical text, and one byte per container that is not empty, are the weights of all nodes. */
  lemma {:induction false} TextIsTotal(v: Json)
    ensures TextBytes(Canonical(Utf8, v)) + Total(Container, v) == Total(Printed, v)
    decreases v, 2, 0
  {
    TotalOf(Container, v);
    TotalOf(Printed, v);
    match v
    case Null => AsciiBytes("null");
    case Bool(b) => AsciiBytes(if b then "true" else "false");
    case Number(text) => AsciiBytes(text);
    case String(s) => StringBytes(s);
    case Array(items) =>
      ItemsAreTotal(items);
      Bracketed("[", CanonicalItems(Utf8, items), "]");
    case Object(fields) =>
      var ks := SortedKeys(fields.Keys);
      assert Names(ks) == fields.Keys;
      assert ks == [] <==> fields.Keys == {};
      FieldsAreTotal(v, ks);
      Bracketed("{", CanonicalFields(Utf8, v, ks), "}");
  }

  lemma Bracketed(open: string, text: string, close: string)
    requires |open| == 1 && |close| == 1 && open[0] as int < 0x80 && close[0] as int < 0x80
    ensures TextBytes(open + text + close) == TextBytes(text) + 2
  {
    BytesAdd(open + text, close);
    BytesAdd(open, text);
    AsciiBytes(open);
    AsciiBytes(close);
  }

  lemma {:induction false} ItemsAreTotal(items: seq<Json>)
    ensures TextBytes(CanonicalItems(Utf8, items)) + TotalItems(Container, items) + (if items == [] then 0 else 1)
         == TotalItems(Printed, items) + |items|
    decreases items, 1, 0
  {
    if items != [] {
      TextIsTotal(items[0]);
      TotalItemsHead(Container, items);
      TotalItemsHead(Printed, items);
      if |items| == 1 {
        assert items[1..] == [];
      } else {
        ItemsAreTotal(items[1..]);
        Joined(Canonical(Utf8, items[0]), CanonicalItems(Utf8, items[1..]));
      }
    }
  }

  lemma Joined(first: string, rest: string)
    ensures TextBytes(first + "," + rest) == TextBytes(first) + 1 + TextBytes(rest)
  {
    BytesAdd(first + ",", rest);
    BytesAdd(first, ",");
    AsciiBytes(",");
  }

  lemma FieldBytes(v: Json, k: string)
    requires v.Object? && k in v.fields
    ensures TextBytes(CanonicalField(Utf8, v, k))
         == TextBytes(k) + Escapes(k) + 3 + TextBytes(Canonical(Utf8, v.fields[k]))
  {
    StringBytes(k);
    BytesAdd(EncodeString(Utf8, k) + ":", Canonical(Utf8, v.fields[k]));
    BytesAdd(EncodeString(Utf8, k), ":");
    AsciiBytes(":");
  }

  lemma {:induction false} FieldsAreTotal(v: Json, ks: seq<string>)
    requires v.Object? && Ascending(ks) && forall k :: k in ks ==> k in v.fields
    ensures TextBytes(CanonicalFields(Utf8, v, ks)) + TotalFields(Container, v, Names(ks)) + (if ks == [] then 0 else 1)
         == TotalFields(Printed, v, Names(ks)) + KeyBytes(Names(ks), 3) + |Names(ks)| + KeyEscapes(Names(ks))
    decreases v, 1, |ks|
  {
    if ks != [] {
      var k, names := ks[0], Names(ks);
      TextIsTotal(v.fields[k]);
      FieldBytes(v, k);
      NamesSplit(ks);
      TotalFieldsRemove(Container, v, names, k);
      TotalFieldsRemove(Printed, v, names, k);
      KeyBytesRemove(names, k, 3);
      KeyEscapesRemove(names, k);
      FieldsAreTotal(v, ks[1..]);
      if |ks| == 1 {
        assert ks[1..] == [];
      } else {
        Joined(CanonicalField(Utf8, v, k), CanonicalFields(Utf8, v, ks[1..]));
      }
    }
  }

  /**
    The Rust estimate and the bytes of all escapes together are the length of the canonical text
    in UTF-8 and one byte per array or object that is not empty, for every payload.
   */
  lemma RustEstimateMeasuresText(payload: Json)
    ensures Total(RustWeight, payload) + Total(EscapeBytes, payload) ==
            TextBytes(Canonical(Utf8, payload)) + Total(Container, payload)
  {
    TextIsTotal(payload);
    TotalAdds(RustWeight, EscapeBytes, Printed, payload);
  }

  /** So does the Python estimate, short of one byte per array element and two per object field. */
  lemma PythonEstimateMeasuresText(payload: Json)
    ensures Total(PythonWeight, payload) + Total(Surcharge, payload) + Total(EscapeBytes, payload) ==
            TextBytes(Canonical(Utf8, payload)) + Total(Container, payload)
  {
    RustEstimateMeasuresText(payload);
    RustTotalSplits(payload);
  }
}
