/**
  The command payload budget: an explicit-stack traversal with early exit, in the
  Python gate and in the Rust edge verifier. Both loops are proved to answer exactly the
  question asked of the whole tree, and a payload inside the Rust budget is shown to be
  inside the Python one.
 */
module PayloadBudget {
  import opened Json

  const MAX_DEPTH := 32
  const MAX_NODES := 2_048
  const MAX_BYTES := 65_536
  const USIZE_MAX := 0xFFFF_FFFF_FFFF_FFFF

  // ------------------------------------------------------------- sizes of one node

  /** Bytes of a character in UTF-8. */
  function Utf8Length(c: char): (n: nat)
    ensures 1 <= n <= 4
  {
    if c as int < 0x80 then 1
    else if c as int < 0x800 then 2
    else if c as int < 0x10000 then 3
    else 4
  }

  function TextBytes(s: string): nat {
    if s == [] then 0 else Utf8Length(s[0]) + TextBytes(s[1..])
  }

  /** Estimate for a value without its children or keys, as the Python gate counts it. */
  function EstimatedBytes(v: Json): nat {
    match v
    case Null => 4
    case Bool(b) => if b then 4 else 5
    case Number(text) => |text|
    case String(s) => TextBytes(s) + 2
    case Array(_) => 2
    case Object(_) => 2
  }

  /** Sum of `TextBytes(k) + perKey` over a set of keys. */
  ghost function KeyBytes(keys: set<string>, perKey: nat): nat
    decreases |keys|
  {
    if keys == {} then 0
    else
      var k :| k in keys;
      TextBytes(k) + perKey + KeyBytes(keys - {k}, perKey)
  }

  lemma {:induction false} KeyBytesRemove(keys: set<string>, k: string, perKey: nat)
    requires k in keys
    ensures KeyBytes(keys, perKey) == TextBytes(k) + perKey + KeyBytes(keys - {k}, perKey)
    decreases |keys|
  {
    var x :| x in keys && KeyBytes(keys, perKey) == TextBytes(x) + perKey + KeyBytes(keys - {x}, perKey);
    if x != k {
      KeyBytesRemove(keys - {x}, k, perKey);
      KeyBytesRemove(keys - {k}, x, perKey);
      assert keys - {x} - {k} == keys - {k} - {x};
    }
  }

  lemma {:induction false} KeyBytesGrow(keys: set<string>, low: nat, high: nat)
    requires low <= high
    ensures KeyBytes(keys, low) + |keys| * (high - low) == KeyBytes(keys, high)
    decreases |keys|
  {
    if keys != {} {
      var k :| k in keys;
      KeyBytesRemove(keys, k, low);
      KeyBytesRemove(keys, k, high);
      KeyBytesGrow(keys - {k}, low, high);
      assert |keys| * (high - low) == (|keys - {k}| + 1) * (high - low);
    }
  }

  /** What the Python gate charges to one node: the estimate plus two bytes and the text per key. */
  ghost function PythonWeight(v: Json): nat {
    EstimatedBytes(v) + if v.Object? then KeyBytes(v.fields.Keys, 2) else 0
  }

  /** What the Rust verifier charges to one node. */
  ghost function RustWeight(v: Json): nat {
    match v
    case Array(items) => |items| + 2
    case Object(fields) => KeyBytes(fields.Keys, 3) + |fields| + 2
    case _ => EstimatedBytes(v)
  }

  /** What Rust charges on top: a byte per array element, two per object field. */
  ghost function Surcharge(v: Json): nat {
    match v
    case Array(items) => |items|
    case Object(fields) => 2 * |fields|
    case _ => 0
  }

  lemma RustWeightSplits(v: Json)
    ensures PythonWeight(v) + Surcharge(v) == RustWeight(v)
  {
    if v.Object? {
      KeyBytesGrow(v.fields.Keys, 2, 3);
    }
  }

  // ------------------------------------------------------------- sizes of a whole tree

  /** Sum of `weight` over every node of a tree. */
  ghost function Total(weight: Json -> nat, v: Json): nat
    decreases v, 2, 0
  {
    weight(v) + Below(weight, v)
  }

  /** The share of a node's descendants. */
  ghost function Below(weight: Json -> nat, v: Json): nat
    decreases v, 1, 0
  {
    match v
    case Array(items) => TotalItems(weight, items)
    case Object(fields) => TotalFields(weight, v, fields.Keys)
    case _ => 0
  }

  ghost function TotalItems(weight: Json -> nat, items: seq<Json>): nat
    decreases items, 0, 0
  {
    if items == [] then 0
    else TotalItems(weight, items[..|items| - 1]) + Total(weight, items[|items| - 1])
  }

  ghost function TotalFields(weight: Json -> nat, v: Json, keys: set<string>): nat
    requires v.Object? && keys <= v.fields.Keys
    decreases v, 0, |keys|
  {
    if keys == {} then 0
    else
      var k :| k in keys;
      Total(weight, v.fields[k]) + TotalFields(weight, v, keys - {k})
  }

  lemma {:induction false} TotalFieldsRemove(weight: Json -> nat, v: Json, keys: set<string>, k: string)
    requires v.Object? && keys <= v.fields.Keys && k in keys
    ensures TotalFields(weight, v, keys) == Total(weight, v.fields[k]) + TotalFields(weight, v, keys - {k})
    decreases |keys|
  {
    var x :| x in keys
          && TotalFields(weight, v, keys) == Total(weight, v.fields[x]) + TotalFields(weight, v, keys - {x});
    if x != k {
      TotalFieldsRemove(weight, v, keys - {x}, k);
      TotalFieldsRemove(weight, v, keys - {k}, x);
      assert keys - {x} - {k} == keys - {k} - {x};
    }
  }

  /** Charges that add up on every node add up over the tree. */
  lemma {:induction false} TotalAdds(one: Json -> nat, two: Json -> nat, both: Json -> nat, v: Json)
    requires forall u :: one(u) + two(u) == both(u)
    ensures Total(one, v) + Total(two, v) == Total(both, v)
    decreases v, 1, 0
  {
    assert one(v) + two(v) == both(v);
    match v
    case Array(items) => TotalItemsAdds(one, two, both, items);
    case Object(fields) => TotalFieldsAdds(one, two, both, v, fields.Keys);
    case _ =>
  }

  lemma {:induction false} TotalItemsAdds(one: Json -> nat, two: Json -> nat, both: Json -> nat, items: seq<Json>)
    requires forall u :: one(u) + two(u) == both(u)
    ensures TotalItems(one, items) + TotalItems(two, items) == TotalItems(both, items)
    decreases items, 0, 0
  {
    if items != [] {
      TotalItemsAdds(one, two, both, items[..|items| - 1]);
      TotalAdds(one, two, both, items[|items| - 1]);
    }
  }

  lemma {:induction false} TotalFieldsAdds(
    one: Json -> nat, two: Json -> nat, both: Json -> nat, v: Json, keys: set<string>)
    requires forall u :: one(u) + two(u) == both(u)
    requires v.Object? && keys <= v.fields.Keys
    ensures TotalFields(one, v, keys) + TotalFields(two, v, keys) == TotalFields(both, v, keys)
    decreases v, 0, |keys|
  {
    if keys != {} {
      var k :| k in keys;
      TotalFieldsRemove(one, v, keys, k);
      TotalFieldsRemove(two, v, keys, k);
      TotalFieldsRemove(both, v, keys, k);
      TotalAdds(one, two, both, v.fields[k]);
      TotalFieldsAdds(one, two, both, v, keys - {k});
    }
  }

  ghost function One(v: Json): nat { 1 }

  ghost function Nodes(v: Json): nat { Total(One, v) }

  /** No path from the root holds more than `depth` nodes. */
  ghost predicate DepthWithin(v: Json, depth: int)
    decreases v, 2
  {
    && depth >= 1
    && match v
       case Array(items) => ItemsWithin(items, depth - 1)
       case Object(fields) => FieldsWithin(v, fields.Keys, depth - 1)
       case _ => true
  }

  ghost predicate ItemsWithin(items: seq<Json>, depth: int)
    decreases items, 0
  {
    forall i :: 0 <= i < |items| ==> DepthWithin(items[i], depth)
  }

  ghost predicate FieldsWithin(v: Json, keys: set<string>, depth: int)
    requires v.Object? && keys <= v.fields.Keys
    decreases v, 0
  {
    forall k :: k in keys ==> DepthWithin(v.fields[k], depth)
  }

  /** The question the traversal answers, asked of the whole tree. */
  ghost predicate WithinBudget(weight: Json -> nat, v: Json) {
    DepthWithin(v, MAX_DEPTH) && Nodes(v) <= MAX_NODES && Total(weight, v) <= MAX_BYTES
  }

  // ------------------------------------------------------------- the stack

  ghost function Pending(weight: Json -> nat, stack: seq<(Json, nat)>): nat {
    if stack == [] then 0
    else Pending(weight, stack[..|stack| - 1]) + Total(weight, stack[|stack| - 1].0)
  }

  lemma PendingPush(weight: Json -> nat, stack: seq<(Json, nat)>, v: Json, depth: nat)
    ensures Pending(weight, stack + [(v, depth)]) == Pending(weight, stack) + Total(weight, v)
  {
    var pushed := stack + [(v, depth)];
    assert pushed[..|pushed| - 1] == stack;
  }

  lemma PendingPop(weight: Json -> nat, stack: seq<(Json, nat)>)
    requires stack != []
    ensures Pending(weight, stack) ==
            Pending(weight, stack[..|stack| - 1]) + Total(weight, stack[|stack| - 1].0)
  {
  }

  ghost predicate DepthsWithin(stack: seq<(Json, nat)>) {
    forall i :: 0 <= i < |stack| ==> DepthWithin(stack[i].0, MAX_DEPTH + 1 - stack[i].1)
  }

  lemma TotalItemsStep(weight: Json -> nat, items: seq<Json>, i: nat)
    requires i < |items|
    ensures TotalItems(weight, items[..i + 1]) == TotalItems(weight, items[..i]) + Total(weight, items[i])
  {
    assert items[..i + 1][..i] == items[..i];
  }

  lemma ItemsWithinStep(items: seq<Json>, i: nat, depth: int)
    requires i < |items|
    ensures ItemsWithin(items[..i + 1], depth) <==> ItemsWithin(items[..i], depth) && DepthWithin(items[i], depth)
  {
    var longer, shorter := items[..i + 1], items[..i];
    assert longer[i] == items[i];
    assert forall j :: 0 <= j < i ==> longer[j] == shorter[j];
  }

  lemma FieldsWithinStep(v: Json, keys: set<string>, k: string, depth: int)
    requires v.Object? && keys <= v.fields.Keys && k in keys
    ensures FieldsWithin(v, v.fields.Keys - (keys - {k}), depth)
            <==> FieldsWithin(v, v.fields.Keys - keys, depth) && DepthWithin(v.fields[k], depth)
  {
    assert v.fields.Keys - (keys - {k}) == v.fields.Keys - keys + {k};
  }

  /** The stack holds what it held at first and the first `i` items, one level deeper. */
  ghost predicate PushedItems(
    weight: Json -> nat, stack: seq<(Json, nat)>, pushed: seq<(Json, nat)>, items: seq<Json>, i: nat, depth: nat)
    requires i <= |items|
  {
    && Pending(weight, pushed) == Pending(weight, stack) + TotalItems(weight, items[..i])
    && Pending(One, pushed) == Pending(One, stack) + TotalItems(One, items[..i])
    && (DepthsWithin(pushed) <==> DepthsWithin(stack) && ItemsWithin(items[..i], MAX_DEPTH + 1 - depth))
  }

  lemma PushItem(
    weight: Json -> nat, stack: seq<(Json, nat)>, pushed: seq<(Json, nat)>, items: seq<Json>, i: nat, depth: nat)
    requires i < |items| && PushedItems(weight, stack, pushed, items, i, depth)
    ensures PushedItems(weight, stack, pushed + [(items[i], depth)], items, i + 1, depth)
  {
    PendingPush(weight, pushed, items[i], depth);
    PendingPush(One, pushed, items[i], depth);
    TotalItemsStep(weight, items, i);
    TotalItemsStep(One, items, i);
    PushDepth(pushed, items[i], depth);
    ItemsWithinStep(items, i, MAX_DEPTH + 1 - depth);
  }

  /** Push every child of an array, in order. */
  method PushItems(ghost weight: Json -> nat, stack: seq<(Json, nat)>, items: seq<Json>, depth: nat)
    returns (pushed: seq<(Json, nat)>)
    ensures Pending(weight, pushed) == Pending(weight, stack) + TotalItems(weight, items)
    ensures Pending(One, pushed) == Pending(One, stack) + TotalItems(One, items)
    ensures DepthsWithin(pushed) <==> DepthsWithin(stack) && ItemsWithin(items, MAX_DEPTH + 1 - depth)
  {
    pushed := stack;
    for i := 0 to |items|
      invariant PushedItems(weight, stack, pushed, items, i, depth)
    {
      PushItem(weight, stack, pushed, items, i, depth);
      pushed := pushed + [(items[i], depth)];
    }
    assert items[..|items|] == items;
  }

  lemma PushDepth(stack: seq<(Json, nat)>, v: Json, depth: nat)
    ensures DepthsWithin(stack + [(v, depth)]) <==> DepthsWithin(stack) && DepthWithin(v, MAX_DEPTH + 1 - depth)
  {
    var pushed := stack + [(v, depth)];
    assert pushed[|stack|] == (v, depth);
    if DepthsWithin(pushed) {
      forall i | 0 <= i < |stack| ensures DepthWithin(stack[i].0, MAX_DEPTH + 1 - stack[i].1) {
        assert pushed[i] == stack[i];
      }
    }
  }

  /**
    Push every child of an object. Python charges each key as it goes and stops as soon as
    the running estimate is over the limit; the dictionary may be walked in any order.
   */
  method PushFields(stack: seq<(Json, nat)>, v: Json, depth: nat, bytes: nat)
    returns (over: bool, pushed: seq<(Json, nat)>, bytes': nat)
    requires v.Object?
    ensures over ==> bytes + KeyBytes(v.fields.Keys, 2) > MAX_BYTES
    ensures !over ==>
      && bytes' == bytes + KeyBytes(v.fields.Keys, 2)
      && Pending(PythonWeight, pushed) == Pending(PythonWeight, stack) + TotalFields(PythonWeight, v, v.fields.Keys)
      && Pending(One, pushed) == Pending(One, stack) + TotalFields(One, v, v.fields.Keys)
      && (DepthsWithin(pushed) <==> DepthsWithin(stack) && FieldsWithin(v, v.fields.Keys, MAX_DEPTH + 1 - depth))
  {
    over, pushed, bytes' := false, stack, bytes;
    var keys := v.fields.Keys;
    while keys != {}
      invariant keys <= v.fields.Keys
      invariant !over && bytes' + KeyBytes(keys, 2) == bytes + KeyBytes(v.fields.Keys, 2)
      invariant Pending(PythonWeight, pushed) + TotalFields(PythonWeight, v, keys)
             == Pending(PythonWeight, stack) + TotalFields(PythonWeight, v, v.fields.Keys)
      invariant Pending(One, pushed) + TotalFields(One, v, keys)
             == Pending(One, stack) + TotalFields(One, v, v.fields.Keys)
      invariant DepthsWithin(pushed) <==>
                DepthsWithin(stack) && FieldsWithin(v, v.fields.Keys - keys, MAX_DEPTH + 1 - depth)
      decreases |keys|
    {
      var k :| k in keys;
      KeyBytesRemove(keys, k, 2);
      bytes' := bytes' + TextBytes(k) + 2;
      if bytes' > MAX_BYTES {
        over := true;
        return;
      }
      PendingPush(PythonWeight, pushed, v.fields[k], depth);
      PendingPush(One, pushed, v.fields[k], depth);
      TotalFieldsRemove(PythonWeight, v, keys, k);
      TotalFieldsRemove(One, v, keys, k);
      PushDepth(pushed, v.fields[k], depth);
      pushed := pushed + [(v.fields[k], depth)];
      FieldsWithinStep(v, keys, k, MAX_DEPTH + 1 - depth);
      keys := keys - {k};
    }
  }

  /** The depths on the stack after its top entry has been replaced by its children. */
  lemma PopDepth(stack: seq<(Json, nat)>)
    requires stack != []
    ensures DepthsWithin(stack) <==>
            && DepthsWithin(stack[..|stack| - 1])
            && DepthWithin(stack[|stack| - 1].0, MAX_DEPTH + 1 - stack[|stack| - 1].1)
  {
    PushDepth(stack[..|stack| - 1], stack[|stack| - 1].0, stack[|stack| - 1].1);
    assert stack == stack[..|stack| - 1] + [(stack[|stack| - 1].0, stack[|stack| - 1].1)];
  }

  lemma ArrayNode(weight: Json -> nat, v: Json, depth: int)
    requires v.Array?
    ensures Below(weight, v) == TotalItems(weight, v.items)
    ensures DepthWithin(v, depth) <==> depth >= 1 && ItemsWithin(v.items, depth - 1)
  {
  }

  lemma ObjectNode(weight: Json -> nat, v: Json, depth: int)
    requires v.Object?
    ensures Below(weight, v) == TotalFields(weight, v, v.fields.Keys)
    ensures DepthWithin(v, depth) <==> depth >= 1 && FieldsWithin(v, v.fields.Keys, depth - 1)
  {
  }

  lemma LeafNode(weight: Json -> nat, v: Json, depth: int)
    requires !v.Array? && !v.Object?
    ensures Below(weight, v) == 0 && (DepthWithin(v, depth) <==> depth >= 1)
  {
  }

  /** Taking the top entry off the stack. */
  lemma Pop(weight: Json -> nat, stack: seq<(Json, nat)>)
    requires stack != []
    ensures var (value, depth) := stack[|stack| - 1];
      var rest := stack[..|stack| - 1];
      && Pending(weight, stack) == Pending(weight, rest) + Total(weight, value)
      && Pending(One, stack) == Pending(One, rest) + Total(One, value)
      && Total(weight, value) == weight(value) + Below(weight, value)
      && Total(One, value) == 1 + Below(One, value)
      && (DepthsWithin(stack) <==> DepthsWithin(rest) && DepthWithin(value, MAX_DEPTH + 1 - depth))
  {
    PendingPop(weight, stack);
    PendingPop(One, stack);
    PopDepth(stack);
  }

  /** Replace a value, already charged for itself, by its children and charge for its keys. */
  method ChargeChildren(stack: seq<(Json, nat)>, v: Json, depth: nat, bytes: nat)
    returns (over: bool, pushed: seq<(Json, nat)>, bytes': nat)
    requires depth <= MAX_DEPTH && bytes <= MAX_BYTES
    ensures over ==> bytes + PythonWeight(v) > MAX_BYTES + EstimatedBytes(v)
    ensures !over ==>
      && bytes' + EstimatedBytes(v) == bytes + PythonWeight(v)
      && Pending(PythonWeight, pushed) == Pending(PythonWeight, stack) + Below(PythonWeight, v)
      && Pending(One, pushed) == Pending(One, stack) + Below(One, v)
      && (DepthsWithin(pushed) <==> DepthsWithin(stack) && DepthWithin(v, MAX_DEPTH + 1 - depth))
  {
    over, pushed, bytes' := false, stack, bytes;
    if v.Object? {
      ObjectNode(PythonWeight, v, MAX_DEPTH + 1 - depth);
      ObjectNode(One, v, MAX_DEPTH + 1 - depth);
      over, pushed, bytes' := PushFields(stack, v, depth + 1, bytes);
    } else if v.Array? {
      ArrayNode(PythonWeight, v, MAX_DEPTH + 1 - depth);
      ArrayNode(One, v, MAX_DEPTH + 1 - depth);
      pushed := PushItems(PythonWeight, stack, v.items, depth + 1);
    } else {
      LeafNode(PythonWeight, v, MAX_DEPTH + 1 - depth);
      LeafNode(One, v, MAX_DEPTH + 1 - depth);
    }
  }

  /** `_command_payload_budget_violation` of the Python gate. */
  method PythonBudgetViolation(payload: Json) returns (violated: bool)
    ensures violated <==> !WithinBudget(PythonWeight, payload)
  {
    var stack: seq<(Json, nat)> := [(payload, 1)];
    var nodeCount: nat, bytes: nat := 0, 0;
    PendingPush(PythonWeight, [], payload, 1);
    PendingPush(One, [], payload, 1);
    assert [] + [(payload, 1 as nat)] == stack;
    while stack != []
      invariant nodeCount + Pending(One, stack) == Nodes(payload)
      invariant bytes + Pending(PythonWeight, stack) == Total(PythonWeight, payload)
      invariant DepthsWithin(stack) <==> DepthWithin(payload, MAX_DEPTH)
      invariant nodeCount <= MAX_NODES && bytes <= MAX_BYTES
      decreases Pending(One, stack)
    {
      var (value, depth) := stack[|stack| - 1];
      Pop(PythonWeight, stack);
      stack := stack[..|stack| - 1];
      if depth > MAX_DEPTH { return true; }
      nodeCount := nodeCount + 1;
      if nodeCount > MAX_NODES { return true; }
      bytes := bytes + EstimatedBytes(value);
      if bytes > MAX_BYTES { return true; }
      var over, pushed, bytes' := ChargeChildren(stack, value, depth, bytes);
      if over || bytes' > MAX_BYTES { return true; }
      stack, bytes := pushed, bytes';
    }
    return false;
  }

  // ------------------------------------------------------------- the Rust traversal

  function SaturatingAdd(a: nat, b: nat): nat {
    if a + b > USIZE_MAX then USIZE_MAX else a + b
  }

  /** `checked_add` followed by the limit test; -1 stands for "over". */
  function AddWithin(a: nat, b: nat, limit: nat): (r: int)
    ensures r >= 0 ==> r == a + b <= limit
    ensures limit <= USIZE_MAX ==> (r < 0 <==> a + b > limit)
  {
    if a + b > USIZE_MAX || a + b > limit then -1 else a + b
  }

  /** `estimated_payload_bytes`: machine arithmetic that saturates per node. */
  method RustNodeBytes(v: Json) returns (bytes: nat)
    ensures bytes <= MAX_BYTES || RustWeight(v) <= MAX_BYTES ==> bytes == RustWeight(v)
  {
    match v
    case Array(items) => bytes := SaturatingAdd(|items|, 2);
    case Object(fields) =>
      var keys, sum: nat := fields.Keys, 0;
      while keys != {}
        invariant keys <= fields.Keys
        invariant sum + KeyBytes(keys, 3) == KeyBytes(fields.Keys, 3)
          || (sum > MAX_BYTES && KeyBytes(fields.Keys, 3) > MAX_BYTES)
        decreases |keys|
      {
        var k :| k in keys;
        KeyBytesRemove(keys, k, 3);
        sum := sum + SaturatingAdd(TextBytes(k), 3);
        keys := keys - {k};
      }
      bytes := SaturatingAdd(SaturatingAdd(sum, |fields|), 2);
    case String(s) => bytes := SaturatingAdd(TextBytes(s), 2);
    case _ => bytes := EstimatedBytes(v);
  }

  /** Push every value of an object, in any order. */
  method PushValues(stack: seq<(Json, nat)>, v: Json, depth: nat) returns (pushed: seq<(Json, nat)>)
    requires v.Object?
    ensures Pending(RustWeight, pushed) == Pending(RustWeight, stack) + TotalFields(RustWeight, v, v.fields.Keys)
    ensures Pending(One, pushed) == Pending(One, stack) + TotalFields(One, v, v.fields.Keys)
    ensures DepthsWithin(pushed) <==> DepthsWithin(stack) && FieldsWithin(v, v.fields.Keys, MAX_DEPTH + 1 - depth)
  {
    pushed := stack;
    var keys := v.fields.Keys;
    while keys != {}
      invariant keys <= v.fields.Keys
      invariant Pending(RustWeight, pushed) + TotalFields(RustWeight, v, keys)
             == Pending(RustWeight, stack) + TotalFields(RustWeight, v, v.fields.Keys)
      invariant Pending(One, pushed) + TotalFields(One, v, keys)
             == Pending(One, stack) + TotalFields(One, v, v.fields.Keys)
      invariant DepthsWithin(pushed) <==>
                DepthsWithin(stack) && FieldsWithin(v, v.fields.Keys - keys, MAX_DEPTH + 1 - depth)
      decreases |keys|
    {
      var k :| k in keys;
      PendingPush(RustWeight, pushed, v.fields[k], depth);
      PendingPush(One, pushed, v.fields[k], depth);
      TotalFieldsRemove(RustWeight, v, keys, k);
      TotalFieldsRemove(One, v, keys, k);
      PushDepth(pushed, v.fields[k], depth);
      pushed := pushed + [(v.fields[k], depth)];
      FieldsWithinStep(v, keys, k, MAX_DEPTH + 1 - depth);
      keys := keys - {k};
    }
  }

  /** Replace a value by its children, one level deeper. */
  method PushChildren(stack: seq<(Json, nat)>, v: Json, depth: nat) returns (pushed: seq<(Json, nat)>)
    requires depth <= MAX_DEPTH
    ensures Pending(RustWeight, pushed) == Pending(RustWeight, stack) + Below(RustWeight, v)
    ensures Pending(One, pushed) == Pending(One, stack) + Below(One, v)
    ensures DepthsWithin(pushed) <==> DepthsWithin(stack) && DepthWithin(v, MAX_DEPTH + 1 - depth)
  {
    if v.Array? {
      ArrayNode(RustWeight, v, MAX_DEPTH + 1 - depth);
      ArrayNode(One, v, MAX_DEPTH + 1 - depth);
      pushed := PushItems(RustWeight, stack, v.items, depth + 1);
    } else if v.Object? {
      ObjectNode(RustWeight, v, MAX_DEPTH + 1 - depth);
      ObjectNode(One, v, MAX_DEPTH + 1 - depth);
      pushed := PushValues(stack, v, depth + 1);
    } else {
      LeafNode(RustWeight, v, MAX_DEPTH + 1 - depth);
      LeafNode(One, v, MAX_DEPTH + 1 - depth);
      pushed := stack;
    }
  }

  /** `command_payload_budget_violation` of the Rust verifier. */
  method RustBudgetViolation(payload: Json) returns (violated: bool)
    ensures violated <==> !WithinBudget(RustWeight, payload)
  {
    var stack: seq<(Json, nat)> := [(payload, 1)];
    var nodeCount: nat, bytes: nat := 0, 0;
    PendingPush(RustWeight, [], payload, 1);
    PendingPush(One, [], payload, 1);
    assert [] + [(payload, 1 as nat)] == stack;
    while stack != []
      invariant nodeCount + Pending(One, stack) == Nodes(payload)
      invariant bytes + Pending(RustWeight, stack) == Total(RustWeight, payload)
      invariant DepthsWithin(stack) <==> DepthWithin(payload, MAX_DEPTH)
      invariant nodeCount <= MAX_NODES && bytes <= MAX_BYTES
      decreases Pending(One, stack)
    {
      var (value, depth) := stack[|stack| - 1];
      Pop(RustWeight, stack);
      stack := stack[..|stack| - 1];
      if depth > MAX_DEPTH { return true; }
      var count := AddWithin(nodeCount, 1, MAX_NODES);
      if count < 0 { return true; }
      nodeCount := count;
      var increment := RustNodeBytes(value);
      var sum := AddWithin(bytes, increment, MAX_BYTES);
      if sum < 0 { return true; }
      bytes := sum;
      stack := PushChildren(stack, value, depth);
    }
    return false;
  }

  lemma RustTotalSplits(payload: Json)
    ensures Total(PythonWeight, payload) + Total(Surcharge, payload) == Total(RustWeight, payload)
  {
    forall v ensures PythonWeight(v) + Surcharge(v) == RustWeight(v) {
      RustWeightSplits(v);
    }
    TotalAdds(PythonWeight, Surcharge, RustWeight, payload);
  }

  /** Every payload the Rust verifier admits is admitted by the Python gate. */
  lemma RustBudgetWithinPython(payload: Json)
    requires WithinBudget(RustWeight, payload)
    ensures WithinBudget(PythonWeight, payload)
  {
    RustTotalSplits(payload);
  }

  /**
    Which payloads of the Python budget the Rust verifier refuses: exactly those whose bytes,
    with one more per array element and two more per object field, no longer fit.
   */
  lemma RustBudgetExactly(payload: Json)
    requires WithinBudget(PythonWeight, payload)
    ensures WithinBudget(RustWeight, payload) <==>
            Total(PythonWeight, payload) + Total(Surcharge, payload) <= MAX_BYTES
  {
    RustTotalSplits(payload);
  }

  lemma {:induction false} AsciiTextBytes(s: string)
    requires forall i :: 0 <= i < |s| ==> s[i] == 'a'
    ensures TextBytes(s) == |s|
  {
    if s != [] {
      AsciiTextBytes(s[1..]);
    }
  }

  /** There are such payloads: a text that fills the budget, in an array of one element. */
  lemma PythonBudgetNotWithinRust()
    ensures exists payload :: WithinBudget(PythonWeight, payload) && !WithinBudget(RustWeight, payload)
  {
    var text := seq(65_532, _ => 'a');
    AsciiTextBytes(text);
    var leaf := String(text);
    var payload := Array([leaf]);
    OnlyItem(PythonWeight, leaf);
    OnlyItem(RustWeight, leaf);
    OnlyItem(One, leaf);
    assert DepthWithin(leaf, MAX_DEPTH - 1);
    assert ItemsWithin(payload.items, MAX_DEPTH - 1);
    assert WithinBudget(PythonWeight, payload) && !WithinBudget(RustWeight, payload);
  }

  lemma OnlyItem(weight: Json -> nat, leaf: Json)
    requires leaf.String?
    ensures Total(weight, Array([leaf])) == weight(Array([leaf])) + weight(leaf)
  {
    assert [leaf][..0] == [] && TotalItems(weight, []) == 0;
    assert TotalItems(weight, [leaf]) == Total(weight, leaf);
    assert Below(weight, leaf) == 0;
  }
}
