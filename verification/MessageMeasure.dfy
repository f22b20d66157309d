/**
 The size measure of the plugin-frame guest budget: an explicit-stack walk over a message that
 stops early, against the plain recursive measure of the same message.

 A message is a heap of nodes named by references, so shared and cyclic values are messages too.
 The recursive measure unfolds a reference to a bounded number of levels, which is finite on every
 heap; `shallow` records that the unfolding ended before the bound did.
 */
module MessageMeasure {
  type CodeUnit = u: int | 0 <= u < 0x1_0000 witness 0
  type Ref = nat
  datatype Field = Field(key: seq<CodeUnit>, value: Ref)
  /** A map's entry. */
  datatype Pair = Pair(key: Ref, value: Ref)
  /**
   A map or set has no fields of its own, so the guest sees it as an empty record. `Special` is every
   other object (a date, pattern, blob, shared buffer or class instance): the guest sees only its own
   fields, while the host charges it, visits its parts, or cannot clone it.
   */
  datatype Node =
    | Text(units: seq<CodeUnit>)
    | Buffer(byteLength: nat)
    | View(byteLength: nat, buffer: Ref)
    | List(items: seq<Ref>)
    | Record(fields: seq<Field>)
    | Dictionary(pairs: seq<Pair>)
    | Bag(items: seq<Ref>)
    | Special(fields: seq<Field>, charge: nat, parts: seq<Ref>, cloneable: bool)
    | Number
    | Flag
    | BigInt(digits: nat)
    | Uncloneable
  type Heap = Ref -> Node
  datatype Walk = Walk(maxNodes: nat, maxDepth: nat)

  // ---------- UTF-8 length (section 3 of RFC 3629, lone surrogates encoded as U+FFFD) ----------

  predicate HighSurrogate(u: CodeUnit) { 0xD800 <= u < 0xDC00 }
  predicate LowSurrogate(u: CodeUnit) { 0xDC00 <= u < 0xE000 }

  function Utf8Length(s: seq<CodeUnit>): nat {
    if s == [] then 0
    else if HighSurrogate(s[0]) && |s| > 1 && LowSurrogate(s[1]) then 4 + Utf8Length(s[2..])
    else (if s[0] < 0x80 then 1 else if s[0] < 0x800 then 2 else 3) + Utf8Length(s[1..])
  }

  /** A string longer than a cap in code units is over it in UTF-8 bytes too. */
  lemma {:induction false} Utf8AtLeastUnits(s: seq<CodeUnit>)
    ensures |s| <= Utf8Length(s) <= 3 * |s|
  {
    if s == [] {
    } else if HighSurrogate(s[0]) && |s| > 1 && LowSurrogate(s[1]) {
      Utf8AtLeastUnits(s[2..]);
    } else {
      Utf8AtLeastUnits(s[1..]);
    }
  }

  /** The character numbers a sequence of units stands for (section 3 of RFC 2781). */
  function CodePoints(s: seq<CodeUnit>): seq<nat> {
    if s == [] then []
    else if HighSurrogate(s[0]) && |s| > 1 && LowSurrogate(s[1]) then
      var high: int, low: int := s[0], s[1];
      [0x1_0000 + 0x400 * (high - 0xD800) + (low - 0xDC00)] + CodePoints(s[2..])
    else [if HighSurrogate(s[0]) || LowSurrogate(s[0]) then 0xFFFD else s[0]] + CodePoints(s[1..])
  }

  /** The octets of a character number, by the ranges of RFC 3629's table. */
  function Octets(point: nat): nat {
    if point <= 0x7F then 1 else if point <= 0x7FF then 2 else if point <= 0xFFFF then 3 else 4
  }

  function OctetsOf(points: seq<nat>): nat {
    if points == [] then 0 else Octets(points[0]) + OctetsOf(points[1..])
  }

  /** The length of a string in UTF-8 is that of its characters, and each is one that UTF-8 has. */
  lemma {:induction false} Utf8LengthCountsOctets(s: seq<CodeUnit>)
    ensures Utf8Length(s) == OctetsOf(CodePoints(s))
    ensures forall point <- CodePoints(s) :: point <= 0x10_FFFF && !(0xD800 <= point < 0xE000)
  {
    if s != [] {
      var n := if HighSurrogate(s[0]) && |s| > 1 && LowSurrogate(s[1]) then 2 else 1;
      Utf8LengthCountsOctets(s[n..]);
      assert CodePoints(s)[1..] == CodePoints(s[n..]);
    }
  }

  // ---------- the recursive measure ----------

  /** Nodes visited, bytes counted, and whether no node lies below the last level. */
  datatype Measure = Measure(nodes: nat, bytes: nat, shallow: bool) {
    function Plus(m: Measure): Measure {
      Measure(nodes + m.nodes, bytes + m.bytes, shallow && m.shallow)
    }
  }

  const ZERO := Measure(0, 0, true)

  function KeyUnits(fields: seq<Field>): nat {
    if fields == [] then 0 else KeyUnits(fields[..|fields| - 1]) + |fields[|fields| - 1].key|
  }

  /** Bytes a node adds by itself: record keys count code units, a list and any other value 8. */
  function OwnBytes(node: Node): nat {
    match node
    case Text(units) => Utf8Length(units)
    case Buffer(n) => n
    case View(n, _) => n
    case List(_) => 8
    case Record(fields) => KeyUnits(fields)
    case Special(fields, _, _, _) => KeyUnits(fields)
    case Dictionary(_) => 0
    case Bag(_) => 0
    case _ => 8
  }

  function Values(fields: seq<Field>): seq<Ref> {
    seq(|fields|, i requires 0 <= i < |fields| => fields[i].value)
  }

  function Children(node: Node): seq<Ref> {
    match node
    case List(items) => items
    case Record(fields) => Values(fields)
    case Special(fields, _, _, _) => Values(fields)
    case _ => []
  }

  /** The measure of the unfolding of `r` with `levels` levels left. */
  function Unfold(h: Heap, r: Ref, levels: nat): Measure
    decreases levels, 0
  {
    if levels == 0 then Measure(1, 0, false)
    else Measure(1, OwnBytes(h(r)), true).Plus(UnfoldAll(h, Children(h(r)), levels - 1))
  }

  function UnfoldAll(h: Heap, rs: seq<Ref>, levels: nat): Measure
    decreases levels, |rs| + 1
  {
    if rs == [] then ZERO
    else UnfoldAll(h, rs[..|rs| - 1], levels).Plus(Unfold(h, rs[|rs| - 1], levels))
  }

  /** A list holds its items, and a record or special object the values of its fields. */
  predicate HoldsRef(node: Node, c: Ref) {
    || (node.List? && c in node.items)
    || ((node.Record? || node.Special?) && exists f <- node.fields :: f.value == c)
  }

  lemma {:induction false} ChildrenAreHeld(node: Node, c: Ref)
    ensures c in Children(node) <==> HoldsRef(node, c)
  {
    if node.Record? || node.Special? {
      var values := Values(node.fields);
      if c in values {
        var i :| 0 <= i < |values| && values[i] == c;
        assert node.fields[i].value == c;
      }
      if exists f <- node.fields :: f.value == c {
        var i :| 0 <= i < |node.fields| && node.fields[i].value == c;
        assert values[i] == c;
      }
    }
  }

  predicate GoesOn(h: Heap, next: map<Ref, Ref>, r: Ref) {
    r in next && HoldsRef(h(r), next[r]) && next[r] in next
  }

  /** A value from which some chain of children never ends is never shallow. */
  lemma {:induction false} CyclesAreNeverShallow(h: Heap, next: map<Ref, Ref>, r: Ref, levels: nat)
    requires forall x {:trigger GoesOn(h, next, x)} :: x in next ==> GoesOn(h, next, x)
    requires r in next
    ensures !Unfold(h, r, levels).shallow
    decreases levels
  {
    assert GoesOn(h, next, r);
    if levels > 0 {
      CyclesAreNeverShallow(h, next, next[r], levels - 1);
      ChildrenAreHeld(h(r), next[r]);
      DeepChildMakesDeep(h, Children(h(r)), next[r], levels - 1);
    }
  }

  lemma {:induction false} DeepChildMakesDeep(h: Heap, rs: seq<Ref>, c: Ref, levels: nat)
    requires c in rs && !Unfold(h, c, levels).shallow
    ensures !UnfoldAll(h, rs, levels).shallow
    decreases |rs|
  {
    if rs[|rs| - 1] != c {
      DeepChildMakesDeep(h, rs[..|rs| - 1], c, levels);
    }
  }

  // ---------- the size, kind by kind ----------

  /** The nodes of the unfolding, a shared one as often as it is reached. */
  function Listed(h: Heap, r: Ref, levels: nat): seq<Node>
    decreases levels, 0
  {
    [h(r)] + if levels == 0 then [] else ListedAll(h, Children(h(r)), levels - 1)
  }

  function ListedAll(h: Heap, rs: seq<Ref>, levels: nat): seq<Node>
    decreases levels, |rs| + 1
  {
    if rs == [] then [] else ListedAll(h, rs[..|rs| - 1], levels) + Listed(h, rs[|rs| - 1], levels)
  }

  function SumOf(nodes: seq<Node>, size: Node -> nat): nat {
    if nodes == [] then 0 else SumOf(nodes[..|nodes| - 1], size) + size(nodes[|nodes| - 1])
  }

  lemma {:induction false} SumAppends(a: seq<Node>, b: seq<Node>, size: Node -> nat)
    ensures SumOf(a + b, size) == SumOf(a, size) + SumOf(b, size)
    decreases |b|
  {
    if b == [] {
      assert a + b == a;
    } else {
      assert (a + b)[..|a + b| - 1] == a + b[..|b| - 1];
      SumAppends(a, b[..|b| - 1], size);
    }
  }

  /** All keys of a record, one after the other. */
  function JoinedKeys(fields: seq<Field>): seq<CodeUnit> {
    if fields == [] then [] else JoinedKeys(fields[..|fields| - 1]) + fields[|fields| - 1].key
  }

  function TextSize(node: Node): nat { if node.Text? then Utf8Length(node.units) else 0 }
  function BinarySize(node: Node): nat { if node.Buffer? || node.View? then node.byteLength else 0 }
  function KeySize(node: Node): nat { if node.Record? || node.Special? then |JoinedKeys(node.fields)| else 0 }
  /** Lists and scalars. */
  function FlatSize(node: Node): nat {
    if node.List? || node.Number? || node.Flag? || node.BigInt? || node.Uncloneable? then 8 else 0
  }

  /** The bytes of some nodes: texts in UTF-8, buffers and views in full, keys in code units, and 8 for the rest. */
  ghost function SizeByKind(nodes: seq<Node>): nat {
    SumOf(nodes, TextSize) + SumOf(nodes, BinarySize) + SumOf(nodes, KeySize) + SumOf(nodes, FlatSize)
  }

  lemma {:induction false} KeyUnitsAreJoined(fields: seq<Field>)
    ensures KeyUnits(fields) == |JoinedKeys(fields)|
  {
    if fields != [] {
      KeyUnitsAreJoined(fields[..|fields| - 1]);
    }
  }

  lemma {:induction false} OwnBytesByKind(node: Node)
    ensures OwnBytes(node) == TextSize(node) + BinarySize(node) + KeySize(node) + FlatSize(node)
  {
    if node.Record? || node.Special? {
      KeyUnitsAreJoined(node.fields);
    }
  }

  lemma {:induction false} SumOfOne(node: Node, size: Node -> nat)
    ensures SumOf([node], size) == size(node) && SumOf([], size) == 0
  {
    assert [node][..0] == [];
  }

  lemma {:induction false} OneNodeByKind(node: Node)
    ensures SizeByKind([node]) == OwnBytes(node)
    ensures SizeByKind([]) == 0
  {
    hide OwnBytes, SumOf, TextSize, BinarySize, KeySize, FlatSize;
    OwnBytesByKind(node);
    SumOfOne(node, TextSize);
    SumOfOne(node, BinarySize);
    SumOfOne(node, KeySize);
    SumOfOne(node, FlatSize);
  }

  lemma {:induction false} SizeByKindAppends(a: seq<Node>, b: seq<Node>)
    ensures SizeByKind(a + b) == SizeByKind(a) + SizeByKind(b)
  {
    SumAppends(a, b, TextSize);
    SumAppends(a, b, BinarySize);
    SumAppends(a, b, KeySize);
    SumAppends(a, b, FlatSize);
  }

  /** The measure of a message that ends before the last level is the size of its nodes, kind by kind. */
  lemma {:induction false} MeasuredByKind(h: Heap, r: Ref, levels: nat)
    requires Unfold(h, r, levels).shallow
    ensures Unfold(h, r, levels).nodes == |Listed(h, r, levels)|
    ensures Unfold(h, r, levels).bytes == SizeByKind(Listed(h, r, levels))
    decreases levels, 0
  {
    hide SizeByKind, OwnBytes;
    OneNodeByKind(h(r));
    AllMeasuredByKind(h, Children(h(r)), levels - 1);
    SizeByKindAppends([h(r)], ListedAll(h, Children(h(r)), levels - 1));
  }

  lemma {:induction false} AllMeasuredByKind(h: Heap, rs: seq<Ref>, levels: nat)
    requires UnfoldAll(h, rs, levels).shallow
    ensures UnfoldAll(h, rs, levels).nodes == |ListedAll(h, rs, levels)|
    ensures UnfoldAll(h, rs, levels).bytes == SizeByKind(ListedAll(h, rs, levels))
    decreases levels, |rs| + 1
  {
    hide SizeByKind;
    if rs == [] {
      OneNodeByKind(Number);
    } else {
      AllMeasuredByKind(h, rs[..|rs| - 1], levels);
      MeasuredByKind(h, rs[|rs| - 1], levels);
      SizeByKindAppends(ListedAll(h, rs[..|rs| - 1], levels), Listed(h, rs[|rs| - 1], levels));
    }
  }

  /** Each holds the next. */
  predicate Chain(h: Heap, path: seq<Ref>) {
    path != [] && forall i :: 0 <= i < |path| - 1 ==> HoldsRef(h(path[i]), path[i + 1])
  }

  lemma {:induction false} ChildCounts(h: Heap, rs: seq<Ref>, c: Ref, levels: nat)
    requires c in rs && UnfoldAll(h, rs, levels).shallow
    ensures Unfold(h, c, levels).shallow
    ensures Unfold(h, c, levels).bytes <= UnfoldAll(h, rs, levels).bytes
    decreases |rs|
  {
    hide Unfold;
    if rs[|rs| - 1] != c {
      ChildCounts(h, rs[..|rs| - 1], c, levels);
    }
  }

  lemma {:induction false} HeldCounts(h: Heap, r: Ref, c: Ref, levels: nat)
    requires HoldsRef(h(r), c) && Unfold(h, r, levels).shallow
    ensures levels > 0 && Unfold(h, c, levels - 1).shallow
    ensures Unfold(h, c, levels - 1).bytes <= Unfold(h, r, levels).bytes
  {
    hide HoldsRef, Children;
    ChildrenAreHeld(h(r), c);
    ChildCounts(h, Children(h(r)), c, levels - 1);
  }

  /** Whatever a message reaches counts in full: no text, buffer, view or key at any depth is missed. */
  lemma {:induction false} ReachedSizesCount(h: Heap, path: seq<Ref>, levels: nat)
    requires Chain(h, path) && Unfold(h, path[0], levels).shallow
    ensures |path| <= levels
    ensures var end := h(path[|path| - 1]);
            TextSize(end) + BinarySize(end) + KeySize(end) + FlatSize(end) <= Unfold(h, path[0], levels).bytes
    decreases levels
  {
    hide TextSize, BinarySize, KeySize, FlatSize, HoldsRef;
    if |path| == 1 {
      OwnBytesByKind(h(path[0]));
    } else {
      hide Unfold;
      assert HoldsRef(h(path[0]), path[0 + 1]);
      HeldCounts(h, path[0], path[1], levels);
      var rest := path[1..];
      forall i | 0 <= i < |rest| - 1 ensures HoldsRef(h(rest[i]), rest[i + 1]) {
        assert HoldsRef(h(path[i + 1]), path[(i + 1) + 1]);
      }
      ReachedSizesCount(h, rest, levels - 1);
    }
  }

  // ---------- the stack walk ----------

  datatype Item = Item(value: Ref, depth: nat)

  function ItemMeasure(h: Heap, item: Item, walk: Walk): Measure {
    Unfold(h, item.value, if item.depth > walk.maxDepth then 0 else walk.maxDepth + 1 - item.depth)
  }

  function StackMeasure(h: Heap, stack: seq<Item>, walk: Walk): Measure {
    if stack == [] then ZERO
    else StackMeasure(h, stack[..|stack| - 1], walk).Plus(ItemMeasure(h, stack[|stack| - 1], walk))
  }

  lemma {:induction false} PushOne(h: Heap, stack: seq<Item>, item: Item, walk: Walk)
    ensures StackMeasure(h, stack + [item], walk) == StackMeasure(h, stack, walk).Plus(ItemMeasure(h, item, walk))
  {
    assert (stack + [item])[..|stack|] == stack;
  }

  function Items(kids: seq<Ref>, depth: nat): seq<Item> {
    seq(|kids|, i requires 0 <= i < |kids| => Item(kids[i], depth))
  }

  lemma {:induction false} PushAll(h: Heap, stack: seq<Item>, kids: seq<Ref>, depth: nat, walk: Walk)
    requires depth <= walk.maxDepth
    ensures StackMeasure(h, stack + Items(kids, depth + 1), walk)
         == StackMeasure(h, stack, walk).Plus(UnfoldAll(h, kids, walk.maxDepth - depth))
    decreases |kids|
  {
    hide Unfold, StackMeasure;
    var n := |kids|;
    if n == 0 {
      assert stack + Items(kids, depth + 1) == stack;
    } else {
      PushAll(h, stack, kids[..n - 1], depth, walk);
      assert stack + Items(kids, depth + 1)
          == stack + Items(kids[..n - 1], depth + 1) + [Item(kids[n - 1], depth + 1)];
      PushOne(h, stack + Items(kids[..n - 1], depth + 1), Item(kids[n - 1], depth + 1), walk);
    }
  }

  method PushEntries(stack: seq<Item>, items: seq<Ref>, depth: nat) returns (pushed: seq<Item>)
    ensures pushed == stack + Items(items, depth)
  {
    pushed := stack;
    for i := 0 to |items|
      invariant pushed == stack + Items(items, depth)[..i]
    {
      pushed := pushed + [Item(items[i], depth)];
    }
  }

  method PushFields(stack: seq<Item>, fields: seq<Field>, depth: nat) returns (pushed: seq<Item>, keyUnits: nat)
    ensures pushed == stack + Items(Values(fields), depth)
    ensures keyUnits == KeyUnits(fields)
  {
    pushed, keyUnits := stack, 0;
    for i := 0 to |fields|
      invariant pushed == stack + Items(Values(fields), depth)[..i]
      invariant keyUnits == KeyUnits(fields[..i])
    {
      assert fields[..i + 1][..i] == fields[..i];
      keyUnits := keyUnits + |fields[i].key|;
      pushed := pushed + [Item(fields[i].value, depth)];
    }
    assert fields[..|fields|] == fields;
  }

  /** The whole unfolding fits the caps: the reference meaning of an admitted size. */
  predicate Fits(m: Measure, stopAfter: nat, walk: Walk) {
    m.shallow && m.nodes <= walk.maxNodes && m.bytes <= stopAfter
  }

  /** Counts one node: the new total, and the stack with the node's children pushed. */
  method VisitNode(h: Heap, item: Item, before: nat, stopAfter: nat, walk: Walk, stack: seq<Item>)
    returns (total: nat, pushed: seq<Item>)
    requires item.depth <= walk.maxDepth
    ensures pushed == stack + Items(Children(h(item.value)), item.depth + 1)
    ensures OwnBytes(h(item.value)) <= stopAfter ==> total == before + OwnBytes(h(item.value))
    ensures total <= stopAfter ==> total == before + OwnBytes(h(item.value))
    ensures before <= total
  {
    total, pushed := before, stack;
    match h(item.value) {
      case Text(units) =>
        Utf8AtLeastUnits(units);
        total := total + if |units| > stopAfter then stopAfter + 1 else Utf8Length(units);
      case Buffer(byteLength) =>
        total := total + byteLength;
      case View(byteLength, _) =>
        total := total + byteLength;
      case List(items) =>
        total := total + 8;
        pushed := PushEntries(stack, items, item.depth + 1);
      case Record(fields) =>
        var keyUnits;
        pushed, keyUnits := PushFields(stack, fields, item.depth + 1);
        total := total + keyUnits;
      case Special(fields, _, _, _) =>
        var keyUnits;
        pushed, keyUnits := PushFields(stack, fields, item.depth + 1);
        total := total + keyUnits;
      case Dictionary(_) =>
      case Bag(_) =>
      case _ =>
        total := total + 8;
    }
  }

  /** What the walk has counted so far plus what its stack still holds. */
  function Accounted(h: Heap, nodes: nat, bytes: nat, stack: seq<Item>, walk: Walk): Measure {
    Measure(nodes, bytes, true).Plus(StackMeasure(h, stack, walk))
  }

  lemma {:induction false} StartAccounts(h: Heap, root: Ref, walk: Walk)
    ensures Accounted(h, 0, 0, [Item(root, 0)], walk) == Unfold(h, root, walk.maxDepth + 1)
  {
    assert [Item(root, 0)][..0] == [];
    assert StackMeasure(h, [], walk) == ZERO;
  }

  lemma {:induction false} OpenItem(h: Heap, item: Item, walk: Walk)
    requires item.depth <= walk.maxDepth
    ensures ItemMeasure(h, item, walk)
         == Measure(1, OwnBytes(h(item.value)), true)
              .Plus(UnfoldAll(h, Children(h(item.value)), walk.maxDepth - item.depth))
  {
  }

  /** Visiting the top item moves its own share from the stack to the count and loses nothing. */
  lemma {:induction false} VisitAccounts(h: Heap, nodes: nat, bytes: nat, stack: seq<Item>, item: Item, walk: Walk)
    requires item.depth <= walk.maxDepth
    ensures Accounted(h, nodes, bytes, stack + [item], walk)
         == Accounted(h, nodes + 1, bytes + OwnBytes(h(item.value)),
                      stack + Items(Children(h(item.value)), item.depth + 1), walk)
  {
    var kids, own := Children(h(item.value)), OwnBytes(h(item.value));
    PushOne(h, stack, item, walk);
    PushAll(h, stack, kids, item.depth, walk);
    OpenItem(h, item, walk);
    var rest, below := StackMeasure(h, stack, walk), UnfoldAll(h, kids, walk.maxDepth - item.depth);
    RegroupPlus(nodes, bytes, own, rest, below);
  }

  lemma {:induction false} RegroupPlus(nodes: nat, bytes: nat, own: nat, rest: Measure, below: Measure)
    ensures Measure(nodes, bytes, true).Plus(rest.Plus(Measure(1, own, true).Plus(below)))
         == Measure(nodes + 1, bytes + own, true).Plus(rest.Plus(below))
  {
  }

  lemma {:induction false} TooDeepAccounts(h: Heap, nodes: nat, bytes: nat, stack: seq<Item>, item: Item, walk: Walk)
    ensures Accounted(h, nodes, bytes, stack + [item], walk).nodes > nodes
    ensures item.depth > walk.maxDepth ==> !Accounted(h, nodes, bytes, stack + [item], walk).shallow
  {
    PushOne(h, stack, item, walk);
  }

  method MeasureMessageBytes(h: Heap, root: Ref, stopAfter: nat, walk: Walk)
    returns (total: nat, ghost visits: nat)
    ensures total <= stopAfter <==> Fits(Unfold(h, root, walk.maxDepth + 1), stopAfter, walk)
    ensures total <= stopAfter ==> total == Unfold(h, root, walk.maxDepth + 1).bytes
    ensures visits <= walk.maxNodes + 1
  {
    ghost var whole := Unfold(h, root, walk.maxDepth + 1);
    total := 0;
    var nodes := 0;
    visits := 0;
    var stack := [Item(root, 0)];
    StartAccounts(h, root, walk);
    while stack != [] && total <= stopAfter
      invariant nodes == visits <= walk.maxNodes
      invariant total <= stopAfter ==> Accounted(h, nodes, total, stack, walk) == whole
      invariant total > stopAfter ==> whole.bytes > stopAfter
      decreases walk.maxNodes - nodes
    {
      var item := stack[|stack| - 1];
      assert stack == stack[..|stack| - 1] + [item];
      stack := stack[..|stack| - 1];
      TooDeepAccounts(h, nodes, total, stack, item, walk);
      nodes := nodes + 1;
      visits := visits + 1;
      if nodes > walk.maxNodes || item.depth > walk.maxDepth {
        return stopAfter + 1, visits;
      }
      VisitAccounts(h, nodes - 1, total, stack, item, walk);
      total, stack := VisitNode(h, item, total, stopAfter, walk, stack);
    }
  }
}
