/**
 What the host charges for a message that a plugin-frame guest admitted: its walk of the structured
 clone, and when the guest's admission implies the host's.

 The host charges 4 bytes per list entry and per key, keys in UTF-8, and a repeated object 8 bytes;
 the guest charges none of the first two and a repeated object in full, every time.
 */
module HostMeasure {
  import opened MessageMeasure

  // ---------- the host's measure ----------

  /** Bytes charged, the objects seen, and whether the host refuses the message whatever its size. */
  datatype Census = Census(bytes: nat, seen: set<Ref>, refused: bool) {
    function Then(next: Census): Census {
      Census(bytes + next.bytes, next.seen, refused || next.refused)
    }
  }

  predicate IsObject(node: Node) {
    node.Buffer? || node.View? || node.List? || node.Record? || node.Dictionary? || node.Bag? || node.Special?
  }

  function KeyBytes(fields: seq<Field>): nat {
    if fields == [] then 0 else KeyBytes(fields[..|fields| - 1]) + Utf8Length(fields[|fields| - 1].key)
  }

  function HostOwn(node: Node): nat {
    match node
    case Text(units) => Utf8Length(units)
    case Buffer(n) => n
    case View(_, _) => 16
    case List(items) => 8 + 4 * |items|
    case Record(fields) => 4 * |fields| + KeyBytes(fields)
    case Dictionary(pairs) => 8 + 4 * |pairs|
    case Bag(items) => 8 + 4 * |items|
    case Special(_, charge, _, _) => charge
    case Number => 8
    case Flag => 1
    case BigInt(digits) => digits
    case Uncloneable => 0
  }

  /** Keys and values in the order of a map's entries. */
  function Flattened(pairs: seq<Pair>): seq<Ref> {
    if pairs == [] then []
    else Flattened(pairs[..|pairs| - 1]) + [pairs[|pairs| - 1].key, pairs[|pairs| - 1].value]
  }

  function HostChildren(node: Node): seq<Ref> {
    match node
    case View(_, buffer) => [buffer]
    case Dictionary(pairs) => Flattened(pairs)
    case Bag(items) => items
    case Special(_, _, parts, _) => parts
    case _ => Children(node)
  }

  predicate HostRefuses(node: Node) { node.Uncloneable? || (node.Special? && !node.cloneable) }

  /** The host's count of `r`, with `levels` levels left and the given objects already seen. */
  function Count(h: Heap, r: Ref, levels: nat, seen: set<Ref>): Census
    decreases levels, 0
  {
    if !IsObject(h(r)) then Census(HostOwn(h(r)), seen, HostRefuses(h(r)))
    else if r in seen then Census(8, seen, false)
    else if levels == 0 then Census(0, seen + {r}, true)
    else
      Census(HostOwn(h(r)), seen + {r}, HostRefuses(h(r)))
        .Then(CountAll(h, HostChildren(h(r)), levels - 1, seen + {r}))
  }

  function CountAll(h: Heap, rs: seq<Ref>, levels: nat, seen: set<Ref>): Census
    decreases levels, |rs| + 1
  {
    if rs == [] then Census(0, seen, false)
    else
      var before := CountAll(h, rs[..|rs| - 1], levels, seen);
      before.Then(Count(h, rs[|rs| - 1], levels, before.seen))
  }

  /** The host takes a message of this census. */
  predicate Admits(c: Census, stopAfter: nat, maxObjects: nat) {
    !c.refused && |c.seen| <= maxObjects && c.bytes <= stopAfter
  }

  // ---------- the host's walk ----------

  /** One census is no better than another: what the one refuses the other refuses. */
  ghost predicate Below(c: Census, d: Census) {
    c.bytes <= d.bytes && c.seen <= d.seen && (c.refused ==> d.refused)
  }

  lemma {:induction false} SubsetSize(a: set<Ref>, b: set<Ref>)
    requires a <= b
    ensures |a| <= |b|
  {
    assert b == a + (b - a);
  }

  lemma {:induction false} BelowAdmits(c: Census, d: Census, stopAfter: nat, maxObjects: nat)
    requires Below(c, d) && Admits(d, stopAfter, maxObjects)
    ensures Admits(c, stopAfter, maxObjects)
  {
    SubsetSize(c.seen, d.seen);
  }

  lemma {:induction false} CountGrows(h: Heap, r: Ref, levels: nat, seen: set<Ref>)
    ensures seen <= Count(h, r, levels, seen).seen
    decreases levels, 0
  {
    if IsObject(h(r)) && r !in seen && levels > 0 {
      CountAllGrows(h, HostChildren(h(r)), levels - 1, seen + {r});
    }
  }

  lemma {:induction false} CountAllGrows(h: Heap, rs: seq<Ref>, levels: nat, seen: set<Ref>)
    ensures seen <= CountAll(h, rs, levels, seen).seen
    decreases levels, |rs| + 1
  {
    if rs != [] {
      CountAllGrows(h, rs[..|rs| - 1], levels, seen);
      CountGrows(h, rs[|rs| - 1], levels, CountAll(h, rs[..|rs| - 1], levels, seen).seen);
    }
  }

  lemma {:induction false} PrefixBelow(h: Heap, rs: seq<Ref>, k: nat, levels: nat, seen: set<Ref>)
    requires k <= |rs|
    ensures Below(CountAll(h, rs[..k], levels, seen), CountAll(h, rs, levels, seen))
    decreases |rs|
  {
    if k < |rs| {
      var init := rs[..|rs| - 1];
      assert init[..k] == rs[..k];
      PrefixBelow(h, init, k, levels, seen);
      CountGrows(h, rs[|rs| - 1], levels, CountAll(h, init, levels, seen).seen);
    } else {
      assert rs[..k] == rs;
    }
  }

  lemma {:induction false} CountNothing(h: Heap, levels: nat, seen: set<Ref>)
    ensures CountAll(h, [], levels, seen) == Census(0, seen, false)
  {
  }

  lemma {:induction false} CountOneMore(h: Heap, rs: seq<Ref>, k: nat, levels: nat, seen: set<Ref>)
    requires k < |rs|
    ensures var reached := CountAll(h, rs[..k], levels, seen);
            CountAll(h, rs[..k + 1], levels, seen) == reached.Then(Count(h, rs[k], levels, reached.seen))
  {
    assert rs[..k + 1][..k] == rs[..k];
  }

  lemma {:induction false} FieldsOneMore(h: Heap, fields: seq<Field>, k: nat, levels: nat, seen: set<Ref>)
    requires k < |fields|
    ensures KeyBytes(fields[..k + 1]) == KeyBytes(fields[..k]) + Utf8Length(fields[k].key)
    ensures var reached := CountAll(h, Values(fields[..k]), levels, seen);
            CountAll(h, Values(fields[..k + 1]), levels, seen)
            == reached.Then(Count(h, fields[k].value, levels, reached.seen))
  {
    assert fields[..k + 1][..k] == fields[..k];
    assert Values(fields[..k + 1])[..k] == Values(fields[..k]);
  }

  lemma {:induction false} FieldsBelow(h: Heap, fields: seq<Field>, k: nat, levels: nat, seen: set<Ref>)
    requires k <= |fields|
    ensures KeyBytes(fields[..k]) <= KeyBytes(fields)
    ensures Below(CountAll(h, Values(fields[..k]), levels, seen), CountAll(h, Values(fields), levels, seen))
  {
    assert Values(fields[..k]) == Values(fields)[..k];
    PrefixBelow(h, Values(fields), k, levels, seen);
    FewerKeyBytes(fields, k);
  }

  lemma {:induction false} FewerKeyBytes(fields: seq<Field>, k: nat)
    requires k <= |fields|
    ensures KeyBytes(fields[..k]) <= KeyBytes(fields)
    decreases |fields|
  {
    if k < |fields| {
      assert fields[..|fields| - 1][..k] == fields[..k];
      FewerKeyBytes(fields[..|fields| - 1], k);
    } else {
      assert fields[..k] == fields;
    }
  }

  /** The census once an object not seen before is charged and its children counted. */
  function Inside(h: Heap, r: Ref, levels: nat, before: Census): Census {
    before.Then(Census(HostOwn(h(r)), before.seen, HostRefuses(h(r))))
      .Then(CountAll(h, HostChildren(h(r)), levels, before.seen))
  }

  lemma {:induction false} OpenObject(h: Heap, r: Ref, levels: nat, before: Census)
    requires IsObject(h(r)) && r !in before.seen && levels > 0
    ensures before.Then(Count(h, r, levels, before.seen))
         == Inside(h, r, levels - 1, before.(seen := before.seen + {r}))
  {
  }

  lemma {:induction false} PairOneMore(h: Heap, pairs: seq<Pair>, k: nat, levels: nat, seen: set<Ref>)
    requires k < |pairs|
    ensures var reached := CountAll(h, Flattened(pairs[..k]), levels, seen);
            var keyed := reached.Then(Count(h, pairs[k].key, levels, reached.seen));
            CountAll(h, Flattened(pairs[..k + 1]), levels, seen)
            == keyed.Then(Count(h, pairs[k].value, levels, keyed.seen))
  {
    hide Count;
    assert pairs[..k + 1][..k] == pairs[..k];
    var flat, p := Flattened(pairs[..k]), pairs[k];
    assert Flattened(pairs[..k + 1]) == flat + [p.key, p.value];
    CountOneMore(h, flat + [p.key, p.value], |flat|, levels, seen);
    CountOneMore(h, flat + [p.key, p.value], |flat| + 1, levels, seen);
    assert (flat + [p.key, p.value])[..|flat|] == flat;
    assert (flat + [p.key, p.value])[..|flat| + 2] == flat + [p.key, p.value];
  }

  lemma {:induction false} FlattenedPrefix(pairs: seq<Pair>, k: nat)
    requires k <= |pairs|
    ensures |Flattened(pairs)| == 2 * |pairs| && Flattened(pairs[..k]) == Flattened(pairs)[..2 * k]
    decreases |pairs|
  {
    if k < |pairs| {
      var init := pairs[..|pairs| - 1];
      assert init[..k] == pairs[..k];
      FlattenedPrefix(init, k);
    } else {
      assert pairs[..k] == pairs;
      if pairs != [] {
        FlattenedPrefix(pairs[..|pairs| - 1], |pairs| - 1);
      }
    }
  }

  lemma {:induction false} PairsBelow(h: Heap, pairs: seq<Pair>, k: nat, levels: nat, seen: set<Ref>)
    requires k <= |pairs|
    ensures Below(CountAll(h, Flattened(pairs[..k]), levels, seen), CountAll(h, Flattened(pairs), levels, seen))
  {
    FlattenedPrefix(pairs, k);
    PrefixBelow(h, Flattened(pairs), 2 * k, levels, seen);
  }

  class HostWalk {
    const heap: Heap
    const stopAfter: nat
    const maxObjects: nat
    const maxDepth: nat
    var total: nat
    var visitedNodes: nat
    var seen: set<Ref>

    constructor (heap: Heap, stopAfter: nat, maxObjects: nat, maxDepth: nat)
      ensures this.heap == heap && this.stopAfter == stopAfter
      ensures this.maxObjects == maxObjects && this.maxDepth == maxDepth
      ensures Matches(Census(0, {}, false))
    {
      this.heap, this.stopAfter, this.maxObjects, this.maxDepth := heap, stopAfter, maxObjects, maxDepth;
      total, visitedNodes, seen := 0, 0, {};
    }

    /** The walk has counted `c`: exactly while the host still takes it, and as too much after that. */
    ghost predicate Matches(c: Census) reads this {
      if Admits(c, stopAfter, maxObjects) then total == c.bytes && visitedNodes == |c.seen| && seen == c.seen
      else total == stopAfter + 1
    }

    method Add(bytes: nat, ghost before: Census)
      requires Matches(before)
      modifies this`total
      ensures Matches(before.(bytes := before.bytes + bytes))
    {
      total := if total + bytes > stopAfter then stopAfter + 1 else total + bytes;
    }

    method Refuse()
      modifies this`total
      ensures forall c: Census :: c.refused ==> Matches(c)
    {
      total := stopAfter + 1;
    }

    method AddText(units: seq<CodeUnit>, ghost before: Census)
      requires Matches(before) && total <= stopAfter
      modifies this`total
      ensures Matches(before.(bytes := before.bytes + Utf8Length(units)))
    {
      Utf8AtLeastUnits(units);
      var bytes := if |units| > stopAfter - total then stopAfter - total + 1 else Utf8Length(units);
      total := if total + bytes > stopAfter then stopAfter + 1 else total + bytes;
    }

    /** The census of a list's first entries, each with its fee. */
    ghost function Entries(items: seq<Ref>, levels: nat, before: Census): Census {
      before.(bytes := before.bytes + 4 * |items|).Then(CountAll(heap, items, levels, before.seen))
    }

    ghost function Parts(items: seq<Ref>, levels: nat, before: Census): Census {
      before.Then(CountAll(heap, items, levels, before.seen))
    }

    /** The census of a record's first fields, each with its fee and its key. */
    ghost function Entered(fields: seq<Field>, levels: nat, before: Census): Census {
      before.(bytes := before.bytes + 4 * |fields| + KeyBytes(fields))
        .Then(CountAll(heap, Values(fields), levels, before.seen))
    }

    method VisitEntries(items: seq<Ref>, depth: nat, ghost before: Census)
      requires Matches(before) && depth <= maxDepth + 1
      modifies this
      ensures Matches(Entries(items, maxDepth + 1 - depth, before))
      decreases maxDepth + 1 - depth, 1
    {
      hide Count, CountAll;
      ghost var levels := maxDepth + 1 - depth;
      CountNothing(heap, levels, before.seen);
      assert items[..0] == [];
      for k := 0 to |items|
        invariant Matches(Entries(items[..k], levels, before))
      {
        ghost var reached := Entries(items[..k], levels, before);
        Add(4, reached);
        Visit(items[k], depth, reached.(bytes := reached.bytes + 4));
        CountOneMore(heap, items, k, levels, before.seen);
        assert Matches(Entries(items[..k + 1], levels, before));
        if total > stopAfter {
          PrefixBelow(heap, items, k + 1, levels, before.seen);
          NeverAdmitted(Entries(items[..k + 1], levels, before), Entries(items, levels, before));
          return;
        }
      }
      assert items[..|items|] == items;
    }

    method VisitParts(items: seq<Ref>, depth: nat, ghost before: Census)
      requires Matches(before) && depth <= maxDepth + 1
      modifies this
      ensures Matches(Parts(items, maxDepth + 1 - depth, before))
      decreases maxDepth + 1 - depth, 1
    {
      hide Count, CountAll;
      ghost var levels := maxDepth + 1 - depth;
      CountNothing(heap, levels, before.seen);
      assert items[..0] == [];
      for k := 0 to |items|
        invariant Matches(Parts(items[..k], levels, before))
      {
        Visit(items[k], depth, Parts(items[..k], levels, before));
        CountOneMore(heap, items, k, levels, before.seen);
      }
      assert items[..|items|] == items;
    }

    /** The census of a map's first entries, each with its fee. */
    ghost function Paired(pairs: seq<Pair>, levels: nat, before: Census): Census {
      before.(bytes := before.bytes + 4 * |pairs|).Then(CountAll(heap, Flattened(pairs), levels, before.seen))
    }

    /** One entry of a map: its fee, its key and its value. */
    method VisitPair(pair: Pair, depth: nat, ghost before: Census)
      requires Matches(before) && depth <= maxDepth + 1
      modifies this
      ensures var levels := maxDepth + 1 - depth;
              var keyed := before.(bytes := before.bytes + 4).Then(Count(heap, pair.key, levels, before.seen));
              Matches(keyed.Then(Count(heap, pair.value, levels, keyed.seen)))
      decreases maxDepth + 1 - depth, 1
    {
      hide Count, CountAll;
      ghost var levels := maxDepth + 1 - depth;
      Add(4, before);
      Visit(pair.key, depth, before.(bytes := before.bytes + 4));
      Visit(
        pair.value, depth, before.(bytes := before.bytes + 4).Then(Count(heap, pair.key, levels, before.seen)));
    }

    method VisitPairs(pairs: seq<Pair>, depth: nat, ghost before: Census)
      requires Matches(before) && depth <= maxDepth + 1
      modifies this
      ensures Matches(Paired(pairs, maxDepth + 1 - depth, before))
      decreases maxDepth + 1 - depth, 2
    {
      hide Count, CountAll, Below;
      ghost var levels := maxDepth + 1 - depth;
      CountNothing(heap, levels, before.seen);
      assert Flattened(pairs[..0]) == [];
      for k := 0 to |pairs|
        invariant Matches(Paired(pairs[..k], levels, before))
      {
        VisitPair(pairs[k], depth, Paired(pairs[..k], levels, before));
        PairOneMore(heap, pairs, k, levels, before.seen);
        assert Matches(Paired(pairs[..k + 1], levels, before));
        if total > stopAfter {
          PairedBelow(pairs, k + 1, levels, before);
          NeverAdmitted(Paired(pairs[..k + 1], levels, before), Paired(pairs, levels, before));
          return;
        }
      }
      assert pairs[..|pairs|] == pairs;
    }

    lemma {:induction false} PairedBelow(pairs: seq<Pair>, k: nat, levels: nat, before: Census)
      requires k <= |pairs|
      ensures Below(Paired(pairs[..k], levels, before), Paired(pairs, levels, before))
    {
      hide CountAll, Flattened;
      PairsBelow(heap, pairs, k, levels, before.seen);
    }

    /** One field: its fee, its key and its value. */
    method VisitField(field: Field, depth: nat, ghost before: Census)
      requires Matches(before) && depth <= maxDepth + 1
      modifies this
      ensures var entered := before.(bytes := before.bytes + 4 + Utf8Length(field.key));
              Matches(entered.Then(Count(heap, field.value, maxDepth + 1 - depth, entered.seen)))
      decreases maxDepth + 1 - depth, 1
    {
      hide Count, CountAll;
      Add(4, before);
      if total <= stopAfter {
        AddText(field.key, before.(bytes := before.bytes + 4));
      }
      Visit(field.value, depth, before.(bytes := before.bytes + 4 + Utf8Length(field.key)));
    }

    method VisitFields(fields: seq<Field>, depth: nat, ghost before: Census)
      requires Matches(before) && depth <= maxDepth + 1
      modifies this
      ensures Matches(Entered(fields, maxDepth + 1 - depth, before))
      decreases maxDepth + 1 - depth, 2
    {
      hide Count, CountAll, Below, Utf8Length;
      ghost var levels := maxDepth + 1 - depth;
      CountNothing(heap, levels, before.seen);
      assert Values(fields[..0]) == [];
      for k := 0 to |fields|
        invariant Matches(Entered(fields[..k], levels, before))
      {
        VisitField(fields[k], depth, Entered(fields[..k], levels, before));
        FieldsOneMore(heap, fields, k, levels, before.seen);
        assert Matches(Entered(fields[..k + 1], levels, before));
        if total > stopAfter {
          EnteredBelow(fields, k + 1, levels, before);
          NeverAdmitted(Entered(fields[..k + 1], levels, before), Entered(fields, levels, before));
          return;
        }
      }
      assert fields[..|fields|] == fields;
    }

    lemma {:induction false} EnteredBelow(fields: seq<Field>, k: nat, levels: nat, before: Census)
      requires k <= |fields|
      ensures Below(Entered(fields[..k], levels, before), Entered(fields, levels, before))
    {
      hide CountAll, KeyBytes;
      FieldsBelow(heap, fields, k, levels, before.seen);
    }

    lemma {:induction false} NeverAdmitted(c: Census, d: Census)
      requires Matches(c) && total > stopAfter && Below(c, d)
      ensures Matches(d)
    {
      if Admits(d, stopAfter, maxObjects) {
        BelowAdmits(c, d, stopAfter, maxObjects);
      }
    }

    /** The recursive visit of one value. */
    method Visit(value: Ref, depth: nat, ghost before: Census)
      requires Matches(before) && depth <= maxDepth + 1
      modifies this
      ensures Matches(before.Then(Count(heap, value, maxDepth + 1 - depth, before.seen)))
      decreases maxDepth + 1 - depth, 0
    {
      hide CountAll;
      ghost var whole := before.Then(Count(heap, value, maxDepth + 1 - depth, before.seen));
      if total > stopAfter {
        CountGrows(heap, value, maxDepth + 1 - depth, before.seen);
        NeverAdmitted(before, whole);
        return;
      }
      match heap(value) {
        case Text(units) => AddText(units, before); return;
        case Number => Add(8, before); return;
        case Flag => Add(1, before); return;
        case BigInt(digits) => Add(digits, before); return;
        case Uncloneable => Refuse(); return;
        case _ =>
      }
      if value in seen {
        Add(8, before);
        return;
      }
      seen := seen + {value};
      visitedNodes := visitedNodes + 1;
      ghost var entered := before.(seen := before.seen + {value});
      if visitedNodes > maxObjects || depth > maxDepth {
        total := stopAfter + 1;
        ObjectRefused(value, depth, before);
        return;
      }
      VisitObject(value, depth, entered);
      OpenObject(heap, value, maxDepth + 1 - depth, before);
    }

    lemma {:induction false} ObjectRefused(value: Ref, depth: nat, before: Census)
      requires IsObject(heap(value)) && value !in before.seen && depth <= maxDepth + 1
      requires |before.seen + {value}| > maxObjects || depth > maxDepth
      ensures !Admits(before.Then(Count(heap, value, maxDepth + 1 - depth, before.seen)), stopAfter, maxObjects)
    {
      if depth <= maxDepth {
        CountAllGrows(heap, HostChildren(heap(value)), maxDepth - depth, before.seen + {value});
        SubsetSize(before.seen + {value}, Count(heap, value, maxDepth + 1 - depth, before.seen).seen);
      }
    }

    /** The charges of an object not seen before. */
    method VisitObject(value: Ref, depth: nat, ghost before: Census)
      requires Matches(before) && IsObject(heap(value)) && depth <= maxDepth
      modifies this
      ensures Matches(Inside(heap, value, maxDepth - depth, before))
      decreases maxDepth - depth, 3
    {
      hide Count, CountAll, KeyBytes, Matches;
      CountNothing(heap, maxDepth - depth, before.seen);
      match heap(value) {
        case Buffer(byteLength) =>
          Add(byteLength, before);
        case View(_, buffer) =>
          Add(16, before);
          VisitParts([buffer], depth + 1, before.(bytes := before.bytes + 16));
        case List(items) =>
          Add(8, before);
          VisitEntries(items, depth + 1, before.(bytes := before.bytes + 8));
        case Record(fields) =>
          VisitFields(fields, depth + 1, before);
        case Dictionary(pairs) =>
          Add(8, before);
          VisitPairs(pairs, depth + 1, before.(bytes := before.bytes + 8));
        case Bag(items) =>
          Add(8, before);
          VisitEntries(items, depth + 1, before.(bytes := before.bytes + 8));
        case Special(_, charge, parts, cloneable) =>
          if !cloneable {
            Refuse();
            return;
          }
          Add(charge, before);
          VisitParts(parts, depth + 1, before.(bytes := before.bytes + charge));
        case _ =>
      }
    }
  }

  /** The host's size: within the cap exactly when it takes the message, and then what it charges. */
  method StructuredCloneMessageBytes(h: Heap, data: Ref, stopAfter: nat, maxObjects: nat, maxDepth: nat)
    returns (total: nat)
    ensures total <= stopAfter <==> Admits(Count(h, data, maxDepth + 1, {}), stopAfter, maxObjects)
    ensures total <= stopAfter ==> total == Count(h, data, maxDepth + 1, {}).bytes
  {
    hide Count, CountAll;
    var walk := new HostWalk(h, stopAfter, maxObjects, maxDepth);
    walk.Visit(data, 0, Census(0, {}, false));
    total := walk.total;
  }

  // ---------- guest against host ----------

  /** Values that both sides look into alike: no views, maps, sets or special objects, and nothing uncloneable. */
  predicate Plain(node: Node) {
    !(node.View? || node.Dictionary? || node.Bag? || node.Special? || node.Uncloneable?)
  }

  ghost predicate PlainHeap(h: Heap) { forall r :: Plain(h(r)) }

  /** What the host charges for a node beyond the guest. */
  function NodeToll(node: Node): int { HostOwn(node) - OwnBytes(node) }

  /** What the host charges beyond the guest: 8 for a repeated object instead of its size over again. */
  function Toll(h: Heap, r: Ref, levels: nat, seen: set<Ref>): int
    decreases levels, 0
  {
    if IsObject(h(r)) && r in seen then 8 - Unfold(h, r, levels).bytes
    else if levels == 0 then 0
    else NodeToll(h(r)) + TollAll(h, Children(h(r)), levels - 1, seen + if IsObject(h(r)) then {r} else {})
  }

  function TollAll(h: Heap, rs: seq<Ref>, levels: nat, seen: set<Ref>): int
    decreases levels, |rs| + 1
  {
    if rs == [] then 0
    else
      var init := rs[..|rs| - 1];
      TollAll(h, init, levels, seen) + Toll(h, rs[|rs| - 1], levels, CountAll(h, init, levels, seen).seen)
  }

  /** The host counts what the guest counts and the toll, refuses nothing and sees no more objects than nodes. */
  ghost predicate Charged(c: Census, m: Measure, toll: int, seen: set<Ref>) {
    !c.refused && c.bytes == m.bytes + toll && |c.seen| <= |seen| + m.nodes
  }

  lemma {:induction false} CountIsCharged(h: Heap, r: Ref, levels: nat, seen: set<Ref>)
    requires PlainHeap(h) && Unfold(h, r, levels).shallow
    ensures Charged(Count(h, r, levels, seen), Unfold(h, r, levels), Toll(h, r, levels, seen), seen)
    decreases levels, 0
  {
    assert Plain(h(r));
    if !IsObject(h(r)) {
      assert Children(h(r)) == [];
    } else if r !in seen {
      CountAllIsCharged(h, Children(h(r)), levels - 1, seen + {r});
    }
  }

  lemma {:induction false} CountAllIsCharged(h: Heap, rs: seq<Ref>, levels: nat, seen: set<Ref>)
    requires PlainHeap(h) && UnfoldAll(h, rs, levels).shallow
    ensures Charged(CountAll(h, rs, levels, seen), UnfoldAll(h, rs, levels), TollAll(h, rs, levels, seen), seen)
    decreases levels, |rs| + 1
  {
    if rs != [] {
      hide Count, Unfold, Toll;
      var init, last := rs[..|rs| - 1], rs[|rs| - 1];
      CountAllIsCharged(h, init, levels, seen);
      CountIsCharged(h, last, levels, CountAll(h, init, levels, seen).seen);
    }
  }

  /**
   Main result: a plain message that the guest admits is one the host can admit exactly when the
   guest's size and the toll fit the host's cap together.
   */
  lemma {:induction false} AdmissionCarriesOverExactly(h: Heap, root: Ref, maxBytes: nat, hostBytes: nat, walk: Walk)
    requires PlainHeap(h) && Fits(Unfold(h, root, walk.maxDepth + 1), maxBytes, walk)
    ensures Admits(Count(h, root, walk.maxDepth + 1, {}), hostBytes, walk.maxNodes)
            <==> Unfold(h, root, walk.maxDepth + 1).bytes + Toll(h, root, walk.maxDepth + 1, {}) <= hostBytes
  {
    CountIsCharged(h, root, walk.maxDepth + 1, {});
  }

  // ---------- the toll without repeated objects ----------

  /** The host's surcharge on a node: 4 per entry or key, and what the guest counts otherwise. */
  function Surcharge(node: Node): int {
    match node
    case List(items) => 4 * |items|
    case Record(fields) => 4 * |fields| + (KeyBytes(fields) - KeyUnits(fields))
    case Flag => -7
    case BigInt(digits) => digits - 8
    case _ => 0
  }

  /** The surcharges of a whole message, node by node. */
  function Surcharges(h: Heap, r: Ref, levels: nat): int
    decreases levels, 0
  {
    if levels == 0 then 0 else Surcharge(h(r)) + SurchargesAll(h, Children(h(r)), levels - 1)
  }

  function SurchargesAll(h: Heap, rs: seq<Ref>, levels: nat): int
    decreases levels, |rs| + 1
  {
    if rs == [] then 0 else SurchargesAll(h, rs[..|rs| - 1], levels) + Surcharges(h, rs[|rs| - 1], levels)
  }

  /** The objects of a message in the order the host meets them, a repeated one each time. */
  function Objects(h: Heap, r: Ref, levels: nat): seq<Ref>
    decreases levels, 0
  {
    if !IsObject(h(r)) || levels == 0 then [] else [r] + ObjectsAll(h, Children(h(r)), levels - 1)
  }

  function ObjectsAll(h: Heap, rs: seq<Ref>, levels: nat): seq<Ref>
    decreases levels, |rs| + 1
  {
    if rs == [] then [] else ObjectsAll(h, rs[..|rs| - 1], levels) + Objects(h, rs[|rs| - 1], levels)
  }

  ghost predicate Distinct(s: seq<Ref>) { forall i, j :: 0 <= i < j < |s| ==> s[i] != s[j] }

  function Elements(s: seq<Ref>): set<Ref> { set r | r in s }

  lemma {:induction false} DistinctParts(a: seq<Ref>, b: seq<Ref>, seen: set<Ref>)
    requires Distinct(a + b) && Elements(a + b) !! seen
    ensures Distinct(a) && Distinct(b) && Elements(a) !! seen && Elements(b) !! seen + Elements(a)
    ensures Elements(a + b) == Elements(a) + Elements(b)
  {
    assert forall i :: 0 <= i < |a| ==> (a + b)[i] == a[i];
    assert forall i :: 0 <= i < |b| ==> (a + b)[|a| + i] == b[i];
  }

  lemma {:induction false} TollIsSurcharges(h: Heap, r: Ref, levels: nat, seen: set<Ref>)
    requires PlainHeap(h) && Unfold(h, r, levels).shallow
    requires Distinct(Objects(h, r, levels)) && Elements(Objects(h, r, levels)) !! seen
    ensures Toll(h, r, levels, seen) == Surcharges(h, r, levels)
    ensures Count(h, r, levels, seen).seen == seen + Elements(Objects(h, r, levels))
    decreases levels, 0
  {
    assert Plain(h(r));
    var kids := Children(h(r));
    if IsObject(h(r)) {
      hide Elements;
      var below := ObjectsAll(h, kids, levels - 1);
      DistinctParts([r], below, seen);
      ElementsOfOne(r);
      assert r in Elements([r]);
      TollsAreSurcharges(h, kids, levels - 1, seen + {r});
      assert seen + {r} + Elements(below) == seen + ({r} + Elements(below));
    } else {
      assert kids == [];
      assert Elements([]) == {} && seen + {} == seen;
    }
  }

  lemma {:induction false} ElementsOfOne(r: Ref)
    ensures Elements([r]) == {r} && Elements([]) == {}
  {
  }

  lemma {:induction false} TollsAreSurcharges(h: Heap, rs: seq<Ref>, levels: nat, seen: set<Ref>)
    requires PlainHeap(h) && UnfoldAll(h, rs, levels).shallow
    requires Distinct(ObjectsAll(h, rs, levels)) && Elements(ObjectsAll(h, rs, levels)) !! seen
    ensures TollAll(h, rs, levels, seen) == SurchargesAll(h, rs, levels)
    ensures CountAll(h, rs, levels, seen).seen == seen + Elements(ObjectsAll(h, rs, levels))
    decreases levels, |rs| + 1
  {
    if rs == [] {
      ElementsOfOne(0);
    } else {
      hide Elements, Count, Unfold, Toll, Objects, Surcharges;
      var init, last := rs[..|rs| - 1], rs[|rs| - 1];
      DistinctParts(ObjectsAll(h, init, levels), Objects(h, last, levels), seen);
      TollsAreSurcharges(h, init, levels, seen);
      TollIsSurcharges(h, last, levels, CountAll(h, init, levels, seen).seen);
      assert seen + Elements(ObjectsAll(h, init, levels)) + Elements(Objects(h, last, levels))
          == seen + (Elements(ObjectsAll(h, init, levels)) + Elements(Objects(h, last, levels)));
    }
  }

  /**
   So for a plain message without repeated objects the host admits what the guest admits exactly when
   the guest's size, 4 per entry and key, the keys' extra bytes, 8 less per bigint of its digits, and 7
   less per flag fit the host's cap.
   */
  lemma {:induction false} AdmissionWithoutRepeats(h: Heap, root: Ref, maxBytes: nat, hostBytes: nat, walk: Walk)
    requires PlainHeap(h) && Fits(Unfold(h, root, walk.maxDepth + 1), maxBytes, walk)
    requires Distinct(Objects(h, root, walk.maxDepth + 1))
    ensures Admits(Count(h, root, walk.maxDepth + 1, {}), hostBytes, walk.maxNodes)
            <==> Unfold(h, root, walk.maxDepth + 1).bytes + Surcharges(h, root, walk.maxDepth + 1) <= hostBytes
  {
    hide Count, Unfold, Toll, Surcharges, Objects;
    TollIsSurcharges(h, root, walk.maxDepth + 1, {});
    AdmissionCarriesOverExactly(h, root, maxBytes, hostBytes, walk);
  }

  lemma {:induction false} KeyBytesBounds(fields: seq<Field>)
    ensures KeyUnits(fields) <= KeyBytes(fields) <= 3 * KeyUnits(fields)
  {
    if fields != [] {
      KeyBytesBounds(fields[..|fields| - 1]);
      Utf8AtLeastUnits(fields[|fields| - 1].key);
    }
  }

  ghost predicate NoBigInts(h: Heap) { forall r :: !h(r).BigInt? }

  /** The host charges at most three times the guest's size and 12 per node. */
  lemma {:induction false} CountIsBounded(h: Heap, r: Ref, levels: nat, seen: set<Ref>)
    requires PlainHeap(h) && NoBigInts(h) && Unfold(h, r, levels).shallow
    ensures Count(h, r, levels, seen).bytes + 4 <= 3 * Unfold(h, r, levels).bytes + 12 * Unfold(h, r, levels).nodes
    decreases levels, 0
  {
    assert Plain(h(r)) && !h(r).BigInt?;
    if IsObject(h(r)) && r !in seen {
      CountAllIsBounded(h, Children(h(r)), levels - 1, seen + {r});
      match h(r)
      case Record(fields) => KeyBytesBounds(fields);
      case _ =>
    }
  }

  lemma {:induction false} CountAllIsBounded(h: Heap, rs: seq<Ref>, levels: nat, seen: set<Ref>)
    requires PlainHeap(h) && NoBigInts(h) && UnfoldAll(h, rs, levels).shallow
    ensures var m := UnfoldAll(h, rs, levels);
            CountAll(h, rs, levels, seen).bytes + 4 * |rs| <= 3 * m.bytes + 12 * m.nodes
    decreases levels, |rs| + 1
  {
    if rs != [] {
      hide Count, Unfold;
      var init, last := rs[..|rs| - 1], rs[|rs| - 1];
      CountAllIsBounded(h, init, levels, seen);
      CountIsBounded(h, last, levels, CountAll(h, init, levels, seen).seen);
    }
  }

  /** A host cap this much wider admits every plain message without bigints that the guest admits. */
  lemma {:induction false} WiderCapAdmitsAll(h: Heap, root: Ref, maxBytes: nat, walk: Walk)
    requires PlainHeap(h) && NoBigInts(h) && Fits(Unfold(h, root, walk.maxDepth + 1), maxBytes, walk)
    ensures Admits(Count(h, root, walk.maxDepth + 1, {}), 3 * maxBytes + 12 * walk.maxNodes, walk.maxNodes)
  {
    hide Count, Unfold;
    CountIsCharged(h, root, walk.maxDepth + 1, {});
    CountIsBounded(h, root, walk.maxDepth + 1, {});
  }

  // ---------- inputs that the guest admits and the host does not ----------

  function NumberList(n: nat): Heap { (r: Ref) => if r == 0 then List(seq(n, i => 1)) else Number }

  lemma {:induction false} LeafUnfolds(h: Heap, r: Ref, levels: nat)
    requires levels > 0 && Children(h(r)) == []
    ensures Unfold(h, r, levels) == Measure(1, OwnBytes(h(r)), true)
    ensures !IsObject(h(r)) ==> forall seen :: Toll(h, r, levels, seen) == NodeToll(h(r))
  {
  }

  lemma {:induction false} NumberCounts(h: Heap, r: Ref, levels: nat, seen: set<Ref>)
    requires levels > 0 && h(r) == Number
    ensures Unfold(h, r, levels) == Measure(1, 8, true) && Toll(h, r, levels, seen) == 0
  {
    hide Unfold, UnfoldAll, Toll, TollAll, Count, CountAll;
    LeafUnfolds(h, r, levels);
  }

  lemma {:induction false} NumbersCount(h: Heap, rs: seq<Ref>, levels: nat, seen: set<Ref>)
    requires levels > 0 && forall r <- rs :: h(r) == Number
    ensures UnfoldAll(h, rs, levels) == Measure(|rs|, 8 * |rs|, true)
    ensures TollAll(h, rs, levels, seen) == 0
  {
    if rs != [] {
      hide Unfold, Toll, Count, CountAll;
      var init, last := rs[..|rs| - 1], rs[|rs| - 1];
      NumbersCount(h, init, levels, seen);
      NumberCounts(h, last, levels, CountAll(h, init, levels, seen).seen);
    }
  }

  /** A list of n numbers: the host charges 4 more for each, so the caps between tell the two apart. */
  lemma {:induction false} NumberListsDiffer(n: nat, maxBytes: nat, hostBytes: nat, walk: Walk)
    requires n < walk.maxNodes && walk.maxDepth > 0
    ensures Fits(Unfold(NumberList(n), 0, walk.maxDepth + 1), maxBytes, walk) <==> 8 + 8 * n <= maxBytes
    ensures Fits(Unfold(NumberList(n), 0, walk.maxDepth + 1), maxBytes, walk) ==>
              (Admits(Count(NumberList(n), 0, walk.maxDepth + 1, {}), hostBytes, walk.maxNodes)
               <==> 8 + 12 * n <= hostBytes)
  {
    var h := NumberList(n);
    NumbersCount(h, Children(h(0)), walk.maxDepth, {0});
    assert {} + {0} == {0};
    if Fits(Unfold(h, 0, walk.maxDepth + 1), maxBytes, walk) {
      AdmissionCarriesOverExactly(h, 0, maxBytes, hostBytes, walk);
    }
  }

  const GUEST_BYTES: nat := 64 * 1024 + 1024
  /** The host's cap on an ordinary message. */
  const PANEL_BYTES: nat := 64 * 1024

  /** 8000 numbers fit the guest's shared lane, and neither the host's cap nor one as wide as the lane. */
  lemma {:induction false} ManyNumbersAreRefused()
    ensures var walk := Walk(10_000, 100); var h := NumberList(8000);
            && Fits(Unfold(h, 0, walk.maxDepth + 1), GUEST_BYTES, walk)
            && !Admits(Count(h, 0, walk.maxDepth + 1, {}), PANEL_BYTES, walk.maxNodes)
            && !Admits(Count(h, 0, walk.maxDepth + 1, {}), GUEST_BYTES, walk.maxNodes)
  {
    NumberListsDiffer(8000, GUEST_BYTES, PANEL_BYTES, Walk(10_000, 100));
    NumberListsDiffer(8000, GUEST_BYTES, GUEST_BYTES, Walk(10_000, 100));
  }

  function ViewOf(size: nat): Heap { (r: Ref) => if r == 0 then View(0, 1) else Buffer(size) }

  lemma {:induction false} HostCharges(h: Heap, r: Ref, levels: nat)
    requires IsObject(h(r))
    ensures Count(h, r, levels + 1, {})
         == Census(HostOwn(h(r)), {r}, HostRefuses(h(r))).Then(CountAll(h, HostChildren(h(r)), levels, {r}))
  {
    assert {} + {r} == {r};
  }

  lemma {:induction false} BufferCount(h: Heap, r: Ref, levels: nat, seen: set<Ref>)
    requires h(r).Buffer? && r !in seen
    ensures Count(h, r, levels, seen)
         == if levels == 0 then Census(0, seen + {r}, true) else Census(h(r).byteLength, seen + {r}, false)
  {
  }

  /** An empty view hides the whole buffer under it from the guest. */
  lemma {:induction false} ViewsHideTheirBuffer(size: nat, maxBytes: nat, walk: Walk)
    requires size > maxBytes && walk.maxNodes > 0
    ensures Fits(Unfold(ViewOf(size), 0, walk.maxDepth + 1), maxBytes, walk)
    ensures !Admits(Count(ViewOf(size), 0, walk.maxDepth + 1, {}), maxBytes, walk.maxNodes)
  {
    hide Unfold, Count, CountAll;
    var h := ViewOf(size);
    LeafUnfolds(h, 0, walk.maxDepth + 1);
    HostCharges(h, 0, walk.maxDepth);
    BufferCount(h, 1, walk.maxDepth, {0});
    CountNothing(h, walk.maxDepth, {0});
    CountOneMore(h, [1], 0, walk.maxDepth, {0});
    assert [1][..1] == [1] && [1][..0] == [];
  }

  function NumberMap(n: nat): Heap {
    (r: Ref) => if r == 0 then Dictionary(seq(n, (i: nat) => Pair(i + 1, i + 1))) else Number
  }

  lemma {:induction false} NumbersCharge(h: Heap, rs: seq<Ref>, levels: nat, seen: set<Ref>)
    requires forall r <- rs :: h(r) == Number
    ensures CountAll(h, rs, levels, seen) == Census(8 * |rs|, seen, false)
  {
    if rs != [] {
      NumbersCharge(h, rs[..|rs| - 1], levels, seen);
      assert Count(h, rs[|rs| - 1], levels, seen) == Census(8, seen, false);
    }
  }

  lemma {:induction false} FlattenedOver(pairs: seq<Pair>, r: Ref)
    requires r in Flattened(pairs)
    ensures exists p <- pairs :: r == p.key || r == p.value
  {
    var init, last := pairs[..|pairs| - 1], pairs[|pairs| - 1];
    if r in Flattened(init) {
      FlattenedOver(init, r);
      var p :| p in init && (r == p.key || r == p.value);
      assert p in pairs;
    } else {
      assert last in pairs;
    }
  }

  /**
   A map of n numbers is nothing to the guest, whatever n is, and 20 bytes an entry and 8 to the host: a
   map hides any size, as a set does.
   */
  lemma {:induction false} MapsHideTheirEntries(n: nat, maxBytes: nat, hostBytes: nat, walk: Walk)
    requires walk.maxNodes > 0
    ensures Fits(Unfold(NumberMap(n), 0, walk.maxDepth + 1), maxBytes, walk)
    ensures Admits(Count(NumberMap(n), 0, walk.maxDepth + 1, {}), hostBytes, walk.maxNodes) <==> 8 + 20 * n <= hostBytes
  {
    hide Unfold, Count, CountAll;
    var h := NumberMap(n);
    var pairs := h(0).pairs;
    LeafUnfolds(h, 0, walk.maxDepth + 1);
    HostCharges(h, 0, walk.maxDepth);
    forall r | r in Flattened(pairs) ensures h(r) == Number {
      FlattenedOver(pairs, r);
    }
    NumbersCharge(h, Flattened(pairs), walk.maxDepth, {0});
    FlattenedPrefix(pairs, 0);
  }

  // ---------- keys in UTF-8 ----------

  predicate Ascii(s: seq<CodeUnit>) { forall u <- s :: u < 0x80 }

  /** The header's measure: strings, keys among them, in UTF-8. */
  function Utf8Own(node: Node): nat {
    if node.Record? || node.Special? then KeyBytes(node.fields) else OwnBytes(node)
  }

  function Utf8Size(h: Heap, r: Ref, levels: nat): nat
    decreases levels, 0
  {
    if levels == 0 then 0 else Utf8Own(h(r)) + Utf8SizeAll(h, Children(h(r)), levels - 1)
  }

  function Utf8SizeAll(h: Heap, rs: seq<Ref>, levels: nat): nat
    decreases levels, |rs| + 1
  {
    if rs == [] then 0 else Utf8SizeAll(h, rs[..|rs| - 1], levels) + Utf8Size(h, rs[|rs| - 1], levels)
  }

  predicate AsciiKeys(node: Node) {
    node.Record? || node.Special? ==> forall f <- node.fields :: Ascii(f.key)
  }

  /** Every key that the guest's walk reaches is ASCII. */
  predicate AsciiUnder(h: Heap, r: Ref, levels: nat)
    decreases levels, 0
  {
    levels == 0 || (AsciiKeys(h(r)) && AsciiUnderAll(h, Children(h(r)), levels - 1))
  }

  predicate AsciiUnderAll(h: Heap, rs: seq<Ref>, levels: nat)
    decreases levels, |rs| + 1
  {
    rs == [] || (AsciiUnderAll(h, rs[..|rs| - 1], levels) && AsciiUnder(h, rs[|rs| - 1], levels))
  }

  lemma {:induction false} UnitsAreBytesForAscii(s: seq<CodeUnit>)
    ensures |s| <= Utf8Length(s) && (|s| == Utf8Length(s) <==> Ascii(s))
  {
    if s == [] {
    } else if HighSurrogate(s[0]) && |s| > 1 && LowSurrogate(s[1]) {
      Utf8AtLeastUnits(s[2..]);
      assert s[0] in s && !Ascii(s);
    } else {
      UnitsAreBytesForAscii(s[1..]);
      assert forall u <- s :: u == s[0] || u in s[1..];
      assert s[0] in s;
      if !Ascii(s[1..]) {
        var u :| u in s[1..] && u >= 0x80;
        assert u in s;
      }
    }
  }

  lemma {:induction false} KeyUnitsAreBytesForAscii(fields: seq<Field>)
    ensures KeyUnits(fields) <= KeyBytes(fields)
    ensures KeyUnits(fields) == KeyBytes(fields) <==> forall f <- fields :: Ascii(f.key)
  {
    if fields != [] {
      var init, last := fields[..|fields| - 1], fields[|fields| - 1];
      assert fields == init + [last];
      KeyUnitsAreBytesForAscii(init);
      UnitsAreBytesForAscii(last.key);
    }
  }

  lemma {:induction false} OwnIsUtf8ForAscii(node: Node)
    ensures OwnBytes(node) <= Utf8Own(node) && (OwnBytes(node) == Utf8Own(node) <==> AsciiKeys(node))
  {
    if node.Record? || node.Special? {
      KeyUnitsAreBytesForAscii(node.fields);
    }
  }

  /** Main result: the guest counts no more than UTF-8 bytes, and these exactly when every key is ASCII. */
  lemma {:induction false} Utf8SizeExactlyForAsciiKeys(h: Heap, r: Ref, levels: nat)
    ensures Unfold(h, r, levels).bytes <= Utf8Size(h, r, levels)
    ensures Unfold(h, r, levels).bytes == Utf8Size(h, r, levels) <==> AsciiUnder(h, r, levels)
    decreases levels, 0
  {
    if levels > 0 {
      hide OwnBytes, Utf8Own, AsciiKeys, Children, UnfoldAll, Utf8SizeAll, AsciiUnderAll;
      Utf8SizesExactlyForAsciiKeys(h, Children(h(r)), levels - 1);
      OwnIsUtf8ForAscii(h(r));
    }
  }

  lemma {:induction false} Utf8SizesExactlyForAsciiKeys(h: Heap, rs: seq<Ref>, levels: nat)
    ensures UnfoldAll(h, rs, levels).bytes <= Utf8SizeAll(h, rs, levels)
    ensures UnfoldAll(h, rs, levels).bytes == Utf8SizeAll(h, rs, levels) <==> AsciiUnderAll(h, rs, levels)
    decreases levels, |rs| + 1
  {
    if rs != [] {
      Utf8SizesExactlyForAsciiKeys(h, rs[..|rs| - 1], levels);
      Utf8SizeExactlyForAsciiKeys(h, rs[|rs| - 1], levels);
    }
  }

  function Accented(): Heap { (r: Ref) => if r == 0 then Record([Field([0xE9], 1)]) else Number }

  lemma {:induction false} OneChild(h: Heap, r: Ref, c: Ref, levels: nat)
    requires Children(h(r)) == [c] && Children(h(c)) == [] && levels > 1
    ensures Unfold(h, r, levels) == Measure(2, OwnBytes(h(r)) + OwnBytes(h(c)), true)
    ensures Utf8Size(h, r, levels) == Utf8Own(h(r)) + Utf8Own(h(c))
  {
    hide OwnBytes, Utf8Own, Children;
    var below := levels - 1;
    assert [c][..0] == [];
    assert Unfold(h, c, below) == Measure(1, OwnBytes(h(c)), true) && Utf8Size(h, c, below) == Utf8Own(h(c));
    assert UnfoldAll(h, [c], below) == Unfold(h, c, below) && Utf8SizeAll(h, [c], below) == Utf8Size(h, c, below);
  }

  lemma {:induction false} AccentedOwn()
    ensures var h := Accented();
            && Children(h(0)) == [1] && OwnBytes(h(0)) == 1 && Utf8Own(h(0)) == 2
            && Children(h(1)) == [] && OwnBytes(h(1)) == 8 && Utf8Own(h(1)) == 8
  {
    assert [Field([0xE9], 1)][..0] == [];
    assert [0xE9][1..] == [] && Utf8Length([0xE9]) == 2;
  }

  /** A record with the one key U+00E9 and a number: 9 to the guest and 10 in UTF-8. */
  lemma {:induction false} AccentedKeyIsShort()
    ensures Unfold(Accented(), 0, 101) == Measure(2, 9, true) && Utf8Size(Accented(), 0, 101) == 10
  {
    hide Unfold, Utf8Size, OwnBytes, Utf8Own, Children;
    AccentedOwn();
    OneChild(Accented(), 0, 1, 101);
  }
}
