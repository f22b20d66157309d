/**
 The host's size of a message, kind by kind: without repeated objects it is the sum of the charges of
 the nodes it looks into, and it looks into whatever an object holds, views, maps and sets included.
 */
module HostSizes {
  import opened MessageMeasure
  import opened HostMeasure

  /** The host looks into a view's buffer, a map's keys and values, a set's entries and a special's parts. */
  predicate HostHolds(node: Node, c: Ref) {
    match node
    case View(_, buffer) => c == buffer
    case Dictionary(pairs) => exists p <- pairs :: p.key == c || p.value == c
    case Bag(items) => c in items
    case List(items) => c in items
    case Record(fields) => exists f <- fields :: f.value == c
    case Special(_, _, parts, _) => c in parts
    case _ => false
  }

  lemma {:induction false} FlattenedHolds(pairs: seq<Pair>, c: Ref)
    ensures c in Flattened(pairs) <==> exists p <- pairs :: p.key == c || p.value == c
  {
    if pairs != [] {
      var init, last := pairs[..|pairs| - 1], pairs[|pairs| - 1];
      FlattenedHolds(init, c);
      assert Flattened(pairs) == Flattened(init) + [last.key, last.value];
      assert c in Flattened(pairs) <==> c in Flattened(init) || c == last.key || c == last.value;
      assert forall p :: p in pairs <==> p in init || p == last;
    }
  }

  lemma {:induction false} HostChildrenAreHeld(node: Node, c: Ref)
    ensures c in HostChildren(node) <==> HostHolds(node, c)
  {
    ChildrenAreHeld(node, c);
    if node.Dictionary? {
      FlattenedHolds(node.pairs, c);
    }
  }

  function HostListed(h: Heap, r: Ref, levels: nat): seq<Node>
    decreases levels, 0
  {
    [h(r)] + if levels == 0 then [] else HostListedAll(h, HostChildren(h(r)), levels - 1)
  }

  function HostListedAll(h: Heap, rs: seq<Ref>, levels: nat): seq<Node>
    decreases levels, |rs| + 1
  {
    if rs == [] then [] else HostListedAll(h, rs[..|rs| - 1], levels) + HostListed(h, rs[|rs| - 1], levels)
  }

  /** The objects the host meets, a repeated one each time. */
  function HostObjects(h: Heap, r: Ref, levels: nat): seq<Ref>
    decreases levels, 0
  {
    (if IsObject(h(r)) then [r] else [])
      + if levels == 0 then [] else HostObjectsAll(h, HostChildren(h(r)), levels - 1)
  }

  function HostObjectsAll(h: Heap, rs: seq<Ref>, levels: nat): seq<Ref>
    decreases levels, |rs| + 1
  {
    if rs == [] then [] else HostObjectsAll(h, rs[..|rs| - 1], levels) + HostObjects(h, rs[|rs| - 1], levels)
  }

  function BufferSize(node: Node): nat { if node.Buffer? then node.byteLength else 0 }
  /** Lists, maps, sets and numbers 8, views 16, flags 1. */
  function Fee(node: Node): nat {
    if node.List? || node.Dictionary? || node.Bag? || node.Number? then 8
    else if node.View? then 16
    else if node.Flag? then 1
    else 0
  }
  /** 4 for each entry. */
  function EntryFees(node: Node): nat {
    if node.List? || node.Bag? then 4 * |node.items|
    else if node.Dictionary? then 4 * |node.pairs|
    else if node.Record? then 4 * |node.fields|
    else 0
  }
  function KeysInUtf8(node: Node): nat { if node.Record? then KeyBytes(node.fields) else 0 }
  /** Digits, and what special objects are charged. */
  function OtherCharge(node: Node): nat {
    if node.BigInt? then node.digits else if node.Special? then node.charge else 0
  }

  ghost function HostSizeByKind(nodes: seq<Node>): nat {
    SumOf(nodes, TextSize) + SumOf(nodes, BufferSize) + SumOf(nodes, Fee) + SumOf(nodes, EntryFees)
      + SumOf(nodes, KeysInUtf8) + SumOf(nodes, OtherCharge)
  }

  lemma {:induction false} HostOwnByKind(node: Node)
    ensures HostOwn(node)
         == TextSize(node) + BufferSize(node) + Fee(node) + EntryFees(node) + KeysInUtf8(node) + OtherCharge(node)
  {
  }

  lemma {:induction false} OneNodeByHostKind(node: Node)
    ensures HostSizeByKind([node]) == HostOwn(node) && HostSizeByKind([]) == 0
  {
    hide HostOwn, SumOf, TextSize, BufferSize, Fee, EntryFees, KeysInUtf8, OtherCharge;
    HostOwnByKind(node);
    SumOfOne(node, TextSize);
    SumOfOne(node, BufferSize);
    SumOfOne(node, Fee);
    SumOfOne(node, EntryFees);
    SumOfOne(node, KeysInUtf8);
    SumOfOne(node, OtherCharge);
  }

  lemma {:induction false} HostSizeAppends(a: seq<Node>, b: seq<Node>)
    ensures HostSizeByKind(a + b) == HostSizeByKind(a) + HostSizeByKind(b)
  {
    hide SumOf, TextSize, BufferSize, Fee, EntryFees, KeysInUtf8, OtherCharge;
    SumAppends(a, b, TextSize);
    SumAppends(a, b, BufferSize);
    SumAppends(a, b, Fee);
    SumAppends(a, b, EntryFees);
    SumAppends(a, b, KeysInUtf8);
    SumAppends(a, b, OtherCharge);
  }

  /** Main result: what the host charges for a message without repeated objects, kind by kind. */
  lemma {:induction false} ChargedByKind(h: Heap, r: Ref, levels: nat, seen: set<Ref>)
    requires Distinct(HostObjects(h, r, levels)) && Elements(HostObjects(h, r, levels)) !! seen
    requires !Count(h, r, levels, seen).refused
    ensures Count(h, r, levels, seen).bytes == HostSizeByKind(HostListed(h, r, levels))
    ensures Count(h, r, levels, seen).seen == seen + Elements(HostObjects(h, r, levels))
    decreases levels, 0
  {
    if IsObject(h(r)) {
      ObjectParts(h, r, levels, seen);
      AllChargedByKind(h, HostChildren(h(r)), levels - 1, seen + {r});
      ObjectChargedByKind(h, r, levels, seen);
    } else {
      hide HostSizeByKind, HostOwn;
      OneNodeByHostKind(h(r));
      assert HostChildren(h(r)) == [];
      assert HostListed(h, r, levels) == [h(r)] && HostObjects(h, r, levels) == [];
      assert seen + {} == seen;
    }
  }

  lemma {:induction false} ObjectParts(h: Heap, r: Ref, levels: nat, seen: set<Ref>)
    requires IsObject(h(r)) && !Count(h, r, levels, seen).refused
    requires Distinct(HostObjects(h, r, levels)) && Elements(HostObjects(h, r, levels)) !! seen
    ensures levels > 0 && r !in seen && !CountAll(h, HostChildren(h(r)), levels - 1, seen + {r}).refused
    ensures var below := HostObjectsAll(h, HostChildren(h(r)), levels - 1);
            && Distinct(below) && Elements(below) !! seen + {r}
            && Elements(HostObjects(h, r, levels)) == {r} + Elements(below)
  {
    hide HostChildren, HostOwn, HostRefuses, CountAll, HostObjectsAll, Elements, Distinct;
    ElementsOfOne(r);
    var below := if levels == 0 then [] else HostObjectsAll(h, HostChildren(h(r)), levels - 1);
    DistinctParts([r], below, seen);
    assert r in Elements([r]);
  }

  lemma {:induction false} ObjectChargedByKind(h: Heap, r: Ref, levels: nat, seen: set<Ref>)
    requires IsObject(h(r)) && levels > 0 && r !in seen
    requires var below := CountAll(h, HostChildren(h(r)), levels - 1, seen + {r});
             && below.bytes == HostSizeByKind(HostListedAll(h, HostChildren(h(r)), levels - 1))
             && below.seen == seen + {r} + Elements(HostObjectsAll(h, HostChildren(h(r)), levels - 1))
    requires Elements(HostObjects(h, r, levels))
          == {r} + Elements(HostObjectsAll(h, HostChildren(h(r)), levels - 1))
    ensures Count(h, r, levels, seen).bytes == HostSizeByKind(HostListed(h, r, levels))
    ensures Count(h, r, levels, seen).seen == seen + Elements(HostObjects(h, r, levels))
  {
    hide HostSizeByKind, HostOwn, HostChildren, HostRefuses, CountAll, HostListedAll, HostObjects, Elements;
    OneNodeByHostKind(h(r));
    HostSizeAppends([h(r)], HostListedAll(h, HostChildren(h(r)), levels - 1));
    var below := Elements(HostObjectsAll(h, HostChildren(h(r)), levels - 1));
    assert seen + {r} + below == seen + ({r} + below);
  }

  lemma {:induction false} AllChargedByKind(h: Heap, rs: seq<Ref>, levels: nat, seen: set<Ref>)
    requires Distinct(HostObjectsAll(h, rs, levels)) && Elements(HostObjectsAll(h, rs, levels)) !! seen
    requires !CountAll(h, rs, levels, seen).refused
    ensures CountAll(h, rs, levels, seen).bytes == HostSizeByKind(HostListedAll(h, rs, levels))
    ensures CountAll(h, rs, levels, seen).seen == seen + Elements(HostObjectsAll(h, rs, levels))
    decreases levels, |rs| + 1
  {
    hide HostSizeByKind, Elements, Count, HostObjects, HostListed;
    OneNodeByHostKind(Number);
    if rs == [] {
      ElementsOfOne(0);
      assert seen + {} == seen;
    } else {
      var init, last := rs[..|rs| - 1], rs[|rs| - 1];
      DistinctParts(HostObjectsAll(h, init, levels), HostObjects(h, last, levels), seen);
      AllChargedByKind(h, init, levels, seen);
      ChargedByKind(h, last, levels, CountAll(h, init, levels, seen).seen);
      HostSizeAppends(HostListedAll(h, init, levels), HostListed(h, last, levels));
      assert seen + Elements(HostObjectsAll(h, init, levels)) + Elements(HostObjects(h, last, levels))
          == seen + (Elements(HostObjectsAll(h, init, levels)) + Elements(HostObjects(h, last, levels)));
    }
  }

  lemma {:induction false} HeldIsListedBelow(h: Heap, r: Ref, c: Ref, levels: nat, node: Node)
    requires HostHolds(h(r), c) && levels > 0 && node in HostListed(h, c, levels - 1)
    ensures node in HostListed(h, r, levels)
  {
    hide HostHolds, HostChildren;
    HostChildrenAreHeld(h(r), c);
    ListedAmongAll(h, HostChildren(h(r)), c, levels - 1, node);
  }

  /** No clone can be made of it. */
  predicate CannotGo(node: Node) { node.Uncloneable? || (node.Special? && !node.cloneable) }

  /** And a message with anything in it that cannot be cloned is refused. */
  lemma {:induction false} TakenIsCloneable(h: Heap, r: Ref, levels: nat, seen: set<Ref>)
    requires Distinct(HostObjects(h, r, levels)) && Elements(HostObjects(h, r, levels)) !! seen
    requires !Count(h, r, levels, seen).refused
    ensures forall node <- HostListed(h, r, levels) :: !CannotGo(node)
    decreases levels, 0
  {
    if IsObject(h(r)) {
      ObjectParts(h, r, levels, seen);
      AllTakenAreCloneable(h, HostChildren(h(r)), levels - 1, seen + {r});
    } else {
      assert HostChildren(h(r)) == [] && HostListed(h, r, levels) == [h(r)];
    }
  }

  lemma {:induction false} AllTakenAreCloneable(h: Heap, rs: seq<Ref>, levels: nat, seen: set<Ref>)
    requires Distinct(HostObjectsAll(h, rs, levels)) && Elements(HostObjectsAll(h, rs, levels)) !! seen
    requires !CountAll(h, rs, levels, seen).refused
    ensures forall node <- HostListedAll(h, rs, levels) :: !CannotGo(node)
    decreases levels, |rs| + 1
  {
    if rs != [] {
      hide Elements, Count, HostObjects, HostListed, CannotGo;
      var init, last := rs[..|rs| - 1], rs[|rs| - 1];
      DistinctParts(HostObjectsAll(h, init, levels), HostObjects(h, last, levels), seen);
      AllTakenAreCloneable(h, init, levels, seen);
      AllChargedByKind(h, init, levels, seen);
      TakenIsCloneable(h, last, levels, CountAll(h, init, levels, seen).seen);
    }
  }

  /**
   So the host takes a message without repeated objects only if nothing in it is without a clone, its
   objects are no more than allowed, and its charges, kind by kind, are within the cap.
   */
  lemma {:induction false} TakenMessagesAreSmall(h: Heap, r: Ref, levels: nat, stopAfter: nat, maxObjects: nat)
    requires Distinct(HostObjects(h, r, levels)) && Admits(Count(h, r, levels, {}), stopAfter, maxObjects)
    ensures forall node <- HostListed(h, r, levels) :: !CannotGo(node)
    ensures |HostObjects(h, r, levels)| <= maxObjects
    ensures HostSizeByKind(HostListed(h, r, levels)) <= stopAfter
  {
    hide HostListed, HostObjects, Count, HostSizeByKind, Distinct;
    ChargedByKind(h, r, levels, {});
    TakenIsCloneable(h, r, levels, {});
    DistinctCount(HostObjects(h, r, levels));
    assert {} + Elements(HostObjects(h, r, levels)) == Elements(HostObjects(h, r, levels));
  }

  lemma {:induction false} DistinctCount(s: seq<Ref>)
    requires Distinct(s)
    ensures |Elements(s)| == |s|
  {
    if s != [] {
      var init, last := s[..|s| - 1], s[|s| - 1];
      DistinctCount(init);
      assert last !in Elements(init);
      assert Elements(s) == Elements(init) + {last};
    }
  }

  /** Everything on a chain of holders is among the nodes listed. */
  lemma {:induction false} HeldIsListed(h: Heap, path: seq<Ref>, levels: nat)
    requires path != [] && |path| <= levels + 1
    requires forall i :: 0 <= i < |path| - 1 ==> HostHolds(h(path[i]), path[i + 1])
    ensures h(path[|path| - 1]) in HostListed(h, path[0], levels)
    decreases levels
  {
    hide HostHolds;
    if |path| > 1 {
      hide HostListed;
      var rest := path[1..];
      assert HostHolds(h(path[0]), path[0 + 1]);
      forall i | 0 <= i < |rest| - 1 ensures HostHolds(h(rest[i]), rest[i + 1]) {
        assert HostHolds(h(path[i + 1]), path[(i + 1) + 1]);
      }
      HeldIsListed(h, rest, levels - 1);
      HeldIsListedBelow(h, path[0], path[1], levels, h(path[|path| - 1]));
    } else {
      assert HostListed(h, path[0], levels)[0] == h(path[0]);
    }
  }

  lemma {:induction false} ListedAmongAll(h: Heap, rs: seq<Ref>, c: Ref, levels: nat, node: Node)
    requires c in rs && node in HostListed(h, c, levels)
    ensures node in HostListedAll(h, rs, levels)
    decreases |rs|
  {
    if rs[|rs| - 1] != c {
      ListedAmongAll(h, rs[..|rs| - 1], c, levels, node);
    }
  }

  // ---------- depth ----------

  /** Each object holds the next. */
  predicate ObjectChain(h: Heap, path: seq<Ref>) {
    && path != [] && (forall r <- path :: IsObject(h(r)))
    && forall i :: 0 <= i < |path| - 1 ==> HostHolds(h(path[i]), path[i + 1])
  }

  /** What is taken of some values is taken of each, with other objects seen before it. */
  lemma {:induction false} EachIsTaken(h: Heap, rs: seq<Ref>, c: Ref, levels: nat, seen: set<Ref>)
    returns (before: set<Ref>)
    requires Distinct(HostObjectsAll(h, rs, levels)) && Elements(HostObjectsAll(h, rs, levels)) !! seen
    requires !CountAll(h, rs, levels, seen).refused && c in rs
    ensures Distinct(HostObjects(h, c, levels)) && Elements(HostObjects(h, c, levels)) !! before
    ensures !Count(h, c, levels, before).refused
    decreases |rs|
  {
    hide Elements, Count, HostObjects;
    var init, last := rs[..|rs| - 1], rs[|rs| - 1];
    DistinctParts(HostObjectsAll(h, init, levels), HostObjects(h, last, levels), seen);
    if c == last {
      before := CountAll(h, init, levels, seen).seen;
      AllChargedByKind(h, init, levels, seen);
    } else {
      before := EachIsTaken(h, init, c, levels, seen);
    }
  }

  /** A chain of objects in a message without repeated ones is no longer than the host's levels. */
  lemma {:induction false} DeepMessagesAreRefused(h: Heap, path: seq<Ref>, levels: nat, seen: set<Ref>)
    requires ObjectChain(h, path)
    requires Distinct(HostObjects(h, path[0], levels)) && Elements(HostObjects(h, path[0], levels)) !! seen
    requires |path| > levels
    ensures Count(h, path[0], levels, seen).refused
    decreases levels
  {
    hide Count, CountAll, HostObjects, HostObjectsAll, HostHolds, HostChildren, Elements, Distinct;
    var r := path[0];
    assert r in path;
    if !Count(h, r, levels, seen).refused {
      ObjectParts(h, r, levels, seen);
      ChainGoesOn(h, path);
      hide ObjectChain;
      HostChildrenAreHeld(h(r), path[1]);
      var before := EachIsTaken(h, HostChildren(h(r)), path[1], levels - 1, seen + {r});
      DeepMessagesAreRefused(h, path[1..], levels - 1, before);
    }
  }

  lemma {:induction false} ChainGoesOn(h: Heap, path: seq<Ref>)
    requires ObjectChain(h, path) && |path| > 1
    ensures HostHolds(h(path[0]), path[1]) && ObjectChain(h, path[1..])
  {
    hide HostHolds;
    var rest := path[1..];
    assert HostHolds(h(path[0]), path[0 + 1]);
    assert forall r <- rest :: r in path;
    forall i | 0 <= i < |rest| - 1 ensures HostHolds(h(rest[i]), rest[i + 1]) {
      assert HostHolds(h(path[i + 1]), path[(i + 1) + 1]);
    }
  }
}
