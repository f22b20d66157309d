/**
 The walk over an accessibility tree. A node is what the rendering depends on: whether it may be
 elided, whether its children are suppressed or summarised, and how its line and record read. The
 walk hands out an index for each node it renders and compacts the tabs below each of them.
 */
module TreeRenderer {
  import opened TabCompaction

  const MAX_NODES: nat := 1200
  const MAX_DEPTH: nat := 64

  datatype Look = Look(tab: bool, marked: bool, selected: bool)
  datatype Node = Node(look: Look, elidable: bool, summary: bool, suppressed: bool, children: seq<Node>)

  /** The rendering so far; `made` are the nodes an index was handed out for, by index. */
  datatype View = View(records: seq<Record>, lines: seq<Line>, made: seq<Look>, truncated: bool, depthReached: bool)

  function Kids(n: Node): seq<Node> { if n.suppressed then [] else n.children }

  /** A nameless container with at most one child gives way to that child. */
  predicate Elided(n: Node) { n.elidable && !n.summary && |Kids(n)| <= 1 }

  function Append(v: View, look: Look, depth: nat): View {
    var index := |v.made|;
    v.(records := v.records + [Record(index, look.selected)],
       lines := v.lines + [Element(depth, index, look.tab, look.marked)],
       made := v.made + [look])
  }

  function Truncate(v: View, depth: nat): View {
    v.(truncated := true, depthReached := v.depthReached || depth > MAX_DEPTH)
  }

  function CompactView(v: View, start: nat, depth: nat): View {
    var (lines, records) := Compact(v.lines, v.records, start, depth);
    v.(lines := lines, records := records)
  }

  function Render(v: View, n: Node, depth: nat, compacting: bool): View
    decreases n, 1
  {
    if |v.records| >= MAX_NODES || depth > MAX_DEPTH then Truncate(v, depth)
    else if Elided(n) then if n.suppressed then v else RenderAll(v, n.children, depth, compacting)
    else
      var w := Append(v, n.look, depth);
      if n.summary || n.suppressed then w
      else
        var below := RenderAll(w, n.children, depth + 1, compacting);
        if compacting then CompactView(below, |w.lines|, depth + 1) else below
  }

  function RenderAll(v: View, ns: seq<Node>, depth: nat, compacting: bool): View
    decreases ns, 0
  {
    if ns == [] then v
    else Render(RenderAll(v, ns[..|ns| - 1], depth, compacting), ns[|ns| - 1], depth, compacting)
  }

  const EMPTY := View([], [], [], false, false)

  // ---------- the walk in place ----------

  class Walker {
    const compacting: bool
    const rendering: Rendering
    var nextIndex: nat
    var truncated: bool
    var depthReached: bool
    ghost var made: seq<Look>

    ghost predicate Valid() reads this { nextIndex == |made| }

    ghost function Seen(): View reads this, rendering {
      View(rendering.records, rendering.lines, made, truncated, depthReached)
    }

    constructor (compacting: bool)
      ensures Valid() && Seen() == EMPTY && this.compacting == compacting && fresh(rendering)
    {
      this.compacting := compacting;
      rendering := new Rendering();
      nextIndex, truncated, depthReached, made := 0, false, false, [];
    }

    method Walk(n: Node, depth: nat)
      requires Valid()
      modifies this, rendering
      ensures Valid() && Seen() == Render(old(Seen()), n, depth, compacting)
      decreases n, 1
    {
      hide RenderAll, Compact;
      if |rendering.records| >= MAX_NODES || depth > MAX_DEPTH {
        truncated := true;
        if depth > MAX_DEPTH {
          depthReached := true;
        }
        return;
      }
      if Elided(n) {
        if !n.suppressed {
          WalkAll(n.children, depth);
        }
        return;
      }
      rendering.records := rendering.records + [Record(nextIndex, n.look.selected)];
      rendering.lines := rendering.lines + [Element(depth, nextIndex, n.look.tab, n.look.marked)];
      nextIndex, made := nextIndex + 1, made + [n.look];
      if n.summary || n.suppressed {
        return;
      }
      RenderAllExtends(Seen(), n.children, depth + 1, compacting);
      var start := |rendering.lines|;
      WalkAll(n.children, depth + 1);
      if compacting {
        rendering.CompactTabs(start, depth + 1);
      }
    }

    method WalkAll(ns: seq<Node>, depth: nat)
      requires Valid()
      modifies this, rendering
      ensures Valid() && Seen() == RenderAll(old(Seen()), ns, depth, compacting)
      decreases ns, 0
    {
      for k := 0 to |ns|
        invariant Valid() && Seen() == RenderAll(old(Seen()), ns[..k], depth, compacting)
      {
        assert ns[..k + 1][..k] == ns[..k];
        Walk(ns[k], depth);
      }
      assert ns[..|ns|] == ns;
    }
  }

  lemma {:induction false} RenderAllExtends(v: View, ns: seq<Node>, depth: nat, compacting: bool)
    ensures |RenderAll(v, ns, depth, compacting).lines| >= |v.lines|
    decreases ns, 0
  {
    if ns != [] {
      RenderAllExtends(v, ns[..|ns| - 1], depth, compacting);
      RenderExtends(RenderAll(v, ns[..|ns| - 1], depth, compacting), ns[|ns| - 1], depth, compacting);
    }
  }

  lemma {:induction false} RenderExtends(v: View, n: Node, depth: nat, compacting: bool)
    ensures |Render(v, n, depth, compacting).lines| >= |v.lines|
    decreases n, 1
  {
    hide CompactView, RenderAll, Elided;
    if !(|v.records| >= MAX_NODES || depth > MAX_DEPTH) && !n.suppressed {
      if Elided(n) {
        RenderAllExtends(v, n.children, depth, compacting);
      } else {
        var w := Append(v, n.look, depth);
        RenderAllExtends(w, n.children, depth + 1, compacting);
        CompactExtends(RenderAll(w, n.children, depth + 1, compacting), |w.lines|, depth + 1);
      }
    }
  }

  lemma {:induction false} CompactExtends(v: View, start: nat, depth: nat)
    requires start <= |v.lines|
    ensures |CompactView(v, start, depth).lines| >= start
  {
    TabPositionsMean(v.lines, start, depth);
    var tabs := TabPositions(v.lines, start, depth);
    assert tabs != [] ==> tabs[0] in tabs;
  }

  // ---------- the invariant ----------

  /** The indexes the element lines start with, in order. */
  function Indexes(lines: seq<Line>): seq<nat> {
    if lines == [] then []
    else (if lines[0].Element? then [lines[0].index] else []) + Indexes(lines[1..])
  }

  function RecordIndexes(records: seq<Record>): seq<nat> {
    if records == [] then [] else [records[0].index] + RecordIndexes(records[1..])
  }

  /** How many tabs the markers say were omitted. */
  function Omitted(lines: seq<Line>): nat {
    if lines == [] then 0
    else (if lines[0].Marker? then lines[0].omitted else 0) + Omitted(lines[1..])
  }

  /** Increasing, from `low` on and below `high`. */
  predicate Ranged(s: seq<nat>, low: nat, high: nat) {
    s != [] ==> low <= s[0] < high && Ranged(s[1..], s[0] + 1, high)
  }

  predicate InactiveTab(l: Look) { l.tab && !l.marked && !l.selected }

  predicate TrueLine(l: Line, made: seq<Look>) {
    l.Element? ==> l.index < |made| && l.tab == made[l.index].tab && l.marked == made[l.index].marked
  }

  predicate TrueRecord(r: Record, made: seq<Look>) { r.index < |made| && r.selected == made[r.index].selected }

  ghost predicate Inv(v: View) {
    && Indexes(v.lines) == RecordIndexes(v.records)
    && Ranged(RecordIndexes(v.records), 0, |v.made|)
    && |v.records| + Omitted(v.lines) == |v.made|
    && |v.records| <= MAX_NODES
    && (forall l <- v.lines :: TrueLine(l, v.made))
    && (forall r <- v.records :: TrueRecord(r, v.made))
    && (forall i :: 0 <= i < |v.made| && i !in RecordIndexes(v.records) ==> InactiveTab(v.made[i]))
  }

  lemma {:induction false} IndexesAppend(a: seq<Line>, b: seq<Line>)
    ensures Indexes(a + b) == Indexes(a) + Indexes(b)
    ensures Omitted(a + b) == Omitted(a) + Omitted(b)
  {
    if a == [] {
      assert a + b == b;
    } else {
      assert (a + b)[0] == a[0] && (a + b)[1..] == a[1..] + b;
      IndexesAppend(a[1..], b);
    }
  }

  lemma {:induction false} RecordIndexesAppend(a: seq<Record>, b: seq<Record>)
    ensures RecordIndexes(a + b) == RecordIndexes(a) + RecordIndexes(b)
  {
    if a == [] {
      assert a + b == b;
    } else {
      assert (a + b)[1..] == a[1..] + b;
      RecordIndexesAppend(a[1..], b);
    }
  }

  lemma {:induction false} RangedAppend(s: seq<nat>, low: nat, high: nat)
    requires Ranged(s, low, high) && low <= high
    ensures Ranged(s + [high], low, high + 1)
  {
    if s == [] {
      assert s + [high] == [high] && [high][1..] == [];
    } else {
      assert (s + [high])[1..] == s[1..] + [high];
      RangedAppend(s[1..], s[0] + 1, high);
    }
  }

  /** Every node's index is in a record, or belongs to an inactive tab. */
  ghost predicate OnlyTabsGone(v: View) {
    forall i :: 0 <= i < |v.made| && i !in RecordIndexes(v.records) ==> InactiveTab(v.made[i])
  }

  lemma {:induction false} AppendKeepsIndexes(v: View, look: Look, depth: nat)
    requires Inv(v)
    ensures var w := Append(v, look, depth);
            && RecordIndexes(w.records) == RecordIndexes(v.records) + [|v.made|]
            && Indexes(w.lines) == RecordIndexes(w.records)
            && Ranged(RecordIndexes(w.records), 0, |w.made|)
            && Omitted(w.lines) == Omitted(v.lines)
  {
    var index := |v.made|;
    var line, record := Element(depth, index, look.tab, look.marked), Record(index, look.selected);
    IndexesAppend(v.lines, [line]);
    RecordIndexesAppend(v.records, [record]);
    RangedAppend(RecordIndexes(v.records), 0, index);
    SingleIndexes(line, record);
  }

  lemma {:induction false} AppendKeepsInv(v: View, look: Look, depth: nat)
    requires Inv(v) && |v.records| < MAX_NODES
    ensures Inv(Append(v, look, depth))
  {
    hide Indexes, RecordIndexes, Omitted, Ranged;
    var w := Append(v, look, depth);
    AppendKeepsIndexes(v, look, depth);
    assert forall l <- v.lines :: TrueLine(l, v.made);
    forall i | 0 <= i < |w.made| && i !in RecordIndexes(w.records) ensures InactiveTab(w.made[i]) {
      assert i !in RecordIndexes(v.records);
      assert RecordIndexes(w.records)[|RecordIndexes(v.records)|] == |v.made|;
    }
  }

  lemma {:induction false} SingleIndexes(line: Line, record: Record)
    requires line.Element?
    ensures Indexes([line]) == [line.index] && Omitted([line]) == 0 && RecordIndexes([record]) == [record.index]
  {
    assert [line][1..] == [] && [record][1..] == [];
  }

  // ---------- compaction keeps it ----------

  function Minus(s: seq<nat>, omitted: set<nat>): seq<nat> {
    if s == [] then [] else (if s[0] in omitted then [] else [s[0]]) + Minus(s[1..], omitted)
  }

  lemma {:induction false} MinusAppend(a: seq<nat>, b: seq<nat>, omitted: set<nat>)
    ensures Minus(a + b, omitted) == Minus(a, omitted) + Minus(b, omitted)
  {
    if a == [] {
      assert a + b == b;
    } else {
      assert (a + b)[1..] == a[1..] + b;
      MinusAppend(a[1..], b, omitted);
    }
  }

  lemma {:induction false} MinusNothing(s: seq<nat>, omitted: set<nat>)
    requires forall x <- s :: x !in omitted
    ensures Minus(s, omitted) == s
  {
    if s != [] {
      MinusNothing(s[1..], omitted);
    }
  }

  lemma {:induction false} MinusStaysRanged(s: seq<nat>, omitted: set<nat>, low: nat, high: nat)
    requires Ranged(s, low, high)
    ensures Ranged(Minus(s, omitted), low, high)
  {
    if s != [] {
      MinusStaysRanged(s[1..], omitted, s[0] + 1, high);
      RangedFromLower(Minus(s[1..], omitted), low, s[0] + 1, high);
      assert ([s[0]] + Minus(s[1..], omitted))[1..] == Minus(s[1..], omitted);
      assert [] + Minus(s[1..], omitted) == Minus(s[1..], omitted);
    }
  }

  lemma {:induction false} RangedFromLower(s: seq<nat>, low: nat, low': nat, high: nat)
    requires Ranged(s, low', high) && low <= low'
    ensures Ranged(s, low, high)
  {
  }

  lemma {:induction false} MinusMembers(s: seq<nat>, omitted: set<nat>, x: nat)
    ensures x in Minus(s, omitted) <==> x in s && x !in omitted
  {
    if s != [] {
      MinusMembers(s[1..], omitted, x);
      assert x in s <==> x == s[0] || x in s[1..];
    }
  }

  lemma {:induction false} WithoutIndexes(records: seq<Record>, omitted: set<nat>)
    ensures RecordIndexes(Without(records, omitted)) == Minus(RecordIndexes(records), omitted)
    ensures forall r <- Without(records, omitted) :: r in records
  {
    if records != [] {
      WithoutIndexes(records[1..], omitted);
      RecordIndexesAppend(if records[0].index in omitted then [] else [records[0]], Without(records[1..], omitted));
      assert RecordIndexes([records[0]]) == [records[0].index] by { assert [records[0]][1..] == []; }
    }
  }

  /** Where indexes tell removable lines apart, retaining lines is dropping their indexes. */
  lemma {:induction false} RetainedIndexes(lines: seq<Line>, depth: nat, records: seq<Record>, omitted: set<nat>)
    requires forall l <- lines :: l.Element? ==> (l.index in omitted <==> Removable(l, depth, records))
    ensures Indexes(Retained(lines, depth, records)) == Minus(Indexes(lines), omitted)
    ensures Omitted(Retained(lines, depth, records)) == Omitted(lines)
    ensures |Indexes(lines)| - |Indexes(Retained(lines, depth, records))| == |lines| - |Retained(lines, depth, records)|
    ensures forall l <- Retained(lines, depth, records) :: l in lines
  {
    if lines != [] {
      var l, rest := lines[0], lines[1..];
      assert lines == [l] + rest;
      RetainedIndexes(rest, depth, records, omitted);
      RetainedCons(l, rest, depth, records);
      var kept := if Removable(l, depth, records) then [] else [l];
      IndexesAppend(kept, Retained(rest, depth, records));
      IndexesAppend([l], rest);
      MinusAppend(Indexes([l]), Indexes(rest), omitted);
      OneLine(l, omitted);
    }
  }

  lemma {:induction false} OneLine(l: Line, omitted: set<nat>)
    ensures Indexes([l]) == if l.Element? then [l.index] else []
    ensures Omitted([l]) == if l.Marker? then l.omitted else 0
    ensures Minus(Indexes([l]), omitted) == if l.Element? && l.index !in omitted then [l.index] else []
    ensures Indexes([]) == [] && Omitted([]) == 0
  {
    assert [l][1..] == [];
    if l.Element? {
      assert [l.index][1..] == [];
    }
  }

  lemma {:induction false} RangedSplit(a: seq<nat>, b: seq<nat>, low: nat, high: nat)
    requires Ranged(a + b, low, high)
    ensures Ranged(b, low, high)
    ensures forall x <- a, y <- b :: x < y
    ensures forall y <- b :: low <= y < high
  {
    if a == [] {
      assert a + b == b;
      RangedBounds(b, low, high);
    } else {
      assert (a + b)[1..] == a[1..] + b && (a + b)[0] == a[0];
      RangedSplit(a[1..], b, a[0] + 1, high);
      assert forall x <- a :: x == a[0] || x in a[1..];
      RangedFromLower(b, low, a[0] + 1, high);
    }
  }

  lemma {:induction false} RangedBounds(s: seq<nat>, low: nat, high: nat)
    requires Ranged(s, low, high)
    ensures forall y <- s :: low <= y < high
  {
    if s != [] {
      RangedBounds(s[1..], s[0] + 1, high);
      assert forall y <- s :: y == s[0] || y in s[1..];
    }
  }

  lemma {:induction false} ElementIndexed(lines: seq<Line>, l: Line)
    requires l in lines && l.Element?
    ensures l.index in Indexes(lines)
  {
    if l != lines[0] {
      ElementIndexed(lines[1..], l);
    }
  }

  /** No two element lines start with the same index. */
  lemma {:induction false} IndexesAreUnique(lines: seq<Line>, l: Line, m: Line, low: nat, high: nat)
    requires Ranged(Indexes(lines), low, high)
    requires l in lines && m in lines && l.Element? && m.Element? && l.index == m.index
    ensures l == m
  {
    var first, rest := lines[0], lines[1..];
    if l in rest && m in rest {
      if first.Element? {
        assert Indexes(lines)[1..] == Indexes(rest);
        IndexesAreUnique(rest, l, m, first.index + 1, high);
      } else {
        assert Indexes(lines) == Indexes(rest);
        IndexesAreUnique(rest, l, m, low, high);
      }
    } else if l in rest || m in rest {
      var other := if l in rest then l else m;
      ElementIndexed(rest, other);
      assert Indexes(lines)[1..] == Indexes(rest);
      RangedBounds(Indexes(rest), first.index + 1, high);
    }
  }

  lemma {:induction false} RecordIndexed(records: seq<Record>, i: nat) returns (r: Record)
    requires i in RecordIndexes(records)
    ensures r in records && r.index == i
  {
    if records[0].index == i {
      r := records[0];
    } else {
      assert RecordIndexes(records) == [records[0].index] + RecordIndexes(records[1..]);
      r := RecordIndexed(records[1..], i);
    }
  }

  lemma {:induction false} RecordIndexesLength(records: seq<Record>)
    ensures |RecordIndexes(records)| == |records|
  {
    if records != [] {
      RecordIndexesLength(records[1..]);
    }
  }

  /** A removable line belongs to an inactive tab, by its own text and by its record. */
  lemma {:induction false} RemovableIsInactive(v: View, l: Line, depth: nat)
    requires Inv(v) && l in v.lines && Removable(l, depth, v.records)
    ensures l.index < |v.made| && InactiveTab(v.made[l.index])
  {
    assert TrueLine(l, v.made);
    ElementIndexed(v.lines, l);
    var r := RecordIndexed(v.records, l.index);
    assert TrueRecord(r, v.made);
  }

  /** Compacting the lines from position `f` on drops the same indexes from lines and records. */
  lemma {:induction false} CompactionLockstep(v: View, f: nat, depth: nat)
    requires Inv(v) && f <= |v.lines|
    ensures var kept := Retained(v.lines[f..], depth, v.records);
            var omitted := OmittedIndexes(v.lines[f..], depth, v.records);
            && Indexes(v.lines[..f]) + Indexes(kept) == Minus(RecordIndexes(v.records), omitted)
            && Omitted(v.lines) == Omitted(v.lines[..f]) + Omitted(kept)
            && |RecordIndexes(v.records)| - |Minus(RecordIndexes(v.records), omitted)| == |v.lines| - f - |kept|
            && (forall l <- kept :: l in v.lines)
  {
    var head, tail := v.lines[..f], v.lines[f..];
    var omitted := OmittedIndexes(tail, depth, v.records);
    assert v.lines == head + tail;
    IndexesAppend(head, tail);
    RangedSplit(Indexes(head), Indexes(tail), 0, |v.made|);
    forall l | l in tail && l.Element? ensures l.index in omitted <==> Removable(l, depth, v.records) {
      if l.index in omitted {
        var m :| m in tail && Removable(m, depth, v.records) && m.index == l.index;
        IndexesAreUnique(tail, l, m, 0, |v.made|);
      }
    }
    RetainedIndexes(tail, depth, v.records, omitted);
    forall x | x in Indexes(head) ensures x !in omitted {
      if x in omitted {
        var m :| m in tail && Removable(m, depth, v.records) && m.index == x;
        ElementIndexed(tail, m);
      }
    }
    MinusNothing(Indexes(head), omitted);
    MinusAppend(Indexes(head), Indexes(tail), omitted);
  }

  lemma {:induction false} OmittedIsInactive(v: View, f: nat, depth: nat, i: nat)
    requires Inv(v) && f <= |v.lines| && i in OmittedIndexes(v.lines[f..], depth, v.records)
    ensures i < |v.made| && InactiveTab(v.made[i])
  {
    hide Inv, InactiveTab;
    var l :| l in v.lines[f..] && Removable(l, depth, v.records) && l.index == i;
    RemovableIsInactive(v, l, depth);
  }

  lemma {:induction false} CompactionKeepsInv(v: View, f: nat, depth: nat)
    requires Inv(v) && f <= |v.lines|
    ensures var kept := Retained(v.lines[f..], depth, v.records);
            var omitted := OmittedIndexes(v.lines[f..], depth, v.records);
            |kept| <= |v.lines| - f &&
            Inv(v.(lines := v.lines[..f] + [Marker(depth, |v.lines| - f - |kept|)] + kept,
                   records := Without(v.records, omitted)))
  {
    hide Indexes, RecordIndexes, Omitted, Ranged, Retained, Without, Minus, Removable, OmittedIndexes, InactiveTab;
    var kept, omitted := Retained(v.lines[f..], depth, v.records), OmittedIndexes(v.lines[f..], depth, v.records);
    RetainedIsShorter(v.lines[f..], depth, v.records);
    CompactionLockstep(v, f, depth);
    var marker := Marker(depth, |v.lines| - f - |kept|);
    var records := Without(v.records, omitted);
    WithoutIndexes(v.records, omitted);
    IndexesAppend(v.lines[..f] + [marker], kept);
    IndexesAppend(v.lines[..f], [marker]);
    OneLine(marker, {});
    RecordIndexesLength(v.records);
    RecordIndexesLength(records);
    MinusStaysRanged(RecordIndexes(v.records), omitted, 0, |v.made|);
    var w := v.(lines := v.lines[..f] + [marker] + kept, records := records);
    forall i | 0 <= i < |v.made| && i !in RecordIndexes(records) ensures InactiveTab(v.made[i]) {
      MinusMembers(RecordIndexes(v.records), omitted, i);
      if i in omitted {
        OmittedIsInactive(v, f, depth, i);
      }
    }
    assert forall l <- w.lines :: l in v.lines || l == marker;
  }

  lemma {:induction false} CompactsSomething(lines: seq<Line>, records: seq<Record>, start: nat, depth: nat)
    requires Compacts(lines, records, start, depth)
    ensures TabPositions(lines, start, depth) != []
  {
  }

  lemma {:induction false} CompactKeepsInv(v: View, start: nat, depth: nat)
    requires Inv(v)
    ensures Inv(CompactView(v, start, depth))
  {
    hide Compacts, Retained, OmittedIndexes, Without, Inv, TabPositions;
    if Compacts(v.lines, v.records, start, depth) {
      CompactsSomething(v.lines, v.records, start, depth);
      TabPositionsMean(v.lines, start, depth);
      var first := TabPositions(v.lines, start, depth)[0];
      assert first in TabPositions(v.lines, start, depth);
      CompactionKeepsInv(v, first, depth);
    }
  }

  // ---------- main results ----------

  lemma {:induction false} RenderKeepsInv(v: View, n: Node, depth: nat, compacting: bool)
    requires Inv(v)
    ensures Inv(Render(v, n, depth, compacting))
    decreases n, 1
  {
    hide Inv;
    if |v.records| >= MAX_NODES || depth > MAX_DEPTH {
      TruncateKeepsInv(v, depth);
    } else if Elided(n) {
      if !n.suppressed {
        RenderAllKeepsInv(v, n.children, depth, compacting);
      }
    } else {
      var w := Append(v, n.look, depth);
      AppendKeepsInv(v, n.look, depth);
      if !n.summary && !n.suppressed {
        RenderAllKeepsInv(w, n.children, depth + 1, compacting);
        CompactKeepsInv(RenderAll(w, n.children, depth + 1, compacting), |w.lines|, depth + 1);
      }
    }
  }

  lemma {:induction false} TruncateKeepsInv(v: View, depth: nat)
    requires Inv(v)
    ensures Inv(Truncate(v, depth))
  {
  }

  lemma {:induction false} RenderAllKeepsInv(v: View, ns: seq<Node>, depth: nat, compacting: bool)
    requires Inv(v)
    ensures Inv(RenderAll(v, ns, depth, compacting))
    decreases ns, 0
  {
    hide Inv;
    if ns != [] {
      RenderAllKeepsInv(v, ns[..|ns| - 1], depth, compacting);
      RenderKeepsInv(RenderAll(v, ns[..|ns| - 1], depth, compacting), ns[|ns| - 1], depth, compacting);
    }
  }

  /**
   Main result, for every tree: records and element lines carry the same increasing indexes, records
   and omissions add up to the indexes handed out, and only inactive tabs are missing.
   */
  lemma {:induction false} RenderedTreeIsConsistent(root: Node, compacting: bool)
    ensures var v := Render(EMPTY, root, 0, compacting);
            && Indexes(v.lines) == RecordIndexes(v.records)
            && Ranged(RecordIndexes(v.records), 0, |v.made|)
            && |v.records| + Omitted(v.lines) == |v.made|
            && |v.records| <= MAX_NODES
            && OnlyTabsGone(v)
  {
    RenderKeepsInv(EMPTY, root, 0, compacting);
  }

  /** The nodes a complete rendering shows, in order: elided ones give way, summaries hide what is below. */
  function Preorder(n: Node): seq<Look>
    decreases n, 1
  {
    if Elided(n) then if n.suppressed then [] else PreorderAll(n.children)
    else [n.look] + if n.summary || n.suppressed then [] else PreorderAll(n.children)
  }

  function PreorderAll(ns: seq<Node>): seq<Look>
    decreases ns, 0
  {
    if ns == [] then [] else PreorderAll(ns[..|ns| - 1]) + Preorder(ns[|ns| - 1])
  }

  /** Unless it reports a truncation, the walk hands out an index for every node to be shown, in order. */
  lemma {:induction false} UntruncatedShowsAll(v: View, n: Node, depth: nat, compacting: bool)
    ensures v.truncated ==> Render(v, n, depth, compacting).truncated
    ensures !Render(v, n, depth, compacting).truncated ==> Render(v, n, depth, compacting).made == v.made + Preorder(n)
    decreases n, 1
  {
    if !(|v.records| >= MAX_NODES || depth > MAX_DEPTH) {
      if !Elided(n) {
        var w := Append(v, n.look, depth);
        if !n.summary && !n.suppressed {
          UntruncatedShowsAllOf(w, n.children, depth + 1, compacting);
          assert v.made + [n.look] + PreorderAll(n.children) == v.made + ([n.look] + PreorderAll(n.children));
        }
      } else if !n.suppressed {
        UntruncatedShowsAllOf(v, n.children, depth, compacting);
      }
    }
  }

  lemma {:induction false} UntruncatedShowsAllOf(v: View, ns: seq<Node>, depth: nat, compacting: bool)
    ensures v.truncated ==> RenderAll(v, ns, depth, compacting).truncated
    ensures !RenderAll(v, ns, depth, compacting).truncated
            ==> RenderAll(v, ns, depth, compacting).made == v.made + PreorderAll(ns)
    decreases ns, 0
  {
    if ns != [] {
      UntruncatedShowsAllOf(v, ns[..|ns| - 1], depth, compacting);
      UntruncatedShowsAll(RenderAll(v, ns[..|ns| - 1], depth, compacting), ns[|ns| - 1], depth, compacting);
    }
  }
}
