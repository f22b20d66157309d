/**
 Rendering an accessibility tree as records and text lines in lockstep, and the compaction that
 removes inactive browser tabs from both. A line is its depth, the index it starts with and whether
 it reads as a tab; a marker stands where tabs were omitted and says how many.
 */
module TabCompaction {
  datatype Record = Record(index: nat, selected: bool)
  datatype Line =
    | Element(depth: nat, index: nat, tab: bool, marked: bool)
    | Marker(depth: nat, omitted: nat)

  const COMPACT_FROM: nat := 10

  predicate DirectTab(l: Line, depth: nat) { l.Element? && l.depth == depth && l.tab }

  predicate ActiveTab(l: Line, records: seq<Record>)
    requires l.Element?
  {
    l.marked || exists r <- records :: r.index == l.index && r.selected
  }

  predicate Removable(l: Line, depth: nat, records: seq<Record>) {
    DirectTab(l, depth) && !ActiveTab(l, records)
  }

  /** The positions of the direct tabs from `start` on. */
  function TabPositions(lines: seq<Line>, start: nat, depth: nat): seq<nat> {
    if |lines| <= start then []
    else
      var n := |lines| - 1;
      TabPositions(lines[..n], start, depth) + if DirectTab(lines[n], depth) then [n] else []
  }

  function Retained(lines: seq<Line>, depth: nat, records: seq<Record>): seq<Line> {
    if lines == [] then []
    else (if Removable(lines[0], depth, records) then [] else [lines[0]]) + Retained(lines[1..], depth, records)
  }

  function OmittedIndexes(lines: seq<Line>, depth: nat, records: seq<Record>): set<nat> {
    set l | l in lines && Removable(l, depth, records) :: l.index
  }

  function Without(records: seq<Record>, omitted: set<nat>): seq<Record> {
    if records == [] then []
    else (if records[0].index in omitted then [] else [records[0]]) + Without(records[1..], omitted)
  }

  /** Whether there are enough tabs, an active one to keep and an inactive one to omit. */
  predicate Compacts(lines: seq<Line>, records: seq<Record>, start: nat, depth: nat) {
    var tabs := TabPositions(lines, start, depth);
    && |tabs| >= COMPACT_FROM
    && (exists t <- tabs :: t < |lines| && lines[t].Element? && ActiveTab(lines[t], records))
    && (exists t <- tabs :: t < |lines| && Removable(lines[t], depth, records))
  }

  function Compact(lines: seq<Line>, records: seq<Record>, start: nat, depth: nat): (seq<Line>, seq<Record>) {
    if !Compacts(lines, records, start, depth) then (lines, records)
    else
      var first := TabPositions(lines, start, depth)[0];
      if first > |lines| then (lines, records)
      else
        var kept := Retained(lines[first..], depth, records);
        RetainedIsShorter(lines[first..], depth, records);
        (lines[..first] + [Marker(depth, |lines| - first - |kept|)] + kept,
         Without(records, OmittedIndexes(lines[first..], depth, records)))
  }

  lemma {:induction false} RetainedIsShorter(lines: seq<Line>, depth: nat, records: seq<Record>)
    ensures |Retained(lines, depth, records)| <= |lines|
  {
    if lines != [] {
      RetainedIsShorter(lines[1..], depth, records);
    }
  }

  ghost predicate Increasing(s: seq<nat>) { forall i, j :: 0 <= i < j < |s| ==> s[i] < s[j] }

  lemma {:induction false} AppendIncreasing(s: seq<nat>, x: nat)
    requires Increasing(s) && forall i :: 0 <= i < |s| ==> s[i] < x
    ensures Increasing(s + [x])
  {
  }

  lemma {:induction false} TabPositionsAre(lines: seq<Line>, start: nat, depth: nat, t: nat)
    ensures t in TabPositions(lines, start, depth) <==> start <= t < |lines| && DirectTab(lines[t], depth)
  {
    if |lines| > start {
      TabPositionsAre(lines[..|lines| - 1], start, depth, t);
    }
  }

  lemma {:induction false} TabPositionsIncrease(lines: seq<Line>, start: nat, depth: nat)
    ensures Increasing(TabPositions(lines, start, depth))
  {
    if |lines| > start {
      var n := |lines| - 1;
      TabPositionsIncrease(lines[..n], start, depth);
      var tabs := TabPositions(lines[..n], start, depth);
      forall i | 0 <= i < |tabs| ensures tabs[i] < n {
        TabPositionsAre(lines[..n], start, depth, tabs[i]);
      }
      AppendIncreasing(tabs, n);
    }
  }

  lemma {:induction false} TabPositionsMean(lines: seq<Line>, start: nat, depth: nat)
    ensures var tabs := TabPositions(lines, start, depth);
            && Increasing(tabs)
            && (forall t :: t in tabs <==> start <= t < |lines| && DirectTab(lines[t], depth))
  {
    hide TabPositions, Increasing;
    TabPositionsIncrease(lines, start, depth);
    forall t: nat { TabPositionsAre(lines, start, depth, t); }
  }

  /** Between two neighbouring positions, and around them all, stands no direct tab. */
  lemma {:induction false} NoTabBetween(lines: seq<Line>, start: nat, depth: nat, k: nat)
    requires k <= |TabPositions(lines, start, depth)|
    ensures var tabs := TabPositions(lines, start, depth);
            var low, high := if k == 0 then start else tabs[k - 1] + 1, if k < |tabs| then tabs[k] else |lines|;
            && (start <= |lines| ==> low <= high)
            && high <= |lines|
            && (forall t <- tabs :: start <= t < |lines| && DirectTab(lines[t], depth))
            && (forall i :: low <= i < high ==> !DirectTab(lines[i], depth))
  {
    var tabs := TabPositions(lines, start, depth);
    TabPositionsMean(lines, start, depth);
    assert forall i :: 0 <= i < |tabs| ==> tabs[i] in tabs;
    var low, high := if k == 0 then start else tabs[k - 1] + 1, if k < |tabs| then tabs[k] else |lines|;
    forall i | low <= i < high ensures !DirectTab(lines[i], depth) {
      assert forall j :: 0 <= j < |tabs| ==> tabs[j] != i;
      assert i !in tabs;
    }
  }

  // ---------- compaction in place ----------

  class Rendering {
    var records: seq<Record>
    var lines: seq<Line>

    constructor ()
      ensures records == [] && lines == []
    {
      records, lines := [], [];
    }

    method FindTabs(start: nat, depth: nat) returns (tabs: seq<nat>)
      requires start <= |lines|
      ensures tabs == TabPositions(lines, start, depth)
    {
      tabs := [];
      for i := start to |lines|
        invariant tabs == TabPositions(lines[..i], start, depth)
      {
        assert lines[..i + 1][..i] == lines[..i];
        if DirectTab(lines[i], depth) {
          tabs := tabs + [i];
        }
      }
      assert lines[..|lines|] == lines;
    }

    /** Deletes the inactive tabs from the last to the first, so that earlier positions stay valid. */
    method DeleteInactive(tabs: seq<nat>, active: set<nat>, start: nat, depth: nat)
      returns (omitted: set<nat>, count: nat)
      requires start <= |lines| && tabs == TabPositions(lines, start, depth) && tabs != []
      requires active == set t | t in tabs && t < |lines| && lines[t].Element? && ActiveTab(lines[t], records)
      modifies this`lines
      ensures |lines| == |old(lines)| - count
      ensures Swept(old(lines), lines, omitted, tabs[0], depth, records)
    {
      ghost var was := lines;
      omitted, count := {}, 0;
      var k := |tabs|;
      NothingRetained(was, depth, records);
      while k > 0
        invariant 0 <= k <= |tabs|
        invariant |lines| == |was| - count
        invariant Swept(was, lines, omitted, if k < |tabs| then tabs[k] else |was|, depth, records)
      {
        hide Swept, Retained, OmittedIndexes, TabPositions;
        NoTabBetween(was, start, depth, k);
        k := k - 1;
        var t := tabs[k];
        assert t in tabs;
        SweptBack(was, lines, omitted, t + 1, if k + 1 < |tabs| then tabs[k + 1] else |was|, depth, records);
        SweepOne(was, lines, omitted, t, depth, records);
        if t !in active {
          omitted := omitted + {lines[t].index};
          lines := lines[..t] + lines[t + 1..];
          count := count + 1;
        }
      }
    }

    method CompactTabs(start: nat, depth: nat)
      requires start <= |lines|
      modifies this
      ensures (lines, records) == Compact(old(lines), old(records), start, depth)
    {
      hide Retained, OmittedIndexes, TabPositions, Without;
      ghost var was := lines;
      var tabs := FindTabs(start, depth);
      if |tabs| < COMPACT_FROM {
        return;
      }
      TabPositionsMean(lines, start, depth);
      var active: set<nat> := set t | t in tabs && t < |lines| && lines[t].Element? && ActiveTab(lines[t], records);
      if active == {} {
        assert forall t <- tabs :: t !in active;
        return;
      }
      assert exists t <- tabs :: t < |was| && was[t].Element? && ActiveTab(was[t], records) by {
        var t :| t in active;
      }
      var omitted, count := DeleteInactive(tabs, active, start, depth);
      RetainedIsShorter(was[tabs[0]..], depth, records);
      if count == 0 {
        NothingRemoved(was, start, depth, records);
        assert lines == was[..tabs[0]] + was[tabs[0]..] == was;
        return;
      }
      RemovedSome(was, start, depth, records);
      records := Without(records, omitted);
      lines := lines[..tabs[0]] + [Marker(depth, count)] + lines[tabs[0]..];
    }
  }

  // ---------- the sweep ----------

  /** The lines from `p` on are down to those retained; the ones before are untouched. */
  ghost predicate Swept(was: seq<Line>, now: seq<Line>, omitted: set<nat>, p: nat, depth: nat, records: seq<Record>) {
    && p <= |was|
    && now == was[..p] + Retained(was[p..], depth, records)
    && omitted == OmittedIndexes(was[p..], depth, records)
  }

  lemma {:induction false} NothingRetained(was: seq<Line>, depth: nat, records: seq<Record>)
    ensures Swept(was, was, {}, |was|, depth, records)
  {
    assert was[|was|..] == [] && was[..|was|] == was;
  }

  lemma {:induction false} RetainedCons(l: Line, rest: seq<Line>, depth: nat, records: seq<Record>)
    ensures Retained([l] + rest, depth, records)
         == (if Removable(l, depth, records) then [] else [l]) + Retained(rest, depth, records)
    ensures OmittedIndexes([l] + rest, depth, records)
         == (if Removable(l, depth, records) then {l.index} else {}) + OmittedIndexes(rest, depth, records)
  {
    assert ([l] + rest)[1..] == rest;
  }

  /** Lines that are no direct tabs are passed over. */
  lemma {:induction false} SweptBack(
    was: seq<Line>, now: seq<Line>, omitted: set<nat>, p: nat, q: nat, depth: nat, records: seq<Record>)
    requires Swept(was, now, omitted, q, depth, records) && p <= q
    requires forall i :: p <= i < q ==> !DirectTab(was[i], depth)
    ensures Swept(was, now, omitted, p, depth, records)
    decreases q - p
  {
    if p < q {
      SweptBack(was, now, omitted, p + 1, q, depth, records);
      assert was[p..] == [was[p]] + was[p + 1..];
      RetainedCons(was[p], was[p + 1..], depth, records);
      assert was[..p + 1] == was[..p] + [was[p]];
    }
  }

  lemma {:induction false} SweepOne(
    was: seq<Line>, now: seq<Line>, omitted: set<nat>, t: nat, depth: nat, records: seq<Record>)
    requires t < |was| && Swept(was, now, omitted, t + 1, depth, records) && DirectTab(was[t], depth)
    ensures t < |now| && now[t] == was[t]
    ensures if ActiveTab(was[t], records) then Swept(was, now, omitted, t, depth, records)
            else Swept(was, now[..t] + now[t + 1..], omitted + {was[t].index}, t, depth, records)
  {
    hide Retained, OmittedIndexes;
    assert was[t..] == [was[t]] + was[t + 1..];
    RetainedCons(was[t], was[t + 1..], depth, records);
    assert was[..t + 1] == was[..t] + [was[t]];
    if !ActiveTab(was[t], records) {
      assert now[..t] == was[..t] && now[t + 1..] == Retained(was[t + 1..], depth, records);
    }
  }

  lemma {:induction false} NothingRemoved(was: seq<Line>, start: nat, depth: nat, records: seq<Record>)
    requires start <= |was| && TabPositions(was, start, depth) != []
    requires var p := TabPositions(was, start, depth)[0];
             p <= |was| && |Retained(was[p..], depth, records)| == |was| - p
    ensures var first := TabPositions(was, start, depth)[0];
            Retained(was[first..], depth, records) == was[first..]
    ensures !Compacts(was, records, start, depth)
  {
    hide TabPositions;
    var tabs := TabPositions(was, start, depth);
    var p := tabs[0];
    AllRetained(was[p..], depth, records);
    TabPositionsMean(was, start, depth);
    hide Retained, ActiveTab;
    forall t | t in tabs ensures t < |was| && !Removable(was[t], depth, records) {
      var j :| 0 <= j < |tabs| && tabs[j] == t;
      assert j == 0 || tabs[0] < tabs[j];
      assert was[p..][t - p] == was[t];
    }
  }

  lemma {:induction false} AllRetained(lines: seq<Line>, depth: nat, records: seq<Record>)
    requires |Retained(lines, depth, records)| == |lines|
    ensures Retained(lines, depth, records) == lines
    ensures forall i :: 0 <= i < |lines| ==> !Removable(lines[i], depth, records)
  {
    if lines != [] {
      RetainedIsShorter(lines[1..], depth, records);
      AllRetained(lines[1..], depth, records);
    }
  }

  lemma {:induction false} RemovedSome(was: seq<Line>, start: nat, depth: nat, records: seq<Record>)
    requires start <= |was| && TabPositions(was, start, depth) != []
    requires var p := TabPositions(was, start, depth)[0];
             p <= |was| && |Retained(was[p..], depth, records)| < |was| - p
    ensures exists t <- TabPositions(was, start, depth) :: t < |was| && Removable(was[t], depth, records)
  {
    var p := TabPositions(was, start, depth)[0];
    var j := SomeRemovable(was[p..], depth, records);
    TabPositionsMean(was, start, depth);
    assert was[p..][j] == was[p + j] && p in TabPositions(was, start, depth);
  }

  lemma {:induction false} SomeRemovable(lines: seq<Line>, depth: nat, records: seq<Record>) returns (j: nat)
    requires |Retained(lines, depth, records)| < |lines|
    ensures j < |lines| && Removable(lines[j], depth, records)
  {
    if Removable(lines[0], depth, records) {
      j := 0;
    } else {
      var i := SomeRemovable(lines[1..], depth, records);
      j := i + 1;
    }
  }
}
