/**
 What a complete rendering reads like, told by the tree alone: each shown node stands one tab deeper
 than the shown node around it, and where ten or more of a node's shown children are tabs and one of
 them is active, the inactive ones give way to one marker before the first tab.

 The walk compacts the lines below each node after the fact, by their depth. That this comes to the
 same is the main result.
 */
module TreePages {
  import opened TabCompaction
  import opened TreeRenderer

  /**
   Within the limits a nameless container without a summary and with at most one child gives way to that
   child, at its own depth; every other node gets a line, with its children one tab deeper.
   */
  lemma {:induction false} ContainersGiveWay(v: View, n: Node, depth: nat)
    requires |v.records| < 1200 && depth <= 64
    ensures n.elidable && !n.summary && (n.suppressed || n.children == []) ==> Render(v, n, depth, false) == v
    ensures n.elidable && !n.summary && !n.suppressed && |n.children| == 1 ==>
              Render(v, n, depth, false) == Render(v, n.children[0], depth, false)
    ensures !n.elidable || n.summary || (!n.suppressed && |n.children| > 1) ==>
              var own := v.(records := v.records + [Record(|v.made|, n.look.selected)],
                            lines := v.lines + [Element(depth, |v.made|, n.look.tab, n.look.marked)],
                            made := v.made + [n.look]);
              Render(v, n, depth, false)
              == if n.summary || n.suppressed then own else RenderAll(own, n.children, depth + 1, false)
  {
    if |n.children| == 1 {
      assert n.children[..0] == [];
      assert RenderAll(v, n.children[..0], depth, false) == v;
    }
  }

  // ---------- the page of a tree ----------

  /** The nodes shown in the place of `n`: itself, or what it gives way to. */
  function Fronts(n: Node): seq<Look>
    decreases n, 1
  {
    if !Elided(n) then [n.look] else if n.suppressed then [] else FrontsAll(n.children)
  }

  function FrontsAll(ns: seq<Node>): seq<Look>
    decreases ns, 0
  {
    if ns == [] then [] else FrontsAll(ns[..|ns| - 1]) + Fronts(ns[|ns| - 1])
  }

  function TabsAmong(looks: seq<Look>): seq<Look> {
    if looks == [] then []
    else TabsAmong(looks[..|looks| - 1]) + if looks[|looks| - 1].tab then [looks[|looks| - 1]] else []
  }

  function IdleAmong(looks: seq<Look>): nat {
    if looks == [] then 0
    else IdleAmong(looks[..|looks| - 1]) + if InactiveTab(looks[|looks| - 1]) then 1 else 0
  }

  /** Ten tabs or more, an active one and an inactive one. */
  predicate Crowded(looks: seq<Look>) {
    && |TabsAmong(looks)| >= 10
    && (exists look <- TabsAmong(looks) :: look.marked || look.selected)
    && (exists look <- TabsAmong(looks) :: !look.marked && !look.selected)
  }

  /** The lines of a subtree whose first shown node has the given index; `crowd` drops it if it is an inactive tab. */
  function Page(n: Node, depth: nat, index: nat, crowd: bool, compacting: bool): seq<Line>
    decreases n, 1
  {
    if Elided(n) then if n.suppressed then [] else Pages(n.children, depth, index, crowd, 0, compacting)
    else
      (if crowd && InactiveTab(n.look) then [] else [Element(depth, index, n.look.tab, n.look.marked)])
        + if n.summary || n.suppressed then []
          else
            var fronts := FrontsAll(n.children);
            if compacting && Crowded(fronts)
            then Pages(n.children, depth + 1, index + 1, true, IdleAmong(fronts), compacting)
            else Pages(n.children, depth + 1, index + 1, false, 0, compacting)
  }

  /** The pages of siblings, with a marker for `idle` omitted tabs, if any, before the first tab. */
  function Pages(ns: seq<Node>, depth: nat, index: nat, crowd: bool, idle: nat, compacting: bool): seq<Line>
    decreases ns, 0
  {
    if ns == [] then []
    else
      var init, last := ns[..|ns| - 1], ns[|ns| - 1];
      var first := TabsAmong(FrontsAll(init)) == [] && TabsAmong(Fronts(last)) != [];
      Pages(init, depth, index, crowd, idle, compacting)
        + (if idle > 0 && first then [Marker(depth, idle)] else [])
        + Page(last, depth, index + |PreorderAll(init)|, crowd, compacting)
  }

  // ---------- lines below a depth ----------

  lemma {:induction false} PageIsDeep(n: Node, depth: nat, index: nat, crowd: bool, compacting: bool)
    ensures forall l <- Page(n, depth, index, crowd, compacting) :: l.depth >= depth
    decreases n, 1
  {
    if Elided(n) {
      if !n.suppressed {
        PagesAreDeep(n.children, depth, index, crowd, 0, compacting);
      }
    } else if !n.summary && !n.suppressed {
      PagesAreDeep(n.children, depth + 1, index + 1, true, IdleAmong(FrontsAll(n.children)), compacting);
      PagesAreDeep(n.children, depth + 1, index + 1, false, 0, compacting);
    }
  }

  lemma {:induction false} PagesAreDeep(
    ns: seq<Node>, depth: nat, index: nat, crowd: bool, idle: nat, compacting: bool)
    ensures forall l <- Pages(ns, depth, index, crowd, idle, compacting) :: l.depth >= depth
    decreases ns, 0
  {
    hide Page;
    if ns != [] {
      var init, last := ns[..|ns| - 1], ns[|ns| - 1];
      PagesAreDeep(init, depth, index, crowd, idle, compacting);
      PageIsDeep(last, depth, index + |PreorderAll(init)|, crowd, compacting);
    }
  }

  lemma {:induction false} DeepLinesRetained(lines: seq<Line>, depth: nat, records: seq<Record>)
    requires forall l <- lines :: l.depth > depth
    ensures Retained(lines, depth, records) == lines
  {
    if lines != [] {
      assert lines[0] in lines;
      DeepLinesRetained(lines[1..], depth, records);
    }
  }

  lemma {:induction false} RetainedAppends(a: seq<Line>, b: seq<Line>, depth: nat, records: seq<Record>)
    ensures Retained(a + b, depth, records) == Retained(a, depth, records) + Retained(b, depth, records)
  {
    if a == [] {
      assert a + b == b;
    } else {
      assert (a + b)[1..] == a[1..] + b;
      RetainedAppends(a[1..], b, depth, records);
    }
  }

  lemma {:induction false} RetainedOne(l: Line, depth: nat, records: seq<Record>)
    ensures Retained([l], depth, records) == if Removable(l, depth, records) then [] else [l]
    ensures Retained([], depth, records) == []
  {
    assert [l][1..] == [];
  }

  // ---------- compaction told by looks ----------

  /** At the given index stands this subtree's preorder. */
  predicate Stands(made: seq<Look>, index: nat, preorder: seq<Look>) {
    index + |preorder| <= |made| && made[index..index + |preorder|] == preorder
  }

  /** A node's records say what its look says. */
  ghost predicate TrueRecords(records: seq<Record>, made: seq<Look>) {
    forall i :: 0 <= i < |made| ==> (made[i].selected <==> exists r <- records :: r.index == i && r.selected)
  }

  lemma {:induction false} OwnLineRemovable(
    look: Look, depth: nat, index: nat, records: seq<Record>, made: seq<Look>)
    requires index < |made| && made[index] == look && TrueRecords(records, made)
    ensures var l := Element(depth, index, look.tab, look.marked);
            && (Removable(l, depth, records) <==> InactiveTab(look))
            && (ActiveTab(l, records) <==> look.marked || look.selected)
  {
    assert made[index].selected <==> exists r <- records :: r.index == index && r.selected;
  }

  lemma {:induction false} StandsInParts(made: seq<Look>, index: nat, a: seq<Look>, b: seq<Look>)
    requires Stands(made, index, a + b)
    ensures Stands(made, index, a) && Stands(made, index + |a|, b)
  {
    assert made[index..index + |a|] == (a + b)[..|a|] == a;
    assert made[index + |a|..index + |a| + |b|] == (a + b)[|a|..] == b;
  }

  /** Retaining a subtree's lines at its own depth drops its first node's line, if that is an inactive tab. */
  lemma {:induction false} RetainedPage(
    n: Node, depth: nat, index: nat, compacting: bool, records: seq<Record>, made: seq<Look>)
    requires TrueRecords(records, made) && Stands(made, index, Preorder(n))
    ensures Retained(Page(n, depth, index, false, compacting), depth, records)
         == Page(n, depth, index, true, compacting)
    ensures |Page(n, depth, index, false, compacting)| - |Page(n, depth, index, true, compacting)|
         == IdleAmong(Fronts(n))
    decreases n, 1
  {
    hide TrueRecords, Retained, Pages, PreorderAll, Crowded, IdleAmong, Stands;
    if Elided(n) {
      if n.suppressed {
        NothingIdle();
        RetainedOne(Marker(0, 0), depth, records);
      } else {
        RetainedPages(n.children, depth, index, compacting, records, made);
      }
    } else {
      var own := Element(depth, index, n.look.tab, n.look.marked);
      var below := Page(n, depth, index, false, compacting)[1..];
      assert Page(n, depth, index, false, compacting) == [own] + below;
      BelowIsDeep(n, depth, index, compacting);
      DeepLinesRetained(below, depth, records);
      RetainedAppends([own], below, depth, records);
      RetainedOne(own, depth, records);
      OwnLookStands(n, index, made);
      OwnLineRemovable(n.look, depth, index, records, made);
      OneIdle(n.look);
    }
  }

  lemma {:induction false} OwnLookStands(n: Node, index: nat, made: seq<Look>)
    requires !Elided(n) && Stands(made, index, Preorder(n))
    ensures index < |made| && made[index] == n.look
  {
    assert made[index..index + |Preorder(n)|][0] == n.look;
  }

  lemma {:induction false} BelowIsDeep(n: Node, depth: nat, index: nat, compacting: bool)
    requires !Elided(n)
    ensures forall l <- Page(n, depth, index, false, compacting)[1..] :: l.depth > depth
  {
    hide Pages, Crowded, IdleAmong, FrontsAll;
    if !n.summary && !n.suppressed {
      PagesAreDeep(n.children, depth + 1, index + 1, true, IdleAmong(FrontsAll(n.children)), compacting);
      PagesAreDeep(n.children, depth + 1, index + 1, false, 0, compacting);
    }
  }

  lemma {:induction false} NothingIdle()
    ensures IdleAmong([]) == 0 && TabsAmong([]) == []
  {
  }

  lemma {:induction false} OneIdle(look: Look)
    ensures IdleAmong([look]) == if InactiveTab(look) then 1 else 0
    ensures TabsAmong([look]) == if look.tab then [look] else []
  {
    assert [look][..0] == [];
  }

  lemma {:induction false} AmongAppends(a: seq<Look>, b: seq<Look>)
    ensures IdleAmong(a + b) == IdleAmong(a) + IdleAmong(b)
    ensures TabsAmong(a + b) == TabsAmong(a) + TabsAmong(b)
    decreases |b|
  {
    if b == [] {
      assert a + b == a;
    } else {
      assert (a + b)[..|a + b| - 1] == a + b[..|b| - 1];
      AmongAppends(a, b[..|b| - 1]);
    }
  }

  lemma {:induction false} RetainedPages(
    ns: seq<Node>, depth: nat, index: nat, compacting: bool, records: seq<Record>, made: seq<Look>)
    requires TrueRecords(records, made) && Stands(made, index, PreorderAll(ns))
    ensures Retained(Pages(ns, depth, index, false, 0, compacting), depth, records)
         == Pages(ns, depth, index, true, 0, compacting)
    ensures |Pages(ns, depth, index, false, 0, compacting)| - |Pages(ns, depth, index, true, 0, compacting)|
         == IdleAmong(FrontsAll(ns))
    decreases ns, 0
  {
    hide TrueRecords, Retained, Page, Preorder, IdleAmong, TabsAmong, Stands;
    if ns == [] {
      NothingIdle();
      RetainedOne(Marker(0, 0), depth, records);
    } else {
      var init, last := ns[..|ns| - 1], ns[|ns| - 1];
      var next := index + |PreorderAll(init)|;
      StandsInParts(made, index, PreorderAll(init), Preorder(last));
      RetainedPages(init, depth, index, compacting, records, made);
      RetainedPage(last, depth, next, compacting, records, made);
      RetainedAppends(Pages(init, depth, index, false, 0, compacting), Page(last, depth, next, false, compacting),
                      depth, records);
      AmongAppends(FrontsAll(init), Fronts(last));
      PagesUnmarked(ns, depth, index, false, compacting);
      PagesUnmarked(ns, depth, index, true, compacting);
    }
  }

  lemma {:induction false} PagesUnmarked(ns: seq<Node>, depth: nat, index: nat, crowd: bool, compacting: bool)
    requires ns != []
    ensures var init, last := ns[..|ns| - 1], ns[|ns| - 1];
            Pages(ns, depth, index, crowd, 0, compacting)
            == Pages(init, depth, index, crowd, 0, compacting)
               + Page(last, depth, index + |PreorderAll(init)|, crowd, compacting)
  {
  }

  // ---------- where the tabs stand ----------

  /** The looks of the direct tabs among some lines, in order. */
  function DirectLooks(lines: seq<Line>, depth: nat, made: seq<Look>): seq<Look> {
    if lines == [] then []
    else
      var init, l := lines[..|lines| - 1], lines[|lines| - 1];
      DirectLooks(init, depth, made)
        + if DirectTab(l, depth) && l.index < |made| then [made[l.index]] else []
  }

  lemma {:induction false} DirectLooksAppend(a: seq<Line>, b: seq<Line>, depth: nat, made: seq<Look>)
    ensures DirectLooks(a + b, depth, made) == DirectLooks(a, depth, made) + DirectLooks(b, depth, made)
    decreases |b|
  {
    if b == [] {
      assert a + b == a;
    } else {
      assert (a + b)[..|a + b| - 1] == a + b[..|b| - 1];
      DirectLooksAppend(a, b[..|b| - 1], depth, made);
    }
  }

  lemma {:induction false} DeepLinesHaveNone(lines: seq<Line>, depth: nat, made: seq<Look>)
    requires forall l <- lines :: l.depth > depth
    ensures DirectLooks(lines, depth, made) == []
  {
    if lines != [] {
      assert lines[|lines| - 1] in lines;
      DeepLinesHaveNone(lines[..|lines| - 1], depth, made);
    }
  }

  lemma {:induction false} DirectLooksOfOne(l: Line, depth: nat, made: seq<Look>)
    ensures DirectLooks([l], depth, made) == if DirectTab(l, depth) && l.index < |made| then [made[l.index]] else []
    ensures DirectLooks([], depth, made) == []
  {
    assert [l][..0] == [];
  }

  /** The direct tabs of a page are the tabs among its fronts. */
  lemma {:induction false} PageLooks(n: Node, depth: nat, index: nat, compacting: bool, made: seq<Look>)
    requires Stands(made, index, Preorder(n))
    ensures DirectLooks(Page(n, depth, index, false, compacting), depth, made) == TabsAmong(Fronts(n))
    decreases n, 1
  {
    hide DirectLooks, TabsAmong, Pages, Crowded, IdleAmong, Stands, PreorderAll;
    if Elided(n) {
      if n.suppressed {
        NothingIdle();
        DirectLooksOfOne(Marker(0, 0), depth, made);
      } else {
        PagesLooks(n.children, depth, index, compacting, made);
      }
    } else {
      var own := Element(depth, index, n.look.tab, n.look.marked);
      var below := Page(n, depth, index, false, compacting)[1..];
      assert Page(n, depth, index, false, compacting) == [own] + below;
      BelowIsDeep(n, depth, index, compacting);
      DeepLinesHaveNone(below, depth, made);
      DirectLooksAppend([own], below, depth, made);
      DirectLooksOfOne(own, depth, made);
      OwnLookStands(n, index, made);
      OneIdle(n.look);
    }
  }

  lemma {:induction false} PagesLooks(ns: seq<Node>, depth: nat, index: nat, compacting: bool, made: seq<Look>)
    requires Stands(made, index, PreorderAll(ns))
    ensures DirectLooks(Pages(ns, depth, index, false, 0, compacting), depth, made) == TabsAmong(FrontsAll(ns))
    decreases ns, 0
  {
    hide DirectLooks, TabsAmong, Page, Preorder, IdleAmong, Stands;
    if ns == [] {
      NothingIdle();
      DirectLooksOfOne(Marker(0, 0), depth, made);
    } else {
      var init, last := ns[..|ns| - 1], ns[|ns| - 1];
      var next := index + |PreorderAll(init)|;
      StandsInParts(made, index, PreorderAll(init), Preorder(last));
      PagesLooks(init, depth, index, compacting, made);
      PageLooks(last, depth, next, compacting, made);
      DirectLooksAppend(
        Pages(init, depth, index, false, 0, compacting), Page(last, depth, next, false, compacting), depth, made);
      AmongAppends(FrontsAll(init), Fronts(last));
      PagesUnmarked(ns, depth, index, false, compacting);
    }
  }

  /** A page with a tab among its fronts starts with it. */
  lemma {:induction false} TabComesFirst(n: Node, depth: nat, index: nat, compacting: bool)
    requires TabsAmong(Fronts(n)) != []
    ensures var page := Page(n, depth, index, false, compacting); page != [] && DirectTab(page[0], depth)
    decreases n
  {
    hide Crowded, IdleAmong;
    if Elided(n) {
      if n.suppressed {
        NothingIdle();
        assert false;
      } else {
        var ns := n.children;
        if ns == [] {
          NothingIdle();
          assert false;
        } else {
          OnlyChild(ns, depth, index, compacting);
          TabComesFirst(ns[0], depth, index, compacting);
        }
      }
    } else {
      OneIdle(n.look);
    }
  }

  lemma {:induction false} OnlyChild(ns: seq<Node>, depth: nat, index: nat, compacting: bool)
    requires |ns| == 1
    ensures FrontsAll(ns) == Fronts(ns[0])
    ensures Pages(ns, depth, index, false, 0, compacting) == Page(ns[0], depth, index, false, compacting)
  {
    hide Page, Fronts;
    assert ns[..0] == [];
    assert FrontsAll(ns[..0]) == [] && PreorderAll(ns[..0]) == [];
  }

  /** Where the first tab stands among siblings, and what dropping the inactive ones from there on makes of them. */
  lemma {:induction false} CrowdedPages(
    ns: seq<Node>, depth: nat, index: nat, idle: nat, compacting: bool, records: seq<Record>, made: seq<Look>)
    returns (k: nat)
    requires TrueRecords(records, made) && Stands(made, index, PreorderAll(ns)) && idle > 0
    ensures var page := Pages(ns, depth, index, false, 0, compacting);
            var crowded := Pages(ns, depth, index, true, idle, compacting);
            && k <= |page|
            && DirectLooks(page[..k], depth, made) == []
            && if TabsAmong(FrontsAll(ns)) == [] then
                 crowded == page && k == |page|
               else
                 && k < |page| && DirectTab(page[k], depth)
                 && crowded == page[..k] + [Marker(depth, idle)] + Retained(page[k..], depth, records)
                 && |page[k..]| - |Retained(page[k..], depth, records)| == IdleAmong(FrontsAll(ns))
    decreases |ns|
  {
    hide TrueRecords, Retained, Page, Preorder, IdleAmong, TabsAmong, Stands, DirectLooks, Fronts;
    if ns == [] {
      k := 0;
      NothingIdle();
      DirectLooksOfOne(Marker(0, 0), depth, made);
    } else {
      var init, last := ns[..|ns| - 1], ns[|ns| - 1];
      var next := index + |PreorderAll(init)|;
      StandsInParts(made, index, PreorderAll(init), Preorder(last));
      var before := CrowdedPages(init, depth, index, idle, compacting, records, made);
      k := before;
      PagesUnmarked(ns, depth, index, false, compacting);
      AmongAppends(FrontsAll(init), Fronts(last));
      RetainedPage(last, depth, next, compacting, records, made);
      var head, tail := Pages(init, depth, index, false, 0, compacting), Page(last, depth, next, false, compacting);
      assert (head + tail)[..k] == head[..k];
      if TabsAmong(FrontsAll(init)) != [] {
        assert (head + tail)[k..] == head[k..] + tail;
        RetainedAppends(head[k..], tail, depth, records);
      } else if TabsAmong(Fronts(last)) != [] {
        assert (head + tail)[k..] == tail;
        TabComesFirst(last, depth, next, compacting);
        NoTabsNoIdle(FrontsAll(init));
      } else {
        NoTabsNoIdle(Fronts(last));
        SameSize(tail, depth, records);
        PageLooks(last, depth, next, compacting, made);
        DirectLooksAppend(head, tail, depth, made);
        k := |head + tail|;
        assert (head + tail)[..k] == head + tail && head[..|head|] == head;
      }
    }
  }

  lemma {:induction false} NoTabsNoIdle(looks: seq<Look>)
    requires TabsAmong(looks) == []
    ensures IdleAmong(looks) == 0
  {
    if looks != [] {
      NoTabsNoIdle(looks[..|looks| - 1]);
    }
  }

  lemma {:induction false} SameSize(lines: seq<Line>, depth: nat, records: seq<Record>)
    requires |Retained(lines, depth, records)| == |lines|
    ensures Retained(lines, depth, records) == lines
  {
    AllRetained(lines, depth, records);
  }

  // ---------- compaction at work ----------

  lemma {:induction false} LooksMean(lines: seq<Line>, depth: nat, made: seq<Look>)
    requires forall l <- lines :: l.Element? ==> l.index < |made|
    ensures forall l <- lines :: DirectTab(l, depth) ==> made[l.index] in DirectLooks(lines, depth, made)
    ensures forall look <- DirectLooks(lines, depth, made) ::
              exists l <- lines :: DirectTab(l, depth) && made[l.index] == look
  {
    if lines != [] {
      var init, last := lines[..|lines| - 1], lines[|lines| - 1];
      LooksMean(init, depth, made);
      assert lines == init + [last];
      forall look | look in DirectLooks(lines, depth, made)
        ensures exists l <- lines :: DirectTab(l, depth) && made[l.index] == look
      {
        if look in DirectLooks(init, depth, made) {
          var l :| l in init && DirectTab(l, depth) && made[l.index] == look;
          assert l in lines;
        } else {
          assert last in lines;
        }
      }
    }
  }

  lemma {:induction false} LineOfLook(lines: seq<Line>, depth: nat, made: seq<Look>, look: Look) returns (j: nat)
    requires look in DirectLooks(lines, depth, made)
    ensures j < |lines| && DirectTab(lines[j], depth) && lines[j].index < |made| && made[lines[j].index] == look
  {
    var init := lines[..|lines| - 1];
    if look in DirectLooks(init, depth, made) {
      j := LineOfLook(init, depth, made, look);
    } else {
      j := |init|;
    }
  }

  lemma {:induction false} PositionsCounted(lines: seq<Line>, start: nat, depth: nat, made: seq<Look>)
    requires start <= |lines| && forall l <- lines :: l.Element? ==> l.index < |made|
    ensures |TabPositions(lines, start, depth)| == |DirectLooks(lines[start..], depth, made)|
  {
    if start < |lines| {
      var n := |lines| - 1;
      assert lines[start..][..n - start] == lines[..n][start..];
      PositionsCounted(lines[..n], start, depth, made);
      assert lines[n] in lines;
    }
  }

  lemma {:induction false} InvMakesRecordsTrue(v: View)
    requires Inv(v)
    ensures TrueRecords(v.records, v.made)
  {
    hide Indexes, Omitted, Ranged;
    forall i | 0 <= i < |v.made|
      ensures v.made[i].selected <==> exists r <- v.records :: r.index == i && r.selected
    {
      if v.made[i].selected {
        assert !InactiveTab(v.made[i]);
        var r := RecordIndexed(v.records, i);
        assert TrueRecord(r, v.made);
      }
      if r :| r in v.records && r.index == i && r.selected {
        assert TrueRecord(r, v.made);
      }
    }
  }

  /** Which direct tabs are active and which removable, by their looks. */
  ghost predicate Told(lines: seq<Line>, depth: nat, records: seq<Record>, made: seq<Look>) {
    forall l <- lines :: l.Element? ==>
      && l.index < |made|
      && (DirectTab(l, depth) ==>
            && (ActiveTab(l, records) <==> made[l.index].marked || made[l.index].selected)
            && (Removable(l, depth, records) <==> !made[l.index].marked && !made[l.index].selected))
  }

  lemma {:induction false} InvTells(v: View, depth: nat)
    requires Inv(v)
    ensures Told(v.lines, depth, v.records, v.made)
  {
    InvMakesRecordsTrue(v);
    hide Indexes, RecordIndexes, Omitted, Ranged, TrueRecords;
    forall l | l in v.lines && l.Element?
      ensures l.index < |v.made|
      ensures DirectTab(l, depth) ==>
                && (ActiveTab(l, v.records) <==> v.made[l.index].marked || v.made[l.index].selected)
                && (Removable(l, depth, v.records) <==> !v.made[l.index].marked && !v.made[l.index].selected)
    {
      assert TrueLine(l, v.made);
      if DirectTab(l, depth) {
        OwnLineRemovable(v.made[l.index], l.depth, l.index, v.records, v.made);
        assert l == Element(l.depth, l.index, v.made[l.index].tab, v.made[l.index].marked);
      }
    }
  }

  lemma {:induction false} TabHasLook(
    lines: seq<Line>, start: nat, depth: nat, records: seq<Record>, made: seq<Look>, t: nat)
    requires start <= |lines| && Told(lines, depth, records, made) && t in TabPositions(lines, start, depth)
    ensures t < |lines| && DirectTab(lines[t], depth) && lines[t].index < |made|
    ensures made[lines[t].index] in DirectLooks(lines[start..], depth, made)
  {
    ToldIndexes(lines, depth, records, made);
    TabPositionsAre(lines, start, depth, t);
    LooksMean(lines[start..], depth, made);
    hide *;
    assert lines[start..][t - start] == lines[t];
  }

  lemma {:induction false} LookHasTab(
    lines: seq<Line>, start: nat, depth: nat, records: seq<Record>, made: seq<Look>, look: Look) returns (t: nat)
    requires start <= |lines| && Told(lines, depth, records, made)
    requires look in DirectLooks(lines[start..], depth, made)
    ensures t in TabPositions(lines, start, depth)
    ensures t < |lines| && DirectTab(lines[t], depth) && lines[t].index < |made| && made[lines[t].index] == look
  {
    hide *;
    var j := LineOfLook(lines[start..], depth, made, look);
    t := start + j;
    TabPositionsAre(lines, start, depth, t);
  }

  lemma {:induction false} ToldOf(lines: seq<Line>, depth: nat, records: seq<Record>, made: seq<Look>, t: nat)
    requires Told(lines, depth, records, made) && t < |lines| && DirectTab(lines[t], depth)
    ensures lines[t].index < |made|
    ensures var look := made[lines[t].index];
            && (ActiveTab(lines[t], records) <==> look.marked || look.selected)
            && (Removable(lines[t], depth, records) <==> !look.marked && !look.selected)
  {
    assert lines[t] in lines;
  }

  lemma {:induction false} LooksOfTabs(
    lines: seq<Line>, start: nat, depth: nat, records: seq<Record>, made: seq<Look>)
    requires start <= |lines| && Told(lines, depth, records, made)
    ensures var tabs, looks := TabPositions(lines, start, depth), DirectLooks(lines[start..], depth, made);
            && |tabs| == |looks|
            && ((exists t <- tabs :: t < |lines| && lines[t].Element? && ActiveTab(lines[t], records))
                <==> exists look <- looks :: look.marked || look.selected)
            && ((exists t <- tabs :: t < |lines| && Removable(lines[t], depth, records))
                <==> exists look <- looks :: !look.marked && !look.selected)
  {
    ToldIndexes(lines, depth, records, made);
    PositionsCounted(lines, start, depth, made);
    hide TabPositions, DirectLooks, ActiveTab, Removable, Told;
    var tabs, looks := TabPositions(lines, start, depth), DirectLooks(lines[start..], depth, made);
    forall t | t in tabs
      ensures t < |lines| && DirectTab(lines[t], depth) && lines[t].index < |made| && made[lines[t].index] in looks
      ensures ActiveTab(lines[t], records) <==> made[lines[t].index].marked || made[lines[t].index].selected
      ensures Removable(lines[t], depth, records) <==> !made[lines[t].index].marked && !made[lines[t].index].selected
    {
      TabHasLook(lines, start, depth, records, made, t);
      ToldOf(lines, depth, records, made, t);
    }
    if look :| look in looks && (look.marked || look.selected) {
      var t := LookHasTab(lines, start, depth, records, made, look);
    }
    if look :| look in looks && !look.marked && !look.selected {
      var t := LookHasTab(lines, start, depth, records, made, look);
    }
  }

  lemma {:induction false} CompactsWhenCrowded(
    lines: seq<Line>, start: nat, depth: nat, records: seq<Record>, made: seq<Look>, fronts: seq<Look>)
    requires start <= |lines| && Told(lines, depth, records, made)
    requires DirectLooks(lines[start..], depth, made) == TabsAmong(fronts)
    ensures Compacts(lines, records, start, depth) <==> Crowded(fronts)
  {
    hide TabPositions, DirectLooks, TabsAmong, ActiveTab, Removable, Told;
    LooksOfTabs(lines, start, depth, records, made);
  }

  lemma {:induction false} FirstPosition(lines: seq<Line>, start: nat, k: nat, depth: nat, made: seq<Look>)
    requires start + k < |lines| && DirectTab(lines[start + k], depth)
    requires forall l <- lines :: l.Element? ==> l.index < |made|
    requires DirectLooks(lines[start..][..k], depth, made) == []
    ensures var tabs := TabPositions(lines, start, depth); tabs != [] && tabs[0] == start + k
  {
    LooksMean(lines[start..][..k], depth, made);
    TabPositionsMean(lines, start, depth);
    hide TabPositions, DirectLooks;
    var tabs := TabPositions(lines, start, depth);
    assert start + k in tabs;
    forall i | start <= i < start + k ensures !DirectTab(lines[i], depth) {
      assert lines[start..][..k][i - start] == lines[i];
    }
    var j :| 0 <= j < |tabs| && tabs[j] == start + k;
    assert tabs[0] in tabs && tabs[0] <= tabs[j];
  }

  lemma {:induction false} SomeIdle(looks: seq<Look>)
    requires exists look <- TabsAmong(looks) :: !look.marked && !look.selected
    ensures IdleAmong(looks) > 0
  {
    var init, last := looks[..|looks| - 1], looks[|looks| - 1];
    var look :| look in TabsAmong(looks) && !look.marked && !look.selected;
    if look in TabsAmong(init) {
      SomeIdle(init);
    }
  }

  lemma {:induction false} TakenFrom(lines: seq<Line>, page: seq<Line>, k: nat)
    requires k <= |page|
    ensures (lines + page)[|lines|..] == page
    ensures (lines + page)[..|lines| + k] == lines + page[..k]
    ensures (lines + page)[|lines| + k..] == page[k..]
  {
  }

  lemma {:induction false} CrowdIsCompacted(
    v: View, lines: seq<Line>, ns: seq<Node>, depth: nat, index: nat, compacting: bool)
    requires Inv(v) && Stands(v.made, index, PreorderAll(ns))
    requires v.lines == lines + Pages(ns, depth, index, false, 0, compacting)
    requires Compacts(v.lines, v.records, |lines|, depth) && TabsAmong(FrontsAll(ns)) != []
    requires IdleAmong(FrontsAll(ns)) > 0
    ensures CompactView(v, |lines|, depth).lines
         == lines + Pages(ns, depth, index, true, IdleAmong(FrontsAll(ns)), compacting)
  {
    hide *;
    var page, idle := Pages(ns, depth, index, false, 0, compacting), IdleAmong(FrontsAll(ns));
    InvMakesRecordsTrue(v);
    InvTells(v, depth);
    ToldIndexes(v.lines, depth, v.records, v.made);
    var k := CrowdedPages(ns, depth, index, idle, compacting, v.records, v.made);
    TakenFrom(lines, page, k);
    TakenFrom(lines, page, 0);
    FirstPosition(v.lines, |lines|, k, depth, v.made);
    CompactedFrom(v, |lines|, depth);
    assert lines + page[..k] + [Marker(depth, idle)] + Retained(page[k..], depth, v.records)
        == lines + (page[..k] + [Marker(depth, idle)] + Retained(page[k..], depth, v.records));
  }

  lemma {:induction false} CrowdsHaveTabs(looks: seq<Look>)
    requires Crowded(looks)
    ensures TabsAmong(looks) != [] && IdleAmong(looks) > 0
  {
    SomeIdle(looks);
  }

  /** Compacting the lines below a node brings them to its page: crowded, or as they are. */
  lemma {:induction false} CompactedPages(
    v: View, lines: seq<Line>, ns: seq<Node>, depth: nat, index: nat, compacting: bool)
    requires Inv(v) && Stands(v.made, index, PreorderAll(ns))
    requires v.lines == lines + Pages(ns, depth, index, false, 0, compacting)
    ensures CompactView(v, |lines|, depth).lines
         == lines + if Crowded(FrontsAll(ns)) then Pages(ns, depth, index, true, IdleAmong(FrontsAll(ns)), compacting)
                    else Pages(ns, depth, index, false, 0, compacting)
  {
    hide *;
    InvTells(v, depth);
    TakenFrom(lines, Pages(ns, depth, index, false, 0, compacting), 0);
    PagesLooks(ns, depth, index, compacting, v.made);
    CompactsWhenCrowded(v.lines, |lines|, depth, v.records, v.made, FrontsAll(ns));
    if Crowded(FrontsAll(ns)) {
      CrowdsHaveTabs(FrontsAll(ns));
      CrowdIsCompacted(v, lines, ns, depth, index, compacting);
    } else {
      NotCompacted(v, |lines|, depth);
    }
  }

  lemma {:induction false} ToldIndexes(lines: seq<Line>, depth: nat, records: seq<Record>, made: seq<Look>)
    requires Told(lines, depth, records, made)
    ensures forall l <- lines :: l.Element? ==> l.index < |made|
  {
  }

  lemma {:induction false} NotCompacted(v: View, start: nat, depth: nat)
    requires !Compacts(v.lines, v.records, start, depth)
    ensures CompactView(v, start, depth) == v
  {
  }

  lemma {:induction false} CompactedFrom(v: View, start: nat, depth: nat)
    requires Compacts(v.lines, v.records, start, depth)
    ensures TabPositions(v.lines, start, depth) != []
    ensures var first := TabPositions(v.lines, start, depth)[0];
            first <= |v.lines| ==>
              var kept := Retained(v.lines[first..], depth, v.records);
              && |kept| <= |v.lines| - first
              && CompactView(v, start, depth).lines
                 == v.lines[..first] + [Marker(depth, |v.lines| - first - |kept|)] + kept
  {
    hide Retained, Without, OmittedIndexes;
    CompactsSomething(v.lines, v.records, start, depth);
    var first := TabPositions(v.lines, start, depth)[0];
    if first <= |v.lines| {
      RetainedIsShorter(v.lines[first..], depth, v.records);
    }
  }

  // ---------- main results ----------

  lemma {:induction false} MadeStands(made: seq<Look>, preorder: seq<Look>)
    ensures Stands(made + preorder, |made|, preorder)
  {
  }

  /** The rendering of a subtree, unless truncated, adds its page. */
  lemma {:induction false} RenderedPage(v: View, n: Node, depth: nat, compacting: bool)
    requires Inv(v) && !Render(v, n, depth, compacting).truncated
    ensures Render(v, n, depth, compacting).lines == v.lines + Page(n, depth, |v.made|, false, compacting)
    decreases n, 1
  {
    hide Inv, RenderAll, Pages, CompactView, Crowded, IdleAmong, FrontsAll, Stands;
    assert !(|v.records| >= MAX_NODES || depth > MAX_DEPTH);
    if Elided(n) {
      if !n.suppressed {
        RenderedPages(v, n.children, depth, compacting);
      }
    } else {
      var w := Append(v, n.look, depth);
      AppendKeepsInv(v, n.look, depth);
      if !n.summary && !n.suppressed {
        var below := RenderAll(w, n.children, depth + 1, compacting);
        NodePage(v, n, depth, compacting);
        CompactKeepsFlags(below, |w.lines|, depth + 1);
        RenderedPages(w, n.children, depth + 1, compacting);
        RenderAllKeepsInv(w, n.children, depth + 1, compacting);
        UntruncatedShowsAllOf(w, n.children, depth + 1, compacting);
        MadeStands(w.made, PreorderAll(n.children));
        CompactedPages(below, w.lines, n.children, depth + 1, |w.made|, compacting);
      }
    }
  }

  lemma {:induction false} CompactKeepsFlags(v: View, start: nat, depth: nat)
    ensures CompactView(v, start, depth).truncated == v.truncated
  {
  }

  lemma {:induction false} NodePage(v: View, n: Node, depth: nat, compacting: bool)
    requires !Elided(n) && !n.summary && !n.suppressed
    ensures var w, fronts := Append(v, n.look, depth), FrontsAll(n.children);
            v.lines + Page(n, depth, |v.made|, false, compacting)
            == w.lines + if compacting && Crowded(fronts)
                         then Pages(n.children, depth + 1, |w.made|, true, IdleAmong(fronts), compacting)
                         else Pages(n.children, depth + 1, |w.made|, false, 0, compacting)
  {
    hide Pages, Crowded, IdleAmong, FrontsAll;
  }

  lemma {:induction false} RenderedPages(v: View, ns: seq<Node>, depth: nat, compacting: bool)
    requires Inv(v) && !RenderAll(v, ns, depth, compacting).truncated
    ensures RenderAll(v, ns, depth, compacting).lines == v.lines + Pages(ns, depth, |v.made|, false, 0, compacting)
    decreases ns, 0
  {
    hide Inv, Render, Page, Preorder, PreorderAll;
    if ns != [] {
      var init, last := ns[..|ns| - 1], ns[|ns| - 1];
      var before := RenderAll(v, init, depth, compacting);
      UntruncatedShowsAll(before, last, depth, compacting);
      RenderedPages(v, init, depth, compacting);
      RenderAllKeepsInv(v, init, depth, compacting);
      UntruncatedShowsAllOf(v, init, depth, compacting);
      RenderedPage(before, last, depth, compacting);
      PagesUnmarked(ns, depth, |v.made|, false, compacting);
    } else {
      assert Pages(ns, depth, |v.made|, false, 0, compacting) == [];
    }
  }

  /** Main result: unless it reports a truncation, the rendering of a tree reads as its page. */
  lemma {:induction false} RenderedTreeIsPage(root: Node, compacting: bool)
    requires !Render(EMPTY, root, 0, compacting).truncated
    ensures Render(EMPTY, root, 0, compacting).lines == Page(root, 0, 0, false, compacting)
  {
    RenderedPage(EMPTY, root, 0, compacting);
  }

  // ---------- what a page shows of each node ----------

  /** A shown node: how deep it stands under shown nodes, and whether its line gives way to a marker. */
  datatype Spot = Spot(look: Look, depth: nat, omitted: bool)

  /** The shown nodes in order; `crowd` tells that the siblings of `n` are crowded. */
  function Spots(n: Node, depth: nat, crowd: bool, compacting: bool): seq<Spot>
    decreases n, 1
  {
    if Elided(n) then if n.suppressed then [] else SpotsAll(n.children, depth, crowd, compacting)
    else
      [Spot(n.look, depth, crowd && InactiveTab(n.look))]
        + if n.summary || n.suppressed then []
          else SpotsAll(n.children, depth + 1, compacting && Crowded(FrontsAll(n.children)), compacting)
  }

  function SpotsAll(ns: seq<Node>, depth: nat, crowd: bool, compacting: bool): seq<Spot>
    decreases ns, 0
  {
    if ns == [] then []
    else SpotsAll(ns[..|ns| - 1], depth, crowd, compacting) + Spots(ns[|ns| - 1], depth, crowd, compacting)
  }

  function LineOf(spot: Spot, index: nat): Line { Element(spot.depth, index, spot.look.tab, spot.look.marked) }

  /** The element lines are those of the spots not omitted, and a spot's number is its line's index. */
  ghost predicate Shows(lines: seq<Line>, spots: seq<Spot>, index: nat) {
    && (forall k :: 0 <= k < |spots| && !spots[k].omitted ==> LineOf(spots[k], index + k) in lines)
    && (forall l <- lines :: l.Element? ==>
          && index <= l.index < index + |spots|
          && !spots[l.index - index].omitted && l == LineOf(spots[l.index - index], l.index))
  }

  lemma {:induction false} ShowsAppends(a: seq<Line>, b: seq<Line>, s: seq<Spot>, t: seq<Spot>, index: nat)
    requires Shows(a, s, index) && Shows(b, t, index + |s|)
    ensures Shows(a + b, s + t, index)
  {
    forall k | 0 <= k < |s + t| && !(s + t)[k].omitted ensures LineOf((s + t)[k], index + k) in a + b {
      if k < |s| {
        assert LineOf(s[k], index + k) in a;
      } else {
        assert LineOf(t[k - |s|], index + |s| + (k - |s|)) in b;
      }
    }
  }

  lemma {:induction false} MarkersShowNothing(l: Line, index: nat)
    requires l.Marker?
    ensures Shows([l], [], index) && Shows([], [], index)
  {
  }

  lemma {:induction false} SpotsCount(n: Node, depth: nat, crowd: bool, compacting: bool)
    ensures |Spots(n, depth, crowd, compacting)| == |Preorder(n)|
    decreases n, 1
  {
    hide Crowded;
    if Elided(n) {
      if !n.suppressed {
        SpotsAllCount(n.children, depth, crowd, compacting);
      }
    } else if !n.summary && !n.suppressed {
      SpotsAllCount(n.children, depth + 1, compacting && Crowded(FrontsAll(n.children)), compacting);
    }
  }

  lemma {:induction false} SpotsAllCount(ns: seq<Node>, depth: nat, crowd: bool, compacting: bool)
    ensures |SpotsAll(ns, depth, crowd, compacting)| == |PreorderAll(ns)|
    decreases ns, 0
  {
    if ns != [] {
      SpotsAllCount(ns[..|ns| - 1], depth, crowd, compacting);
      SpotsCount(ns[|ns| - 1], depth, crowd, compacting);
    }
  }

  lemma {:induction false} OwnLineShows(look: Look, depth: nat, index: nat, crowd: bool)
    ensures Shows(if crowd && InactiveTab(look) then [] else [Element(depth, index, look.tab, look.marked)],
                  [Spot(look, depth, crowd && InactiveTab(look))], index)
  {
  }

  lemma {:induction false} PageShows(n: Node, depth: nat, index: nat, crowd: bool, compacting: bool)
    ensures Shows(Page(n, depth, index, crowd, compacting), Spots(n, depth, crowd, compacting), index)
    decreases n, 1
  {
    hide Shows, Pages, SpotsAll, Crowded, IdleAmong, FrontsAll;
    MarkersShowNothing(Marker(0, 0), index);
    if Elided(n) {
      if !n.suppressed {
        PagesShow(n.children, depth, index, crowd, 0, compacting);
      }
    } else {
      var own := if crowd && InactiveTab(n.look) then [] else [Element(depth, index, n.look.tab, n.look.marked)];
      var spot := [Spot(n.look, depth, crowd && InactiveTab(n.look))];
      OwnLineShows(n.look, depth, index, crowd);
      if n.summary || n.suppressed {
        assert own + [] == own && spot + [] == spot;
      } else {
        var fronts := FrontsAll(n.children);
        var crowded := compacting && Crowded(fronts);
        var idle := if crowded then IdleAmong(fronts) else 0;
        PagesShow(n.children, depth + 1, index + 1, crowded, idle, compacting);
        ShowsAppends(own, Pages(n.children, depth + 1, index + 1, crowded, idle, compacting),
                     spot, SpotsAll(n.children, depth + 1, crowded, compacting), index);
      }
    }
  }

  lemma {:induction false} PagesShow(ns: seq<Node>, depth: nat, index: nat, crowd: bool, idle: nat, compacting: bool)
    ensures Shows(Pages(ns, depth, index, crowd, idle, compacting), SpotsAll(ns, depth, crowd, compacting), index)
    decreases ns, 0
  {
    hide Shows, Page, Spots, PreorderAll, TabsAmong, FrontsAll, Fronts;
    MarkersShowNothing(Marker(depth, idle), index);
    if ns != [] {
      var init, last := ns[..|ns| - 1], ns[|ns| - 1];
      var before, spots := Pages(init, depth, index, crowd, idle, compacting), SpotsAll(init, depth, crowd, compacting);
      PagesShow(init, depth, index, crowd, idle, compacting);
      SpotsAllCount(init, depth, crowd, compacting);
      PageShows(last, depth, index + |spots|, crowd, compacting);
      MarkersShowNothing(Marker(depth, idle), index + |spots|);
      assert before + [] == before;
      ShowsAppends(before, [Marker(depth, idle)], spots, [], index);
      ShowsAppends(before, [], spots, [], index);
      assert spots + [] == spots;
      ShowsAppends(before, Page(last, depth, index + |spots|, crowd, compacting),
                   spots, Spots(last, depth, crowd, compacting), index);
      ShowsAppends(before + [Marker(depth, idle)], Page(last, depth, index + |spots|, crowd, compacting),
                   spots, Spots(last, depth, crowd, compacting), index);
    }
  }

  /**
   So in a complete rendering each node has its line, as deep as it has shown ancestors, but for the
   inactive tabs among crowded siblings, which have none.
   */
  lemma {:induction false} RenderedTreeShowsSpots(root: Node, compacting: bool)
    requires !Render(EMPTY, root, 0, compacting).truncated
    ensures Shows(Render(EMPTY, root, 0, compacting).lines, Spots(root, 0, false, compacting), 0)
  {
    RenderedTreeIsPage(root, compacting);
    PageShows(root, 0, 0, false, compacting);
  }

  /** No inactive tab among crowded siblings keeps its line. */
  lemma {:induction false} CrowdsKeepNoIdleTab(ns: seq<Node>, depth: nat, index: nat, idle: nat, l: Line)
    requires l in Pages(ns, depth, index, true, idle, true) && DirectTab(l, depth)
    ensures exists spot <- SpotsAll(ns, depth, true, true) :: spot.look.tab && !InactiveTab(spot.look)
                                                              && l == LineOf(spot, l.index)
  {
    PagesShow(ns, depth, index, true, idle, true);
    SpotsStand(ns, depth);
    var spots := SpotsAll(ns, depth, true, true);
    assert spots[l.index - index] in spots;
  }

  /** A spot at the depth of the siblings is one of them. */
  lemma {:induction false} SpotsStand(ns: seq<Node>, depth: nat)
    ensures forall spot <- SpotsAll(ns, depth, true, true) ::
              spot.depth >= depth && (spot.depth == depth ==> spot.omitted == InactiveTab(spot.look))
    decreases ns, 0
  {
    hide Spots;
    if ns != [] {
      SpotsStand(ns[..|ns| - 1], depth);
      SpotStands(ns[|ns| - 1], depth);
    }
  }

  lemma {:induction false} SpotStands(n: Node, depth: nat)
    ensures forall spot <- Spots(n, depth, true, true) ::
              spot.depth >= depth && (spot.depth == depth ==> spot.omitted == InactiveTab(spot.look))
    decreases n, 1
  {
    hide SpotsAll, Crowded;
    if Elided(n) {
      if !n.suppressed {
        SpotsStand(n.children, depth);
      }
    } else if !n.summary && !n.suppressed {
      SpotsAreDeep(n.children, depth + 1, Crowded(FrontsAll(n.children)));
    }
  }

  lemma {:induction false} SpotsAreDeep(ns: seq<Node>, depth: nat, crowd: bool)
    ensures forall spot <- SpotsAll(ns, depth, crowd, true) :: spot.depth >= depth
    decreases ns, 0
  {
    if ns != [] {
      SpotsAreDeep(ns[..|ns| - 1], depth, crowd);
      SpotIsDeep(ns[|ns| - 1], depth, crowd);
    }
  }

  lemma {:induction false} SpotIsDeep(n: Node, depth: nat, crowd: bool)
    ensures forall spot <- Spots(n, depth, crowd, true) :: spot.depth >= depth
    decreases n, 1
  {
    hide Crowded;
    if Elided(n) {
      if !n.suppressed {
        SpotsAreDeep(n.children, depth, crowd);
      }
    } else if !n.summary && !n.suppressed {
      SpotsAreDeep(n.children, depth + 1, Crowded(FrontsAll(n.children)));
    }
  }

  // ---------- which renderings are complete ----------

  /** How many nodes the walk looks at. */
  function Visits(n: Node): nat
    decreases n, 1
  {
    1 + if n.suppressed || (n.summary && !Elided(n)) then 0 else VisitsAll(n.children)
  }

  function VisitsAll(ns: seq<Node>): nat
    decreases ns, 0
  {
    if ns == [] then 0 else VisitsAll(ns[..|ns| - 1]) + Visits(ns[|ns| - 1])
  }

  /** No node the walk looks at stands too deep; an elided one takes no depth. */
  predicate Shallow(n: Node, depth: nat)
    decreases n, 1
  {
    && depth <= 64
    && (n.suppressed || (n.summary && !Elided(n)) || ShallowAll(n.children, if Elided(n) then depth else depth + 1))
  }

  predicate ShallowAll(ns: seq<Node>, depth: nat)
    decreases ns, 0
  {
    ns == [] || (ShallowAll(ns[..|ns| - 1], depth) && Shallow(ns[|ns| - 1], depth))
  }

  lemma {:induction false} CompactionShortens(v: View, start: nat, depth: nat)
    ensures |CompactView(v, start, depth).records| <= |v.records|
    ensures CompactView(v, start, depth).truncated == v.truncated
    ensures CompactView(v, start, depth).depthReached == v.depthReached
  {
    hide TabPositions, Retained, Compacts, OmittedIndexes;
    if Compacts(v.lines, v.records, start, depth) {
      CompactsSomething(v.lines, v.records, start, depth);
      var first := TabPositions(v.lines, start, depth)[0];
      if first <= |v.lines| {
        WithoutShortens(v.records, OmittedIndexes(v.lines[first..], depth, v.records));
      }
    }
  }

  lemma {:induction false} WithoutShortens(records: seq<Record>, omitted: set<nat>)
    ensures |Without(records, omitted)| <= |records|
  {
    if records != [] {
      WithoutShortens(records[1..], omitted);
    }
  }

  lemma {:induction false} SmallRenders(v: View, n: Node, depth: nat, compacting: bool)
    requires |v.records| + Visits(n) <= MAX_NODES
    ensures var w := Render(v, n, depth, compacting);
            && w.truncated == (v.truncated || !Shallow(n, depth))
            && w.depthReached == (v.depthReached || !Shallow(n, depth))
            && |w.records| <= |v.records| + Visits(n)
    decreases n, 1
  {
    hide RenderAll, CompactView;
    if Elided(n) {
      if !n.suppressed {
        AllSmallRender(v, n.children, depth, compacting);
      }
    } else if !n.summary && !n.suppressed {
      var w := Append(v, n.look, depth);
      AllSmallRender(w, n.children, depth + 1, compacting);
      CompactionShortens(RenderAll(w, n.children, depth + 1, compacting), |w.lines|, depth + 1);
    }
  }

  lemma {:induction false} AllSmallRender(v: View, ns: seq<Node>, depth: nat, compacting: bool)
    requires |v.records| + VisitsAll(ns) <= MAX_NODES
    ensures var w := RenderAll(v, ns, depth, compacting);
            && w.truncated == (v.truncated || !ShallowAll(ns, depth))
            && w.depthReached == (v.depthReached || !ShallowAll(ns, depth))
            && |w.records| <= |v.records| + VisitsAll(ns)
    decreases ns, 0
  {
    hide Render, Visits, Shallow;
    if ns != [] {
      AllSmallRender(v, ns[..|ns| - 1], depth, compacting);
      SmallRenders(RenderAll(v, ns[..|ns| - 1], depth, compacting), ns[|ns| - 1], depth, compacting);
    }
  }

  /**
   A tree of at most 1200 nodes is rendered completely, and reads as its page, exactly when no node stands
   below 64 levels; otherwise the rendering says that it ran into the depth limit.
   */
  lemma {:induction false} SmallTreesAreComplete(root: Node, compacting: bool)
    requires Visits(root) <= 1200
    ensures var v := Render(EMPTY, root, 0, compacting);
            && v.truncated == v.depthReached == !Shallow(root, 0)
            && (Shallow(root, 0) ==> v.lines == Page(root, 0, 0, false, compacting))
  {
    SmallRenders(EMPTY, root, 0, compacting);
    if Shallow(root, 0) {
      RenderedTreeIsPage(root, compacting);
    }
  }

  lemma {:induction false} DeepRenders(v: View, n: Node, depth: nat, compacting: bool)
    requires !Render(v, n, depth, compacting).truncated
    ensures Shallow(n, depth)
    decreases n, 1
  {
    hide RenderAll, CompactView;
    if Elided(n) {
      if !n.suppressed {
        AllDeepRender(v, n.children, depth, compacting);
      }
    } else if !n.summary && !n.suppressed {
      var w := Append(v, n.look, depth);
      CompactionShortens(RenderAll(w, n.children, depth + 1, compacting), |w.lines|, depth + 1);
      AllDeepRender(w, n.children, depth + 1, compacting);
    }
  }

  lemma {:induction false} AllDeepRender(v: View, ns: seq<Node>, depth: nat, compacting: bool)
    requires !RenderAll(v, ns, depth, compacting).truncated
    ensures ShallowAll(ns, depth)
    decreases ns, 0
  {
    hide Render, Shallow;
    if ns != [] {
      UntruncatedShowsAll(RenderAll(v, ns[..|ns| - 1], depth, compacting), ns[|ns| - 1], depth, compacting);
      AllDeepRender(v, ns[..|ns| - 1], depth, compacting);
      DeepRenders(RenderAll(v, ns[..|ns| - 1], depth, compacting), ns[|ns| - 1], depth, compacting);
    }
  }

  /** And every tree with a node beyond the last level is reported as truncated. */
  lemma {:induction false} DeepTreesAreTruncated(root: Node, compacting: bool)
    requires !Shallow(root, 0)
    ensures Render(EMPTY, root, 0, compacting).truncated
  {
    if !Render(EMPTY, root, 0, compacting).truncated {
      DeepRenders(EMPTY, root, 0, compacting);
    }
  }
}
