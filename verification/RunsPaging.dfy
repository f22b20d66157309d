/**
 Reading all automation runs from a host page by page: a page whose reply is too large is asked for
 again with half the limit, later pages keep the reduced limit, and a cursor seen before ends the
 reading. The host is any function of the call's number, its limit and its cursor. It answers
 `patience` pages and then no more, which bounds the reading and not the hosts.
 */
module RunsPaging {
  import opened Prelude

  const PAGE_SIZE: nat := 25

  type Run = nat
  datatype Answer = Page(runs: seq<Run>, next: Option<string>) | TooLarge | OtherError(code: nat)
  type Host = (nat, nat, Option<string>) -> Answer

  /** An absent cursor and an empty one both end the reading. */
  predicate HasNext(page: Answer) { page.Page? && page.next.Some? && page.next.value != "" }

  datatype Shrunk = Shrunk(answer: Answer, limit: nat, calls: nat)

  /** The first answer that is no retry, the limit it was asked with, and the calls made by then. */
  function ShrinkFrom(host: Host, calls: nat, limit: nat, cursor: Option<string>): Shrunk
    decreases limit
  {
    var answer := host(calls, limit, cursor);
    if answer == TooLarge && limit > 1 then ShrinkFrom(host, calls + 1, limit / 2, cursor)
    else Shrunk(answer, limit, calls + 1)
  }

  method ReadShrinkingPage(host: Host, calls0: nat, limit0: nat, cursor: Option<string>)
    returns (answer: Answer, limit: nat, calls: nat)
    ensures Shrunk(answer, limit, calls) == ShrinkFrom(host, calls0, limit0, cursor)
  {
    limit, calls := limit0, calls0;
    while true
      invariant ShrinkFrom(host, calls, limit, cursor) == ShrinkFrom(host, calls0, limit0, cursor)
      decreases limit
    {
      answer := host(calls, limit, cursor);
      calls := calls + 1;
      if answer != TooLarge || limit <= 1 {
        return;
      }
      limit := limit / 2;
    }
  }

  /** A limit after so many halvings, rounded down each time. */
  function Halved(limit: nat, times: nat): nat { if times == 0 then limit else Halved(limit, times - 1) / 2 }

  lemma {:induction false} HalvedOnce(limit: nat, times: nat)
    ensures Halved(limit / 2, times) == Halved(limit, times + 1)
  {
    if times > 0 {
      HalvedOnce(limit, times - 1);
    }
  }

  /**
   What is returned is the host's answer to the first limit, of those got by halving, that it does not
   find too large, or to a limit of one: a reply too large for a single run is no longer asked for.
   */
  lemma {:induction false} ShrinkIsFirstFit(host: Host, calls: nat, limit: nat, cursor: Option<string>)
    returns (n: nat)
    ensures ShrinkFrom(host, calls, limit, cursor)
         == Shrunk(host(calls + n, Halved(limit, n), cursor), Halved(limit, n), calls + n + 1)
    ensures forall j :: 0 <= j < n ==> host(calls + j, Halved(limit, j), cursor) == TooLarge && Halved(limit, j) > 1
    ensures host(calls + n, Halved(limit, n), cursor) != TooLarge || Halved(limit, n) <= 1
    decreases limit
  {
    if host(calls, limit, cursor) == TooLarge && limit > 1 {
      var m := ShrinkIsFirstFit(host, calls + 1, limit / 2, cursor);
      n := m + 1;
      HalvedOnce(limit, m);
      forall j | 0 <= j < n ensures host(calls + j, Halved(limit, j), cursor) == TooLarge && Halved(limit, j) > 1 {
        if j > 0 {
          HalvedOnce(limit, j - 1);
          assert host((calls + 1) + (j - 1), Halved(limit / 2, j - 1), cursor) == TooLarge;
        }
      }
    } else {
      n := 0;
    }
  }

  datatype Outcome = Done(runs: seq<Run>) | Threw(answer: Answer) | Waiting
  /** How a reading ends, the calls it made, and the pages it read in order. */
  datatype Reading = Reading(outcome: Outcome, calls: nat, pages: seq<Answer>)

  /** The reading from a point where the given pages have been read. */
  function ReadFrom(host: Host, patience: nat, calls: nat, limit: nat, cursor: Option<string>,
                    seen: set<string>, runs: seq<Run>, pages: seq<Answer>): Reading
    decreases patience
  {
    if patience == 0 then Reading(Waiting, calls, pages)
    else
      var read := ShrinkFrom(host, calls, limit, cursor);
      if !read.answer.Page? then Reading(Threw(read.answer), read.calls, pages)
      else
        var page, runs', pages' := read.answer, runs + read.answer.runs, pages + [read.answer];
        if !HasNext(page) || page.next.value in seen then Reading(Done(runs'), read.calls, pages')
        else
          ReadFrom(host, patience - 1, read.calls, read.limit, page.next, seen + {page.next.value}, runs', pages')
  }

  method ReadAllAutomationRuns(host: Host, patience: nat)
    returns (outcome: Outcome, ghost calls: nat, ghost pages: seq<Answer>)
    ensures outcome == ReadFrom(host, patience, 0, PAGE_SIZE, None, {}, [], []).outcome
    ensures Reading(outcome, calls, pages) == ReadFrom(host, patience, 0, PAGE_SIZE, None, {}, [], [])
  {
    var runs: seq<Run> := [];
    var seen: set<string> := {};
    var cursor: Option<string> := None;
    var limit := PAGE_SIZE;
    var made := 0;
    calls, pages := 0, [];
    var left: nat := patience;
    while left > 0
      invariant left <= patience && calls == made
      invariant ReadFrom(host, left, made, limit, cursor, seen, runs, pages)
             == ReadFrom(host, patience, 0, PAGE_SIZE, None, {}, [], [])
      decreases left
    {
      var page;
      page, limit, made := ReadShrinkingPage(host, made, limit, cursor);
      calls := made;
      if !page.Page? {
        return Threw(page), calls, pages;
      }
      runs := runs + page.runs;
      pages := pages + [page];
      if !HasNext(page) || page.next.value in seen {
        return Done(runs), calls, pages;
      }
      seen := seen + {page.next.value};
      cursor := page.next;
      left := left - 1;
    }
    return Waiting, calls, pages;
  }

  // ---------- any host ----------

  function AllRuns(pages: seq<Answer>): seq<Run> {
    if pages == [] then []
    else
      var last := pages[|pages| - 1];
      AllRuns(pages[..|pages| - 1]) + if last.Page? then last.runs else []
  }

  function Cursors(pages: seq<Answer>): set<string> {
    if pages == [] then {}
    else
      var last := pages[|pages| - 1];
      Cursors(pages[..|pages| - 1]) + if HasNext(last) then {last.next.value} else {}
  }

  /** Every page so far led on, with a cursor not seen before. */
  predicate LeadsOn(pages: seq<Answer>) {
    pages != [] ==>
      && LeadsOn(pages[..|pages| - 1])
      && HasNext(pages[|pages| - 1])
      && pages[|pages| - 1].next.value !in Cursors(pages[..|pages| - 1])
  }

  lemma {:induction false} DistinctCursors(pages: seq<Answer>)
    requires LeadsOn(pages)
    ensures |Cursors(pages)| == |pages|
  {
    if pages != [] {
      DistinctCursors(pages[..|pages| - 1]);
    }
  }

  /** What a reading has done when it ends: the condition it ended on, and every page's runs in order. */
  ghost predicate EndsRightly(r: Reading) {
    match r.outcome
    case Done(runs) =>
      && r.pages != [] && runs == AllRuns(r.pages)
      && LeadsOn(r.pages[..|r.pages| - 1])
      && (HasNext(r.pages[|r.pages| - 1]) ==>
           r.pages[|r.pages| - 1].next.value in Cursors(r.pages[..|r.pages| - 1]))
    case Threw(answer) => !answer.Page? && LeadsOn(r.pages)
    case Waiting => LeadsOn(r.pages)
  }

  lemma {:induction false} OnePageMore(pages: seq<Answer>, page: Answer)
    requires page.Page?
    ensures AllRuns(pages + [page]) == AllRuns(pages) + page.runs
    ensures Cursors(pages + [page]) == Cursors(pages) + if HasNext(page) then {page.next.value} else {}
    ensures LeadsOn(pages + [page]) <==> LeadsOn(pages) && HasNext(page) && page.next.value !in Cursors(pages)
  {
    assert (pages + [page])[..|pages|] == pages;
  }

  lemma {:induction false} ReadingEndsRightly(
    host: Host, patience: nat, calls: nat, limit: nat, cursor: Option<string>,
    seen: set<string>, runs: seq<Run>, pages: seq<Answer>)
    requires LeadsOn(pages) && seen == Cursors(pages) && runs == AllRuns(pages)
    ensures EndsRightly(ReadFrom(host, patience, calls, limit, cursor, seen, runs, pages))
    decreases patience
  {
    hide LeadsOn, Cursors, AllRuns, ShrinkFrom;
    if patience > 0 {
      var read := ShrinkFrom(host, calls, limit, cursor);
      if read.answer.Page? {
        var page, pages' := read.answer, pages + [read.answer];
        OnePageMore(pages, page);
        assert pages'[..|pages'| - 1] == pages;
        if HasNext(page) && page.next.value !in seen {
          ReadingEndsRightly(host, patience - 1, read.calls, read.limit, page.next,
                             seen + {page.next.value}, runs + page.runs, pages');
        }
      }
    }
  }

  /** For any host at all: it stops at the first repeated cursor, so pages number at most the cursors plus one. */
  lemma {:induction false} AnyHostStopsAtRepeatedCursor(host: Host, patience: nat)
    ensures var r := ReadFrom(host, patience, 0, PAGE_SIZE, None, {}, [], []);
            EndsRightly(r) && |r.pages| <= |Cursors(r.pages)| + 1
  {
    ReadingEndsRightly(host, patience, 0, PAGE_SIZE, None, {}, [], []);
    hide ReadFrom, LeadsOn, Cursors, AllRuns;
    var r := ReadFrom(host, patience, 0, PAGE_SIZE, None, {}, [], []);
    if r.outcome.Done? {
      DistinctCursors(r.pages[..|r.pages| - 1]);
      MoreCursors(r.pages);
    } else {
      DistinctCursors(r.pages);
    }
  }

  lemma {:induction false} MoreCursors(pages: seq<Answer>)
    requires pages != []
    ensures |Cursors(pages)| >= |Cursors(pages[..|pages| - 1])|
  {
    var last := pages[|pages| - 1];
    if HasNext(last) && last.next.value !in Cursors(pages[..|pages| - 1]) {
      assert |Cursors(pages[..|pages| - 1]) + {last.next.value}| == |Cursors(pages[..|pages| - 1])| + 1;
    } else {
      assert Cursors(pages) == Cursors(pages[..|pages| - 1]);
    }
  }

  // ---------- a host that serves a fixed list ----------

  /** Names of positions in the list: not empty, and never shared. */
  ghost predicate Names(nameOf: nat -> string, size: nat) {
    && (forall p: nat :: p <= size ==> nameOf(p) != "")
    && (forall p: nat, q: nat :: p <= size && q <= size && nameOf(p) == nameOf(q) ==> p == q)
  }

  function CursorAt(nameOf: nat -> string, p: nat): Option<string> { if p == 0 then None else Some(nameOf(p)) }

  function PageAt(R: seq<Run>, nameOf: nat -> string, p: nat, limit: nat): Answer
    requires p <= |R|
  {
    if p + limit < |R| then Page(R[p..p + limit], Some(nameOf(p + limit))) else Page(R[p..], None)
  }

  /** Each reply is the page asked for or refused as too large, and a single run is never too large. */
  ghost predicate Serves(host: Host, R: seq<Run>, nameOf: nat -> string) {
    forall calls: nat, p: nat, limit: nat {:trigger host(calls, limit, CursorAt(nameOf, p))} ::
      p <= |R| && limit > 0 ==>
        var answer := host(calls, limit, CursorAt(nameOf, p));
        answer == PageAt(R, nameOf, p, limit) || (answer == TooLarge && limit > 1)
  }

  /** How often a limit can be halved. */
  function Halvings(limit: nat): nat { if limit <= 1 then 0 else 1 + Halvings(limit / 2) }

  lemma {:induction false} ShrinkServes(host: Host, R: seq<Run>, nameOf: nat -> string, calls: nat, limit: nat, p: nat)
    requires Serves(host, R, nameOf) && p <= |R| && limit > 0
    ensures var read := ShrinkFrom(host, calls, limit, CursorAt(nameOf, p));
            && 0 < read.limit <= limit
            && read.answer == PageAt(R, nameOf, p, read.limit)
            && read.calls + Halvings(read.limit) == calls + 1 + Halvings(limit)
    decreases limit
  {
    var answer := host(calls, limit, CursorAt(nameOf, p));
    if answer == TooLarge {
      ShrinkServes(host, R, nameOf, calls + 1, limit / 2, p);
    }
  }

  lemma {:induction false} ReadingServed(
    host: Host, R: seq<Run>, nameOf: nat -> string, patience: nat, calls: nat, limit: nat, p: nat,
    seen: set<string>, pages: seq<Answer>)
    requires Serves(host, R, nameOf) && Names(nameOf, |R|)
    requires p <= |R| && limit > 0 && (p < |R| || R == [])
    requires forall q: nat :: p < q <= |R| ==> nameOf(q) !in seen
    requires patience > |R| - p || (patience == |R| - p && R != [])
    ensures var r := ReadFrom(host, patience, calls, limit, CursorAt(nameOf, p), seen, R[..p], pages);
            && r.outcome == Done(R)
            && r.calls <= calls + Halvings(limit) + if R == [] then 1 else |R| - p
    decreases |R| - p
  {
    ShrinkServes(host, R, nameOf, calls, limit, p);
    hide ShrinkFrom, Serves, Halvings;
    var read := ShrinkFrom(host, calls, limit, CursorAt(nameOf, p));
    if p + read.limit < |R| {
      var q := p + read.limit;
      assert R[..p] + R[p..q] == R[..q];
      assert read.answer.next == CursorAt(nameOf, q);
      ReadingServed(
        host, R, nameOf, patience - 1, read.calls, read.limit, q, seen + {nameOf(q)}, pages + [read.answer]);
    } else {
      assert R[..p] + R[p..] == R;
    }
  }

  /** Main result: a served list is read exactly, with at most one call a run and four more. */
  lemma {:induction false} ServedListIsRead(host: Host, R: seq<Run>, nameOf: nat -> string, patience: nat)
    requires Serves(host, R, nameOf) && Names(nameOf, |R|)
    requires patience >= |R| && patience >= 1
    ensures var r := ReadFrom(host, patience, 0, PAGE_SIZE, None, {}, [], []);
            && r.outcome == Done(R)
            && r.calls <= (if |R| > 1 then |R| else 1) + 4
  {
    assert Halvings(25) == 4 by { assert Halvings(12) == 3 by { assert Halvings(3) == 1; } }
    assert R[..0] == [];
    ReadingServed(host, R, nameOf, patience, 0, PAGE_SIZE, 0, {}, []);
  }
}
