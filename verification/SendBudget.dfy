/**
 The send budget a plugin-frame guest holds against its host: a sliding window over the messages it
 admitted, evicted in place at every call. The clock is a parameter of each call, since it is read
 from outside and may run backwards.
 */
module SendBudget {
  import opened Prelude
  import opened MessageMeasure

  // ---------- lanes ----------

  datatype Message = Message(heap: Heap, root: Ref)
  datatype Lane = Lane(maxBytes: nat, walk: Walk)

  const DEFAULT_WALK := Walk(10_000, 100)
  const RENDER_WALK := Walk(5000 * 8 + 1024, 64 * 2 + 24)
  const SHARED_BYTES: nat := 64 * 1024 + 1024
  const FILE_BYTES: nat := 64 * 1024 * 1024 + 4096
  const RENDER_BYTES: nat := 640 * 1024

  function UnitOf(c: char): CodeUnit
    requires c as int < 0x1_0000
  {
    c as int
  }

  function Units(s: string): seq<CodeUnit>
    requires forall i :: 0 <= i < |s| ==> s[i] as int < 0x1_0000
  {
    seq(|s|, i requires 0 <= i < |s| => UnitOf(s[i]))
  }

  function FieldOf(fields: seq<Field>, key: seq<CodeUnit>): Option<Ref> {
    if fields == [] then None
    else
      var last := fields[|fields| - 1];
      if last.key == key then Some(last.value) else FieldOf(fields[..|fields| - 1], key)
  }

  /** The string a message has under a key, if it has one. */
  function StringUnder(m: Message, key: seq<CodeUnit>): Option<seq<CodeUnit>> {
    var node := m.heap(m.root);
    if !(node.Record? || node.Special?) then None
    else match FieldOf(node.fields, key)
    case None => None
    case Some(r) => if m.heap(r).Text? then Some(m.heap(r).units) else None
  }

  function LaneCap(m: Message): Lane {
    var event, name := StringUnder(m, Units("event")), StringUnder(m, Units("method"));
    if event == Some(Units("ui.render")) || event == Some(Units("ui.persist")) || event == Some(Units("ui.retain")) then
      Lane(RENDER_BYTES, RENDER_WALK)
    else if name == Some(Units("files.saveAs")) || name == Some(Units("editor.applyEdit")) then
      Lane(FILE_BYTES, DEFAULT_WALK)
    else
      Lane(SHARED_BYTES, DEFAULT_WALK)
  }

  /** The bytes a message is charged, or None when it does not fit its lane. */
  ghost function Charge(m: Message): Option<nat> {
    var lane := LaneCap(m);
    var whole := Unfold(m.heap, m.root, lane.walk.maxDepth + 1);
    if Fits(whole, lane.maxBytes, lane.walk) then Some(whole.bytes) else None
  }

  /** A message with a method, an event and a buffer. */
  function Envelope(name: seq<CodeUnit>, event: seq<CodeUnit>, size: nat): Message {
    var fields := [Field(Units("method"), 1), Field(Units("event"), 2), Field(Units("data"), 3)];
    Message((r: Ref) =>
      if r == 0 then Record(fields) else if r == 1 then Text(name) else if r == 2 then Text(event) else Buffer(size), 0)
  }

  /** Its size: the keys, the names and the buffer. */
  function EnvelopeSize(name: seq<CodeUnit>, event: seq<CodeUnit>, size: nat): nat {
    15 + Utf8Length(name) + Utf8Length(event) + size
  }

  lemma {:induction false} LeafMeasure(h: Heap, r: Ref, levels: nat)
    requires levels > 0 && Children(h(r)) == []
    ensures Unfold(h, r, levels) == Measure(1, OwnBytes(h(r)), true)
  {
  }

  lemma {:induction false} ThreeLeaves(h: Heap, a: Ref, b: Ref, c: Ref, levels: nat)
    requires levels > 0 && Children(h(a)) == Children(h(b)) == Children(h(c)) == []
    ensures UnfoldAll(h, [a, b, c], levels) == Measure(3, OwnBytes(h(a)) + OwnBytes(h(b)) + OwnBytes(h(c)), true)
  {
    hide Unfold, OwnBytes;
    LeafMeasure(h, a, levels);
    LeafMeasure(h, b, levels);
    LeafMeasure(h, c, levels);
    assert [a, b, c][..2] == [a, b] && [a, b][..1] == [a] && [a][..0] == [];
    assert UnfoldAll(h, [a], levels) == ZERO.Plus(Unfold(h, a, levels));
    assert UnfoldAll(h, [a, b], levels) == UnfoldAll(h, [a], levels).Plus(Unfold(h, b, levels));
  }

  lemma {:induction false} EnvelopeFields(name: seq<CodeUnit>, event: seq<CodeUnit>, size: nat)
    ensures var m := Envelope(name, event, size); var node := m.heap(0);
            && node.Record? && Children(node) == [1, 2, 3] && OwnBytes(node) == 15
            && FieldOf(node.fields, Units("method")) == Some(1) && FieldOf(node.fields, Units("event")) == Some(2)
  {
    var a, b, c := Field(Units("method"), 1), Field(Units("event"), 2), Field(Units("data"), 3);
    assert [a, b, c][..2] == [a, b] && [a, b][..1] == [a] && [a][..0] == [];
    assert |a.key| == 6 && |b.key| == 5 && |c.key| == 4;
    assert KeyUnits([a]) == 6 && KeyUnits([a, b]) == 11;
    assert FieldOf([a], a.key) == Some(1) && FieldOf([a, b], a.key) == Some(1) && FieldOf([a, b], b.key) == Some(2);
  }

  lemma {:induction false} EnvelopeLeaves(name: seq<CodeUnit>, event: seq<CodeUnit>, size: nat)
    ensures var h := Envelope(name, event, size).heap;
            && Children(h(1)) == Children(h(2)) == Children(h(3)) == []
            && OwnBytes(h(1)) + OwnBytes(h(2)) + OwnBytes(h(3)) == Utf8Length(name) + Utf8Length(event) + size
  {
    hide Utf8Length, Units;
  }

  lemma {:induction false} EnvelopeMeasure(name: seq<CodeUnit>, event: seq<CodeUnit>, size: nat, depth: nat)
    requires depth > 0
    ensures Unfold(Envelope(name, event, size).heap, 0, depth + 1)
         == Measure(4, EnvelopeSize(name, event, size), true)
  {
    hide OwnBytes, UnfoldAll, FieldOf, Utf8Length, Children, Envelope;
    var m := Envelope(name, event, size);
    EnvelopeFields(name, event, size);
    EnvelopeLeaves(name, event, size);
    ThreeLeaves(m.heap, 1, 2, 3, depth);
  }

  lemma {:induction false} EnvelopeStrings(name: seq<CodeUnit>, event: seq<CodeUnit>, size: nat)
    ensures var m := Envelope(name, event, size);
            && m.root == 0
            && StringUnder(m, Units("method")) == Some(name) && StringUnder(m, Units("event")) == Some(event)
  {
    hide FieldOf;
    EnvelopeFields(name, event, size);
  }

  /**
   An envelope is charged its size if it fits, and refused else: up to 640 KiB for a render event, whatever
   its method, else up to 64 MiB and 4 KiB for the two methods that carry files, and else up to 65 KiB.
   */
  lemma {:induction false} EnvelopesHaveTheirLane(name: seq<CodeUnit>, event: seq<CodeUnit>, size: nat)
    ensures var rendering := event == Units("ui.render") || event == Units("ui.persist") || event == Units("ui.retain");
            var filing := name == Units("files.saveAs") || name == Units("editor.applyEdit");
            var cap := if rendering then 655_360 else if filing then 67_112_960 else 66_560;
            var bytes := EnvelopeSize(name, event, size);
            Charge(Envelope(name, event, size)) == if bytes <= cap then Some(bytes) else None
  {
    hide Unfold, StringUnder, Envelope, EnvelopeSize, Units;
    EnvelopeStrings(name, event, size);
    EnvelopeMeasure(name, event, size, DEFAULT_WALK.maxDepth);
    EnvelopeMeasure(name, event, size, RENDER_WALK.maxDepth);
  }

  // ---------- the window ----------

  datatype Rate = Rate(maxMessages: nat, maxBytes: nat, perMs: int)
  datatype Entry = Entry(at: int, bytes: nat)
  datatype Outcome = Sent | TooLarge | RateLimited(retryAfterMs: nat)
  datatype Call = Call(at: int, charge: Option<nat>)

  function Total(h: seq<Entry>): nat {
    if h == [] then 0 else Total(h[..|h| - 1]) + h[|h| - 1].bytes
  }

  /** The queue without its leading entries that are no younger than `cutoff`. */
  function Evict(sent: seq<Entry>, cutoff: int): seq<Entry> {
    if sent != [] && sent[0].at <= cutoff then Evict(sent[1..], cutoff) else sent
  }

  predicate OverRate(rate: Rate, sent: seq<Entry>, bytes: nat) {
    |sent| >= rate.maxMessages || Total(sent) + bytes > rate.maxBytes
  }

  function RetryAfter(rate: Rate, sent: seq<Entry>, at: int): nat {
    var oldest := if sent != [] then sent[0].at else at;
    if oldest + rate.perMs > at then oldest + rate.perMs - at else 0
  }

  /** One call: the queue after it, and its outcome. */
  function Decide(rate: Rate, sent: seq<Entry>, call: Call): (seq<Entry>, Outcome) {
    var kept := Evict(sent, call.at - rate.perMs);
    if call.charge.None? then (kept, TooLarge)
    else if OverRate(rate, kept, call.charge.value) then (kept, RateLimited(RetryAfter(rate, kept, call.at)))
    else (kept + [Entry(call.at, call.charge.value)], Sent)
  }

  lemma {:induction false} TotalAppends(a: seq<Entry>, b: seq<Entry>)
    ensures Total(a + b) == Total(a) + Total(b)
    decreases |b|
  {
    if b == [] {
      assert a + b == a;
    } else {
      TotalAppends(a, b[..|b| - 1]);
      assert (a + b)[..|a + b| - 1] == a + b[..|b| - 1];
    }
  }

  lemma {:induction false} TotalOfOne(e: Entry)
    ensures Total([e]) == e.bytes
  {
    assert [e][..0] == [];
  }

  class Budget {
    const rate: Rate
    var sent: seq<Entry>
    var windowBytes: int

    ghost predicate Valid() reads this { windowBytes == Total(sent) }

    constructor (rate: Rate)
      ensures Valid() && this.rate == rate && sent == []
    {
      this.rate := rate;
      sent, windowBytes := [], 0;
    }

    method EvictOld(at: int)
      requires Valid()
      modifies this
      ensures Valid() && sent == Evict(old(sent), at - rate.perMs)
    {
      while sent != [] && sent[0].at <= at - rate.perMs
        invariant Valid()
        invariant Evict(sent, at - rate.perMs) == Evict(old(sent), at - rate.perMs)
        decreases |sent|
      {
        var oldest := sent[0];
        TotalAppends([oldest], sent[1..]);
        assert sent == [oldest] + sent[1..] && Total([oldest]) == oldest.bytes;
        sent := sent[1..];
        windowBytes := windowBytes - oldest.bytes;
      }
    }

    method Send(at: int, message: Message) returns (outcome: Outcome)
      requires Valid()
      modifies this
      ensures Valid()
      ensures (sent, outcome) == Decide(rate, old(sent), Call(at, Charge(message)))
    {
      hide Total, Evict, Unfold, UnfoldAll;
      EvictOld(at);
      var lane := LaneCap(message);
      var bytes, _ := MeasureMessageBytes(message.heap, message.root, lane.maxBytes, lane.walk);
      if bytes > lane.maxBytes {
        return TooLarge;
      }
      if |sent| >= rate.maxMessages || windowBytes + bytes > rate.maxBytes {
        var oldest := if sent != [] then sent[0].at else at;
        var wait := oldest + rate.perMs - at;
        return RateLimited(if wait > 0 then wait else 0);
      }
      TotalAppends(sent, [Entry(at, bytes)]);
      TotalOfOne(Entry(at, bytes));
      sent := sent + [Entry(at, bytes)];
      windowBytes := windowBytes + bytes;
      return Sent;
    }
  }

  // ---------- whole runs ----------

  /** The queue after a run, and every entry the run ever admitted, oldest first. */
  datatype History = History(sent: seq<Entry>, admitted: seq<Entry>)

  function Extend(rate: Rate, before: History, call: Call): History {
    var (sent, outcome) := Decide(rate, before.sent, call);
    History(sent, if outcome == Sent then before.admitted + [Entry(call.at, call.charge.value)] else before.admitted)
  }

  function Run(rate: Rate, calls: seq<Call>): History {
    if calls == [] then History([], [])
    else Extend(rate, Run(rate, calls[..|calls| - 1]), calls[|calls| - 1])
  }

  predicate Monotone(calls: seq<Call>) {
    forall i, j :: 0 <= i < j < |calls| ==> calls[i].at <= calls[j].at
  }

  predicate Sorted(h: seq<Entry>) {
    forall i, j :: 0 <= i < j < |h| ==> h[i].at <= h[j].at
  }

  /** The entries of `h` in the half-open interval (lo, hi]. */
  function Within(h: seq<Entry>, lo: int, hi: int): seq<Entry> {
    if h == [] then []
    else
      var rest := Within(h[..|h| - 1], lo, hi);
      if lo < h[|h| - 1].at <= hi then rest + [h[|h| - 1]] else rest
  }

  lemma {:induction false} OneCallStaysBounded(rate: Rate, sent: seq<Entry>, call: Call)
    requires |sent| <= rate.maxMessages && Total(sent) <= rate.maxBytes
    ensures var after := Decide(rate, sent, call).0; |after| <= rate.maxMessages && Total(after) <= rate.maxBytes
  {
    EvictShrinks(sent, call.at - rate.perMs);
    if call.charge.Some? {
      TotalAppends(Evict(sent, call.at - rate.perMs), [Entry(call.at, call.charge.value)]);
    }
  }

  /** Queue and byte bounds that hold whatever the clock does. */
  lemma {:induction false} QueueStaysBounded(rate: Rate, calls: seq<Call>)
    ensures |Run(rate, calls).sent| <= rate.maxMessages
    ensures Total(Run(rate, calls).sent) <= rate.maxBytes
  {
    if calls != [] {
      QueueStaysBounded(rate, calls[..|calls| - 1]);
      OneCallStaysBounded(rate, Run(rate, calls[..|calls| - 1]).sent, calls[|calls| - 1]);
    }
  }

  lemma {:induction false} EvictShrinks(sent: seq<Entry>, cutoff: int)
    ensures |Evict(sent, cutoff)| <= |sent| && Total(Evict(sent, cutoff)) <= Total(sent)
    ensures Evict(sent, cutoff) == sent[|sent| - |Evict(sent, cutoff)|..]
    ensures var kept := Evict(sent, cutoff); kept != [] ==> kept[0].at > cutoff
  {
    if sent != [] && sent[0].at <= cutoff {
      EvictShrinks(sent[1..], cutoff);
      TotalAppends([sent[0]], sent[1..]);
      assert sent == [sent[0]] + sent[1..];
    }
  }

  lemma {:induction false} WithinAppends(a: seq<Entry>, b: seq<Entry>, lo: int, hi: int)
    ensures Within(a + b, lo, hi) == Within(a, lo, hi) + Within(b, lo, hi)
    decreases |b|
  {
    if b == [] {
      assert a + b == a;
    } else {
      WithinAppends(a, b[..|b| - 1], lo, hi);
      assert (a + b)[..|a + b| - 1] == a + b[..|b| - 1];
    }
  }

  lemma {:induction false} WithinOfAll(h: seq<Entry>, lo: int, hi: int)
    requires forall e <- h :: lo < e.at <= hi
    ensures Within(h, lo, hi) == h
  {
    if h != [] {
      WithinOfAll(h[..|h| - 1], lo, hi);
    }
  }

  lemma {:induction false} WithinOfNone(h: seq<Entry>, lo: int, hi: int)
    requires forall e <- h :: !(lo < e.at <= hi)
    ensures Within(h, lo, hi) == []
  {
    if h != [] {
      WithinOfNone(h[..|h| - 1], lo, hi);
    }
  }

  /** On a sorted queue, evicting the front is filtering the whole queue. */
  lemma {:induction false} EvictIsFilter(sent: seq<Entry>, cutoff: int, now: int)
    requires Sorted(sent) && forall e <- sent :: e.at <= now
    ensures Evict(sent, cutoff) == Within(sent, cutoff, now)
  {
    hide Within;
    if sent != [] && sent[0].at <= cutoff {
      EvictIsFilter(sent[1..], cutoff, now);
      assert sent == [sent[0]] + sent[1..];
      WithinAppends([sent[0]], sent[1..], cutoff, now);
      WithinOfNone([sent[0]], cutoff, now);
    } else {
      WithinOfAll(sent, cutoff, now);
    }
  }

  lemma {:induction false} WithinTwice(h: seq<Entry>, lo: int, lo': int, hi: int, hi': int)
    requires lo <= lo' && hi <= hi' && UpTo(h, hi)
    ensures Within(Within(h, lo, hi), lo', hi') == Within(h, lo', hi')
  {
    if h != [] {
      var last := h[|h| - 1];
      WithinTwice(h[..|h| - 1], lo, lo', hi, hi');
      WithinAppends(Within(h[..|h| - 1], lo, hi), if lo < last.at <= hi then [last] else [], lo', hi');
    }
  }

  /** Sorted, with no entry after `now`. */
  predicate UpTo(h: seq<Entry>, now: int) {
    h != [] ==> h[|h| - 1].at <= now && UpTo(h[..|h| - 1], h[|h| - 1].at)
  }

  lemma {:induction false} UpToMeans(h: seq<Entry>, now: int)
    ensures UpTo(h, now) <==> Sorted(h) && forall e <- h :: e.at <= now
  {
    if h != [] {
      var init, last := h[..|h| - 1], h[|h| - 1];
      UpToMeans(init, last.at);
      if Sorted(h) {
        assert forall e <- init :: e.at <= last.at;
      }
    }
  }

  lemma {:induction false} EvictIsWithin(sent: seq<Entry>, cutoff: int, now: int)
    requires UpTo(sent, now)
    ensures Evict(sent, cutoff) == Within(sent, cutoff, now)
  {
    UpToMeans(sent, now);
    EvictIsFilter(sent, cutoff, now);
  }

  /** With a monotone clock the live queue is the admitted entries of the last window, no more and no less. */
  ghost predicate QueueIsWindow(rate: Rate, s: History, now: int) {
    && UpTo(s.sent, now) && UpTo(s.admitted, now)
    && Evict(s.sent, now - rate.perMs) == Within(s.admitted, now - rate.perMs, now)
  }

  lemma {:induction false} EvictLater(sent: seq<Entry>, past: int, cutoff: int, later: int, now: int)
    requires UpTo(sent, past) && past <= now && cutoff <= later
    ensures Evict(sent, later) == Within(Evict(sent, cutoff), later, now)
  {
    EvictIsWithin(sent, cutoff, past);
    EvictIsWithin(sent, later, now);
    WithinTwice(sent, cutoff, later, past, now);
  }

  lemma {:induction false} TimePasses(rate: Rate, s: History, past: int, now: int)
    requires QueueIsWindow(rate, s, past) && past <= now
    ensures QueueIsWindow(rate, s, now)
  {
    hide Within, Evict;
    EvictLater(s.sent, past, past - rate.perMs, now - rate.perMs, now);
    WithinTwice(s.admitted, past - rate.perMs, now - rate.perMs, past, now);
  }

  lemma {:induction false} KeptUpTo(sent: seq<Entry>, cutoff: int, now: int)
    requires UpTo(sent, now)
    ensures UpTo(Evict(sent, cutoff), now)
    ensures Evict(Evict(sent, cutoff), cutoff) == Evict(sent, cutoff)
  {
    EvictShrinks(sent, cutoff);
    var k := |sent| - |Evict(sent, cutoff)|;
    assert forall i :: 0 <= i < |sent[k..]| ==> sent[k..][i] == sent[k + i];
    UpToMeans(sent, now);
    UpToMeans(Evict(sent, cutoff), now);
  }

  lemma {:induction false} AppendUpTo(h: seq<Entry>, e: Entry)
    requires UpTo(h, e.at)
    ensures UpTo(h + [e], e.at)
  {
  }

  lemma {:induction false} AdmitKeepsQueueWindow(rate: Rate, s: History, e: Entry)
    requires UpTo(s.sent, e.at) && UpTo(s.admitted, e.at)
    requires s.sent == Within(s.admitted, e.at - rate.perMs, e.at)
    requires Evict(s.sent, e.at - rate.perMs) == s.sent
    ensures QueueIsWindow(rate, History(s.sent + [e], s.admitted + [e]), e.at)
  {
    hide Within, Evict;
    AppendUpTo(s.sent, e);
    AppendUpTo(s.admitted, e);
    assert Evict(s.sent + [e], e.at - rate.perMs) == Within(s.admitted + [e], e.at - rate.perMs, e.at) by {
      EvictIsWithin(s.sent, e.at - rate.perMs, e.at);
      AppendFiltered(s.sent, s.admitted, e, e.at - rate.perMs);
      EvictIsWithin(s.sent + [e], e.at - rate.perMs, e.at);
    }
  }

  lemma {:induction false} AppendFiltered(kept: seq<Entry>, admitted: seq<Entry>, e: Entry, cutoff: int)
    requires Within(kept, cutoff, e.at) == Within(admitted, cutoff, e.at)
    ensures Within(kept + [e], cutoff, e.at) == Within(admitted + [e], cutoff, e.at)
  {
    WithinAppends(admitted, [e], cutoff, e.at);
    WithinAppends(kept, [e], cutoff, e.at);
  }

  lemma {:induction false} CallKeepsQueueWindow(rate: Rate, s: History, call: Call)
    requires QueueIsWindow(rate, s, call.at)
    ensures QueueIsWindow(rate, Extend(rate, s, call), call.at)
  {
    var kept := Evict(s.sent, call.at - rate.perMs);
    KeptUpTo(s.sent, call.at - rate.perMs, call.at);
    if Decide(rate, s.sent, call).1 == Sent {
      AdmitKeepsQueueWindow(rate, History(kept, s.admitted), Entry(call.at, call.charge.value));
    } else {
      assert Extend(rate, s, call) == History(kept, s.admitted);
    }
  }

  lemma {:induction false} RunKeepsQueueWindow(rate: Rate, calls: seq<Call>, now: int)
    requires Monotone(calls)
    requires calls != [] ==> calls[|calls| - 1].at <= now
    ensures QueueIsWindow(rate, Run(rate, calls), now)
  {
    if calls != [] {
      var last := calls[|calls| - 1];
      RunKeepsQueueWindow(rate, calls[..|calls| - 1], last.at);
      CallKeepsQueueWindow(rate, Run(rate, calls[..|calls| - 1]), last);
      TimePasses(rate, Run(rate, calls), last.at, now);
    }
  }

  /** A within-lane message is refused exactly when admitting it would break the window's bounds. */
  lemma {:induction false} RefusalIsExact(rate: Rate, calls: seq<Call>, at: int, bytes: nat)
    requires Monotone(calls) && (calls != [] ==> calls[|calls| - 1].at <= at)
    ensures var run := Run(rate, calls);
            var window := Within(run.admitted, at - rate.perMs, at);
            Decide(rate, run.sent, Call(at, Some(bytes))).1.RateLimited?
            <==> |window| + 1 > rate.maxMessages || Total(window) + bytes > rate.maxBytes
  {
    RunKeepsQueueWindow(rate, calls, at);
  }

  ghost predicate WindowWithinRate(rate: Rate, admitted: seq<Entry>, t: int) {
    var window := Within(admitted, t - rate.perMs, t);
    |window| <= rate.maxMessages && Total(window) <= rate.maxBytes
  }

  lemma {:induction false} WindowWithoutNewest(admitted: seq<Entry>, e: Entry, lo: int, hi: int)
    requires !(lo < e.at <= hi)
    ensures Within(admitted + [e], lo, hi) == Within(admitted, lo, hi)
  {
    WithinAppends(admitted, [e], lo, hi);
    WithinOfNone([e], lo, hi);
  }

  // ---------- any clock ----------

  function Times(calls: seq<Call>): seq<int> {
    seq(|calls|, i requires 0 <= i < |calls| => calls[i].at)
  }

  predicate Near(at: int, perMs: int, t: int) { t - perMs < at <= t }

  /** How many of the calls from number i on, below n, fall into the window that ends at t. */
  function CountNear(times: seq<int>, perMs: int, t: int, i: nat, n: nat): nat
    requires i <= n <= |times|
  {
    if i == n then 0 else CountNear(times, perMs, t, i, n - 1) + if Near(times[n - 1], perMs, t) then 1 else 0
  }

  /**
   A whole period passed after call i, at call j, and the clock then came back: calls i and k share a
   window, and at least `need` calls from i to k fall into it.
   */
  predicate CrowdsAt(times: seq<int>, perMs: int, need: nat, t: int, i: nat, j: nat, k: nat) {
    && i < j < k < |times| && times[j] >= times[i] + perMs
    && Near(times[i], perMs, t) && Near(times[k], perMs, t)
    && CountNear(times, perMs, t, i, k + 1) >= need
  }

  ghost predicate Crowds(times: seq<int>, perMs: int, need: nat) {
    exists t, i, j, k :: CrowdsAt(times, perMs, need, t, i, j, k)
  }

  function Min(a: nat, b: nat): nat { if a <= b then a else b }

  /** The most that one message can be charged, with a cap on messages. */
  function Largest(rate: Rate, cap: nat): nat { Min(cap, rate.maxBytes) }

  /** The least number of messages, none above the cap, that can be more than the rate allows. */
  function Need(rate: Rate, cap: nat): nat
    requires Largest(rate, cap) >= 1
  {
    Min(rate.maxMessages, rate.maxBytes / Largest(rate, cap)) + 1
  }

  predicate Affordable(calls: seq<Call>, cap: nat) {
    forall c <- calls :: c.charge.Some? ==> c.charge.value <= cap
  }

  /** Whatever is sent at these times, no message above the cap, no window ever holds more than the rate allows. */
  ghost predicate AlwaysWithinRate(rate: Rate, cap: nat, times: seq<int>) {
    forall calls, t :: Times(calls) == times && Affordable(calls, cap) ==>
      WindowWithinRate(rate, Run(rate, calls).admitted, t)
  }

  /** A whole period passed after the entry's own call. */
  ghost predicate Outlived(times: seq<int>, perMs: int, e: Entry) {
    exists i, j :: 0 <= i < j < |times| && times[i] == e.at && times[j] >= e.at + perMs
  }

  ghost predicate Called(times: seq<int>, e: Entry) { e.at in times }

  /** The queue is the tail of what was admitted, and every entry before it was outlived. */
  ghost predicate TailIsQueue(rate: Rate, times: seq<int>, s: History) {
    && |s.sent| <= |s.admitted|
    && s.admitted[|s.admitted| - |s.sent|..] == s.sent
    && (forall e <- s.admitted[..|s.admitted| - |s.sent|] :: Outlived(times, rate.perMs, e))
    && (forall e <- s.sent :: Called(times, e))
  }

  /** What eviction takes from the front has been outlived by the call that evicts it. */
  lemma {:induction false} EvictedIsOld(sent: seq<Entry>, cutoff: int)
    ensures var kept := Evict(sent, cutoff);
            |kept| <= |sent| && forall e <- sent[..|sent| - |kept|] :: e.at <= cutoff
  {
    if sent != [] && sent[0].at <= cutoff {
      EvictedIsOld(sent[1..], cutoff);
      var n := |sent| - |Evict(sent, cutoff)|;
      assert sent[..n] == [sent[0]] + sent[1..][..n - 1];
    }
  }

  lemma {:induction false} OutlivedLater(times: seq<int>, now: int, perMs: int, e: Entry)
    requires Outlived(times, perMs, e) || (Called(times, e) && e.at <= now - perMs)
    ensures Outlived(times + [now], perMs, e)
  {
    var later := times + [now];
    if Outlived(times, perMs, e) {
      var i, j :| 0 <= i < j < |times| && times[i] == e.at && times[j] >= e.at + perMs;
      assert later[i] == e.at && later[j] >= e.at + perMs;
    } else {
      var i :| 0 <= i < |times| && times[i] == e.at;
      assert later[i] == e.at && later[|times|] >= e.at + perMs;
    }
  }

  lemma {:induction false} AllOutlivedLater(
    times: seq<int>, now: int, perMs: int, gone: seq<Entry>, dropped: seq<Entry>)
    requires forall e <- gone :: Outlived(times, perMs, e)
    requires forall e <- dropped :: Called(times, e) && e.at <= now - perMs
    ensures forall e <- gone + dropped :: Outlived(times + [now], perMs, e)
  {
    hide Outlived, Called;
    forall e | e in gone + dropped ensures Outlived(times + [now], perMs, e) {
      OutlivedLater(times, now, perMs, e);
    }
  }

  lemma {:induction false} SplitTail(admitted: seq<Entry>, sent: seq<Entry>, n: nat)
    requires |sent| <= |admitted| && admitted[|admitted| - |sent|..] == sent && n <= |sent|
    ensures admitted[..|admitted| - |sent| + n] == admitted[..|admitted| - |sent|] + sent[..n]
    ensures admitted[|admitted| - |sent| + n..] == sent[n..]
  {
  }

  lemma {:induction false} EvictionKeepsTail(rate: Rate, times: seq<int>, s: History, now: int)
    requires TailIsQueue(rate, times, s)
    ensures TailIsQueue(rate, times + [now], History(Evict(s.sent, now - rate.perMs), s.admitted))
  {
    hide Outlived, Called, Evict, Total;
    var kept := Evict(s.sent, now - rate.perMs);
    EvictShrinks(s.sent, now - rate.perMs);
    EvictedIsOld(s.sent, now - rate.perMs);
    var n := |s.sent| - |kept|;
    SplitTail(s.admitted, s.sent, n);
    assert |s.admitted| - |s.sent| + n == |s.admitted| - |kept|;
    AllOutlivedLater(times, now, rate.perMs, s.admitted[..|s.admitted| - |s.sent|], s.sent[..n]);
    AllStillCalled(times, now, s.sent, n);
  }

  lemma {:induction false} AllStillCalled(times: seq<int>, now: int, sent: seq<Entry>, n: nat)
    requires n <= |sent| && forall e <- sent :: Called(times, e)
    ensures forall e <- sent[n..] :: Called(times + [now], e)
  {
    forall e | e in sent[n..] ensures Called(times + [now], e) {
      assert e in sent;
      var i :| 0 <= i < |times| && times[i] == e.at;
      assert (times + [now])[i] == e.at;
    }
  }

  lemma {:induction false} AdmissionKeepsTail(rate: Rate, times: seq<int>, s: History, e: Entry)
    requires TailIsQueue(rate, times, s) && Called(times, e)
    ensures TailIsQueue(rate, times, History(s.sent + [e], s.admitted + [e]))
  {
    hide Outlived, Called;
    var n := |s.admitted| - |s.sent|;
    assert (s.admitted + [e])[n..] == s.admitted[n..] + [e];
    assert (s.admitted + [e])[..n] == s.admitted[..n];
  }

  lemma {:induction false} CallKeepsTail(rate: Rate, times: seq<int>, s: History, call: Call)
    requires TailIsQueue(rate, times, s)
    ensures TailIsQueue(rate, times + [call.at], Extend(rate, s, call))
  {
    hide TailIsQueue, Evict, Total;
    EvictionKeepsTail(rate, times, s, call.at);
    if Decide(rate, s.sent, call).1 == Sent {
      var e := Entry(call.at, call.charge.value);
      assert (times + [call.at])[|times|] == e.at;
      AdmissionKeepsTail(rate, times + [call.at], History(Evict(s.sent, call.at - rate.perMs), s.admitted), e);
    }
  }

  lemma {:induction false} RunKeepsTail(rate: Rate, calls: seq<Call>)
    ensures TailIsQueue(rate, Times(calls), Run(rate, calls))
  {
    if calls != [] {
      hide TailIsQueue;
      var init, last := calls[..|calls| - 1], calls[|calls| - 1];
      RunKeepsTail(rate, init);
      CallKeepsTail(rate, Times(init), Run(rate, init), last);
      assert Times(calls) == Times(init) + [last.at];
    }
  }

  lemma {:induction false} WithinShrinks(h: seq<Entry>, lo: int, hi: int)
    ensures |Within(h, lo, hi)| <= |h| && Total(Within(h, lo, hi)) <= Total(h)
  {
    if h != [] {
      var last := h[|h| - 1];
      WithinShrinks(h[..|h| - 1], lo, hi);
      TotalAppends(Within(h[..|h| - 1], lo, hi), if lo < last.at <= hi then [last] else []);
      TotalOfOne(last);
    }
  }

  lemma {:induction false} RunSnoc(rate: Rate, calls: seq<Call>, n: nat)
    requires n < |calls|
    ensures Run(rate, calls[..n + 1]) == Extend(rate, Run(rate, calls[..n]), calls[n])
  {
    assert calls[..n + 1][..n] == calls[..n];
  }

  lemma {:induction false} AdmittedGrows(rate: Rate, calls: seq<Call>, m: nat, n: nat)
    requires m <= n <= |calls|
    ensures Run(rate, calls[..m]).admitted <= Run(rate, calls[..n]).admitted
    decreases n
  {
    if m < n {
      AdmittedGrows(rate, calls, m, n - 1);
      RunSnoc(rate, calls, n - 1);
    }
  }

  lemma {:induction false} EarlierEmpty(h: seq<Entry>, n: nat, lo: int, hi: int)
    requires n <= |h| && Within(h, lo, hi) == []
    ensures Within(h[..n], lo, hi) == []
  {
    WithinAppends(h[..n], h[n..], lo, hi);
    assert h[..n] + h[n..] == h;
  }

  lemma {:induction false} OneAdmission(rate: Rate, s: History, call: Call, t: int)
    ensures var after := Extend(rate, s, call).admitted;
            |Within(after, t - rate.perMs, t)|
            <= |Within(s.admitted, t - rate.perMs, t)| + if Near(call.at, rate.perMs, t) then 1 else 0
  {
    if Decide(rate, s.sent, call).1 == Sent {
      var e := Entry(call.at, call.charge.value);
      WithinAppends(s.admitted, [e], t - rate.perMs, t);
      WithinShrinks([e], t - rate.perMs, t);
      if !Near(e.at, rate.perMs, t) {
        WithinOfNone([e], t - rate.perMs, t);
      }
    }
  }

  lemma {:induction false} CountSnoc(times: seq<int>, perMs: int, t: int, i: nat, n: nat)
    requires i < n <= |times|
    ensures CountNear(times, perMs, t, i, n)
         == CountNear(times, perMs, t, i, n - 1) + if Near(times[n - 1], perMs, t) then 1 else 0
  {
  }

  lemma {:induction false} CountNone(times: seq<int>, perMs: int, t: int, i: nat)
    requires i <= |times|
    ensures CountNear(times, perMs, t, i, i) == 0
  {
  }

  /** A window grows by the calls that fall into it, at most. */
  lemma {:induction false} WindowGrows(rate: Rate, calls: seq<Call>, t: int, i: nat, n: nat)
    requires i <= n <= |calls|
    ensures |Within(Run(rate, calls[..n]).admitted, t - rate.perMs, t)|
         <= |Within(Run(rate, calls[..i]).admitted, t - rate.perMs, t)| + CountNear(Times(calls), rate.perMs, t, i, n)
    decreases n
  {
    hide Within, Near, Run, CountNear, Extend;
    if i < n {
      WindowGrows(rate, calls, t, i, n - 1);
      WindowStep(rate, calls, t, n - 1);
      CountSnoc(Times(calls), rate.perMs, t, i, n);
    } else {
      CountNone(Times(calls), rate.perMs, t, i);
    }
  }

  lemma {:induction false} WindowStep(rate: Rate, calls: seq<Call>, t: int, n: nat)
    requires n < |calls|
    ensures |Within(Run(rate, calls[..n + 1]).admitted, t - rate.perMs, t)|
         <= |Within(Run(rate, calls[..n]).admitted, t - rate.perMs, t)|
            + if Near(Times(calls)[n], rate.perMs, t) then 1 else 0
  {
    hide Within, Near, Run, Extend;
    RunSnoc(rate, calls, n);
    OneAdmission(rate, Run(rate, calls[..n]), calls[n], t);
  }

  /** The call whose message is the first in the window. */
  lemma {:induction false} FirstNear(rate: Rate, calls: seq<Call>, t: int, n: nat) returns (i: nat)
    requires n <= |calls| && Within(Run(rate, calls[..n]).admitted, t - rate.perMs, t) != []
    ensures i < n && Near(calls[i].at, rate.perMs, t)
    ensures Within(Run(rate, calls[..i]).admitted, t - rate.perMs, t) == []
    ensures calls[i].charge.Some?
    ensures Run(rate, calls[..i + 1]).admitted
         == Run(rate, calls[..i]).admitted + [Entry(calls[i].at, calls[i].charge.value)]
  {
    hide Within, Near;
    if n == 0 {
      assert Run(rate, calls[..0]).admitted == [];
      WithinOfNone([], t - rate.perMs, t);
    } else {
      RunSnoc(rate, calls, n - 1);
      var before := Run(rate, calls[..n - 1]);
      if Within(before.admitted, t - rate.perMs, t) != [] {
        i := FirstNear(rate, calls, t, n - 1);
      } else {
        i := n - 1;
        OneAdmission(rate, before, calls[i], t);
      }
    }
  }

  lemma {:induction false} AdmittedSmall(rate: Rate, cap: nat, calls: seq<Call>)
    requires Affordable(calls, cap)
    ensures forall e <- Run(rate, calls).admitted :: e.bytes <= Largest(rate, cap)
  {
    if calls != [] {
      AdmittedSmall(rate, cap, calls[..|calls| - 1]);
      assert calls[|calls| - 1] in calls;
    }
  }

  lemma {:induction false} WithinSmall(h: seq<Entry>, lo: int, hi: int, big: nat)
    requires forall e <- h :: e.bytes <= big
    ensures Total(Within(h, lo, hi)) <= |Within(h, lo, hi)| * big
  {
    if h != [] {
      hide Total;
      var init, last := h[..|h| - 1], h[|h| - 1];
      WithinSmall(init, lo, hi, big);
      assert last in h && forall e <- init :: e in h;
      OneMoreSmall(Within(init, lo, hi), last, big);
    } else {
      NothingTotals();
    }
  }

  lemma {:induction false} NothingTotals()
    ensures Total([]) == 0
  {
  }

  lemma {:induction false} OneMoreSmall(h: seq<Entry>, e: Entry, big: nat)
    requires Total(h) <= |h| * big && e.bytes <= big
    ensures Total(h + [e]) <= |h + [e]| * big
  {
    TotalAppends(h, [e]);
    TotalOfOne(e);
  }

  lemma {:induction false} FewFit(rate: Rate, cap: nat, count: nat)
    requires Largest(rate, cap) >= 1 && count < Need(rate, cap)
    ensures count <= rate.maxMessages && count * Largest(rate, cap) <= rate.maxBytes
  {
    var big := Largest(rate, cap);
    MultiplyAtMost(count, rate.maxBytes / big, big);
    assert rate.maxBytes / big * big <= rate.maxBytes;
  }

  lemma {:induction false} MultiplyAtMost(a: nat, b: nat, c: nat)
    requires a <= b
    ensures a * c <= b * c
  {
  }

  /** Nothing but the live queue is in the window. */
  lemma {:induction false} LiveWindowHolds(rate: Rate, s: History, t: int)
    requires |s.sent| <= |s.admitted| && s.admitted[|s.admitted| - |s.sent|..] == s.sent
    requires |s.sent| <= rate.maxMessages && Total(s.sent) <= rate.maxBytes
    requires forall e <- s.admitted[..|s.admitted| - |s.sent|] :: !Near(e.at, rate.perMs, t)
    ensures WindowWithinRate(rate, s.admitted, t)
  {
    hide Within, Total;
    var gone := s.admitted[..|s.admitted| - |s.sent|];
    assert s.admitted == gone + s.sent;
    WithinAppends(gone, s.sent, t - rate.perMs, t);
    WithinOfNone(gone, t - rate.perMs, t);
    assert [] + Within(s.sent, t - rate.perMs, t) == Within(s.sent, t - rate.perMs, t);
    WithinShrinks(s.sent, t - rate.perMs, t);
  }

  /** The first message in the window has left the queue, if any message in the window has. */
  lemma {:induction false} FirstIsGone(rate: Rate, calls: seq<Call>, t: int, n: nat, i: nat, g: Entry)
    requires i < n <= |calls| && TailIsQueue(rate, Times(calls[..n]), Run(rate, calls[..n]))
    requires Within(Run(rate, calls[..i]).admitted, t - rate.perMs, t) == [] && calls[i].charge.Some?
    requires Run(rate, calls[..i + 1]).admitted
          == Run(rate, calls[..i]).admitted + [Entry(calls[i].at, calls[i].charge.value)]
    requires var s := Run(rate, calls[..n]); g in s.admitted[..|s.admitted| - |s.sent|] && Near(g.at, rate.perMs, t)
    ensures Outlived(Times(calls[..n]), rate.perMs, Entry(calls[i].at, calls[i].charge.value))
  {
    hide Outlived, Run;
    var s, before := Run(rate, calls[..n]), Run(rate, calls[..i]).admitted;
    var gone := s.admitted[..|s.admitted| - |s.sent|];
    AdmittedGrows(rate, calls, i + 1, n);
    var p :| 0 <= p < |gone| && gone[p] == g;
    if p < |before| {
      assert before[p] == g;
      NearIsWithin(before, p, t - rate.perMs, t);
    }
    assert gone[|before|] == Entry(calls[i].at, calls[i].charge.value);
  }

  lemma {:induction false} NearIsWithin(h: seq<Entry>, p: nat, lo: int, hi: int)
    requires p < |h| && lo < h[p].at <= hi
    ensures Within(h, lo, hi) != []
  {
    if p < |h| - 1 {
      NearIsWithin(h[..|h| - 1], p, lo, hi);
    }
  }

  lemma {:induction false} CountFromEarlier(times: seq<int>, perMs: int, t: int, i: nat, m: nat, n: nat)
    requires i <= m <= n <= |times|
    ensures CountNear(times, perMs, t, m, n) <= CountNear(times, perMs, t, i, n)
    decreases n
  {
    if m < n {
      CountFromEarlier(times, perMs, t, i, m, n - 1);
    }
  }

  /** Without a crowd, few calls fall into a window from its first message on, once that has left the queue. */
  lemma {:induction false} UncrowdedIsFew(times: seq<int>, perMs: int, need: nat, t: int, i: nat, n: nat, e: Entry)
    requires !Crowds(times, perMs, need) && i < n <= |times|
    requires Near(times[i], perMs, t) && Near(times[n - 1], perMs, t)
    requires e.at == times[i] && Outlived(times[..n], perMs, e)
    ensures CountNear(times, perMs, t, i, n) < need
  {
    var i', j :| 0 <= i' < j < n && times[i'] == e.at && times[j] >= e.at + perMs;
    var first := if i' < i then i' else i;
    assert j < n - 1;
    assert !CrowdsAt(times, perMs, need, t, first, j, n - 1);
    CountFromEarlier(times, perMs, t, first, i, n);
  }

  lemma {:induction false} NewestWindowHolds(rate: Rate, cap: nat, calls: seq<Call>, t: int, n: nat)
    requires 0 < n <= |calls| && Affordable(calls, cap) && Largest(rate, cap) >= 1
    requires !Crowds(Times(calls), rate.perMs, Need(rate, cap)) && Near(calls[n - 1].at, rate.perMs, t)
    ensures WindowWithinRate(rate, Run(rate, calls[..n]).admitted, t)
  {
    hide Run, Within, Total, Crowds, Outlived, Largest, Need, Near, CountNear;
    var s := Run(rate, calls[..n]);
    RunKeepsTail(rate, calls[..n]);
    QueueStaysBounded(rate, calls[..n]);
    var gone := s.admitted[..|s.admitted| - |s.sent|];
    if g :| g in gone && Near(g.at, rate.perMs, t) {
      assert s.admitted == gone + s.sent && g in s.admitted;
      SomeWithin(s.admitted, g, rate.perMs, t);
      var i := FirstNear(rate, calls, t, n);
      FirstIsGone(rate, calls, t, n, i, g);
      assert Times(calls[..n]) == Times(calls)[..n];
      UncrowdedIsFew(
        Times(calls), rate.perMs, Need(rate, cap), t, i, n, Entry(calls[i].at, calls[i].charge.value));
      WindowGrows(rate, calls, t, i, n);
      FewStayWithin(rate, cap, calls, t, n);
    } else {
      LiveWindowHolds(rate, s, t);
    }
  }

  lemma {:induction false} SomeWithin(h: seq<Entry>, g: Entry, perMs: int, t: int)
    requires g in h && Near(g.at, perMs, t)
    ensures Within(h, t - perMs, t) != []
  {
    var p :| 0 <= p < |h| && h[p] == g;
    NearIsWithin(h, p, t - perMs, t);
  }

  lemma {:induction false} FewStayWithin(rate: Rate, cap: nat, calls: seq<Call>, t: int, n: nat)
    requires n <= |calls| && Affordable(calls, cap) && Largest(rate, cap) >= 1
    requires |Within(Run(rate, calls[..n]).admitted, t - rate.perMs, t)| < Need(rate, cap)
    ensures WindowWithinRate(rate, Run(rate, calls[..n]).admitted, t)
  {
    hide Run, Within, Total, Largest, Need;
    AdmittedSmall(rate, cap, calls[..n]);
    WithinSmall(Run(rate, calls[..n]).admitted, t - rate.perMs, t, Largest(rate, cap));
    FewFit(rate, cap, |Within(Run(rate, calls[..n]).admitted, t - rate.perMs, t)|);
  }

  lemma {:induction false} UncrowdedWindowHolds(rate: Rate, cap: nat, calls: seq<Call>, t: int, n: nat)
    requires n <= |calls| && Affordable(calls, cap) && Largest(rate, cap) >= 1
    requires !Crowds(Times(calls), rate.perMs, Need(rate, cap))
    ensures WindowWithinRate(rate, Run(rate, calls[..n]).admitted, t)
  {
    if n > 0 {
      hide Total, Within, Crowds, Largest, Need;
      UncrowdedWindowHolds(rate, cap, calls, t, n - 1);
      RunSnoc(rate, calls, n - 1);
      var last := calls[n - 1];
      if Near(last.at, rate.perMs, t) {
        NewestWindowHolds(rate, cap, calls, t, n);
      } else if Decide(rate, Run(rate, calls[..n - 1]).sent, last).1 == Sent {
        WindowWithoutNewest(
          Run(rate, calls[..n - 1]).admitted, Entry(last.at, last.charge.value), t - rate.perMs, t);
      }
    }
  }

  // The calls that break a window: the largest message at the first calls in it from i on, and at k.

  function Crowding(times: seq<int>, perMs: int, need: nat, big: nat, t: int, i: nat, k: nat): seq<Call> {
    seq(|times|, n requires 0 <= n < |times| =>
      Call(times[n], if n == k || Early(times, perMs, need, t, i, k, n) then Some(big) else None))
  }

  predicate Early(times: seq<int>, perMs: int, need: nat, t: int, i: nat, k: nat, n: nat)
    requires n < |times|
  {
    i <= n < k && Near(times[n], perMs, t) && CountNear(times, perMs, t, i, n) + 1 < need
  }

  predicate IsTail(admitted: seq<Entry>, sent: seq<Entry>) {
    |sent| <= |admitted| && sent == admitted[|admitted| - |sent|..]
  }

  ghost predicate AllNear(h: seq<Entry>, big: nat, perMs: int, t: int) {
    forall e <- h :: e.bytes == big && Near(e.at, perMs, t)
  }

  /** What these calls have done after the first n of them, n up to k: all were admitted, and i evicted at j. */
  ghost predicate Breaking(times: seq<int>, perMs: int, need: nat, big: nat, t: int, i: nat, j: nat, n: nat, s: History)
    requires n <= |times| && need >= 2
  {
    && |s.admitted| == (if n <= i then 0 else Min(CountNear(times, perMs, t, i, n), need - 1))
    && AllNear(s.admitted, big, perMs, t)
    && IsTail(s.admitted, s.sent)
    && (n > i ==> s.admitted != [] && s.admitted[0].at == times[i])
    && (n > j ==> |s.sent| < |s.admitted|)
  }

  lemma {:induction false} UniformTotal(h: seq<Entry>, big: nat)
    requires forall e <- h :: e.bytes == big
    ensures Total(h) == |h| * big
  {
    if h != [] {
      UniformTotal(h[..|h| - 1], big);
    }
  }

  /** Fewer messages than needed always leave room for one more that is needed. */
  lemma {:induction false} RoomForOneMore(rate: Rate, cap: nat, kept: seq<Entry>, t: int)
    requires Largest(rate, cap) >= 1 && |kept| + 1 < Need(rate, cap)
    requires AllNear(kept, Largest(rate, cap), rate.perMs, t)
    ensures !OverRate(rate, kept, Largest(rate, cap))
  {
    hide Need, Largest, Total;
    UniformTotal(kept, Largest(rate, cap));
    FewFit(rate, cap, |kept| + 1);
    assert (|kept| + 1) * Largest(rate, cap) == |kept| * Largest(rate, cap) + Largest(rate, cap);
  }

  /** Evicting keeps a tail, without the first message once a period has passed since it. */
  lemma {:induction false} EvictedTail(admitted: seq<Entry>, sent: seq<Entry>, cutoff: int)
    requires IsTail(admitted, sent)
    ensures var kept := Evict(sent, cutoff);
            && |kept| <= |sent| && IsTail(admitted, kept)
            && (admitted != [] && admitted[0].at <= cutoff ==> |kept| < |admitted|)
  {
    hide Total;
    EvictShrinks(sent, cutoff);
    var kept := Evict(sent, cutoff);
    if admitted != [] && |kept| == |admitted| {
      assert kept[0] == admitted[0];
    }
  }

  lemma {:induction false} BreakingEviction(
    times: seq<int>, perMs: int, need: nat, big: nat, t: int, i: nat, j: nat, k: nat, n: nat, s: History)
    requires need >= 2 && CrowdsAt(times, perMs, need, t, i, j, k) && n < |times|
    requires Breaking(times, perMs, need, big, t, i, j, n, s)
    ensures var kept := Evict(s.sent, times[n] - perMs);
            && IsTail(s.admitted, kept) && |kept| <= |s.admitted|
            && AllNear(kept, big, perMs, t)
            && (n >= j ==> |kept| < |s.admitted|)
  {
    hide Evict, CountNear, Near, Min, AllNear, IsTail;
    EvictedTail(s.admitted, s.sent, times[n] - perMs);
    TailIsShorter(s.admitted, Evict(s.sent, times[n] - perMs));
    TailIsNear(s.admitted, Evict(s.sent, times[n] - perMs), big, perMs, t);
  }

  lemma {:induction false} TailIsShorter(admitted: seq<Entry>, kept: seq<Entry>)
    requires IsTail(admitted, kept)
    ensures |kept| <= |admitted|
  {
  }

  lemma {:induction false} TailIsNear(admitted: seq<Entry>, kept: seq<Entry>, big: nat, perMs: int, t: int)
    requires IsTail(admitted, kept) && AllNear(admitted, big, perMs, t)
    ensures AllNear(kept, big, perMs, t)
  {
    assert forall e <- kept :: e in admitted;
  }

  lemma {:induction false} CountGrows(times: seq<int>, perMs: int, t: int, i: nat, m: nat, n: nat)
    requires i <= m <= n <= |times|
    ensures CountNear(times, perMs, t, i, m) <= CountNear(times, perMs, t, i, n)
    decreases n
  {
    if m < n {
      CountGrows(times, perMs, t, i, m, n - 1);
    }
  }

  lemma {:induction false} BreakingNext(
    times: seq<int>, perMs: int, need: nat, big: nat, t: int, i: nat, j: nat, n: nat, s: History, kept: seq<Entry>)
    requires need >= 2 && i < j && n < |times| && Breaking(times, perMs, need, big, t, i, j, n, s)
    requires n >= i && Near(times[n], perMs, t) && CountNear(times, perMs, t, i, n) + 1 < need
    requires IsTail(s.admitted, kept)
    requires n >= j ==> |kept| < |s.admitted|
    ensures var e := Entry(times[n], big);
            Breaking(times, perMs, need, big, t, i, j, n + 1, History(kept + [e], s.admitted + [e]))
  {
    hide CountNear, Near;
    CountSnoc(times, perMs, t, i, n + 1);
    CountNone(times, perMs, t, i);
    var e := Entry(times[n], big);
    assert (s.admitted + [e])[|s.admitted| - |kept|..] == kept + [e];
  }

  lemma {:induction false} BreakingSame(
    times: seq<int>, perMs: int, need: nat, big: nat, t: int, i: nat, j: nat, n: nat, s: History, kept: seq<Entry>)
    requires need >= 2 && i < j && n < |times| && i < |times| && Breaking(times, perMs, need, big, t, i, j, n, s)
    requires n >= i ==> !(Near(times[n], perMs, t) && CountNear(times, perMs, t, i, n) + 1 < need)
    requires IsTail(s.admitted, kept)
    requires Near(times[i], perMs, t) && (n >= j ==> |kept| < |s.admitted|)
    ensures Breaking(times, perMs, need, big, t, i, j, n + 1, History(kept, s.admitted))
  {
    hide CountNear, Near, AllNear, IsTail;
    if n >= i {
      CountSnoc(times, perMs, t, i, n + 1);
      CountNone(times, perMs, t, i);
    }
  }

  lemma {:induction false} BreakingStep(
    rate: Rate, cap: nat, times: seq<int>, t: int, i: nat, j: nat, k: nat, n: nat, s: History)
    requires Largest(rate, cap) >= 1 && Need(rate, cap) >= 2 && n < k
    requires CrowdsAt(times, rate.perMs, Need(rate, cap), t, i, j, k)
    requires Breaking(times, rate.perMs, Need(rate, cap), Largest(rate, cap), t, i, j, n, s)
    ensures var call := Crowding(times, rate.perMs, Need(rate, cap), Largest(rate, cap), t, i, k)[n];
            Breaking(times, rate.perMs, Need(rate, cap), Largest(rate, cap), t, i, j, n + 1, Extend(rate, s, call))
  {
    hide Need, Largest, Total, Evict, CountNear, Near, OverRate, AllNear, IsTail;
    var need, big := Need(rate, cap), Largest(rate, cap);
    var kept := Evict(s.sent, times[n] - rate.perMs);
    BreakingEviction(times, rate.perMs, need, big, t, i, j, k, n, s);
    if Early(times, rate.perMs, need, t, i, k, n) {
      FewAdmitted(times, rate.perMs, need, big, t, i, j, n, s);
      RoomForOneMore(rate, cap, kept, t);
      hide Breaking;
      BreakingNext(times, rate.perMs, need, big, t, i, j, n, s, kept);
    } else {
      hide Breaking;
      BreakingSame(times, rate.perMs, need, big, t, i, j, n, s, kept);
    }
  }

  lemma {:induction false} FewAdmitted(
    times: seq<int>, perMs: int, need: nat, big: nat, t: int, i: nat, j: nat, n: nat, s: History)
    requires need >= 2 && i <= n <= |times| && Breaking(times, perMs, need, big, t, i, j, n, s)
    ensures |s.admitted| <= CountNear(times, perMs, t, i, n)
  {
    hide CountNear, Near;
  }

  lemma {:induction false} BreakingRun(
    rate: Rate, cap: nat, times: seq<int>, t: int, i: nat, j: nat, k: nat, n: nat)
    requires Largest(rate, cap) >= 1 && Need(rate, cap) >= 2 && n <= k
    requires CrowdsAt(times, rate.perMs, Need(rate, cap), t, i, j, k)
    ensures var calls := Crowding(times, rate.perMs, Need(rate, cap), Largest(rate, cap), t, i, k);
            Breaking(times, rate.perMs, Need(rate, cap), Largest(rate, cap), t, i, j, n, Run(rate, calls[..n]))
  {
    hide Need, Largest, Crowding, Extend, CountNear;
    var calls := Crowding(times, rate.perMs, Need(rate, cap), Largest(rate, cap), t, i, k);
    assert |calls| == |times| by { CrowdingSize(times, rate.perMs, Need(rate, cap), Largest(rate, cap), t, i, k); }
    if n > 0 {
      BreakingRun(rate, cap, times, t, i, j, k, n - 1);
      BreakingStep(rate, cap, times, t, i, j, k, n - 1, Run(rate, calls[..n - 1]));
      RunSnoc(rate, calls, n - 1);
    }
  }

  lemma {:induction false} CrowdingSize(times: seq<int>, perMs: int, need: nat, big: nat, t: int, i: nat, k: nat)
    ensures var calls := Crowding(times, perMs, need, big, t, i, k);
            && |calls| == |times| && Times(calls) == times && Affordable(calls, big)
  {
  }

  lemma {:induction false} TooManyForAWindow(rate: Rate, cap: nat, h: seq<Entry>, t: int)
    requires Largest(rate, cap) >= 1 && |h| >= Need(rate, cap)
    requires forall e <- h :: e.bytes == Largest(rate, cap) && Near(e.at, rate.perMs, t)
    ensures |Within(h, t - rate.perMs, t)| == |h| && Total(Within(h, t - rate.perMs, t)) == |h| * Largest(rate, cap)
    ensures !WindowWithinRate(rate, h, t)
  {
    hide Within, Total;
    var big := Largest(rate, cap);
    WithinOfAll(h, t - rate.perMs, t);
    UniformTotal(h, big);
    if |h| <= rate.maxMessages {
      MultiplyAtMost(rate.maxBytes / big + 1, |h|, big);
      assert (rate.maxBytes / big + 1) * big > rate.maxBytes;
    }
  }

  /** A crowd of calls can be made to break the window. */
  lemma {:induction false} CrowdBreaksAWindow(rate: Rate, cap: nat, times: seq<int>, t: int, i: nat, j: nat, k: nat)
    requires Largest(rate, cap) >= 1 && Need(rate, cap) >= 2
    requires CrowdsAt(times, rate.perMs, Need(rate, cap), t, i, j, k)
    ensures !AlwaysWithinRate(rate, cap, times)
  {
    hide Need, Largest, Run, WindowWithinRate, CountNear, Evict, Total;
    var need, big := Need(rate, cap), Largest(rate, cap);
    var calls := Crowding(times, rate.perMs, need, big, t, i, k);
    CrowdingSize(times, rate.perMs, need, big, t, i, k);
    BreakingRun(rate, cap, times, t, i, j, k, k);
    var s := Run(rate, calls[..k]);
    CountSnoc(times, rate.perMs, t, i, k + 1);
    BreakingEviction(times, rate.perMs, need, big, t, i, j, k, k, s);
    RoomForOneMore(rate, cap, Evict(s.sent, times[k] - rate.perMs), t);
    RunSnoc(rate, calls, k);
    TooManyForAWindow(rate, cap, Run(rate, calls[..k + 1]).admitted, t);
    BrokenPrefix(rate, cap, times, calls, k + 1, t);
  }

  lemma {:induction false} BreakingRuns(rate: Rate, cap: nat, times: seq<int>, calls: seq<Call>, t: int)
    requires Times(calls) == times && Affordable(calls, cap)
    requires !WindowWithinRate(rate, Run(rate, calls).admitted, t)
    ensures !AlwaysWithinRate(rate, cap, times)
  {
    hide WindowWithinRate, Run, Affordable, Times;
  }

  lemma {:induction false} LongerWindow(rate: Rate, early: seq<Entry>, all: seq<Entry>, t: int)
    requires early <= all && !WindowWithinRate(rate, early, t)
    ensures !WindowWithinRate(rate, all, t)
  {
    hide Within, Total;
    assert all == early + all[|early|..];
    WithinAppends(early, all[|early|..], t - rate.perMs, t);
    TotalAppends(Within(early, t - rate.perMs, t), Within(all[|early|..], t - rate.perMs, t));
  }

  /** A window broken early stays broken. */
  lemma {:induction false} BrokenPrefix(rate: Rate, cap: nat, times: seq<int>, calls: seq<Call>, n: nat, t: int)
    requires n <= |calls| && Times(calls) == times && Affordable(calls, Largest(rate, cap))
    requires !WindowWithinRate(rate, Run(rate, calls[..n]).admitted, t)
    ensures !AlwaysWithinRate(rate, cap, times)
  {
    hide WindowWithinRate, Run, AlwaysWithinRate;
    AdmittedGrows(rate, calls, n, |calls|);
    assert calls[..|calls|] == calls;
    LongerWindow(rate, Run(rate, calls[..n]).admitted, Run(rate, calls).admitted, t);
    BreakingRuns(rate, cap, times, calls, t);
  }

  /**
   Main result for every clock and every rate that can admit a byte: whatever is sent at these times, no
   message above the cap, every window keeps the rate exactly when no crowd of calls, enough of them to
   break it, shares a window of which the first had been outlived by a whole period in between.
   */
  lemma {:induction false} WindowsHoldExactlyWithoutCrowd(rate: Rate, cap: nat, times: seq<int>)
    requires rate.maxMessages >= 1 && rate.maxBytes >= 1 && cap >= 1
    ensures AlwaysWithinRate(rate, cap, times) <==> !Crowds(times, rate.perMs, Need(rate, cap))
  {
    NeedIsTwo(rate, cap);
    hide WindowWithinRate, CrowdsAt, Need;
    if Crowds(times, rate.perMs, Need(rate, cap)) {
      var t, i, j, k :| CrowdsAt(times, rate.perMs, Need(rate, cap), t, i, j, k);
      CrowdBreaksAWindow(rate, cap, times, t, i, j, k);
    } else {
      forall calls, t | Times(calls) == times && Affordable(calls, cap)
        ensures WindowWithinRate(rate, Run(rate, calls).admitted, t)
      {
        UncrowdedWindowHolds(rate, cap, calls, t, |calls|);
        assert calls[..|calls|] == calls;
      }
    }
  }

  lemma {:induction false} NeedIsTwo(rate: Rate, cap: nat)
    requires rate.maxMessages >= 1 && rate.maxBytes >= 1 && cap >= 1
    ensures Largest(rate, cap) >= 1 && Need(rate, cap) >= 2
    ensures cap >= rate.maxBytes ==> Need(rate, cap) == 2
  {
    var big := Largest(rate, cap);
    assert rate.maxBytes / big >= 1;
  }

  // ---------- a clock that never steps back ----------

  lemma {:induction false} OutlivedIsPast(calls: seq<Call>, perMs: int, e: Entry, t: int)
    requires calls != [] && Monotone(calls) && Outlived(Times(calls), perMs, e)
    requires Near(calls[|calls| - 1].at, perMs, t)
    ensures !Near(e.at, perMs, t)
  {
    var times := Times(calls);
    var i, j :| 0 <= i < j < |times| && times[i] == e.at && times[j] >= e.at + perMs;
    assert calls[j].at <= calls[|calls| - 1].at;
  }

  /** With a clock that never steps back no window of length perMs ever holds more than the rate allows. */
  lemma {:induction false} EveryWindowWithinRate(rate: Rate, calls: seq<Call>, t: int)
    requires Monotone(calls)
    ensures WindowWithinRate(rate, Run(rate, calls).admitted, t)
  {
    hide Total, Within, Outlived, Near;
    if calls != [] {
      var init, last := calls[..|calls| - 1], calls[|calls| - 1];
      EveryWindowWithinRate(rate, init, t);
      if Near(last.at, rate.perMs, t) {
        var s := Run(rate, calls);
        RunKeepsTail(rate, calls);
        QueueStaysBounded(rate, calls);
        forall e | e in s.admitted[..|s.admitted| - |s.sent|] ensures !Near(e.at, rate.perMs, t) {
          OutlivedIsPast(calls, rate.perMs, e, t);
        }
        LiveWindowHolds(rate, s, t);
      } else if Decide(rate, Run(rate, init).sent, last).1 == Sent {
        FarFromWindow(rate, Run(rate, init).admitted, Entry(last.at, last.charge.value), t);
      }
    } else {
      WithinOfNone([], t - rate.perMs, t);
      NothingTotals();
    }
  }

  lemma {:induction false} FarFromWindow(rate: Rate, admitted: seq<Entry>, e: Entry, t: int)
    requires !Near(e.at, rate.perMs, t) && WindowWithinRate(rate, admitted, t)
    ensures WindowWithinRate(rate, admitted + [e], t)
  {
    hide Within, Total;
    WindowWithoutNewest(admitted, e, t - rate.perMs, t);
  }

  // ---------- the shipped rate ----------

  const SHIPPED := Rate(600, 160 * 1024 * 1024, 10_000)

  /** No message is charged more than the widest lane allows. */
  lemma {:induction false} ChargesAreCapped(m: Message)
    ensures Charge(m).Some? ==> Charge(m).value <= FILE_BYTES
  {
    hide Unfold;
  }

  /** At the shipped rate two messages never break a window, and three of the largest do. */
  lemma {:induction false} ShippedWindowsHoldExactly(times: seq<int>)
    ensures AlwaysWithinRate(SHIPPED, FILE_BYTES, times) <==> !Crowds(times, 10_000, 3)
  {
    assert Need(SHIPPED, FILE_BYTES) == 3 by { ShippedNeed(); }
    hide Need, Crowds, AlwaysWithinRate;
    WindowsHoldExactlyWithoutCrowd(SHIPPED, FILE_BYTES, times);
  }

  lemma {:induction false} ShippedNeed()
    ensures Need(SHIPPED, FILE_BYTES) == 3
  {
    assert 160 * 1024 * 1024 / FILE_BYTES == 2;
  }

  const FILE: Option<nat> := Some(64 * 1024 * 1024)

  /** Files of 64 MiB, two before the clock reads a period more and two after it stepped back. */
  const STEPPED_BACK: seq<Call> :=
    [Call(0, FILE), Call(0, FILE), Call(10_000, None), Call(1, FILE), Call(1, FILE)]

  /** The promised window fails at the shipped rate: it holds 256 MiB where 160 MiB are allowed. */
  lemma {:induction false} BackwardClockBreaksTheWindow()
    ensures var window := Within(Run(SHIPPED, STEPPED_BACK).admitted, 1 - SHIPPED.perMs, 1);
            |window| == 4 && Total(window) == 256 * 1024 * 1024 && SHIPPED.maxBytes == 160 * 1024 * 1024
    ensures Affordable(STEPPED_BACK, FILE_BYTES)
  {
    hide Run, Within, Total, Decide, Evict;
    var e0, e1 := Entry(0, FILE.value), Entry(1, FILE.value);
    FilesAreSent(e0, 0);
    FilesAreSent(e1, 1);
    EvictBoth(e0);
    StepsOfRun(e0, e1);
    WithinOfAll([e0, e0, e1, e1], 1 - SHIPPED.perMs, 1);
    UniformTotal([e0, e0, e1, e1], FILE.value);
  }

  lemma {:induction false} FilesAreSent(e: Entry, at: int)
    requires e == Entry(at, FILE.value)
    ensures Decide(SHIPPED, [], Call(at, FILE)) == ([e], Sent)
    ensures Decide(SHIPPED, [e], Call(at, FILE)) == ([e, e], Sent)
  {
    TotalOfOne(e);
    assert Evict([e], at - SHIPPED.perMs) == [e];
    assert [e] + [e] == [e, e] && [] + [e] == [e];
  }

  lemma {:induction false} EvictBoth(e: Entry)
    requires e.at == 0
    ensures Decide(SHIPPED, [e, e], Call(10_000, None)) == ([], TooLarge)
  {
    assert [e, e][1..] == [e] && [e][1..] == [];
    assert Evict([e], 0) == Evict([], 0) == [];
  }

  lemma {:induction false} StepsOfRun(e0: Entry, e1: Entry)
    requires e0 == Entry(0, FILE.value) && e1 == Entry(1, FILE.value)
    requires Decide(SHIPPED, [], Call(0, FILE)) == ([e0], Sent)
    requires Decide(SHIPPED, [e0], Call(0, FILE)) == ([e0, e0], Sent)
    requires Decide(SHIPPED, [e0, e0], Call(10_000, None)) == ([], TooLarge)
    requires Decide(SHIPPED, [], Call(1, FILE)) == ([e1], Sent)
    requires Decide(SHIPPED, [e1], Call(1, FILE)) == ([e1, e1], Sent)
    ensures Run(SHIPPED, STEPPED_BACK).admitted == [e0, e0, e1, e1]
  {
    hide Run, Decide;
    assert STEPPED_BACK[..0] == [] && STEPPED_BACK[..5] == STEPPED_BACK;
    assert Run(SHIPPED, []) == History([], []) by { NothingRun(SHIPPED); }
    RunSnoc(SHIPPED, STEPPED_BACK, 0);
    RunSnoc(SHIPPED, STEPPED_BACK, 1);
    assert Run(SHIPPED, STEPPED_BACK[..2]) == History([e0, e0], [e0, e0]);
    RunSnoc(SHIPPED, STEPPED_BACK, 2);
    RunSnoc(SHIPPED, STEPPED_BACK, 3);
    assert Run(SHIPPED, STEPPED_BACK[..4]).admitted == [e0, e0, e1];
    RunSnoc(SHIPPED, STEPPED_BACK, 4);
  }

  lemma {:induction false} NothingRun(rate: Rate)
    ensures Run(rate, []) == History([], [])
  {
  }

  // ---------- retries ----------

  /** The queue after more calls. */
  function After(rate: Rate, sent: seq<Entry>, calls: seq<Call>): seq<Entry> {
    if calls == [] then sent
    else Decide(rate, After(rate, sent, calls[..|calls| - 1]), calls[|calls| - 1]).0
  }

  lemma {:induction false} QueueOnlyGrows(rate: Rate, kept: seq<Entry>, calls: seq<Call>)
    requires kept != [] && forall c <- calls :: c.at < kept[0].at + rate.perMs
    ensures kept <= After(rate, kept, calls)
  {
    if calls != [] {
      QueueOnlyGrows(rate, kept, calls[..|calls| - 1]);
    }
  }

  /** A refusal with a live window stands, whatever else is sent, until its own deadline. */
  lemma {:induction false} RefusedUntilDeadline(
    rate: Rate, sent: seq<Entry>, at: int, bytes: nat, between: seq<Call>, retry: int)
    requires var kept := Evict(sent, at - rate.perMs); kept != [] && OverRate(rate, kept, bytes)
    requires var r := Decide(rate, sent, Call(at, Some(bytes))).1;
             && r.RateLimited?
             && (forall c <- between :: c.at < at + r.retryAfterMs)
             && at <= retry < at + r.retryAfterMs
    ensures var (kept, r) := Decide(rate, sent, Call(at, Some(bytes)));
            var r' := Decide(rate, After(rate, kept, between), Call(retry, Some(bytes))).1;
            r'.RateLimited? && retry + r'.retryAfterMs == at + r.retryAfterMs
  {
    var kept := Evict(sent, at - rate.perMs);
    EvictShrinks(sent, at - rate.perMs);
    QueueOnlyGrows(rate, kept, between);
    var later := After(rate, kept, between);
    assert later == kept + later[|kept|..];
    TotalAppends(kept, later[|kept|..]);
  }

  /** How often a message is refused when its sender waits out each deadline and nothing else is sent. */
  function Refusals(rate: Rate, sent: seq<Entry>, at: int, bytes: nat): nat
    requires rate.maxMessages >= 1 && bytes <= rate.maxBytes
    decreases |Evict(sent, at - rate.perMs)|
  {
    var kept := Evict(sent, at - rate.perMs);
    if !OverRate(rate, kept, bytes) then 0
    else
      EvictShrinks(sent, at - rate.perMs);
      var next := at + RetryAfter(rate, kept, at);
      EvictShrinks(kept[1..], next - rate.perMs);
      1 + Refusals(rate, kept, next, bytes)
  }

  /** Waiting out every deadline admits the message after at most one refusal per queued entry. */
  lemma {:induction false} WaitingAdmits(rate: Rate, sent: seq<Entry>, at: int, bytes: nat)
    requires rate.maxMessages >= 1 && bytes <= rate.maxBytes
    ensures Refusals(rate, sent, at, bytes) <= |Evict(sent, at - rate.perMs)|
    decreases |Evict(sent, at - rate.perMs)|
  {
    var kept := Evict(sent, at - rate.perMs);
    if OverRate(rate, kept, bytes) {
      EvictShrinks(sent, at - rate.perMs);
      var next := at + RetryAfter(rate, kept, at);
      EvictShrinks(kept[1..], next - rate.perMs);
      WaitingAdmits(rate, kept, next, bytes);
    }
  }
}
