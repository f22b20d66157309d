/**
 The relay that publishes what a write to a storage area changed: the keys the write touches are read
 before and after it, and the difference is published. A stored value is its serialized text, which
 is what the relay compares. Reads and writes of an area run in order, so no other writer comes
 between the two reads of a write.

 The difference is collected in a plain object, on which an assignment to `__proto__` sets the
 prototype and adds no key of its own: a change of that one key is never published.
 */
module StorageRelay {
  import opened Prelude

  type Value = string
  type Items = map<string, Value>
  datatype Change = Change(oldValue: Option<Value>, newValue: Option<Value>)
  type Changes = map<string, Change>

  /** A write, or arguments of a shape that the area refuses. An unserializable item is not stored. */
  datatype Write = Set(items: map<string, Option<Value>>) | Remove(keys: seq<string>) | Clear | Malformed

  function Lookup(items: Items, key: string): Option<Value> { if key in items then Some(items[key]) else None }

  /** The area's items under the given keys, or all of them. */
  function Get(items: Items, keys: Option<set<string>>): Items {
    if keys.None? then items else map k | k in items && k in keys.value :: items[k]
  }

  function Stored(items: Items, write: Write): Items {
    match write
    case Set(new_) =>
      map k | k in items.Keys + new_.Keys && (k in items || new_[k].Some?) ::
        if k in new_ && new_[k].Some? then new_[k].value else items[k]
    case Remove(keys) => map k | k in items && k !in keys :: items[k]
    case Clear => map[]
    case Malformed => items
  }

  /** The keys a write touches, all of them for a clear; the outer None is a shape left to the area. */
  function WriteKeys(write: Write): Option<Option<set<string>>> {
    match write
    case Set(new_) => Some(Some(new_.Keys))
    case Remove(keys) => Some(Some(set k | k in keys))
    case Clear => Some(None)
    case Malformed => None
  }

  /** The keys whose values differ, each with the value it had and the value it has. */
  function Diff(before: Items, after: Items): Changes {
    map k | k in before.Keys + after.Keys && Lookup(before, k) != Lookup(after, k) ::
      Change(Lookup(before, k), Lookup(after, k))
  }

  const PROTO := "__proto__"

  /** `changes[key] = change` on a plain object, as its own keys show it. */
  function Assign(changes: Changes, key: string, change: Change): Changes {
    if key == PROTO then changes else changes[key := change]
  }

  /** What is left of the difference in a plain object. */
  function Reported(before: Items, after: Items): Changes { Diff(before, after) - {PROTO} }

  /** The part of it that lies under the given keys. */
  function ReportedUnder(before: Items, after: Items, keys: set<string>): Changes {
    map k | k in keys && k != PROTO && Lookup(before, k) != Lookup(after, k) ::
      Change(Lookup(before, k), Lookup(after, k))
  }

  lemma {:induction false} ReportOneMore(before: Items, after: Items, keys: set<string>, key: string)
    requires key !in keys
    ensures ReportedUnder(before, after, keys + {key})
         == if Lookup(before, key) == Lookup(after, key) then ReportedUnder(before, after, keys)
            else Assign(ReportedUnder(before, after, keys), key, Change(Lookup(before, key), Lookup(after, key)))
  {
  }

  lemma {:induction false} ReportBounds(before: Items, after: Items)
    ensures ReportedUnder(before, after, {}) == map[]
    ensures ReportedUnder(before, after, before.Keys + after.Keys) == Reported(before, after)
  {
  }

  method DiffInPlace(before: Items, after: Items) returns (changes: Changes)
    ensures changes == Reported(before, after)
  {
    hide ReportedUnder, Reported;
    ReportBounds(before, after);
    changes := map[];
    var left := before.Keys + after.Keys;
    ghost var done: set<string> := {};
    while left != {}
      invariant done !! left && done + left == before.Keys + after.Keys
      invariant changes == ReportedUnder(before, after, done)
      decreases left
    {
      var key :| key in left;
      ReportOneMore(before, after, done, key);
      left, done := left - {key}, done + {key};
      if key in before && key in after && before[key] == after[key] {
        continue;
      }
      changes := Assign(changes, key, Change(Lookup(before, key), Lookup(after, key)));
    }
    assert done == before.Keys + after.Keys;
  }

  // ---------- a follower ----------

  /** What a follower that mirrors the area makes of published changes. */
  function Follow(mirror: Items, changes: Changes): Items {
    map k | k in mirror.Keys + changes.Keys && (k in changes ==> changes[k].newValue.Some?) ::
      if k in changes then changes[k].newValue.value else mirror[k]
  }

  function FollowAll(mirror: Items, published: seq<Changes>): Items {
    if published == [] then mirror
    else Follow(FollowAll(mirror, published[..|published| - 1]), published[|published| - 1])
  }

  // ---------- the wrapped area ----------

  class Area {
    var items: Items
    var published: seq<Changes>

    constructor (items: Items)
      ensures this.items == items && published == []
    {
      this.items, published := items, [];
    }

    /** A native write: it takes effect whole, or fails and changes nothing. */
    method NativeWrite(write: Write, fails: bool) returns (failed: bool)
      modifies this`items
      ensures failed == (fails || write == Malformed)
      ensures items == if failed then old(items) else Stored(old(items), write)
    {
      failed := fails || write == Malformed;
      if !failed {
        items := Stored(items, write);
      }
    }

    method Publish(changes: Changes)
      modifies this`published
      ensures published == if changes == map[] then old(published) else old(published) + [changes]
    {
      if changes == map[] {
        return;
      }
      published := published + [changes];
    }

    method WrappedWrite(write: Write, fails: bool) returns (failed: bool)
      modifies this
      ensures failed == (fails || write == Malformed)
      ensures items == if failed then old(items) else Stored(old(items), write)
      ensures published == old(published) + Published(old(items), write, fails)
    {
      var keys := WriteKeys(write);
      if keys.None? {
        failed := NativeWrite(write, fails);
        return;
      }
      var before := Get(items, keys.value);
      failed := NativeWrite(write, fails);
      var after := Get(items, keys.value);
      if failed {
        return;
      }
      var changes := DiffInPlace(before, after);
      WriteTouchesItsKeys(old(items), write);
      Publish(changes);
    }
  }

  /** What a write publishes: what is reported of the difference of the whole area, when there is any. */
  function Published(items: Items, write: Write, fails: bool): seq<Changes> {
    if fails || Reported(items, Stored(items, write)) == map[] then [] else [Reported(items, Stored(items, write))]
  }

  // ---------- what the follower sees ----------

  /** Comparing only the touched keys reports every difference in the area. */
  lemma {:induction false} WriteTouchesItsKeys(items: Items, write: Write)
    requires WriteKeys(write).Some?
    ensures var keys := WriteKeys(write).value;
            Reported(Get(items, keys), Get(Stored(items, write), keys)) == Reported(items, Stored(items, write))
  {
    var keys, after := WriteKeys(write).value, Stored(items, write);
    forall k ensures k !in Diff(items, after) || keys.None? || k in keys.value {
      assert !write.Clear? && k !in keys.value ==> Lookup(items, k) == Lookup(after, k);
    }
    assert Diff(Get(items, keys), Get(after, keys)).Keys == Diff(items, after).Keys;
    assert Diff(Get(items, keys), Get(after, keys)) == Diff(items, after);
  }

  /** Two areas hold the same under every key but `__proto__`. */
  ghost predicate SameButProto(a: Items, b: Items) { forall k :: k != PROTO ==> Lookup(a, k) == Lookup(b, k) }

  lemma {:induction false} SameLookups(a: Items, b: Items)
    requires SameButProto(a, b) && Lookup(a, PROTO) == Lookup(b, PROTO)
    ensures a == b
  {
    assert forall k :: Lookup(a, k) == Lookup(b, k);
    assert a.Keys == b.Keys by {
      forall k ensures k in a <==> k in b {
        assert Lookup(a, k) == Lookup(b, k);
      }
    }
    forall k | k in a ensures a[k] == b[k] {
      assert Lookup(a, k) == Lookup(b, k);
    }
  }

  /** Nothing is published exactly when no stored value changed, `__proto__` apart. */
  lemma {:induction false} SilentExactlyWhenUnchanged(before: Items, after: Items)
    ensures Reported(before, after) == map[] <==> SameButProto(before, after)
  {
    if Reported(before, after) == map[] {
      forall k | k != PROTO ensures Lookup(before, k) == Lookup(after, k) {
        assert k !in Reported(before, after);
      }
    }
  }

  /** The whole difference is published exactly when the value under `__proto__` did not change. */
  lemma {:induction false} PublishedWholeExactly(before: Items, after: Items)
    ensures Reported(before, after) == Diff(before, after) <==> Lookup(before, PROTO) == Lookup(after, PROTO)
  {
    assert PROTO in Diff(before, after) <==> Lookup(before, PROTO) != Lookup(after, PROTO);
    assert PROTO !in Reported(before, after);
    if PROTO !in Diff(before, after) {
      assert Reported(before, after).Keys == Diff(before, after).Keys;
    }
  }

  /** Following the report brings every key but `__proto__` to its new value, and leaves that one. */
  lemma {:induction false} FollowingReportArrives(mirror: Items, before: Items, after: Items)
    requires SameButProto(mirror, before)
    ensures var next := Follow(mirror, Reported(before, after));
            SameButProto(next, after) && Lookup(next, PROTO) == Lookup(mirror, PROTO)
  {
    var next := Follow(mirror, Reported(before, after));
    forall k | k != PROTO ensures Lookup(next, k) == Lookup(after, k) {
      assert Lookup(mirror, k) == Lookup(before, k);
      if Lookup(before, k) != Lookup(after, k) {
        assert k in Reported(before, after);
      }
    }
  }

  /** The changes that take the area back. */
  function Undone(changes: Changes): Changes {
    map k | k in changes :: Change(changes[k].newValue, changes[k].oldValue)
  }

  /** The old values in a report are true: following it backwards leads back, under every key but `__proto__`. */
  lemma {:induction false} UndoingReportReturns(before: Items, after: Items)
    ensures SameButProto(Follow(after, Undone(Reported(before, after))), before)
  {
    var changes := Reported(before, after);
    forall k | k != PROTO ensures Lookup(Follow(after, Undone(changes)), k) == Lookup(before, k) {
      if Lookup(before, k) != Lookup(after, k) {
        assert k in changes;
      } else {
        assert k !in changes;
      }
    }
  }

  /** A write and whether its native call fails. */
  datatype Attempt = Attempt(write: Write, fails: bool)

  function ItemsAfter(items: Items, attempts: seq<Attempt>): Items {
    if attempts == [] then items
    else
      var before, last := ItemsAfter(items, attempts[..|attempts| - 1]), attempts[|attempts| - 1];
      if last.fails then before else Stored(before, last.write)
  }

  /** What a write that takes effect says about a key: nothing, that it is gone, or its value. */
  function Says(write: Write, k: string): Option<Option<Value>> {
    match write
    case Set(new_) => if k in new_ && new_[k].Some? then Some(new_[k]) else None
    case Remove(keys) => if k in keys then Some(None) else None
    case Clear => Some(None)
    case Malformed => None
  }

  /** The last word on a key among the writes that did not fail. */
  function LastWord(attempts: seq<Attempt>, k: string): Option<Option<Value>> {
    if attempts == [] then None
    else
      var last := attempts[|attempts| - 1];
      if !last.fails && Says(last.write, k).Some? then Says(last.write, k)
      else LastWord(attempts[..|attempts| - 1], k)
  }

  lemma {:induction false} StoredSays(items: Items, write: Write, k: string)
    ensures Lookup(Stored(items, write), k) == if Says(write, k).Some? then Says(write, k).value else Lookup(items, k)
  {
  }

  /** The area holds the last word on every key. */
  lemma {:induction false} AreaHoldsLastWord(items: Items, attempts: seq<Attempt>, k: string)
    ensures Lookup(ItemsAfter(items, attempts), k)
         == if LastWord(attempts, k).Some? then LastWord(attempts, k).value else Lookup(items, k)
  {
    if attempts != [] {
      hide Stored, Says;
      AreaHoldsLastWord(items, attempts[..|attempts| - 1], k);
      StoredSays(ItemsAfter(items, attempts[..|attempts| - 1]), attempts[|attempts| - 1].write, k);
    }
  }

  function PublishedBy(items: Items, attempts: seq<Attempt>): seq<Changes> {
    if attempts == [] then []
    else
      var before, last := ItemsAfter(items, attempts[..|attempts| - 1]), attempts[|attempts| - 1];
      PublishedBy(items, attempts[..|attempts| - 1]) + Published(before, last.write, last.fails)
  }

  /** The follower's mirror after the published changes of a run. */
  function Mirror(items: Items, attempts: seq<Attempt>): Items { FollowAll(items, PublishedBy(items, attempts)) }

  lemma {:induction false} MirrorStep(items: Items, attempts: seq<Attempt>)
    requires attempts != []
    ensures var init, last := attempts[..|attempts| - 1], attempts[|attempts| - 1];
            var published := Published(ItemsAfter(items, init), last.write, last.fails);
            Mirror(items, attempts) == if published == [] then Mirror(items, init)
                                       else Follow(Mirror(items, init), published[0])
  {
    hide Published, Follow;
    var init, last := attempts[..|attempts| - 1], attempts[|attempts| - 1];
    var earlier, published := PublishedBy(items, init), Published(ItemsAfter(items, init), last.write, last.fails);
    AtMostOnePublished(ItemsAfter(items, init), last);
    var all := earlier + published;
    if published == [] {
      assert all == earlier;
    } else {
      assert all[..|all| - 1] == earlier && all[|all| - 1] == published[0];
    }
  }

  lemma {:induction false} AtMostOnePublished(items: Items, attempt: Attempt)
    ensures |Published(items, attempt.write, attempt.fails)| <= 1
  {
  }

  /** The mirror follows the area under every key but `__proto__`, where it stays as it was. */
  lemma {:induction false} MirrorFollowsButProto(items: Items, attempts: seq<Attempt>)
    ensures SameButProto(Mirror(items, attempts), ItemsAfter(items, attempts))
    ensures Lookup(Mirror(items, attempts), PROTO) == Lookup(items, PROTO)
  {
    if attempts != [] {
      hide Reported, Follow, Stored, Mirror, Lookup;
      var init, last := attempts[..|attempts| - 1], attempts[|attempts| - 1];
      MirrorFollowsButProto(items, init);
      MirrorStep(items, attempts);
      var before := ItemsAfter(items, init);
      SilentExactlyWhenUnchanged(before, Stored(before, last.write));
      FollowingReportArrives(Mirror(items, init), before, Stored(before, last.write));
    }
  }

  /** So a follower ends with the last word on every key but `__proto__`, by the writes alone. */
  lemma {:induction false} MirrorHoldsLastWord(items: Items, attempts: seq<Attempt>, k: string)
    requires k != PROTO
    ensures Lookup(Mirror(items, attempts), k)
         == if LastWord(attempts, k).Some? then LastWord(attempts, k).value else Lookup(items, k)
  {
    hide Mirror, ItemsAfter, LastWord, Lookup;
    MirrorFollowsButProto(items, attempts);
    AreaHoldsLastWord(items, attempts, k);
  }

  /**
   Main result: after any writes, failed ones among them, the follower's mirror is the area exactly
   when the area holds under `__proto__` what it held at first.
   */
  lemma {:induction false} MirrorEqualsArea(items: Items, attempts: seq<Attempt>)
    ensures Mirror(items, attempts) == ItemsAfter(items, attempts)
            <==> Lookup(ItemsAfter(items, attempts), PROTO) == Lookup(items, PROTO)
  {
    hide Mirror, ItemsAfter;
    MirrorFollowsButProto(items, attempts);
    if Lookup(ItemsAfter(items, attempts), PROTO) == Lookup(items, PROTO) {
      SameLookups(Mirror(items, attempts), ItemsAfter(items, attempts));
    }
  }

  /** Setting `__proto__` in an empty area stores it and publishes nothing. */
  lemma {:induction false} ProtoIsSilent()
    ensures var write := Set(map[PROTO := Some("1")]);
            Stored(map[], write) == map[PROTO := "1"] && Published(map[], write, false) == []
  {
    var write := Set(map[PROTO := Some("1")]);
    assert Stored(map[], write) == map[PROTO := "1"];
    assert Reported(map[], map[PROTO := "1"]) == map[];
  }
}
