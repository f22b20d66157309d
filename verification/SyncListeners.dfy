/**
 The listeners one context keeps for storage.sync changes: the set of sync.onChanged and one set for
 each storage.onChanged it replaced, the wire registration they turn on and off, and the delivery
 that calls each of them. A set is the sequence of its members in the order they were added.
 */
module SyncListeners {
  import opened Prelude

  type Callback = nat
  type Changes = nat
  datatype ListenerCall = ListenerCall(callback: Callback, changes: Changes, namesArea: bool)
  datatype Forwarded = Forwarded(changes: Changes, from: Option<nat>)

  predicate NoDuplicates(s: seq<Callback>) { forall i, j :: 0 <= i < j < |s| ==> s[i] != s[j] }

  function Without(s: seq<Callback>, c: Callback): seq<Callback> {
    if s == [] then []
    else
      var rest := Without(s[..|s| - 1], c);
      if s[|s| - 1] == c then rest else rest + [s[|s| - 1]]
  }

  lemma {:induction false} WithoutRemoves(s: seq<Callback>, c: Callback)
    requires NoDuplicates(s)
    ensures NoDuplicates(Without(s, c))
    ensures forall x :: x in Without(s, c) <==> x in s && x != c
    ensures |Without(s, c)| == |s| - if c in s then 1 else 0
  {
    if s != [] {
      var init, last := s[..|s| - 1], s[|s| - 1];
      WithoutRemoves(init, c);
      assert last !in Without(init, c);
      AppendDistinct(Without(init, c), last);
    }
  }

  lemma {:induction false} AppendDistinct(s: seq<Callback>, c: Callback)
    requires NoDuplicates(s) && c !in s
    ensures NoDuplicates(s + [c])
  {
  }

  /** The calls of one set, in the order its members were added. */
  function SetCalls(s: seq<Callback>, changes: Changes, namesArea: bool): seq<ListenerCall> {
    seq(|s|, j requires 0 <= j < |s| => ListenerCall(s[j], changes, namesArea))
  }

  /** The calls one delivery makes: sync.onChanged's listeners first, then each storage.onChanged's. */
  function CallsOf(registered: seq<seq<Callback>>, changes: Changes): seq<ListenerCall> {
    if registered == [] then []
    else
      var n := |registered| - 1;
      CallsOf(registered[..n], changes) + SetCalls(registered[n], changes, n > 0)
  }

  /** In how many of the sets from number `first` on `c` is registered. */
  function Registrations(registered: seq<seq<Callback>>, c: Callback, area: bool): nat {
    if registered == [] then 0
    else
      var n := |registered| - 1;
      Registrations(registered[..n], c, area) + if c in registered[n] && (n == 0) == area then 1 else 0
  }

  lemma {:induction false} SetCallsCount(s: seq<Callback>, changes: Changes, namesArea: bool, call: ListenerCall)
    requires NoDuplicates(s)
    ensures multiset(SetCalls(s, changes, namesArea))[call]
         == if call.callback in s && call == ListenerCall(call.callback, changes, namesArea) then 1 else 0
  {
    if s != [] {
      var init := s[..|s| - 1];
      SetCallsCount(init, changes, namesArea, call);
      assert SetCalls(s, changes, namesArea)
          == SetCalls(init, changes, namesArea) + [ListenerCall(s[|s| - 1], changes, namesArea)];
    } else {
      assert SetCalls(s, changes, namesArea) == [];
    }
  }

  /** One delivery calls a listener once for each set it is in, and nothing else. */
  lemma {:induction false} EachRegistrationCalledOnce(
    registered: seq<seq<Callback>>, changes: Changes, call: ListenerCall)
    requires forall s <- registered :: NoDuplicates(s)
    ensures multiset(CallsOf(registered, changes))[call]
         == if call.changes == changes then Registrations(registered, call.callback, !call.namesArea) else 0
  {
    if registered != [] {
      var n := |registered| - 1;
      EachRegistrationCalledOnce(registered[..n], changes, call);
      assert registered[n] in registered;
      SetCallsCount(registered[n], changes, n > 0, call);
    }
  }

  /** How many calls the sets before number `i` take. */
  function CallsBefore(registered: seq<seq<Callback>>, i: nat): nat
    requires i <= |registered|
  {
    if i == 0 then 0 else CallsBefore(registered, i - 1) + |registered[i - 1]|
  }

  lemma {:induction false} CallsBeforePrefix(registered: seq<seq<Callback>>, n: nat, i: nat)
    requires i <= n <= |registered|
    ensures CallsBefore(registered[..n], i) == CallsBefore(registered, i)
  {
    if i > 0 {
      CallsBeforePrefix(registered, n, i - 1);
    }
  }

  /** The calls come set by set, and within a set in the order its members were added. */
  lemma {:induction false} CallsInOrder(registered: seq<seq<Callback>>, changes: Changes, i: nat, j: nat)
    requires i < |registered| && j < |registered[i]|
    ensures |CallsOf(registered, changes)| == CallsBefore(registered, |registered|)
    ensures CallsBefore(registered, i) + j < |CallsOf(registered, changes)|
    ensures CallsOf(registered, changes)[CallsBefore(registered, i) + j]
         == ListenerCall(registered[i][j], changes, i > 0)
    decreases |registered|
  {
    var n := |registered| - 1;
    CallsCount(registered, changes);
    CallsCount(registered[..n], changes);
    CallsBeforePrefix(registered, n, n);
    if i < n {
      CallsBeforePrefix(registered, n, i);
      CallsInOrder(registered[..n], changes, i, j);
    }
  }

  lemma {:induction false} CallsCount(registered: seq<seq<Callback>>, changes: Changes)
    ensures |CallsOf(registered, changes)| == CallsBefore(registered, |registered|)
  {
    if registered != [] {
      CallsCount(registered[..|registered| - 1], changes);
      CallsBeforePrefix(registered, |registered| - 1, |registered| - 1);
    }
  }

  /** Removing a member leaves the others in their order. */
  lemma {:induction false} WithoutKeepsOrder(a: seq<Callback>, c: Callback, b: seq<Callback>)
    requires c !in a && c !in b
    ensures Without(a + [c] + b, c) == a + b
    decreases |b|
  {
    if b == [] {
      assert a + [c] + b == a + [c] && (a + [c])[..|a|] == a && a + b == a;
      WithoutNothing(a, c);
    } else {
      var init, last := b[..|b| - 1], b[|b| - 1];
      assert (a + [c] + b)[..|a + [c] + b| - 1] == a + [c] + init;
      WithoutKeepsOrder(a, c, init);
      assert a + b == a + init + [last];
    }
  }

  class SyncContext {
    /** The worker forwards every change to content scripts and so always listens. */
    const forwards: bool
    var registered: seq<seq<Callback>>
    var listening: bool
    /** What was sent over the bridge: registrations, listener calls and forwarded changes, in order. */
    var listens: seq<bool>
    var calls: seq<ListenerCall>
    var forwarded: seq<Forwarded>

    predicate Active() reads this {
      forwards || exists s <- registered :: s != []
    }

    /** Main's last registration is the current one, and registrations alternate. */
    ghost predicate Valid() reads this`registered, this`listening, this`listens {
      && registered != []
      && (forall s <- registered :: NoDuplicates(s))
      && (listening <==> forwards || exists s <- registered :: s != [])
      && (forall i :: 0 <= i < |listens| ==> listens[i] == (i % 2 == 0))
      && (listening <==> listens != [] && listens[|listens| - 1])
    }

    constructor (forwards: bool, storages: nat)
      ensures Valid() && this.forwards == forwards
      ensures |registered| == storages + 1 && forall s <- registered :: s == []
      ensures calls == [] && forwarded == []
    {
      this.forwards := forwards;
      registered := seq(storages + 1, _ => []);
      listening, listens, calls, forwarded := false, [], [], [];
      new;
      SyncListening();
    }

    method SyncListening()
      requires registered != [] && forall s <- registered :: NoDuplicates(s)
      requires forall i :: 0 <= i < |listens| ==> listens[i] == (i % 2 == 0)
      requires listening <==> listens != [] && listens[|listens| - 1]
      modifies this
      ensures Valid() && registered == old(registered) && calls == old(calls) && forwarded == old(forwarded)
      ensures listens == if listening != old(listening) then old(listens) + [listening] else old(listens)
    {
      var active := Active();
      if active != listening {
        listening := active;
        listens := listens + [active];
      }
    }

    method AddListener(i: nat, callback: Callback)
      requires Valid() && i < |registered|
      modifies this
      ensures Valid() && calls == old(calls) && forwarded == old(forwarded)
      ensures registered == if callback in old(registered)[i] then old(registered)
                            else old(registered)[i := old(registered)[i] + [callback]]
    {
      if callback !in registered[i] {
        AppendDistinct(registered[i], callback);
        registered := registered[i := registered[i] + [callback]];
        SyncListening();
      }
    }

    method RemoveListener(i: nat, callback: Callback)
      requires Valid() && i < |registered|
      modifies this
      ensures Valid() && calls == old(calls) && forwarded == old(forwarded)
      ensures registered == old(registered)[i := Without(old(registered)[i], callback)]
    {
      WithoutRemoves(registered[i], callback);
      if callback in registered[i] {
        registered := registered[i := Without(registered[i], callback)];
        SyncListening();
      } else {
        WithoutNothing(registered[i], callback);
      }
    }

    /** Calls every listener registered when the change arrives, then passes the change on. */
    method Deliver(changes: Changes, from: Option<nat>)
      requires Valid()
      modifies this`calls, this`forwarded
      ensures Valid() && registered == old(registered) && listens == old(listens)
      ensures calls == old(calls) + CallsOf(registered, changes)
      ensures forwarded == old(forwarded) + if forwards then [Forwarded(changes, from)] else []
    {
      hide Valid;
      var planned: seq<ListenerCall> := [];
      for i := 0 to |registered|
        invariant planned == CallsOf(registered[..i], changes)
        invariant Valid() && registered == old(registered) && listens == old(listens)
        invariant calls == old(calls) && forwarded == old(forwarded)
      {
        assert registered[..i + 1][..i] == registered[..i];
        planned := planned + SetCalls(registered[i], changes, i > 0);
      }
      assert registered[..|registered|] == registered;
      for k := 0 to |planned|
        invariant Valid() && registered == old(registered) && listens == old(listens)
        invariant calls == old(calls) + planned[..k] && forwarded == old(forwarded)
      {
        calls := calls + [planned[k]];
      }
      if forwards {
        forwarded := forwarded + [Forwarded(changes, from)];
      }
    }
  }

  lemma {:induction false} WithoutNothing(s: seq<Callback>, c: Callback)
    requires c !in s
    ensures Without(s, c) == s
  {
    if s != [] {
      WithoutNothing(s[..|s| - 1], c);
    }
  }
}
