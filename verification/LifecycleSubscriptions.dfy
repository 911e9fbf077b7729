/** Lifecycle event subscriptions of the .NET client: handler lists that may hold one delegate several times,
    and disposables that remove one occurrence, once. */
module LifecycleSubscriptions {
  import opened Wrappers

  /** Identity of a delegate; equal delegates are equal values. */
  type Handler = nat

  /** The handler lists: `None` stands for the list of all event types. */
  type Key = Option<string>

  /** The list without its first occurrence of `h`. */
  function RemoveFirst(s: seq<Handler>, h: Handler): seq<Handler> {
    if s == [] then []
    else if s[0] == h then s[1..]
    else [s[0]] + RemoveFirst(s[1..], h)
  }

  lemma {:induction false} RemoveFirstCounts(s: seq<Handler>, h: Handler)
    ensures multiset(RemoveFirst(s, h)) == multiset(s) - multiset{h}
  {
    if s != [] {
      assert s == [s[0]] + s[1..];
      RemoveFirstCounts(s[1..], h);
    }
  }

  /** One occurrence fewer: the first one of `h` is gone, everything else is where it was. */
  ghost predicate RemovedOne(before: seq<Handler>, after: seq<Handler>, h: Handler) {
    if h in before then
      exists k :: 0 <= k < |before| && before[k] == h && h !in before[..k] && after == before[..k] + before[k + 1..]
    else after == before
  }

  lemma {:induction false} RemoveFirstIs(s: seq<Handler>, h: Handler, k: nat)
    requires k < |s| && s[k] == h && h !in s[..k]
    ensures RemoveFirst(s, h) == s[..k] + s[k + 1..]
  {
    if k == 0 {
      assert s[..0] + s[1..] == s[1..];
    } else {
      var rest := s[1..];
      assert s[..k][0] == s[0] && s[..k][1..] == rest[..k - 1];
      RemoveFirstIs(rest, h, k - 1);
      assert s[..k] == [s[0]] + rest[..k - 1] && s[k + 1..] == rest[k..];
      ConcatAssoc([s[0]], rest[..k - 1], rest[k..]);
    }
  }

  lemma {:induction false} RemoveFirstAbsent(s: seq<Handler>, h: Handler)
    requires h !in s
    ensures RemoveFirst(s, h) == s
  {
    if s != [] {
      assert s == [s[0]] + s[1..];
      RemoveFirstAbsent(s[1..], h);
    }
  }

  lemma {:induction false} FirstIndex(s: seq<Handler>, h: Handler) returns (k: nat)
    requires h in s
    ensures k < |s| && s[k] == h && h !in s[..k]
  {
    if s[0] == h {
      k := 0;
    } else {
      k := FirstIndex(s[1..], h);
      assert s[..k + 1] == [s[0]] + s[1..][..k];
      k := k + 1;
    }
  }

  lemma RemoveFirstAt(s: seq<Handler>, h: Handler)
    ensures RemovedOne(s, RemoveFirst(s, h), h)
  {
    hide RemoveFirst;
    if h in s {
      var k := FirstIndex(s, h);
      RemoveFirstIs(s, h, k);
    } else {
      RemoveFirstAbsent(s, h);
    }
  }

  /** The handlers of all event types, and those of single ones. */
  datatype Lists = Lists(all: seq<Handler>, typed: map<string, seq<Handler>>)

  /** The handlers registered under a key. */
  function Lookup(lists: Lists, key: Key): seq<Handler> {
    match key
    case None => lists.all
    case Some(eventType) => if eventType in lists.typed then lists.typed[eventType] else []
  }

  /** The lists differ under `key` at most. */
  ghost predicate SameBut(before: Lists, after: Lists, key: Key) {
    forall other: Key :: other != key ==> Lookup(before, other) == Lookup(after, other)
  }

  class CopilotClient {
    var lifecycleHandlers: seq<Handler>
    var typedLifecycleHandlers: map<string, seq<Handler>>

    constructor ()
      ensures lifecycleHandlers == [] && typedLifecycleHandlers == map[]
    {
      lifecycleHandlers, typedLifecycleHandlers := [], map[];
    }

    function State(): Lists
      reads this
    {
      Lists(lifecycleHandlers, typedLifecycleHandlers)
    }

    function Handlers(key: Key): seq<Handler>
      reads this
    {
      Lookup(State(), key)
    }

    /** Both `On` overloads. */
    method On(key: Key, handler: Handler) returns (subscription: ActionDisposable)
      modifies this
      ensures Handlers(key) == old(Handlers(key)) + [handler]
      ensures SameBut(old(State()), State(), key)
      ensures fresh(subscription) && subscription.owner == this && subscription.armed
      ensures subscription.key == key && subscription.handler == handler
    {
      match key {
        case None =>
          lifecycleHandlers := lifecycleHandlers + [handler];
        case Some(eventType) =>
          var handlers := [];
          if eventType in typedLifecycleHandlers {
            handlers := typedLifecycleHandlers[eventType];
          }
          typedLifecycleHandlers := typedLifecycleHandlers[eventType := handlers + [handler]];
      }
      subscription := new ActionDisposable(this, key, handler);
    }

    method Remove(key: Key, handler: Handler)
      modifies this
      ensures Handlers(key) == RemoveFirst(old(Handlers(key)), handler)
      ensures RemovedOne(old(Handlers(key)), Handlers(key), handler)
      ensures SameBut(old(State()), State(), key)
    {
      RemoveFirstAt(Handlers(key), handler);
      assert RemoveFirst([], handler) == [];
      hide RemoveFirst, RemovedOne;
      match key {
        case None =>
          lifecycleHandlers := RemoveFirst(lifecycleHandlers, handler);
        case Some(eventType) =>
          if eventType in typedLifecycleHandlers {
            var handlers := RemoveFirst(typedLifecycleHandlers[eventType], handler);
            typedLifecycleHandlers := typedLifecycleHandlers[eventType := handlers];
          }
      }
    }

    /** Calls the handlers of the event's type, then those of all types. While handler number `k` runs, any
        subscriptions and disposals may happen on this client: `during[k]`. The handlers called are those
        registered before the first of them ran, each once and in order, and every operation takes effect. */
    method DispatchLifecycleEvent(eventType: string, during: seq<seq<Op>>, subscriptions: seq<ActionDisposable>,
                                  ghost subs: seq<Sub>)
      returns (called: seq<Handler>, objects: seq<ActionDisposable>)
      requires Sound(this, subscriptions, subs)
      modifies this, Elements(subscriptions)
      ensures called == old(Handlers(Some(eventType))) + old(Handlers(None))
      ensures Sound(this, objects, AfterAll(subs, OpsDuring(during, 0, |called|)))
      ensures forall s :: s in Elements(objects) ==> s in Elements(subscriptions) || fresh(s)
    {
      hide AfterAll, Sound, OpsDuring, Elements, Lookup;
      var typedHandlers, wildcardHandlers := CopyHandlers(eventType);
      var first, mid := CallEach(typedHandlers, 0, during, subscriptions, subs);
      ghost var after := AfterAll(subs, OpsDuring(during, 0, |typedHandlers|));
      var second, last := CallEach(wildcardHandlers, |typedHandlers|, during, mid, after);
      OpsDuringSplit(during, 0, |typedHandlers|, |wildcardHandlers|);
      AfterAllConcat(subs, OpsDuring(during, 0, |typedHandlers|),
                     OpsDuring(during, |typedHandlers|, |wildcardHandlers|));
      called, objects := first + second, last;
    }

    /** Copies both lists, which the source does under its lock. */
    method CopyHandlers(eventType: string) returns (typedHandlers: seq<Handler>, wildcardHandlers: seq<Handler>)
      ensures typedHandlers == Handlers(Some(eventType)) && wildcardHandlers == Handlers(None)
    {
      typedHandlers := [];
      if eventType in typedLifecycleHandlers {
        typedHandlers := typedLifecycleHandlers[eventType];
      }
      wildcardHandlers := lifecycleHandlers;
    }

    /** One of the two loops, over a copied list; its first handler is number `from` of the dispatch. */
    method CallEach(handlers: seq<Handler>, from: nat, during: seq<seq<Op>>, subscriptions: seq<ActionDisposable>,
                    ghost subs: seq<Sub>)
      returns (called: seq<Handler>, objects: seq<ActionDisposable>)
      requires Sound(this, subscriptions, subs)
      modifies this, Elements(subscriptions)
      ensures called == handlers
      ensures Sound(this, objects, AfterAll(subs, OpsDuring(during, from, |handlers|)))
      ensures forall s :: s in Elements(objects) ==> s in Elements(subscriptions) || fresh(s)
    {
      hide AfterAll, Sound, Elements, OpsDuring;
      ghost var now := subs;
      NothingDone(subs, during, from);
      called, objects := [], subscriptions;
      for k := 0 to |handlers|
        invariant called == handlers[..k]
        invariant now == AfterAll(subs, OpsDuring(during, from, k)) && Sound(this, objects, now)
        invariant forall s :: s in Elements(objects) ==> s in Elements(subscriptions) || fresh(s)
      {
        called := called + [handlers[k]];
        var ops := if from + k < |during| then during[from + k] else [];
        DoneNext(subs, during, from, k);
        objects := PerformAll(this, objects, ops, now);
        now := AfterAll(now, ops);
      }
    }
  }

  /** Runs its action on the first `Dispose` only. */
  class ActionDisposable {
    const owner: CopilotClient
    const key: Key
    const handler: Handler
    var armed: bool

    constructor (owner: CopilotClient, key: Key, handler: Handler)
      ensures this.owner == owner && this.key == key && this.handler == handler && armed
    {
      this.owner, this.key, this.handler, armed := owner, key, handler, true;
    }

    method Dispose()
      modifies this, owner
      ensures !armed
      ensures old(armed) ==> owner.Handlers(key) == RemoveFirst(old(owner.Handlers(key)), handler)
      ensures old(armed) ==> RemovedOne(old(owner.Handlers(key)), owner.Handlers(key), handler)
      ensures !old(armed) ==> owner.Handlers(key) == old(owner.Handlers(key))
      ensures SameBut(old(owner.State()), owner.State(), key)
    {
      var action := armed;
      armed := false;
      if action {
        owner.Remove(key, handler);
      }
    }
  }

  // ---------- any sequence of subscriptions and disposals ----------

  /** A subscription, or a disposal of the `index`-th subscription made. */
  datatype Op = Subscribe(key: Key, handler: Handler) | Dispose(index: nat)

  /** Reference: subscriptions of `handler` under `key` that are never disposed afterwards, where the first
      one in `ops` has number `next`. */
  function Undisposed(ops: seq<Op>, next: nat, key: Key, handler: Handler): nat {
    if ops == [] then 0
    else
      match ops[0]
      case Dispose(_) => Undisposed(ops[1..], next, key, handler)
      case Subscribe(k, h) =>
        (if k == key && h == handler && Dispose(next) !in ops[1..] then 1 else 0)
        + Undisposed(ops[1..], next + 1, key, handler)
  }

  /** The state of one subscription object. */
  datatype Sub = Sub(key: Key, handler: Handler, armed: bool)

  function After(subs: seq<Sub>, op: Op): seq<Sub> {
    match op
    case Subscribe(k, h) => subs + [Sub(k, h, true)]
    case Dispose(i) => if i < |subs| then subs[i := subs[i].(armed := false)] else subs
  }

  function AfterAll(subs: seq<Sub>, ops: seq<Op>): seq<Sub>
    decreases |ops|
  {
    if ops == [] then subs else AfterAll(After(subs, ops[0]), ops[1..])
  }

  lemma {:induction false} AfterAllConcat(subs: seq<Sub>, ops: seq<Op>, more: seq<Op>)
    ensures AfterAll(subs, ops + more) == AfterAll(AfterAll(subs, ops), more)
    decreases |ops|
  {
    if ops == [] {
      assert ops + more == more;
    } else {
      assert (ops + more)[0] == ops[0] && (ops + more)[1..] == ops[1..] + more;
      AfterAllConcat(After(subs, ops[0]), ops[1..], more);
    }
  }

  lemma AfterAllAppend(subs: seq<Sub>, ops: seq<Op>, op: Op)
    ensures AfterAll(subs, ops + [op]) == After(AfterAll(subs, ops), op)
  {
    AfterAllConcat(subs, ops, [op]);
    assert [op][1..] == [];
  }

  /** The operations during `n` handlers of a dispatch, the first of which is number `from`. */
  function OpsDuring(during: seq<seq<Op>>, from: nat, n: nat): seq<Op> {
    if n == 0 then []
    else OpsDuring(during, from, n - 1) + (if from + n - 1 < |during| then during[from + n - 1] else [])
  }

  lemma NothingDone(subs: seq<Sub>, during: seq<seq<Op>>, from: nat)
    ensures AfterAll(subs, OpsDuring(during, from, 0)) == subs
  {
  }

  lemma DoneNext(subs: seq<Sub>, during: seq<seq<Op>>, from: nat, k: nat)
    ensures AfterAll(subs, OpsDuring(during, from, k + 1)) ==
      AfterAll(AfterAll(subs, OpsDuring(during, from, k)), if from + k < |during| then during[from + k] else [])
  {
    AfterAllConcat(subs, OpsDuring(during, from, k), if from + k < |during| then during[from + k] else []);
  }

  lemma {:induction false} OpsDuringSplit(during: seq<seq<Op>>, from: nat, m: nat, n: nat)
    ensures OpsDuring(during, from, m + n) == OpsDuring(during, from, m) + OpsDuring(during, from + m, n)
    decreases n
  {
    if n > 0 {
      OpsDuringSplit(during, from, m, n - 1);
    }
  }

  /** Open subscriptions of `handler` under `key`. */
  function Open(subs: seq<Sub>, key: Key, handler: Handler): nat {
    if subs == [] then 0
    else One(subs[0], key, handler) + Open(subs[1..], key, handler)
  }

  function One(s: Sub, key: Key, handler: Handler): nat {
    if s.armed && s.key == key && s.handler == handler then 1 else 0
  }

  lemma {:induction false} OpenAppend(subs: seq<Sub>, s: Sub, key: Key, handler: Handler)
    ensures Open(subs + [s], key, handler) == Open(subs, key, handler) + One(s, key, handler)
    decreases |subs|
  {
    if subs == [] {
      assert subs + [s] == [s] && [s][1..] == [];
    } else {
      assert (subs + [s])[1..] == subs[1..] + [s];
      OpenAppend(subs[1..], s, key, handler);
    }
  }

  lemma {:induction false} OpenUpdate(subs: seq<Sub>, i: nat, s: Sub, key: Key, handler: Handler)
    requires i < |subs|
    ensures Open(subs[i := s], key, handler) + One(subs[i], key, handler)
      == Open(subs, key, handler) + One(s, key, handler)
    decreases |subs|
  {
    if i == 0 {
      assert subs[0 := s][1..] == subs[1..];
    } else {
      assert subs[i := s][1..] == subs[1..][i - 1 := s];
      OpenUpdate(subs[1..], i - 1, s, key, handler);
    }
  }

  // ---------- order ----------

  /** The handlers subscribed under a key, in order, disposed or not. */
  function Subscribed(subs: seq<Sub>, key: Key): seq<Handler> {
    if subs == [] then []
    else
      var last := subs[|subs| - 1];
      Subscribed(subs[..|subs| - 1], key) + if last.key == key then [last.handler] else []
  }

  /** Of the handlers `s`, in order, the latest occurrences: as many of each as `m` has. */
  function Latest(s: seq<Handler>, m: multiset<Handler>): seq<Handler> {
    if s == [] then []
    else
      var front, last := s[..|s| - 1], s[|s| - 1];
      if last in m then Latest(front, m - multiset{last}) + [last] else Latest(front, m)
  }

  /** Every list holds the latest subscriptions of each of its handlers, in the order they were made. */
  ghost predicate Ordered(lists: Lists, subs: seq<Sub>) {
    forall key: Key :: InOrder(Lookup(lists, key), Subscribed(subs, key))
  }

  predicate InOrder(list: seq<Handler>, subscribed: seq<Handler>) {
    list == Latest(subscribed, multiset(list))
  }

  lemma LatestAppend(s: seq<Handler>, list: seq<Handler>, h: Handler)
    requires InOrder(list, s)
    ensures InOrder(list + [h], s + [h])
  {
    assert (s + [h])[..|s|] == s;
    assert multiset(list + [h]) == multiset(list) + multiset{h};
    assert multiset(list) + multiset{h} - multiset{h} == multiset(list);
  }

  lemma RemoveFirstAppend(s: seq<Handler>, x: Handler, h: Handler)
    ensures RemoveFirst(s + [x], h) ==
      if h in s then RemoveFirst(s, h) + [x] else if x == h then s else s + [x]
  {
    hide RemoveFirst;
    var t := s + [x];
    if h in s {
      var k := FirstIndex(s, h);
      RemoveFirstIs(s, h, k);
      assert t[..k] == s[..k] && t[k + 1..] == s[k + 1..] + [x];
      RemoveFirstIs(t, h, k);
      ConcatAssoc(s[..k], s[k + 1..], [x]);
    } else if x == h {
      assert t[..|s|] == s && t[|s| + 1..] == [] && s + [] == s;
      RemoveFirstIs(t, h, |s|);
    } else {
      RemoveFirstAbsent(t, h);
    }
  }

  lemma LatestUnfold(front: seq<Handler>, last: Handler, m: multiset<Handler>)
    ensures Latest(front + [last], m) ==
      if last in m then Latest(front, m - multiset{last}) + [last] else Latest(front, m)
  {
    assert (front + [last])[..|front|] == front;
  }

  lemma MultisetAppend(s: seq<Handler>, x: Handler)
    ensures multiset(s + [x]) == multiset(s) + multiset{x}
  {
  }

  lemma WithoutBoth(m: multiset<Handler>, x: Handler, y: Handler)
    requires x in m && y in m - multiset{x}
    ensures m - multiset{y} - multiset{x} == m - multiset{x} - multiset{y}
    ensures x in m - multiset{y}
  {
  }

  /** Taking away the first occurrence of a handler leaves its latest ones. */
  lemma {:induction false} LatestDrop(s: seq<Handler>, m: multiset<Handler>, h: Handler)
    requires h in m && multiset(Latest(s, m)) == m
    ensures Latest(s, m - multiset{h}) == RemoveFirst(Latest(s, m), h)
  {
    if s != [] {
      hide Latest, RemoveFirst;
      var front, last := s[..|s| - 1], s[|s| - 1];
      assert s == front + [last];
      LatestUnfold(front, last, m);
      LatestUnfold(front, last, m - multiset{h});
      if last in m {
        var rest := Latest(front, m - multiset{last});
        MultisetAppend(rest, last);
        assert multiset(rest) == m - multiset{last};
        RemoveFirstAppend(rest, last, h);
        if h in multiset(rest) {
          LatestDrop(front, m - multiset{last}, h);
          WithoutBoth(m, last, h);
        } else {
          assert last == h && last !in m - multiset{h};
        }
      } else {
        LatestDrop(front, m, h);
      }
    }
  }

  lemma LatestRemove(s: seq<Handler>, list: seq<Handler>, h: Handler)
    requires InOrder(list, s)
    ensures InOrder(RemoveFirst(list, h), s)
  {
    hide Latest, RemoveFirst;
    if h in list {
      LatestDrop(s, multiset(list), h);
      RemoveFirstCounts(list, h);
    } else {
      RemoveFirstAbsent(list, h);
    }
  }

  /** Positions that increase, and with a position every later one of the same handler. */
  ghost predicate LatestAt(s: seq<Handler>, list: seq<Handler>, at: seq<nat>) {
    && |at| == |list|
    && (forall j, k :: 0 <= j < k < |at| ==> at[j] < at[k])
    && (forall k :: 0 <= k < |at| ==> at[k] < |s| && s[at[k]] == list[k])
    && (forall j: nat, k: nat :: j < k < |s| && s[j] == s[k] && j in at ==> k in at)
  }

  lemma LatestAtAppend(s: seq<Handler>, list: seq<Handler>, at: seq<nat>, x: Handler)
    requires LatestAt(s, list, at)
    ensures LatestAt(s + [x], list + [x], at + [|s|])
  {
    forall j: nat, k: nat | j < k < |s| + 1 && (s + [x])[j] == (s + [x])[k] && j in at + [|s|]
      ensures k in at + [|s|]
    {
      if k < |s| {
        assert j in at && s[j] == s[k];
      } else {
        assert (at + [|s|])[|at|] == k;
      }
    }
  }

  lemma LatestAtSkip(s: seq<Handler>, list: seq<Handler>, at: seq<nat>, x: Handler)
    requires LatestAt(s, list, at) && x !in list
    ensures LatestAt(s + [x], list, at)
  {
    assert forall j: nat :: j in at ==> j < |s| && s[j] != x;
    forall j: nat, k: nat | j < k < |s| + 1 && (s + [x])[j] == (s + [x])[k] && j in at ensures k in at {
      if k < |s| {
        assert s[j] == s[k];
      }
    }
  }

  /** What `Latest` picks. */
  lemma {:induction false} LatestPicks(s: seq<Handler>, m: multiset<Handler>) returns (at: seq<nat>)
    ensures LatestAt(s, Latest(s, m), at)
  {
    if s == [] {
      at := [];
    } else {
      var front, last := s[..|s| - 1], s[|s| - 1];
      assert s == front + [last];
      LatestUnfold(front, last, m);
      hide Latest, LatestAt;
      if last in m {
        at := LatestPicks(front, m - multiset{last});
        LatestAtAppend(front, Latest(front, m - multiset{last}), at, last);
        at := at + [|front|];
      } else {
        at := LatestPicks(front, m);
        LatestWithin(front, m);
        LatestAtSkip(front, Latest(front, m), at, last);
      }
    }
  }

  lemma {:induction false} LatestWithin(s: seq<Handler>, m: multiset<Handler>)
    ensures forall h :: h in Latest(s, m) ==> h in m
  {
    if s != [] {
      var front, last := s[..|s| - 1], s[|s| - 1];
      LatestWithin(front, if last in m then m - multiset{last} else m);
    }
  }

  lemma SubscribeOrders(before: Lists, after: Lists, subs: seq<Sub>, s: Sub)
    requires Ordered(before, subs) && SameBut(before, after, s.key)
    requires Lookup(after, s.key) == Lookup(before, s.key) + [s.handler]
    ensures Ordered(after, subs + [s])
  {
    hide Lookup, InOrder;
    forall key: Key ensures InOrder(Lookup(after, key), Subscribed(subs + [s], key)) {
      assert (subs + [s])[..|subs|] == subs;
      if key == s.key {
        LatestAppend(Subscribed(subs, key), Lookup(before, key), s.handler);
      } else {
        assert Subscribed(subs, key) + [] == Subscribed(subs, key);
      }
    }
  }

  lemma DisposeOrders(before: Lists, after: Lists, subs: seq<Sub>, i: nat)
    requires i < |subs| && Ordered(before, subs) && SameBut(before, after, subs[i].key)
    requires Lookup(after, subs[i].key) ==
      if subs[i].armed then RemoveFirst(Lookup(before, subs[i].key), subs[i].handler) else Lookup(before, subs[i].key)
    ensures Ordered(after, subs[i := subs[i].(armed := false)])
  {
    hide Lookup, InOrder, RemoveFirst;
    forall key: Key
      ensures InOrder(Lookup(after, key), Subscribed(subs[i := subs[i].(armed := false)], key))
    {
      DisarmedIsSubscribed(subs, i, key);
      if key == subs[i].key && subs[i].armed {
        LatestRemove(Subscribed(subs, key), Lookup(before, key), subs[i].handler);
      }
    }
  }

  lemma {:induction false} DisarmedIsSubscribed(subs: seq<Sub>, i: nat, key: Key)
    requires i < |subs|
    ensures Subscribed(subs[i := subs[i].(armed := false)], key) == Subscribed(subs, key)
  {
    var n := |subs| - 1;
    var after := subs[i := subs[i].(armed := false)];
    if i < n {
      assert after[..n] == subs[..n][i := subs[i].(armed := false)];
      DisarmedIsSubscribed(subs[..n], i, key);
    } else {
      assert after[..n] == subs[..n];
    }
  }

  /** The handlers that the operations subscribe under a key, in order. */
  function SubscribedBy(ops: seq<Op>, key: Key): seq<Handler> {
    if ops == [] then []
    else
      var last := ops[|ops| - 1];
      SubscribedBy(ops[..|ops| - 1], key) + if last.Subscribe? && last.key == key then [last.handler] else []
  }

  lemma {:induction false} SubscribedByOps(ops: seq<Op>, key: Key)
    ensures Subscribed(AfterAll([], ops), key) == SubscribedBy(ops, key)
  {
    if ops != [] {
      var front, last := ops[..|ops| - 1], ops[|ops| - 1];
      assert ops == front + [last];
      SubscribedByOps(front, key);
      AfterAllAppend([], front, last);
      var subs := AfterAll([], front);
      hide AfterAll;
      match last {
        case Subscribe(k, h) => assert (subs + [Sub(k, h, true)])[..|subs|] == subs;
        case Dispose(i) =>
          if i < |subs| {
            DisarmedIsSubscribed(subs, i, key);
          }
      }
    }
  }

  ghost predicate Counts(lists: Lists, subs: seq<Sub>) {
    forall key: Key, h: Handler :: multiset(Lookup(lists, key))[h] == Open(subs, key, h)
  }

  ghost function Elements(objects: seq<ActionDisposable>): set<ActionDisposable> {
    set s | s in objects
  }

  /** The subscription objects of one client against their states, and its lists against their number. */
  ghost predicate Sound(client: CopilotClient, objects: seq<ActionDisposable>, subs: seq<Sub>)
    reads client, objects
  {
    && (forall i :: 0 <= i < |objects| ==> objects[i].owner == client)
    && (forall i, j :: 0 <= i < j < |objects| ==> objects[i] != objects[j])
    && Mirrors(objects, subs)
    && Counts(client.State(), subs)
    && Ordered(client.State(), subs)
  }

  method PerformSubscribe(client: CopilotClient, subscriptions: seq<ActionDisposable>, key: Key, handler: Handler,
                          ghost subs: seq<Sub>)
    returns (objects: seq<ActionDisposable>)
    requires Sound(client, subscriptions, subs)
    modifies client
    ensures Sound(client, objects, After(subs, Subscribe(key, handler)))
    ensures forall s :: s in Elements(objects) ==> s in Elements(subscriptions) || fresh(s)
  {
    hide Lookup, Open, Counts, SameBut, Ordered, RemovedOne;
    ghost var before := client.State();
    var subscription := client.On(key, handler);
    SubscribeCounts(before, client.State(), subs, Sub(key, handler, true));
    SubscribeOrders(before, client.State(), subs, Sub(key, handler, true));
    objects := subscriptions + [subscription];
  }

  method PerformDispose(client: CopilotClient, subscriptions: seq<ActionDisposable>, i: nat, ghost subs: seq<Sub>)
    requires Sound(client, subscriptions, subs) && i < |subscriptions|
    modifies client, subscriptions[i]
    ensures Sound(client, subscriptions, After(subs, Dispose(i)))
  {
    hide Lookup, Open, Counts, SameBut, RemoveFirst, Ordered, RemovedOne;
    ghost var before := client.State();
    subscriptions[i].Dispose();
    DisposeCounts(before, client.State(), subs, i);
    DisposeOrders(before, client.State(), subs, i);
  }

  /** One subscription or disposal on real objects. */
  method Perform(client: CopilotClient, subscriptions: seq<ActionDisposable>, op: Op, ghost subs: seq<Sub>)
    returns (objects: seq<ActionDisposable>)
    requires Sound(client, subscriptions, subs)
    modifies client, Elements(subscriptions)
    ensures Sound(client, objects, After(subs, op))
    ensures forall s :: s in Elements(objects) ==> s in Elements(subscriptions) || fresh(s)
  {
    assert |subscriptions| == |subs|;
    hide Sound;
    objects := subscriptions;
    match op {
      case Subscribe(key, handler) =>
        objects := PerformSubscribe(client, subscriptions, key, handler, subs);
      case Dispose(i) =>
        if i < |subscriptions| {
          PerformDispose(client, subscriptions, i, subs);
        }
    }
  }

  method PerformAll(client: CopilotClient, subscriptions: seq<ActionDisposable>, ops: seq<Op>, ghost subs: seq<Sub>)
    returns (objects: seq<ActionDisposable>)
    requires Sound(client, subscriptions, subs)
    modifies client, Elements(subscriptions)
    ensures Sound(client, objects, AfterAll(subs, ops))
    ensures forall s :: s in Elements(objects) ==> s in Elements(subscriptions) || fresh(s)
  {
    hide Sound, Elements;
    objects := subscriptions;
    for n := 0 to |ops|
      invariant Sound(client, objects, AfterAll(subs, ops[..n]))
      invariant forall s :: s in Elements(objects) ==> s in Elements(subscriptions) || fresh(s)
    {
      assert ops[..n + 1] == ops[..n] + [ops[n]];
      AfterAllAppend(subs, ops[..n], ops[n]);
      hide AfterAll;
      objects := Perform(client, objects, ops[n], AfterAll(subs, ops[..n]));
    }
    assert ops[..|ops|] == ops;
  }

  /** Runs any operations on a client with real subscription objects. In the end every handler occurs under
      every key as often as it has subscriptions there that were never disposed, however often one delegate
      was registered and one disposable disposed; and the occurrences left are those of its latest
      subscriptions, all in the order they were made. */
  method Drive(ops: seq<Op>) returns (lists: Lists)
    ensures forall key: Key, h: Handler :: multiset(Lookup(lists, key))[h] == Undisposed(ops, 0, key, h)
    ensures forall key: Key :: InOrder(Lookup(lists, key), SubscribedBy(ops, key))
  {
    var client := StartClient();
    var _ := PerformAll(client, [], ops, []);
    lists := client.State();
    FinalCounts(lists, ops);
    FinalOrder(lists, ops);
  }

  method StartClient() returns (client: CopilotClient)
    ensures fresh(client) && Sound(client, [], [])
  {
    client := new CopilotClient();
  }

  lemma FinalOrder(lists: Lists, ops: seq<Op>)
    requires Ordered(lists, AfterAll([], ops))
    ensures forall key: Key :: InOrder(Lookup(lists, key), SubscribedBy(ops, key))
  {
    forall key: Key ensures InOrder(Lookup(lists, key), SubscribedBy(ops, key)) {
      SubscribedByOps(ops, key);
    }
  }

  lemma FinalCounts(lists: Lists, ops: seq<Op>)
    requires Counts(lists, AfterAll([], ops))
    ensures forall key: Key, h: Handler :: multiset(Lookup(lists, key))[h] == Undisposed(ops, 0, key, h)
  {
    forall key: Key, h: Handler
      ensures multiset(Lookup(lists, key))[h] == Undisposed(ops, 0, key, h)
    {
      OpenIsUndisposed(ops, key, h);
    }
  }

  ghost predicate Mirrors(objects: seq<ActionDisposable>, subs: seq<Sub>)
    reads objects
  {
    && |objects| == |subs|
    && forall i :: 0 <= i < |objects| ==> subs[i] == Sub(objects[i].key, objects[i].handler, objects[i].armed)
  }

  lemma SubscribeCounts(before: Lists, after: Lists, subs: seq<Sub>, s: Sub)
    requires Counts(before, subs) && SameBut(before, after, s.key) && s.armed
    requires Lookup(after, s.key) == Lookup(before, s.key) + [s.handler]
    ensures Counts(after, subs + [s])
  {
    hide Lookup, Open;
    forall key: Key, h: Handler ensures multiset(Lookup(after, key))[h] == Open(subs + [s], key, h) {
      OpenAppend(subs, s, key, h);
    }
  }

  lemma DisposeCounts(before: Lists, after: Lists, subs: seq<Sub>, i: nat)
    requires i < |subs| && Counts(before, subs) && SameBut(before, after, subs[i].key)
    requires Lookup(after, subs[i].key) ==
      if subs[i].armed then RemoveFirst(Lookup(before, subs[i].key), subs[i].handler) else Lookup(before, subs[i].key)
    ensures Counts(after, subs[i := subs[i].(armed := false)])
  {
    hide Lookup, Open, RemoveFirst;
    RemoveFirstCounts(Lookup(before, subs[i].key), subs[i].handler);
    forall key: Key, h: Handler
      ensures multiset(Lookup(after, key))[h] == Open(subs[i := subs[i].(armed := false)], key, h)
    {
      OpenUpdate(subs, i, subs[i].(armed := false), key, h);
    }
  }

  // ---------- the objects against the operations ----------

  /** Subscriptions that are still open after the operations' disposals. */
  function Kept(subs: seq<Sub>, ops: seq<Op>): seq<Sub> {
    seq(|subs|, i requires 0 <= i < |subs| => subs[i].(armed := subs[i].armed && Dispose(i) !in ops))
  }

  lemma {:induction false} OpenAfterAll(subs: seq<Sub>, ops: seq<Op>, key: Key, handler: Handler)
    ensures Open(AfterAll(subs, ops), key, handler)
      == Open(Kept(subs, ops), key, handler) + Undisposed(ops, |subs|, key, handler)
    decreases |ops|
  {
    if ops == [] {
      assert Kept(subs, ops) == subs;
    } else {
      var rest := ops[1..];
      assert ops == [ops[0]] + rest;
      OpenAfterAll(After(subs, ops[0]), rest, key, handler);
      match ops[0] {
        case Subscribe(k, h) =>
          var kept := Sub(k, h, Dispose(|subs|) !in rest);
          assert Kept(subs + [Sub(k, h, true)], rest) == Kept(subs, ops) + [kept];
          OpenAppend(Kept(subs, ops), kept, key, handler);
        case Dispose(i) =>
          assert Kept(After(subs, ops[0]), rest) == Kept(subs, ops);
      }
    }
  }

  lemma OpenIsUndisposed(ops: seq<Op>, key: Key, handler: Handler)
    ensures Open(AfterAll([], ops), key, handler) == Undisposed(ops, 0, key, handler)
  {
    OpenAfterAll([], ops, key, handler);
    assert Kept([], ops) == [];
  }
}
