/**
 The subscription tables of gps/core/SystemStatusOsObserver.cpp as values: one from
 clients to data items, one from data items to clients, and the set the framework has
 been asked to subscribe.
 */
module SubscriptionTables {
  import opened Wrappers

  type Client = int
  type Item = int

  /* Maps to sets, after gps/utils/LocUnorderedSetMap.h. */

  function Get<K, V>(m: map<K, set<V>>, k: K): set<V> {
    if k in m then m[k] else {}
  }

  ghost predicate NoEmpty<K(!new), V>(m: map<K, set<V>>) {
    forall k :: k in m ==> m[k] != {}
  }

  // add: every key gets the values; a set that is not there yet is put in.
  function Added<K, V>(m: map<K, set<V>>, keys: set<K>, vals: set<V>): map<K, set<V>> {
    if vals == {} then m
    else map k | k in m.Keys + keys :: if k in keys then Get(m, k) + vals else Get(m, k)
  }

  // trimOrRemove: the keys lose the values; those left with nothing are taken out.
  function Trimmed<K, V>(m: map<K, set<V>>, keys: set<K>, vals: set<V>): map<K, set<V>> {
    map k | k in m && !(k in keys && m[k] - vals == {}) :: if k in keys then m[k] - vals else m[k]
  }

  function Gone<K, V>(m: map<K, set<V>>, keys: set<K>, vals: set<V>): set<K> {
    set k | k in keys && k in m && m[k] - vals == {}
  }

  /* The observer. */

  // fw is what the framework has been asked to subscribe, once it is there to be asked.
  datatype Tables = Tables(clients: map<Client, set<Item>>, items: map<Item, set<Client>>, fw: Option<set<Item>>)

  const EMPTY := Tables(map[], map[], None)

  datatype Request =
    | SetObject
    | SubscribeTo(c: Client, want: set<Item>, toRequestData: bool)
    | Update(c: Client, want: set<Item>)
    | Unsubscribe(c: Client, want: set<Item>)
    | UnsubscribeAll(c: Client)

  function Ask(fw: Option<set<Item>>, plus: set<Item>, minus: set<Item>): Option<set<Item>> {
    if fw.None? then None else Some(fw.value + plus - minus)
  }

  // A new subscription object is asked for all items that have clients.
  function SetObjectStep(t: Tables): Tables {
    t.(fw := Some(t.items.Keys))
  }

  function SubscribeStep(t: Tables, c: Client, want: set<Item>, toRequestData: bool): Tables {
    Tables(
      Added(t.clients, {c}, want), Added(t.items, want, {c}),
      Ask(t.fw, if toRequestData then {} else want - t.items.Keys, {}))
  }

  // update of LocUnorderedSetMap returns the values the client keeps.
  function UpdateStep(t: Tables, c: Client, want: set<Item>): Tables {
    var common := Get(t.clients, c) * want;
    var trimmed := Trimmed(t.items, common, {c});
    Tables(
      t.clients[c := want], Added(trimmed, want - common, {c}),
      Ask(t.fw, want - common - trimmed.Keys, Gone(t.items, common, {c})))
  }

  function Leave(t: Tables, c: Client, left: set<Item>, clients: map<Client, set<Item>>): Tables {
    Tables(clients, Trimmed(t.items, left, {c}), Ask(t.fw, {}, Gone(t.items, left, {c})))
  }

  function Step(t: Tables, r: Request): Tables {
    match r
    case SetObject => SetObjectStep(t)
    case SubscribeTo(c, want, toRequestData) => if want == {} then t else SubscribeStep(t, c, want, toRequestData)
    case Update(c, want) => if want == {} then t else UpdateStep(t, c, want)
    case Unsubscribe(c, want) =>
      if want == {} then t else Leave(t, c, Get(t.clients, c) * want, Trimmed(t.clients, {c}, want))
    case UnsubscribeAll(c) => if Get(t.clients, c) == {} then t else Leave(t, c, Get(t.clients, c), t.clients - {c})
  }

  function Run(t: Tables, rs: seq<Request>): Tables
    decreases rs
  {
    if rs == [] then t else Run(Step(t, rs[0]), rs[1..])
  }

  /* What the steps keep. */

  // The two tables say the same.
  ghost predicate Inverse(t: Tables) {
    forall c, i :: i in Get(t.clients, c) <==> c in Get(t.items, i)
  }

  ghost predicate Tidy(t: Tables) {
    NoEmpty(t.clients) && NoEmpty(t.items)
  }

  lemma Element<T>(s: set<T>) returns (x: T)
    requires s != {}
    ensures x in s
  {
    x :| x in s;
  }

  lemma AddedGet<K, V>(m: map<K, set<V>>, keys: set<K>, vals: set<V>, k: K)
    ensures Get(Added(m, keys, vals), k) == if k in keys then Get(m, k) + vals else Get(m, k)
  {}

  lemma AddedOneMore<K, V>(m: map<K, set<V>>, keys: set<K>, vals: set<V>, k: K)
    requires vals != {} && k !in keys
    ensures Added(m, keys + {k}, vals) == Added(m, keys, vals)[k := Get(Added(m, keys, vals), k) + vals]
    ensures k in Added(m, keys, vals) <==> k in m
  {}

  lemma TrimmedOneMore<K, V>(m: map<K, set<V>>, keys: set<K>, vals: set<V>, k: K)
    requires k !in keys
    ensures k in Trimmed(m, keys, vals) <==> k in m
    ensures k in m ==> Trimmed(m, keys, vals)[k] == m[k]
    ensures k !in m ==> Trimmed(m, keys + {k}, vals) == Trimmed(m, keys, vals)
    ensures k in m && m[k] - vals == {} ==> Trimmed(m, keys + {k}, vals) == Trimmed(m, keys, vals) - {k}
    ensures k in m && m[k] - vals != {} ==> Trimmed(m, keys + {k}, vals) == Trimmed(m, keys, vals)[k := m[k] - vals]
    ensures Gone(m, keys + {k}, vals) == Gone(m, keys, vals) + if k in m && m[k] - vals == {} then {k} else {}
  {}

  // The values taken out.
  function Lost<K, V>(m: map<K, set<V>>, keys: set<K>, vals: set<V>): set<V> {
    set k, v | k in keys && k in m && v in m[k] && v in vals :: v
  }

  lemma LostOneMore<K, V>(m: map<K, set<V>>, keys: set<K>, vals: set<V>, k: K)
    ensures Lost(m, keys + {k}, vals) == Lost(m, keys, vals) + Get(m, k) * vals
  {}

  lemma TrimmedGet<K, V>(m: map<K, set<V>>, keys: set<K>, vals: set<V>, k: K)
    ensures Get(Trimmed(m, keys, vals), k) == if k in keys then Get(m, k) - vals else Get(m, k)
  {}

  lemma StepTidy(t: Tables, r: Request)
    requires Tidy(t)
    ensures Tidy(Step(t, r))
  {}

  lemma SubscribeInverse(t: Tables, c: Client, want: set<Item>, toRequestData: bool)
    requires Inverse(t)
    ensures Inverse(SubscribeStep(t, c, want, toRequestData))
  {
    var t' := SubscribeStep(t, c, want, toRequestData);
    forall d, i ensures i in Get(t'.clients, d) <==> d in Get(t'.items, i) {
      AddedGet(t.clients, {c}, want, d);
      AddedGet(t.items, want, {c}, i);
    }
  }

  lemma LeaveInverse(t: Tables, c: Client, left: set<Item>, clients: map<Client, set<Item>>)
    requires Inverse(t)
    requires forall d :: Get(clients, d) == if d == c then Get(t.clients, c) - left else Get(t.clients, d)
    ensures Inverse(Leave(t, c, left, clients))
  {
    var t' := Leave(t, c, left, clients);
    forall d, i ensures i in Get(t'.clients, d) <==> d in Get(t'.items, i) {
      TrimmedGet(t.items, left, {c}, i);
    }
  }

  // After an update the items of a client list it exactly where its old and its new
  // set differ.
  lemma UpdateTables(t: Tables, c: Client, want: set<Item>, i: Item, d: Client)
    requires Inverse(t)
    ensures var t' := UpdateStep(t, c, want);
      d in Get(t'.items, i) <==> if d == c then (i in Get(t.clients, c)) != (i in want) else i in Get(t.clients, d)
  {
    var common := Get(t.clients, c) * want;
    TrimmedGet(t.items, common, {c}, i);
    AddedGet(Trimmed(t.items, common, {c}), want - common, {c}, i);
  }

  // So it keeps the tables inverse exactly when the client had no items before.
  lemma UpdateInverse(t: Tables, c: Client, want: set<Item>)
    requires Inverse(t)
    ensures Inverse(UpdateStep(t, c, want)) <==> Get(t.clients, c) == {}
  {
    var t' := UpdateStep(t, c, want);
    if Get(t.clients, c) == {} {
      forall d, i ensures i in Get(t'.clients, d) <==> d in Get(t'.items, i) {
        UpdateTables(t, c, want, i, d);
      }
    } else {
      var i := Element(Get(t.clients, c));
      UpdateTables(t, c, want, i, c);
      assert i in Get(t'.clients, c) <==> i in want;
    }
  }

  // The client of an update holds nothing yet.
  predicate Safe(t: Tables, r: Request) {
    r.Update? && r.want != {} ==> Get(t.clients, r.c) == {}
  }

  lemma StepInverse(t: Tables, r: Request)
    requires Inverse(t)
    ensures Inverse(Step(t, r)) <==> Safe(t, r)
  {
    match r
    case SetObject =>
    case SubscribeTo(c, want, toRequestData) =>
      if want != {} {
        SubscribeInverse(t, c, want, toRequestData);
      }
    case Update(c, want) =>
      if want != {} {
        UpdateInverse(t, c, want);
      }
    case Unsubscribe(c, want) =>
      if want != {} {
        forall d ensures Get(Trimmed(t.clients, {c}, want), d) == if d ==
          c then Get(t.clients, c) - Get(t.clients, c) * want else Get(t.clients, d) {
          TrimmedGet(t.clients, {c}, want, d);
        }
        LeaveInverse(t, c, Get(t.clients, c) * want, Trimmed(t.clients, {c}, want));
      }
    case UnsubscribeAll(c) =>
      if Get(t.clients, c) != {} {
        LeaveInverse(t, c, Get(t.clients, c), t.clients - {c});
      }
  }

  ghost predicate SafeRun(t: Tables, rs: seq<Request>)
    decreases rs
  {
    rs == [] || (Safe(t, rs[0]) && SafeRun(Step(t, rs[0]), rs[1..]))
  }

  ghost predicate AlwaysInverse(t: Tables, rs: seq<Request>)
    decreases rs
  {
    Inverse(t) && (rs == [] || AlwaysInverse(Step(t, rs[0]), rs[1..]))
  }

  // The tables stay inverse throughout a run exactly when every update in it comes from
  // a client that holds nothing at that moment; they are tidy in any case.
  lemma {:induction false} RunInverse(t: Tables, rs: seq<Request>)
    requires Inverse(t) && Tidy(t)
    ensures AlwaysInverse(t, rs) <==> SafeRun(t, rs)
    ensures AlwaysInverse(t, rs) ==> Inverse(Run(t, rs))
    ensures Tidy(Run(t, rs))
    decreases rs
  {
    if rs != [] {
      StepInverse(t, rs[0]);
      StepTidy(t, rs[0]);
      if Inverse(Step(t, rs[0])) {
        RunInverse(Step(t, rs[0]), rs[1..]);
      } else {
        RunTidy(Step(t, rs[0]), rs[1..]);
      }
    }
  }

  lemma {:induction false} RunTidy(t: Tables, rs: seq<Request>)
    requires Tidy(t)
    ensures Tidy(Run(t, rs))
    decreases rs
  {
    if rs != [] {
      StepTidy(t, rs[0]);
      RunTidy(Step(t, rs[0]), rs[1..]);
    }
  }

  // Subscribing to an item and then updating to the same item takes the client off the
  // item's list and the framework's subscription away.
  lemma UpdateLosesSubscription(c: Client, i: Item)
    ensures var t := Run(EMPTY, [SetObject, SubscribeTo(c, {i}, false), Update(c, {i})]);
      i in Get(t.clients, c) && c !in Get(t.items, i) && t.fw == Some({})
  {
    var t1 := SetObjectStep(EMPTY);
    var t2 := SubscribeStep(t1, c, {i}, false);
    var t3 := UpdateStep(t2, c, {i});
    AddedGet(t1.clients, {c}, {i}, c);
    AddedGet(t1.items, {i}, {c}, i);
    KeysOf(t1.items, {i}, {c});
    assert t1.items.Keys == {} && t2.items.Keys == {i} && t2.fw.value == {i};
    assert Get(t2.clients, c) * {i} == {i};
    TrimmedGet(t2.items, {i}, {c}, i);
    assert Gone(t2.items, {i}, {c}) == {i};
    assert t3.fw.value == {};
    var rs := [SetObject, SubscribeTo(c, {i}, false), Update(c, {i})];
    assert Step(EMPTY, rs[0]) == t1 && Step(t1, rs[1]) == t2 && Step(t2, rs[2]) == t3;
    assert Run(EMPTY, rs) == Run(t1, rs[1..]) == Run(t2, rs[1..][1..]) == Run(t3, rs[1..][1..][1..]);
  }

  /* The framework. */

  ghost predicate Covered(t: Tables) {
    t.fw.Some? ==> t.fw.value <= t.items.Keys
  }

  ghost predicate Followed(t: Tables) {
    t.fw.Some? ==> t.fw.value == t.items.Keys
  }

  predicate AsksForData(r: Request) {
    r.SubscribeTo? && r.toRequestData
  }

  lemma KeysOf<K, V>(m: map<K, set<V>>, keys: set<K>, vals: set<V>)
    ensures Trimmed(m, keys, vals).Keys == m.Keys - Gone(m, keys, vals)
    ensures vals != {} ==> Added(m, keys, vals).Keys == m.Keys + keys
  {}

  lemma StepFollowed(t: Tables, r: Request)
    ensures Covered(t) ==> Covered(Step(t, r))
    ensures Followed(t) && !AsksForData(r) ==> Followed(Step(t, r))
  {
    match r
    case SetObject =>
    case SubscribeTo(c, want, _) => KeysOf(t.items, want, {c});
    case Update(c, want) =>
      var common := Get(t.clients, c) * want;
      KeysOf(t.items, common, {c});
      KeysOf(Trimmed(t.items, common, {c}), want - common, {c});
    case Unsubscribe(c, want) => KeysOf(t.items, Get(t.clients, c) * want, {c});
    case UnsubscribeAll(c) => KeysOf(t.items, Get(t.clients, c), {c});
  }

  // The framework is never subscribed to an item without clients; without requests for
  // data it is subscribed to exactly the items that have clients.
  lemma {:induction false} RunFollowed(t: Tables, rs: seq<Request>)
    ensures Covered(t) ==> Covered(Run(t, rs))
    ensures Followed(t) && (forall r :: r in rs ==> !AsksForData(r)) ==> Followed(Run(t, rs))
    decreases rs
  {
    if rs != [] {
      StepFollowed(t, rs[0]);
      RunFollowed(Step(t, rs[0]), rs[1..]);
    }
  }

  // Which, while the tables are inverse, are the items some client wants.
  lemma KeysAreWanted(t: Tables, i: Item)
    requires Inverse(t) && Tidy(t)
    ensures i in t.items <==> exists c :: i in Get(t.clients, c)
  {
    if i in t.items {
      var c := Element(t.items[i]);
      assert c in Get(t.items, i);
      assert i in Get(t.clients, c);
    } else {
      forall c ensures i !in Get(t.clients, c) {
        assert c !in Get(t.items, i);
      }
    }
  }

  lemma EveryRun(rs: seq<Request>)
    requires SafeRun(EMPTY, rs) && forall r :: r in rs ==> !AsksForData(r)
    ensures var t := Run(EMPTY, rs);
      && Inverse(t) && Tidy(t)
      && (t.fw.Some? ==> forall i :: i in t.fw.value <==> exists c :: i in Get(t.clients, c))
  {
    RunInverse(EMPTY, rs);
    RunFollowed(EMPTY, rs);
    var t := Run(EMPTY, rs);
    forall i ensures i in t.items <==> exists c :: i in Get(t.clients, c) {
      KeysAreWanted(t, i);
    }
  }

  /* What the requests come to, told on plain sets. */

  // The items a client wants after a request, by what the request asks for.
  function WishStep(wish: set<Item>, r: Request, c: Client): set<Item> {
    match r
    case SetObject => wish
    case SubscribeTo(d, want, _) => if d == c then wish + want else wish
    case Update(d, want) => if d == c && want != {} then want else wish
    case Unsubscribe(d, want) => if d == c then wish - want else wish
    case UnsubscribeAll(d) => if d == c then {} else wish
  }

  function WishRun(wish: set<Item>, rs: seq<Request>, c: Client): set<Item>
    decreases rs
  {
    if rs == [] then wish else WishRun(WishStep(wish, rs[0], c), rs[1..], c)
  }

  lemma StepWishes(t: Tables, r: Request, c: Client)
    ensures Get(Step(t, r).clients, c) == WishStep(Get(t.clients, c), r, c)
  {
    match r
    case SetObject =>
    case SubscribeTo(d, want, _) => AddedGet(t.clients, {d}, want, c);
    case Update(d, want) =>
    case Unsubscribe(d, want) => TrimmedGet(t.clients, {d}, want, c);
    case UnsubscribeAll(d) =>
  }

  // In every run the table of clients has for each client what its own requests come to.
  lemma {:induction false} RunWishes(t: Tables, rs: seq<Request>, c: Client)
    ensures Get(Run(t, rs).clients, c) == WishRun(Get(t.clients, c), rs, c)
    decreases rs
  {
    if rs != [] {
      StepWishes(t, rs[0], c);
      RunWishes(Step(t, rs[0]), rs[1..], c);
    }
  }

  // Some client wants the item.
  ghost predicate IsWanted(t: Tables, i: Item) {
    exists c :: i in Get(t.clients, c)
  }

  // Whether the framework is subscribed to an item after a request, from whether it was,
  // whether some client wanted the item before and whether some client does after: a new
  // subscription object is asked for all that is wanted, one that is there for what is
  // wanted for the first time, but not by a request for data, and it is told of what
  // nobody wants any more.
  predicate FrameworkStep(subscribed: bool, r: Request, i: Item, before: bool, after: bool) {
    match r
    case SetObject => after
    case SubscribeTo(_, want, toRequestData) => subscribed || (!toRequestData && i in want && !before)
    case Update(_, want) => subscribed || (i in want && !before)
    case Unsubscribe(_, _) => subscribed && after
    case UnsubscribeAll(_) => subscribed && after
  }

  lemma StepFramework(t: Tables, r: Request, i: Item)
    requires Inverse(t) && Tidy(t) && Covered(t) && Safe(t, r)
    ensures Step(t, r).fw.Some? <==> t.fw.Some? || r.SetObject?
    ensures Step(t, r).fw.Some? ==>
      (i in Step(t, r).fw.value <==>
        FrameworkStep(t.fw.Some? && i in t.fw.value, r, i, IsWanted(t, i), IsWanted(Step(t, r), i)))
  {
    var t' := Step(t, r);
    StepInverse(t, r);
    StepTidy(t, r);
    StepFollowed(t, r);
    KeysAreWanted(t, i);
    KeysAreWanted(t', i);
    match r
    case SetObject =>
    case SubscribeTo(c, want, _) =>
    case Update(c, want) =>
      var common := Get(t.clients, c) * want;
      if want != {} {
        assert common == {};
        KeysOf(t.items, common, {c});
      }
    case Unsubscribe(c, want) => KeysOf(t.items, Get(t.clients, c) * want, {c});
    case UnsubscribeAll(c) => KeysOf(t.items, Get(t.clients, c), {c});
  }

  // There is something to ask once a subscription object has been set.
  lemma {:induction false} RunHasObject(t: Tables, rs: seq<Request>)
    ensures Run(t, rs).fw.Some? <==> t.fw.Some? || SetObject in rs
    decreases rs
  {
    if rs != [] {
      RunHasObject(Step(t, rs[0]), rs[1..]);
      assert SetObject in rs <==> rs[0] == SetObject || SetObject in rs[1..];
    }
  }

  /* Notification. */

  // What the clients want to be sent when the given items have been updated.
  function Wanted(t: Tables, updated: set<Item>): map<Client, set<Item>> {
    map c | c in t.clients && t.clients[c] * updated != {} :: t.clients[c] * updated
  }

  // The clients the source looks up item by item.
  function Listeners(t: Tables, updated: set<Item>): set<Client> {
    set i, c | i in updated && i in t.items && c in t.items[i] :: c
  }

  // What it sends them.
  function Reached(t: Tables, updated: set<Item>): map<Client, set<Item>> {
    map c | c in Listeners(t, updated) && Get(t.clients, c) * updated != {} :: Get(t.clients, c) * updated
  }

  lemma ListenersOneMore(t: Tables, updated: set<Item>, i: Item)
    ensures Listeners(t, updated + {i}) == Listeners(t, updated) + Get(t.items, i)
  {
    forall c ensures c in Listeners(t, updated + {i}) <==> c in Listeners(t, updated) || c in Get(t.items, i) {
      if c in Get(t.items, i) {
        assert i in updated + {i} && i in t.items && c in t.items[i];
      }
    }
  }

  // Looking the clients up by item reaches exactly those that want some of the items,
  // because the tables are inverse.
  lemma ReachedIsWanted(t: Tables, updated: set<Item>)
    requires Inverse(t)
    ensures Reached(t, updated) == Wanted(t, updated)
  {
    forall c | c in Wanted(t, updated) ensures c in Listeners(t, updated) {
      var i := Element(t.clients[c] * updated);
      assert i in Get(t.clients, c);
      assert c in Get(t.items, i);
    }
    forall c | c in Reached(t, updated) ensures c in t.clients {
      assert {} * updated == {};
    }
  }
}
