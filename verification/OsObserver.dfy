/**
 gps/core/SystemStatusOsObserver.cpp and gps/utils/LocUnorderedSetMap.h: the maps and
 the observer's message handlers, updating their tables in place.
 */
module OsObserver {
  import opened Wrappers
  import opened SubscriptionTables

  method Pick<T>(s: set<T>) returns (x: T)
    requires s != {}
    ensures x in s
  {
    x :| x in s;
  }

  class LocUnorderedSetMap<K(==), V(==)> {
    var mMap: map<K, set<V>>

    constructor ()
      ensures mMap == map[]
    {
      mMap := map[];
    }

    function GetValSet(key: K): set<V>
      reads this
    {
      Get(mMap, key)
    }

    // The values taken out of the entries are collected in goneVals.
    method TrimOrRemove(keys: set<K>, rVals: set<V>) returns (goneKeys: set<K>, goneVals: set<V>)
      modifies this
      ensures mMap == Trimmed(old(mMap), keys, rVals)
      ensures goneKeys == Gone(old(mMap), keys, rVals)
      ensures goneVals == Lost(old(mMap), keys, rVals)
    {
      goneKeys, goneVals := {}, {};
      ghost var m := mMap;
      var todo := keys;
      while todo != {}
        invariant todo <= keys
        invariant mMap == Trimmed(m, keys - todo, rVals)
        invariant goneKeys == Gone(m, keys - todo, rVals)
        invariant goneVals == Lost(m, keys - todo, rVals)
        decreases todo
      {
        var key := Pick(todo);
        ghost var done := keys - todo;
        assert keys - (todo - {key}) == done + {key};
        TrimmedOneMore(m, done, rVals, key);
        LostOneMore(m, done, rVals, key);
        if key in mMap {
          goneVals := goneVals + mMap[key] * rVals;
          if mMap[key] - rVals == {} {
            goneKeys := goneKeys + {key};
            mMap := mMap - {key};
          } else {
            mMap := mMap[key := mMap[key] - rVals];
          }
        }
        todo := todo - {key};
      }
      assert keys - todo == keys;
    }

    method Add(keys: set<K>, newVals: set<V>) returns (newKeys: set<K>)
      modifies this
      ensures mMap == Added(old(mMap), keys, newVals)
      ensures newKeys == if newVals == {} then {} else keys - old(mMap).Keys
    {
      newKeys := {};
      ghost var m := mMap;
      var todo := keys;
      while todo != {}
        invariant todo <= keys
        invariant mMap == Added(m, keys - todo, newVals)
        invariant newVals == {} ==> newKeys == {}
        invariant newVals != {} ==> newKeys == (keys - todo) - m.Keys
        decreases todo
      {
        var key := Pick(todo);
        assert keys - (todo - {key}) == (keys - todo) + {key};
        if newVals != {} {
          AddedOneMore(m, keys - todo, newVals, key);
          assert {} + newVals == newVals;
          if key in mMap {
            mMap := mMap[key := mMap[key] + newVals];
          } else {
            mMap := mMap[key := newVals];
            newKeys := newKeys + {key};
          }
        }
        todo := todo - {key};
      }
      assert keys - todo == keys;
    }

    // Gives back what the entry had in common with newVals, and the rest of newVals.
    method Update(key: K, newVals: set<V>) returns (goneVals: set<V>, rest: set<V>)
      modifies this
      ensures newVals != {} ==> mMap == old(mMap)[key := newVals] && goneVals == Get(old(mMap), key) * newVals
      ensures newVals == {} ==> mMap == old(mMap) - {key} && goneVals == {}
      ensures rest == newVals - goneVals
    {
      goneVals, rest := {}, newVals;
      if newVals == {} {
        mMap := mMap - {key};
        return;
      }
      var curVals := GetValSet(key);
      mMap := mMap[key := newVals];
      var todo := newVals;
      while todo != {}
        invariant todo <= newVals && mMap == old(mMap)[key := newVals]
        invariant goneVals == curVals * (newVals - todo)
        invariant rest == newVals - goneVals
        decreases todo
      {
        var b := Pick(todo);
        if b in curVals {
          goneVals := goneVals + {b};
          rest := rest - {b};
        }
        todo := todo - {b};
      }
      assert newVals - todo == newVals;
    }
  
    method Remove(key: K)
      modifies this
      ensures mMap == old(mMap) - {key}
    {
      mMap := mMap - {key};
    }
  }

  type Value = int

  // A data item handed to notify. Missing stands for the null entries of its vector.
  // Whether the system status takes it, whether a new cache entry can be made for it and
  // whether copying it over an old one counts as an update is decided elsewhere.
  datatype Incoming = Missing | Incoming(id: Item, value: Value, taken: bool, creatable: bool, updates: bool)

  function Cached(cache: map<Item, Value>, d: Incoming): map<Item, Value> {
    if d.Missing? || !d.taken || (d.id !in cache && !d.creatable) then cache else cache[d.id := d.value]
  }

  predicate Updates(cache: map<Item, Value>, d: Incoming) {
    d.Incoming? && d.taken && if d.id in cache then d.updates else d.creatable
  }

  function CacheAll(cache: map<Item, Value>, ds: seq<Incoming>): map<Item, Value>
    decreases ds
  {
    if ds == [] then cache else CacheAll(Cached(cache, ds[0]), ds[1..])
  }

  // The items updated by some of the incoming ones.
  function UpdatedBy(cache: map<Item, Value>, ds: seq<Incoming>): set<Item>
    decreases ds
  {
    if ds == [] then {}
    else (if Updates(cache, ds[0]) then {ds[0].id} else {}) + UpdatedBy(Cached(cache, ds[0]), ds[1..])
  }

  lemma {:induction false} UpdatedAreCached(cache: map<Item, Value>, ds: seq<Incoming>)
    ensures cache.Keys <= CacheAll(cache, ds).Keys && UpdatedBy(cache, ds) <= CacheAll(cache, ds).Keys
    decreases ds
  {
    if ds != [] {
      UpdatedAreCached(Cached(cache, ds[0]), ds[1..]);
    }
  }

  /* The same by position in the incoming list. */

  // The item has a cache entry when the first n have been handled: it had one before, or
  // one of them made it.
  ghost predicate Known(cache: map<Item, Value>, ds: seq<Incoming>, n: nat, i: Item)
    requires n <= |ds|
  {
    i in cache || exists k :: 0 <= k < n && ds[k].Incoming? && ds[k].id == i && ds[k].taken && ds[k].creatable
  }

  // The n-th one is for item i and goes into the cache.
  ghost predicate Heeded(cache: map<Item, Value>, ds: seq<Incoming>, n: nat, i: Item)
    requires n < |ds|
  {
    ds[n].Incoming? && ds[n].id == i && ds[n].taken && (ds[n].creatable || Known(cache, ds, n, i))
  }

  // It changes what was known, or makes it known.
  ghost predicate Tells(cache: map<Item, Value>, ds: seq<Incoming>, n: nat, i: Item)
    requires n < |ds|
  {
    ds[n].Incoming? && ds[n].id == i && ds[n].taken && if Known(cache, ds, n, i) then ds[n].updates else ds[n].creatable
  }

  lemma KnownLater(cache: map<Item, Value>, ds: seq<Incoming>, n: nat, i: Item)
    requires n < |ds|
    ensures Known(cache, ds, n + 1, i) <==> Known(Cached(cache, ds[0]), ds[1..], n, i)
  {
    if Known(cache, ds, n + 1, i) && i !in cache {
      var k :| 0 <= k < n + 1 && ds[k].Incoming? && ds[k].id == i && ds[k].taken && ds[k].creatable;
      assert k > 0 ==> ds[1..][k - 1] == ds[k];
    }
    if Known(Cached(cache, ds[0]), ds[1..], n, i) && i !in Cached(cache, ds[0]) {
      var k :| 0 <= k < n && ds[1..][k].Incoming? && ds[1..][k].id == i && ds[1..][k].taken && ds[1..][k].creatable;
      assert ds[k + 1] == ds[1..][k];
    }
  }

  // Every item that somebody made known is known at the end, ...
  lemma {:induction false} CachedAreKnown(cache: map<Item, Value>, ds: seq<Incoming>, i: Item)
    ensures i in CacheAll(cache, ds) <==> Known(cache, ds, |ds|, i)
    decreases ds
  {
    if ds != [] {
      CachedAreKnown(Cached(cache, ds[0]), ds[1..], i);
      KnownLater(cache, ds, |ds| - 1, i);
    }
  }

  // ... with the value of the last one heeded, if any, ...
  lemma {:induction false} CachedIsLast(cache: map<Item, Value>, ds: seq<Incoming>, i: Item, n: nat)
    requires n < |ds| && Heeded(cache, ds, n, i)
    requires forall k :: n < k < |ds| ==> !Heeded(cache, ds, k, i)
    ensures i in CacheAll(cache, ds) && CacheAll(cache, ds)[i] == ds[n].value
    decreases ds
  {
    var cache', rest := Cached(cache, ds[0]), ds[1..];
    HeededLater(cache, ds, i);
    forall k | n <= k < |rest| ensures !Heeded(cache', rest, k, i) {
      assert !Heeded(cache, ds, k + 1, i);
    }
    if n == 0 {
      CachedIsKept(cache', rest, i);
    } else {
      assert rest[n - 1] == ds[n];
      CachedIsLast(cache', rest, i, n - 1);
    }
  }

  lemma HeededLater(cache: map<Item, Value>, ds: seq<Incoming>, i: Item)
    requires ds != []
    ensures forall k :: 0 < k < |ds| ==>
      && (Heeded(cache, ds, k, i) <==> Heeded(Cached(cache, ds[0]), ds[1..], k - 1, i))
      && (Tells(cache, ds, k, i) <==> Tells(Cached(cache, ds[0]), ds[1..], k - 1, i))
  {
    forall k | 0 < k < |ds|
      ensures Heeded(cache, ds, k, i) <==> Heeded(Cached(cache, ds[0]), ds[1..], k - 1, i)
      ensures Tells(cache, ds, k, i) <==> Tells(Cached(cache, ds[0]), ds[1..], k - 1, i)
    {
      assert ds[1..][k - 1] == ds[k];
      KnownLater(cache, ds, k - 1, i);
    }
  }

  // ... and as it was if none is.
  lemma {:induction false} CachedIsKept(cache: map<Item, Value>, ds: seq<Incoming>, i: Item)
    requires forall k :: 0 <= k < |ds| ==> !Heeded(cache, ds, k, i)
    ensures i in CacheAll(cache, ds) <==> i in cache
    ensures i in cache ==> CacheAll(cache, ds)[i] == cache[i]
    decreases ds
  {
    if ds != [] {
      HeededLater(cache, ds, i);
      assert !Heeded(cache, ds, 0, i);
      forall k | 0 <= k < |ds[1..]| ensures !Heeded(Cached(cache, ds[0]), ds[1..], k, i) {
        assert !Heeded(cache, ds, k + 1, i);
      }
      CachedIsKept(Cached(cache, ds[0]), ds[1..], i);
    }
  }

  // The items to be sent are those of which something is told.
  lemma {:induction false} UpdatedAreTold(cache: map<Item, Value>, ds: seq<Incoming>, i: Item)
    ensures i in UpdatedBy(cache, ds) <==> exists n :: 0 <= n < |ds| && Tells(cache, ds, n, i)
    decreases ds
  {
    if ds != [] {
      var cache', rest := Cached(cache, ds[0]), ds[1..];
      UpdatedAreTold(cache', rest, i);
      assert Tells(cache, ds, 0, i) <==> Updates(cache, ds[0]) && ds[0].id == i;
      HeededLater(cache, ds, i);
      if exists n :: 0 <= n < |rest| && Tells(cache', rest, n, i) {
        var n :| 0 <= n < |rest| && Tells(cache', rest, n, i);
        assert Tells(cache, ds, n + 1, i);
      }
      if exists n :: 0 < n < |ds| && Tells(cache, ds, n, i) {
        var n :| 0 < n < |ds| && Tells(cache, ds, n, i);
        assert Tells(cache', rest, n - 1, i);
      }
    }
  }

  // One call of a client's notify.
  datatype Delivery = Delivery(client: Client, data: map<Item, Value>)

  function Data(cache: map<Item, Value>, s: set<Item>): map<Item, Value> {
    map i | i in s && i in cache :: cache[i]
  }

  // The calls tell every client that wants something exactly that, once, and no other.
  ghost predicate Delivers(calls: seq<Delivery>, wanted: map<Client, set<Item>>, cache: map<Item, Value>) {
    && (forall n :: 0 <= n < |calls| ==>
      calls[n].client in wanted && calls[n].data == Data(cache, wanted[calls[n].client]))
    && (forall n, k :: 0 <= n < k < |calls| ==> calls[n].client != calls[k].client)
    && (forall c :: c in wanted ==> exists n :: 0 <= n < |calls| && calls[n].client == c)
  }

  lemma DeliversOneMore(calls: seq<Delivery>, wanted: map<Client, set<Item>>, cache: map<Item, Value>, c: Client,
                        s: set<Item>)
    requires Delivers(calls, wanted, cache) && c !in wanted
    ensures Delivers(calls + [Delivery(c, Data(cache, s))], wanted[c := s], cache)
  {
    var calls' := calls + [Delivery(c, Data(cache, s))];
    assert calls'[|calls|].client == c;
    forall d | d in wanted ensures exists n :: 0 <= n < |calls'| && calls'[n].client == d {
      var n :| 0 <= n < |calls| && calls[n].client == d;
      assert calls'[n].client == d;
    }
  }

  // A client that wants an item of which something is told gets the value that was
  // heeded last, ...
  lemma NotifyDelivers(t: Tables, cache: map<Item, Value>, ds: seq<Incoming>, calls: seq<Delivery>, c: Client, i: Item,
                       last: nat, told: nat)
    requires Delivers(calls, Wanted(t, UpdatedBy(cache, ds)), CacheAll(cache, ds))
    requires i in Get(t.clients, c) && told < |ds| && Tells(cache, ds, told, i)
    requires last < |ds| && Heeded(cache, ds, last, i) && forall k :: last < k < |ds| ==> !Heeded(cache, ds, k, i)
    ensures exists n ::
      && 0 <= n < |calls| && calls[n].client == c
      && i in calls[n].data && calls[n].data[i] == ds[last].value
  {
    var updated := UpdatedBy(cache, ds);
    UpdatedAreTold(cache, ds, i);
    CachedIsLast(cache, ds, i, last);
    assert i in t.clients[c] * updated;
    assert c in Wanted(t, updated);
    var n :| 0 <= n < |calls| && calls[n].client == c;
    assert calls[n].data == Data(CacheAll(cache, ds), t.clients[c] * updated);
  }

  // ... and nobody gets anything else.
  lemma NotifiesOnly(t: Tables, cache: map<Item, Value>, ds: seq<Incoming>, calls: seq<Delivery>, n: nat, i: Item)
    requires Delivers(calls, Wanted(t, UpdatedBy(cache, ds)), CacheAll(cache, ds))
    requires n < |calls| && i in calls[n].data
    ensures i in Get(t.clients, calls[n].client)
    ensures exists k :: 0 <= k < |ds| && Tells(cache, ds, k, i)
  {
    UpdatedAreTold(cache, ds, i);
    assert calls[n].client in Wanted(t, UpdatedBy(cache, ds));
  }

  lemma DataNotEmpty(cache: map<Item, Value>, s: set<Item>)
    requires s != {} && s <= cache.Keys
    ensures Data(cache, s) != map[]
  {
    var i := Element(s);
    assert i in Data(cache, s);
  }

  function But<K, V>(m: map<K, V>, ks: set<K>): map<K, V> {
    map k | k in m && k !in ks :: m[k]
  }

  // Sending a client its items, if there are any, settles that client.
  lemma SendStep(calls: seq<Delivery>, reached: map<Client, set<Item>>, todo: set<Client>, cache: map<Item, Value>,
                 c: Client, s: set<Item>)
    requires Delivers(calls, But(reached, todo), cache) && c in todo && s <= cache.Keys
    requires if s == {} then c !in reached else c in reached && reached[c] == s
    ensures Delivers(calls + if Data(cache, s) ==
      map[] then [] else [Delivery(c, Data(cache, s))], But(reached, todo - {c}), cache)
  {
    if s == {} {
      assert Data(cache, s) == map[];
      assert But(reached, todo - {c}) == But(reached, todo);
      assert calls + [] == calls;
    } else {
      DataNotEmpty(cache, s);
      DeliversOneMore(calls, But(reached, todo), cache, c, s);
      assert But(reached, todo - {c}) == But(reached, todo)[c := s];
    }
  }

  class SystemStatusOsObserver {
    const mClientToDataItems: LocUnorderedSetMap<Client, Item>
    const mDataItemToClients: LocUnorderedSetMap<Item, Client>
    var mDataItemCache: map<Item, Value>
    // What the subscription object has been asked to subscribe, once there is one.
    ghost var framework: Option<set<Item>>
    // The data it has been asked for at once.
    ghost var requested: seq<set<Item>>
    ghost var calls: seq<Delivery>
    var hasSubscriptionObj: bool

    constructor ()
      ensures Valid() && Model() == EMPTY && mDataItemCache == map[] && calls == [] && requested == []
      ensures fresh(mClientToDataItems) && fresh(mDataItemToClients)
    {
      mClientToDataItems := new LocUnorderedSetMap();
      mDataItemToClients := new LocUnorderedSetMap();
      mDataItemCache, framework, requested, calls, hasSubscriptionObj := map[], None, [], [], false;
    }

    ghost predicate Valid()
      reads this
    {
      hasSubscriptionObj == framework.Some? && mClientToDataItems != mDataItemToClients
    }

    ghost function Model(): Tables
      reads this, mClientToDataItems, mDataItemToClients
    {
      Tables(mClientToDataItems.mMap, mDataItemToClients.mMap, framework)
    }

    // The subscription object is asked to subscribe and to unsubscribe items.
    method AskFramework(plus: set<Item>, minus: set<Item>)
      requires Valid()
      modifies this`framework
      ensures Valid() && framework == Ask(old(framework), plus, minus)
    {
      if hasSubscriptionObj {
        framework := Some(framework.value + plus - minus);
      }
    }

    method SendCachedDataItems(s: set<Item>, to: Client)
      modifies this`calls
      ensures calls == old(calls) + if Data(mDataItemCache, s) ==
        map[] then [] else [Delivery(to, Data(mDataItemCache, s))]
    {
      var dataItems: map<Item, Value> := map[];
      var todo := s;
      while todo != {}
        invariant todo <= s && calls == old(calls)
        invariant dataItems == Data(mDataItemCache, s - todo)
        decreases todo
      {
        var each := Pick(todo);
        assert s - (todo - {each}) == (s - todo) + {each};
        if each in mDataItemCache {
          dataItems := dataItems[each := mDataItemCache[each]];
        }
        todo := todo - {each};
      }
      assert s - todo == s;
      if dataItems != map[] {
        calls := calls + [Delivery(to, dataItems)];
      }
    }

    method SetSubscriptionObj()
      requires Valid()
      modifies this
      ensures Valid() && Model() == Step(old(Model()), SetObject)
      ensures mDataItemCache == old(mDataItemCache) && calls == old(calls)
      ensures var items := mDataItemToClients.mMap.Keys;
        requested == old(requested) + if items == {} then [] else [items]
    {
      assert mDataItemToClients.mMap == map[] <==> mDataItemToClients.mMap.Keys == {};
      hasSubscriptionObj := true;
      framework := Some({});
      if mDataItemToClients.mMap != map[] {
        framework := Some(mDataItemToClients.mMap.Keys);
        requested := requested + [mDataItemToClients.mMap.Keys];
      }
    }

    method HandleSubscribe(l: set<Item>, client: Client, toRequestData: bool)
      requires Valid()
      modifies this`framework, this`requested, this`calls, mClientToDataItems, mDataItemToClients
      ensures Valid() && Model() == Step(old(Model()), SubscribeTo(client, l, toRequestData))
      ensures requested == old(requested) + if l != {} && toRequestData && hasSubscriptionObj then [l] else []
      ensures calls == old(calls) + if Data(mDataItemCache, l) ==
        map[] then [] else [Delivery(client, Data(mDataItemCache, l))]
    {
      if l == {} {
        assert Data(mDataItemCache, l) == map[];
        return;
      }
      var toSubscribe := mDataItemToClients.Add(l, {client});
      var _ := mClientToDataItems.Add({client}, l);
      SendCachedDataItems(l, client);
      if toRequestData {
        if hasSubscriptionObj {
          requested := requested + [l];
        }
      } else {
        AskFramework(toSubscribe, {});
      }
      ghost var plus := if toRequestData then {} else l - old(mDataItemToClients.mMap).Keys;
      assert framework.Some? ==> framework.value == Ask(old(framework), plus, {}).value;
    }

    method HandleUpdateSubscription(l: set<Item>, client: Client)
      requires Valid()
      modifies this`framework, this`calls, mClientToDataItems, mDataItemToClients
      ensures Valid() && Model() == Step(old(Model()), Update(client, l))
      ensures var sent := Data(mDataItemCache, l - Get(old(mClientToDataItems.mMap), client));
        calls == old(calls) + if sent == map[] then [] else [Delivery(client, sent)]
    {
      if l == {} {
        assert Data(mDataItemCache, l - Get(mClientToDataItems.mMap, client)) == map[];
        return;
      }
      var common, rest := mClientToDataItems.Update(client, l);
      var toUnsubscribe, _ := mDataItemToClients.TrimOrRemove(common, {client});
      var toSubscribe := mDataItemToClients.Add(rest, {client});
      assert rest == l - Get(old(mClientToDataItems.mMap), client);
      SendCachedDataItems(rest, client);
      AskFramework(toSubscribe, toUnsubscribe);
    }

    method HandleUnsubscribe(l: set<Item>, client: Client)
      requires Valid()
      modifies this`framework, mClientToDataItems, mDataItemToClients
      ensures Valid() && Model() == Step(old(Model()), Unsubscribe(client, l))
    {
      if l == {} {
        return;
      }
      var _, unused := mClientToDataItems.TrimOrRemove({client}, l);
      assert unused == Get(old(mClientToDataItems.mMap), client) * l;
      var toUnsubscribe, _ := mDataItemToClients.TrimOrRemove(unused, {client});
      AskFramework({}, toUnsubscribe);
    }

    method HandleUnsubscribeAll(client: Client)
      requires Valid()
      modifies this`framework, mClientToDataItems, mDataItemToClients
      ensures Valid() && Model() == Step(old(Model()), UnsubscribeAll(client))
    {
      var items := mClientToDataItems.GetValSet(client);
      if items != {} {
        mClientToDataItems.Remove(client);
        var toUnsubscribe, _ := mDataItemToClients.TrimOrRemove(items, {client});
        AskFramework({}, toUnsubscribe);
      }
    }
  
    method UpdateCache(d: Incoming) returns (updated: bool)
      modifies this`mDataItemCache
      ensures mDataItemCache == Cached(old(mDataItemCache), d) && updated == Updates(old(mDataItemCache), d)
    {
      updated := false;
      if d.Incoming? && d.taken {
        if d.id !in mDataItemCache {
          if d.creatable {
            mDataItemCache := mDataItemCache[d.id := d.value];
            updated := true;
          }
        } else {
          mDataItemCache := mDataItemCache[d.id := d.value];
          updated := d.updates;
        }
      }
    }

    method UpdateAll(ds: seq<Incoming>) returns (toSend: set<Item>)
      modifies this`mDataItemCache
      ensures mDataItemCache == CacheAll(old(mDataItemCache), ds)
      ensures toSend == UpdatedBy(old(mDataItemCache), ds)
    {
      toSend := {};
      var n := 0;
      while n < |ds|
        invariant n <= |ds|
        invariant CacheAll(mDataItemCache, ds[n..]) == CacheAll(old(mDataItemCache), ds)
        invariant toSend + UpdatedBy(mDataItemCache, ds[n..]) == UpdatedBy(old(mDataItemCache), ds)
      {
        assert ds[n..][1..] == ds[n + 1..];
        var updated := UpdateCache(ds[n]);
        if updated {
          toSend := toSend + {ds[n].id};
        }
        n := n + 1;
      }
    }

    method FindListeners(toSend: set<Item>) returns (clientSet: set<Client>)
      ensures clientSet == Listeners(Model(), toSend)
    {
      clientSet := {};
      var todo := toSend;
      while todo != {}
        invariant todo <= toSend
        invariant clientSet == Listeners(Model(), toSend - todo)
        decreases todo
      {
        var each := Pick(todo);
        assert toSend - (todo - {each}) == (toSend - todo) + {each};
        ListenersOneMore(Model(), toSend - todo, each);
        clientSet := clientSet + mDataItemToClients.GetValSet(each);
        todo := todo - {each};
      }
      assert toSend - todo == toSend;
    }

    // The items of a client that are to be sent.
    method ItemsForClient(client: Client, toSend: set<Item>) returns (items: set<Item>)
      ensures items == Get(mClientToDataItems.mMap, client) * toSend
    {
      items := mClientToDataItems.GetValSet(client);
      ghost var all := items;
      var todo := items;
      while todo != {}
        invariant todo <= items <= all
        invariant items == todo + (all - todo) * toSend
        decreases todo
      {
        var each := Pick(todo);
        if each !in toSend {
          items := items - {each};
        }
        todo := todo - {each};
      }
      assert items == all * toSend;
    }

    // One call to every client found that has some of the items.
    method SendToClients(clientSet: set<Client>, toSend: set<Item>)
      requires clientSet == Listeners(Model(), toSend) && toSend <= mDataItemCache.Keys
      modifies this`calls
      ensures old(calls) <= calls
      ensures Delivers(calls[|old(calls)|..], Reached(Model(), toSend), mDataItemCache)
    {
      ghost var reached := Reached(Model(), toSend);
      var todo := clientSet;
      while todo != {}
        invariant todo <= clientSet && old(calls) <= calls
        invariant Delivers(calls[|old(calls)|..], But(reached, todo), mDataItemCache)
        decreases todo
      {
        var client := Pick(todo);
        var items := ItemsForClient(client, toSend);
        ghost var before := calls[|old(calls)|..];
        SendStep(before, reached, todo, mDataItemCache, client, items);
        SendCachedDataItems(items, client);
        assert calls[|old(calls)|..] == before + calls[|old(calls)| + |before|..];
        todo := todo - {client};
      }
      assert But(reached, todo) == reached;
    }

    method HandleNotify(ds: seq<Incoming>)
      modifies this`mDataItemCache, this`calls
      ensures mDataItemCache == CacheAll(old(mDataItemCache), ds)
      ensures old(calls) <= calls
      ensures var updated := UpdatedBy(old(mDataItemCache), ds);
        && Delivers(calls[|old(calls)|..], Reached(Model(), updated), mDataItemCache)
        && (Inverse(Model()) ==> Delivers(calls[|old(calls)|..], Wanted(Model(), updated), mDataItemCache))
    {
      var toSend := UpdateAll(ds);
      UpdatedAreCached(old(mDataItemCache), ds);
      var clientSet := FindListeners(toSend);
      SendToClients(clientSet, toSend);
      if Inverse(Model()) {
        ReachedIsWanted(Model(), toSend);
      }
    }
  }
}
