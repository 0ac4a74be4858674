/** The system status observer as the program runs it, on its two set-maps and its cache.
    Handling a message performs exactly the step of Subscription. */
module ObserverProgram {
  import opened SetMap
  import opened Subscription

  class SystemStatusOsObserver {
    const mClientToDataItems: LocUnorderedSetMap<Client, Item>
    const mDataItemToClients: LocUnorderedSetMap<Item, Client>
    var mDataItemCache: map<Item, Value>
    var mSubscriptionObj: int
    ghost var told: map<Client, seq<map<Item, Value>>>
    ghost var calls: seq<FrameworkCall>

    ghost predicate Valid() {
      mClientToDataItems != mDataItemToClients
    }

    ghost function Model(): Observer
      reads this, mClientToDataItems, mDataItemToClients
    {
      Observer(Index(mClientToDataItems.mMap, mDataItemToClients.mMap), mDataItemCache, told,
               mSubscriptionObj, calls)
    }

    constructor ()
      ensures Valid() && Model() == Run([])
      ensures fresh(mClientToDataItems) && fresh(mDataItemToClients)
    {
      mClientToDataItems := new LocUnorderedSetMap();
      mDataItemToClients := new LocUnorderedSetMap();
      mDataItemCache, mSubscriptionObj, told, calls := map[], NULL, map[], [];
    }

    method SendCachedDataItems(s: set<Item>, to: Client)
      modifies this`told
      ensures Model() == SendCached(old(Model()), s, to)
    {
      var dataItems: map<Item, Value> := map[];
      var todo := s;
      while todo != {}
        invariant todo <= s && dataItems == Select(mDataItemCache, s - todo)
        invariant Model() == old(Model())
      {
        var each := Pick(todo);
        if each in mDataItemCache {
          dataItems := dataItems[each := mDataItemCache[each]];
        }
        todo := todo - {each};
      }
      assert s - todo == s;
      SendCachedIs(Model(), s, to, dataItems);
      if dataItems != map[] {
        told := told[to := Told(told, to) + [dataItems]];
      }
    }

    /** Calls the framework with what changed, if it is there and anything did. */
    method TellFramework(ask: set<Item>, unask: set<Item>, request: bool)
      modifies this`calls
      ensures Model() == Tell(old(Model()), Change(Model().index, ask, unask), request)
    {
      if mSubscriptionObj != NULL {
        if ask != {} {
          calls := calls + [Ask(mSubscriptionObj, ask, request)];
        }
        if unask != {} {
          calls := calls + [Unask(mSubscriptionObj, unask)];
        }
      }
    }

    method ToSet(l: seq<Item>) returns (s: set<Item>)
      ensures s == Items(l)
    {
      s := {};
      for n := 0 to |l|
        invariant s == Items(l[..n])
      {
        assert l[..n + 1] == l[..n] + [l[n]];
        s := s + {l[n]};
      }
      assert l[..|l|] == l;
    }

    method Subscribe(l: seq<Item>, client: Client, toRequestData: bool)
      requires Valid()
      modifies this, mClientToDataItems, mDataItemToClients
      ensures Model() == Step(old(Model()), Message.Subscribe(l, client, toRequestData))
    {
      hide Added;
      if l == [] || client == NULL {
        return;
      }
      var items := ToSet(l);
      var dataItemsToSubscribe := mDataItemToClients.Add(items, {client});
      var _ := mClientToDataItems.AddEntry(client, items);
      SendCachedDataItems(items, client);
      TellFramework(dataItemsToSubscribe, {}, toRequestData);
    }

    method UpdateSubscription(l: seq<Item>, client: Client)
      requires Valid()
      modifies this, mClientToDataItems, mDataItemToClients
      ensures Model() == Step(old(Model()), Message.UpdateSubscription(l, client))
    {
      hide Added, Trimmed, GoneKeys, Select;
      if l == [] || client == NULL {
        return;
      }
      var items := ToSet(l);
      assert l[0] in items;
      var unused, novel := mClientToDataItems.Update(client, items);
      var dataItemsToUnsubscribe, _ := mDataItemToClients.TrimOrRemove(unused, {client});
      var dataItemsToSubscribe := mDataItemToClients.Add(novel, {client});
      SendCachedDataItems(novel, client);
      TellFramework(dataItemsToSubscribe, dataItemsToUnsubscribe, false);
    }

    method Unsubscribe(l: seq<Item>, client: Client)
      requires Valid()
      modifies this, mClientToDataItems, mDataItemToClients
      ensures Model() == Step(old(Model()), Message.Unsubscribe(l, client))
    {
      hide Trimmed, GoneKeys, GoneVals;
      if l == [] || client == NULL {
        return;
      }
      var items := ToSet(l);
      var _, unusedByClient := mClientToDataItems.TrimOrRemove({client}, items);
      var dataItemsToUnsubscribe, _ := mDataItemToClients.TrimOrRemove(unusedByClient, {client});
      TellFramework({}, dataItemsToUnsubscribe, false);
    }

    method UnsubscribeAll(client: Client)
      requires Valid()
      modifies this, mClientToDataItems, mDataItemToClients
      ensures Model() == Step(old(Model()), Message.UnsubscribeAll(client))
    {
      hide Trimmed, GoneKeys;
      if client == NULL {
        return;
      }
      var diByClient := mClientToDataItems.GetValSet(client);
      if diByClient != {} {
        var _ := mClientToDataItems.Remove(client);
        var dataItemsToUnsubscribe, _ := mDataItemToClients.TrimOrRemove(diByClient, {client});
        TellFramework({}, dataItemsToUnsubscribe, false);
      }
    }

    method SetSubscriptionObj(subscriptionObj: int)
      modifies this
      ensures Model() == Step(old(Model()), Message.SetSubscriptionObj(subscriptionObj))
    {
      if subscriptionObj == NULL {
        return;
      }
      mSubscriptionObj := subscriptionObj;
      if mDataItemToClients.mMap != map[] {
        var dis := mDataItemToClients.GetKeys();
        calls := calls + [Ask(subscriptionObj, dis, false)];
        calls := calls + [Ask(subscriptionObj, dis, true)];
      }
    }

    /** Records an accepted report; returns whether the cached value is new. */
    method UpdateCache(d: Report) returns (dataItemUpdated: bool)
      modifies this`mDataItemCache
      ensures dataItemUpdated == Changes(old(mDataItemCache), d)
      ensures mDataItemCache == Cached(old(mDataItemCache), d)
    {
      dataItemUpdated := false;
      if d.accepted {
        if d.id !in mDataItemCache {
          mDataItemCache := mDataItemCache[d.id := d.value];
          dataItemUpdated := true;
        } else {
          dataItemUpdated := mDataItemCache[d.id] != d.value;
          mDataItemCache := mDataItemCache[d.id := d.value];
        }
      }
    }

    method UpdateAll(reports: seq<Report>) returns (toBeSent: set<Item>)
      modifies this`mDataItemCache
      ensures toBeSent == Changed(old(mDataItemCache), reports)
      ensures mDataItemCache == CachedAll(old(mDataItemCache), reports)
    {
      toBeSent := {};
      for n := 0 to |reports|
        invariant toBeSent == Changed(old(mDataItemCache), reports[..n])
        invariant mDataItemCache == CachedAll(old(mDataItemCache), reports[..n])
      {
        assert reports[..n + 1][..n] == reports[..n];
        var updated := UpdateCache(reports[n]);
        if updated {
          toBeSent := toBeSent + {reports[n].id};
        }
      }
      assert reports[..|reports|] == reports;
    }

    method ClientsOf(items: set<Item>) returns (clientSet: set<Client>)
      ensures clientSet == Audience(Model().index, items)
    {
      clientSet := {};
      var todo := items;
      ghost var done: set<Item> := {};
      while todo != {}
        invariant todo !! done && todo + done == items
        invariant clientSet == Audience(Model().index, done)
      {
        var each := Pick(todo);
        AudienceOneMore(Model().index, done, each);
        var clients := mDataItemToClients.GetValSet(each);
        clientSet := clientSet + clients;
        todo, done := todo - {each}, done + {each};
      }
      assert done == items;
    }

    method Intersect(own: set<Item>, toBeSent: set<Item>) returns (left: set<Item>)
      ensures left == own * toBeSent
    {
      left := own;
      var todo := own;
      while todo != {}
        invariant todo <= own && left == own - ((own - todo) - toBeSent)
      {
        var each := Pick(todo);
        if each !in toBeSent {
          left := left - {each};
        }
        todo := todo - {each};
      }
    }

    method Notify(reports: seq<Report>)
      requires Valid()
      modifies this
      ensures Model() == Step(old(Model()), Message.Notify(reports))
    {
      var toBeSent := UpdateAll(reports);
      var clientSet := ClientsOf(toBeSent);
      ghost var o := Model();
      ghost var done: set<Client> := {};
      var todo := clientSet;
      hide At, Select, SendCached;
      SendNone(o, toBeSent);
      while todo != {}
        invariant todo !! done && todo + done == clientSet
        invariant Model() == SendAll(o, done, toBeSent)
      {
        var client := Pick(todo);
        SendOneMore(o, done, toBeSent, client);
        var own := mClientToDataItems.GetValSet(client);
        var forThisClient := Intersect(own, toBeSent);
        SendCachedDataItems(forThisClient, client);
        todo, done := todo - {client}, done + {client};
      }
      assert done == clientSet;
    }
  }

  lemma SendCachedIs(o: Observer, items: set<Item>, client: Client, call: map<Item, Value>)
    requires call == Select(o.cache, items)
    ensures SendCached(o, items, client) ==
              if call == map[] then o
              else o.(told := o.told[client := Told(o.told, client) + [call]])
  {
  }

  lemma SendNone(o: Observer, items: set<Item>)
    ensures SendAll(o, {}, items) == o
  {
    hide News;
    var told := SendAll(o, {}, items).told;
    assert told.Keys == o.told.Keys;
    forall c | c in told ensures told[c] == o.told[c] {
      assert o.told[c] + [] == o.told[c];
    }
    assert told == o.told;
  }

  lemma AudienceOneMore(ix: Index, items: set<Item>, i: Item)
    ensures Audience(ix, items + {i}) == Audience(ix, items) + At(ix.itemClients, i)
  {
    var all := Audience(ix, items + {i});
    forall c | c in Audience(ix, items) + At(ix.itemClients, i) ensures c in all {
      if c in Audience(ix, items) {
        var j :| j in items && j in ix.itemClients && c in ix.itemClients[j];
        assert j in items + {i};
      } else {
        assert i in items + {i};
      }
    }
  }

  lemma SendOneMore(o: Observer, clients: set<Client>, items: set<Item>, client: Client)
    requires client !in clients
    ensures var o' := SendAll(o, clients, items);
            SendCached(o', At(o'.index.clientItems, client) * items, client)
              == SendAll(o, clients + {client}, items)
  {
    hide At, Select;
    var o', o2 := SendAll(o, clients, items), SendAll(o, clients + {client}, items);
    var call := News(o, items, client);
    assert Told(o'.told, client) == Told(o.told, client);
    assert o2.told == if call == map[] then o'.told
                      else o'.told[client := Told(o.told, client) + [call]];
  }
}
