/** What the status observer says, and to whom, at most: to clients, to subscription objects,
    and what it remembers of the reports. */
module SubscriptionCalls {
  import opened SetMap
  import opened Subscription
  import opened SubscriptionGuarantees

  // ---------------------------------------------------------------- what clients are told

  /** One call with the cached ones of these items and their values, if there are any. */
  function Call(o: Observer, items: set<Item>): seq<map<Item, Value>> {
    if exists i :: i in items && i in o.cache
    then [map i | i in items && i in o.cache :: o.cache[i]] else []
  }

  lemma SendCachedTells(o: Observer, items: set<Item>, client: Client, c: Client)
    ensures Told(SendCached(o, items, client).told, c) ==
              Told(o.told, c) + if c == client then Call(o, items) else []
  {
    var call := map i | i in items && i in o.cache :: o.cache[i];
    assert call == Select(o.cache, items);
    if i :| i in items && i in o.cache {
      assert i in call;
    }
    assert (forall i :: i !in call) ==> call == map[];
    assert Told(o.told, c) + [] == Told(o.told, c);
  }

  /** A subscriber is told the cached ones of exactly the items it names, in one call, and
      nobody else is told anything. */
  lemma SubscribeTells(o: Observer, l: seq<Item>, client: Client, request: bool, c: Client)
    requires l != [] && client != NULL
    ensures Told(Step(o, Subscribe(l, client, request)).told, c) ==
              Told(o.told, c) + if c == client then Call(o, set i | i in l) else []
  {
    hide SendCached, Added, Tell;
    var o1 := o.(index := Subscribed(o.index, Items(l), client));
    SendCachedTells(o1, Items(l), client, c);
    TellIndex(SendCached(o1, Items(l), client),
              Change(o1.index, Items(l) - o.index.itemClients.Keys, {}), request);
    assert Items(l) == set i | i in l;
    SameCall(o, o1, Items(l));
  }

  lemma SameCall(o: Observer, o1: Observer, items: set<Item>)
    requires o1.cache == o.cache
    ensures Call(o1, items) == Call(o, items)
  {
  }

  /** A client that updates its subscription is told the cached ones of exactly the items it
      names and did not have. */
  lemma UpdateTells(o: Observer, l: seq<Item>, client: Client, c: Client)
    requires l != [] && client != NULL
    ensures Told(Step(o, UpdateSubscription(l, client)).told, c) ==
              Told(o.told, c) +
              if c == client then Call(o, set i | i in l && i !in At(o.index.clientItems, client))
              else []
  {
    hide SendCached, Added, Tell, Trimmed, GoneKeys;
    var novel := Items(l) - At(o.index.clientItems, client);
    SendCachedTells(o, novel, client, c);
    TellIndex(SendCached(o, novel, client), Updated(o.index, Items(l), client), false);
    assert novel == set i | i in l && i !in At(o.index.clientItems, client);
  }

  /** The other messages but notify tell nobody, and neither do calls without items or client. */
  lemma OthersTellNobody(o: Observer, message: Message)
    requires !message.Notify?
    requires message.Subscribe? || message.UpdateSubscription? ==>
               message.l == [] || message.client == NULL
    ensures Step(o, message).told == o.told
  {
    hide Tell, Trimmed, GoneKeys, GoneVals;
    match message
    case Unsubscribe(l, client) => TellIndex(o, Unsubscribed(o.index, Items(l), client), false);
    case UnsubscribeAll(client) => TellIndex(o, UnsubscribedAll(o.index, client), false);
    case _ =>
  }

  /** One more call or none, and a call has items only that are in `items`, with their cached
      values. */
  ghost predicate AtMost(told: seq<map<Item, Value>>, told': seq<map<Item, Value>>,
                         items: set<Item>, cache: map<Item, Value>)
  {
    || told' == told
    || (|told'| == |told| + 1 && told'[..|told|] == told &&
        told'[|told|] != map[] &&
        forall i :: i in told'[|told|] ==> i in items && i in cache && told'[|told|][i] == cache[i])
  }

  /** Over every run, whatever the next message, a client is called at most once, and only with
      items that it is registered for then, at their cached values. */
  lemma ToldOnlyRegistered(messages: seq<Message>, message: Message, c: Client)
    ensures var o' := Run(messages + [message]);
            AtMost(Told(Run(messages).told, c), Told(o'.told, c),
                   Registered(messages + [message], c), o'.cache)
  {
    hide Run, Registered, At, Call;
    var o := Run(messages);
    RunSnoc(messages, message);
    MapsTell(messages + [message], c, 0);
    RegisteredStep(o, message, c);
    var items := At(Step(o, message).index.clientItems, c);
    match message
    case Notify(reports) => NotifyAtMost(o, reports, c);
    case Subscribe(l, client, request) =>
      if l == [] || client == NULL {
        OthersTellNobody(o, message);
      } else {
        SubscribeTells(o, l, client, request, c);
        KeepsCache(o, message);
        if c == client {
          CallAtMost(o, (set i | i in l), items, Told(o.told, c));
        }
      }
    case UpdateSubscription(l, client) =>
      if l == [] || client == NULL {
        OthersTellNobody(o, message);
      } else {
        UpdateTells(o, l, client, c);
        KeepsCache(o, message);
        if c == client {
          CallAtMost(o, (set i | i in l && i !in At(o.index.clientItems, client)), items,
                     Told(o.told, c));
        }
      }
    case _ => OthersTellNobody(o, message);
  }

  lemma KeepsCache(o: Observer, message: Message)
    requires !message.Notify?
    ensures Step(o, message).cache == o.cache
  {
    hide Added, Trimmed, GoneKeys, GoneVals;
  }

  lemma CallAtMost(o: Observer, named: set<Item>, items: set<Item>, told: seq<map<Item, Value>>)
    requires named <= items
    ensures AtMost(told, told + Call(o, named), items, o.cache)
  {
    if i :| i in named && i in o.cache {
      var call := map i | i in named && i in o.cache :: o.cache[i];
      assert i in call;
      assert Call(o, named) == [call];
    } else {
      assert told + [] == told;
    }
  }

  lemma NotifyAtMost(o: Observer, reports: seq<Report>, c: Client)
    ensures var o' := Step(o, Notify(reports));
            AtMost(Told(o.told, c), Told(o'.told, c), At(o'.index.clientItems, c), o'.cache)
  {
    hide Changed, CachedAll, At, Audience, SendAll, Step;
    NotifyTells(o, reports, c);
    var items := At(o.index.clientItems, c) * Changed(o.cache, reports);
    assert Told(o.told, c) + [] == Told(o.told, c);
    if items != {} {
      HasMember(items);
      var i :| i in items;
      assert i in Select(Step(o, Notify(reports)).cache, items);
    }
  }

  // ---------------------------------------------------------------- what objects are told

  /** A new subscription object is asked for all keys twice, to be told of changes and to be
      told at once, unless there are none; nothing else happens.  The null object is ignored. */
  lemma SetObjectCalls(o: Observer, obj: int)
    ensures var o' := Step(o, SetSubscriptionObj(obj));
            && o'.index == o.index && o'.cache == o.cache && o'.told == o.told
            && o'.obj == (if obj == 0 then o.obj else obj)
            && o'.calls == o.calls +
                 if obj == 0 || o.index.itemClients.Keys == {} then []
                 else [Ask(obj, o.index.itemClients.Keys, false),
                       Ask(obj, o.index.itemClients.Keys, true)]
  {
    assert o.index.itemClients == map[] <==> o.index.itemClients.Keys == {};
  }

  // ---------------------------------------------------------------- what is remembered

  /** The value of the latest report of the item that was accepted. */
  function LatestReport(reports: seq<Report>, i: Item): Heard {
    if reports == [] then Nothing
    else
      var last := reports[|reports| - 1];
      if last.accepted && last.id == i then Heard.Value(last.value)
      else LatestReport(reports[..|reports| - 1], i)
  }

  function InCache(cache: map<Item, Value>, i: Item): Heard {
    if i in cache then Heard.Value(cache[i]) else Nothing
  }

  function OrElse(a: Heard, b: Heard): Heard {
    if a == Nothing then b else a
  }

  lemma {:induction false} CachesLatest(cache: map<Item, Value>, reports: seq<Report>, i: Item)
    ensures InCache(CachedAll(cache, reports), i) ==
              OrElse(LatestReport(reports, i), InCache(cache, i))
  {
    if reports != [] {
      CachesLatest(cache, reports[..|reports| - 1], i);
    }
  }

  /** The k-th report changes what is remembered of the item. */
  predicate ChangesItem(cache: map<Item, Value>, reports: seq<Report>, i: Item, k: nat) {
    && k < |reports| && reports[k].accepted && reports[k].id == i
    && OrElse(LatestReport(reports[..k], i), InCache(cache, i)) != Heard.Value(reports[k].value)
  }

  /** The items that notify tells of are exactly those of which some report, accepted, gave
      another value than was known when it came. */
  lemma {:induction false} ChangedIff(cache: map<Item, Value>, reports: seq<Report>, i: Item)
    ensures i in Changed(cache, reports) <==> exists k: nat :: ChangesItem(cache, reports, i, k)
  {
    if reports != [] {
      var n := |reports| - 1;
      var init := reports[..n];
      ChangedIff(cache, init, i);
      CachesLatest(cache, init, i);
      forall k: nat | k < n ensures ChangesItem(cache, init, i, k) == ChangesItem(cache, reports, i, k) {
        assert init[..k] == reports[..k];
      }
      if i in Changed(cache, init) {
        var k: nat :| ChangesItem(cache, init, i, k);
        assert ChangesItem(cache, reports, i, k);
      }
      if k: nat :| ChangesItem(cache, reports, i, k) {
        assert k < n ==> ChangesItem(cache, init, i, k);
      }
      assert Changes(CachedAll(cache, init), reports[n]) && reports[n].id == i ==>
             ChangesItem(cache, reports, i, n);
    }
  }

  /** All reports notified, in order. */
  function AllReports(messages: seq<Message>): seq<Report> {
    if messages == [] then []
    else
      var last := messages[|messages| - 1];
      AllReports(messages[..|messages| - 1]) + if last.Notify? then last.reports else []
  }

  lemma {:induction false} CachedAppend(cache: map<Item, Value>, a: seq<Report>, b: seq<Report>)
    ensures CachedAll(cache, a + b) == CachedAll(CachedAll(cache, a), b)
  {
    if b == [] {
      assert a + b == a;
    } else {
      assert (a + b)[..|a + b| - 1] == a + b[..|b| - 1];
      CachedAppend(cache, a, b[..|b| - 1]);
    }
  }

  lemma {:induction false} CacheOfReports(messages: seq<Message>)
    ensures Run(messages).cache == CachedAll(map[], AllReports(messages))
  {
    hide Step;
    if messages == [] {
      NothingCached();
    } else {
      var init, last := messages[..|messages| - 1], messages[|messages| - 1];
      CacheOfReports(init);
      if last.Notify? {
        NotifyTells(Run(init), last.reports, 0);
        CachedAppend(map[], AllReports(init), last.reports);
      } else {
        KeepsCache(Run(init), last);
        assert AllReports(init) + [] == AllReports(init);
      }
    }
  }

  lemma NothingCached()
    ensures Run([]).cache == map[] && CachedAll(map[], []) == map[]
  {
  }

  /** Over every run the cache holds the latest accepted report of every item. */
  lemma CacheIsLatest(messages: seq<Message>, i: Item)
    ensures InCache(Run(messages).cache, i) == LatestReport(AllReports(messages), i)
  {
    CacheOfReports(messages);
    CachesLatest(map[], AllReports(messages), i);
  }
}
