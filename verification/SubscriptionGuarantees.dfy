/** What the status observer guarantees its clients and the framework over whole runs. */
module SubscriptionGuarantees {
  import opened SetMap
  import opened Subscription

  // ---------------------------------------------------------------- who is registered

  /** The items a client has asked for and not given up, from the messages alone. */
  function Registered(messages: seq<Message>, c: Client): set<Item> {
    if messages == [] then {}
    else
      var had, last := Registered(messages[..|messages| - 1], c), messages[|messages| - 1];
      if c == NULL then {}
      else
        match last
        case Subscribe(l, client, _) => if client == c then had + Items(l) else had
        case UpdateSubscription(l, client) => if client == c && l != [] then Items(l) else had
        case Unsubscribe(l, client) => if client == c then had - Items(l) else had
        case UnsubscribeAll(client) => if client == c then {} else had
        case _ => had
  }

  /** Whether changes of the item lead to the client, from the messages alone.  An update that
      names an item the client already had takes the client off it. */
  predicate Served(messages: seq<Message>, c: Client, i: Item) {
    messages != [] && c != NULL &&
    var init, last := messages[..|messages| - 1], messages[|messages| - 1];
    var was, had := Served(init, c, i), i in Registered(init, c);
    match last
    case Subscribe(l, client, _) => was || (client == c && i in l)
    case UpdateSubscription(l, client) => if client == c && i in l then !had else was
    case Unsubscribe(l, client) => was && !(client == c && i in l && had)
    case UnsubscribeAll(client) => was && !(client == c && had)
    case _ => was
  }

  lemma RegisteredStep(o: Observer, message: Message, c: Client)
    ensures At(Step(o, message).index.clientItems, c) ==
              var had := At(o.index.clientItems, c);
              if c == NULL then had
              else
                match message
                case Subscribe(l, client, _) => if client == c then had + Items(l) else had
                case UpdateSubscription(l, client) =>
                  if client == c && l != [] then Items(l) else had
                case Unsubscribe(l, client) => if client == c then had - Items(l) else had
                case UnsubscribeAll(client) => if client == c then {} else had
                case _ => had
  {
    hide Added, Trimmed, GoneVals, GoneKeys, SendCached, Changed, CachedAll, Tell;
    match message
    case Subscribe(l, client, _) =>
      AddedAt(o.index.clientItems, {client}, Items(l), c);
      var o1 := o.(index := Subscribed(o.index, Items(l), client));
      SendCachedKeeps(o1, Items(l), client);
      TellIndex(SendCached(o1, Items(l), client),
                Change(o1.index, Items(l) - o.index.itemClients.Keys, {}), message.request);
    case UpdateSubscription(l, client) =>
      TellIndex(SendCached(o, Items(l) - At(o.index.clientItems, client), client),
                Updated(o.index, Items(l), client), false);
    case Unsubscribe(l, client) =>
      TrimmedAt(o.index.clientItems, {client}, Items(l), c);
      TellIndex(o, Unsubscribed(o.index, Items(l), client), false);
    case UnsubscribeAll(client) => TellIndex(o, UnsubscribedAll(o.index, client), false);
    case _ =>
  }

  lemma TellIndex(o: Observer, change: Change, request: bool)
    ensures Tell(o, change, request).index == change.index
    ensures Tell(o, change, request).told == o.told && Tell(o, change, request).cache == o.cache
  {
  }

  lemma ServedStep(o: Observer, message: Message, c: Client, i: Item)
    requires c != NULL
    ensures var was, had := c in At(o.index.itemClients, i), i in At(o.index.clientItems, c);
            c in At(Step(o, message).index.itemClients, i) <==>
              match message
              case Subscribe(l, client, _) => was || (client == c && i in l)
              case UpdateSubscription(l, client) => if client == c && i in l then !had else was
              case Unsubscribe(l, client) => was && !(client == c && i in l && had)
              case UnsubscribeAll(client) => was && !(client == c && had)
              case _ => was
  {
    hide Added, Trimmed, GoneKeys, SendCached, Changed, CachedAll, Tell, At;
    var ix := o.index;
    match message
    case Subscribe(l, client, _) =>
      AddedAt(ix.itemClients, Items(l), {client}, i);
      var o1 := o.(index := Subscribed(ix, Items(l), client));
      SendCachedKeeps(o1, Items(l), client);
      TellIndex(SendCached(o1, Items(l), client),
                Change(o1.index, Items(l) - ix.itemClients.Keys, {}), message.request);
    case UpdateSubscription(l, client) =>
      var had := At(ix.clientItems, client);
      ReplacedAt(ix, Items(l), client, had * Items(l), Items(l) - had, c, i);
      TellIndex(SendCached(o, Items(l) - had, client), Updated(ix, Items(l), client), false);
    case Unsubscribe(l, client) =>
      var unused := GoneVals(ix.clientItems, {client}, Items(l));
      UnusedIs(ix, Items(l), client, i);
      TrimmedAt(ix.itemClients, unused, {client}, i);
      TellIndex(o, Unsubscribed(ix, Items(l), client), false);
    case UnsubscribeAll(client) =>
      TrimmedAt(ix.itemClients, At(ix.clientItems, client), {client}, i);
      TellIndex(o, UnsubscribedAll(ix, client), false);
    case _ =>
  }

  lemma UnusedIs(ix: Index, items: set<Item>, client: Client, i: Item)
    ensures i in GoneVals(ix.clientItems, {client}, items) <==>
              i in At(ix.clientItems, client) && i in items
  {
    if i in At(ix.clientItems, client) && i in items {
      assert client in {client};
    }
  }

  lemma {:induction false} NullIsNobody(messages: seq<Message>, i: Item)
    ensures At(Run(messages).index.clientItems, NULL) == {}
    ensures NULL !in At(Run(messages).index.itemClients, i)
  {
    if messages != [] {
      var init, last := messages[..|messages| - 1], messages[|messages| - 1];
      NullIsNobody(init, i);
      RegisteredStep(Run(init), last, NULL);
      NullStep(Run(init), last, i);
    }
  }

  lemma NullStep(o: Observer, message: Message, i: Item)
    requires NULL !in At(o.index.itemClients, i)
    ensures NULL !in At(Step(o, message).index.itemClients, i)
  {
    hide Added, Trimmed, GoneKeys, GoneVals, SendCached, Changed, CachedAll, Tell, At;
    var ix := o.index;
    match message
    case Subscribe(l, client, _) =>
      AddedAt(ix.itemClients, Items(l), {client}, i);
      var o1 := o.(index := Subscribed(ix, Items(l), client));
      SendCachedKeeps(o1, Items(l), client);
      TellIndex(SendCached(o1, Items(l), client),
                Change(o1.index, Items(l) - ix.itemClients.Keys, {}), message.request);
    case UpdateSubscription(l, client) =>
      var had := At(ix.clientItems, client);
      ReplacedAt(ix, Items(l), client, had * Items(l), Items(l) - had, NULL, i);
      TellIndex(SendCached(o, Items(l) - had, client), Updated(ix, Items(l), client), false);
    case Unsubscribe(l, client) =>
      TrimmedAt(ix.itemClients, GoneVals(ix.clientItems, {client}, Items(l)), {client}, i);
      TellIndex(o, Unsubscribed(ix, Items(l), client), false);
    case UnsubscribeAll(client) =>
      TrimmedAt(ix.itemClients, At(ix.clientItems, client), {client}, i);
      TellIndex(o, UnsubscribedAll(ix, client), false);
    case _ =>
  }

  /** Over every run, literal updates included, the two maps tell exactly who is registered
      for what and who is served what. */
  lemma {:induction false} MapsTell(messages: seq<Message>, c: Client, i: Item)
    ensures var ix := Run(messages).index;
            && At(ix.clientItems, c) == Registered(messages, c)
            && (c in At(ix.itemClients, i) <==> Served(messages, c, i))
  {
    hide Step, At;
    NullIsNobody(messages, i);
    if c == NULL {
      NullIsNotRegistered(messages);
    } else if messages != [] {
      var init, last := messages[..|messages| - 1], messages[|messages| - 1];
      MapsTell(init, c, i);
      RegisteredStep(Run(init), last, c);
      ServedStep(Run(init), last, c, i);
    } else {
      NothingAt(c, i);
    }
  }

  lemma NothingAt(c: Client, i: Item)
    ensures At(Run([]).index.clientItems, c) == {} && At(Run([]).index.itemClients, i) == {}
  {
  }

  lemma NullIsNotRegistered(messages: seq<Message>)
    ensures Registered(messages, NULL) == {}
  {
  }

  lemma {:induction false} NoEntryIsEmpty(messages: seq<Message>)
    ensures NoEmptySet(Run(messages).index.clientItems)
    ensures NoEmptySet(Run(messages).index.itemClients)
  {
    if messages != [] {
      NoEntryIsEmpty(messages[..|messages| - 1]);
      NoEmptyStep(Run(messages[..|messages| - 1]), messages[|messages| - 1]);
    }
  }

  lemma NoEmptyStep(o: Observer, message: Message)
    requires NoEmptySet(o.index.clientItems) && NoEmptySet(o.index.itemClients)
    ensures NoEmptySet(Step(o, message).index.clientItems)
    ensures NoEmptySet(Step(o, message).index.itemClients)
  {
    hide Added, Trimmed, GoneKeys, GoneVals, SendCached, Changed, CachedAll, Tell, At, Replaced,
      NoEmptySet;
    var ix := o.index;
    match message
    case Subscribe(l, client, _) =>
      AddedAt(ix.clientItems, {client}, Items(l), client);
      AddedAt(ix.itemClients, Items(l), {client}, 0);
      var o1 := o.(index := Subscribed(ix, Items(l), client));
      SendCachedKeeps(o1, Items(l), client);
      TellIndex(SendCached(o1, Items(l), client),
                Change(o1.index, Items(l) - ix.itemClients.Keys, {}), message.request);
    case UpdateSubscription(l, client) =>
      if l != [] {
        assert l[0] in Items(l);
        var had := At(ix.clientItems, client);
        ReplacedNoEmpty(ix, Items(l), client, had * Items(l), Items(l) - had);
        TellIndex(SendCached(o, Items(l) - had, client), Updated(ix, Items(l), client), false);
      }
    case Unsubscribe(l, client) =>
      TrimmedKeys(ix.clientItems, {client}, Items(l));
      TrimmedKeys(ix.itemClients, GoneVals(ix.clientItems, {client}, Items(l)), {client});
      TellIndex(o, Unsubscribed(ix, Items(l), client), false);
    case UnsubscribeAll(client) =>
      WithoutKey(ix.clientItems, client);
      TrimmedKeys(ix.itemClients, At(ix.clientItems, client), {client});
      TellIndex(o, UnsubscribedAll(ix, client), false);
    case _ =>
  }

  lemma WithoutKey(m: map<Client, set<Item>>, key: Client)
    ensures NoEmptySet(m) ==> NoEmptySet(m - {key})
  {
  }

  // ---------------------------------------------------------------- who is silent, and who stale

  /** The k-th message is a literal update of the client's that names the item though the client
      had it, and since then the client has neither given the item up nor subscribed to it. */
  ghost predicate SilentSince(messages: seq<Message>, c: Client, i: Item, k: nat) {
    && k < |messages| && messages[k].UpdateSubscription?
    && messages[k].client == c && i in messages[k].l && i in Registered(messages[..k], c)
    && forall j :: k < j < |messages| ==>
         i in Registered(messages[..j], c) && !Subscribes(messages[j], c, i)
  }

  predicate Subscribes(message: Message, c: Client, i: Item) {
    message.Subscribe? && message.client == c && i in message.l
  }

  ghost predicate Silent(messages: seq<Message>, c: Client, i: Item) {
    i in Registered(messages, c) && exists k: nat :: SilentSince(messages, c, i, k)
  }

  /** The k-th message is a literal update that dropped the item while the client was told of
      it, and the client has not come back to it since. */
  ghost predicate StaleSince(messages: seq<Message>, c: Client, i: Item, k: nat) {
    && k < |messages| && messages[k].UpdateSubscription?
    && messages[k].client == c && messages[k].l != [] && i !in messages[k].l
    && i in Registered(messages[..k], c) && !Silent(messages[..k], c, i)
    && forall j :: k < j <= |messages| ==> i !in Registered(messages[..j], c)
  }

  ghost predicate Stale(messages: seq<Message>, c: Client, i: Item) {
    exists k: nat :: StaleSince(messages, c, i, k)
  }

  lemma PrefixOfInit(messages: seq<Message>, k: nat)
    requires k < |messages|
    ensures messages[..|messages| - 1][..k] == messages[..k]
  {
  }

  lemma SilentSinceSnoc(messages: seq<Message>, c: Client, i: Item, k: nat)
    requires k < |messages| - 1
    ensures var init, last := messages[..|messages| - 1], messages[|messages| - 1];
            SilentSince(messages, c, i, k) <==>
              SilentSince(init, c, i, k) && i in Registered(init, c) && !Subscribes(last, c, i)
  {
    hide Registered;
    var n := |messages| - 1;
    var init := messages[..n];
    forall j | 0 <= j <= n ensures init[..j] == messages[..j] {
      PrefixOfInit(messages, j);
    }
    assert init[..n] == init;
    if SilentSince(messages, c, i, k) {
      assert i in Registered(messages[..n], c) && !Subscribes(messages[n], c, i);
    }
  }

  /** What an item leads to, for a client that is registered for it, in closed form. */
  lemma {:induction false} ServedUnlessSilent(messages: seq<Message>, c: Client, i: Item)
    requires i in Registered(messages, c)
    ensures Served(messages, c, i) <==> !Silent(messages, c, i)
  {
    var init, last := messages[..|messages| - 1], messages[|messages| - 1];
    var n := |messages| - 1;
    if last.UpdateSubscription? && last.client == c && i in last.l {
      SilentByLast(messages, c, i);
    } else {
      SilentCarries(messages, c, i);
      if i in Registered(init, c) {
        ServedUnlessSilent(init, c, i);
      }
    }
  }

  lemma SilentByLast(messages: seq<Message>, c: Client, i: Item)
    requires messages != [] && i in Registered(messages, c)
    requires var last := messages[|messages| - 1];
             last.UpdateSubscription? && last.client == c && i in last.l
    ensures Silent(messages, c, i) <==> i in Registered(messages[..|messages| - 1], c)
  {
    hide Registered;
    var n := |messages| - 1;
    if i in Registered(messages[..n], c) {
      assert SilentSince(messages, c, i, n);
    } else {
      forall k: nat ensures !SilentSince(messages, c, i, k) {
        if k < n {
          SilentSinceSnoc(messages, c, i, k);
        }
      }
    }
  }

  lemma SilentCarries(messages: seq<Message>, c: Client, i: Item)
    requires messages != [] && i in Registered(messages, c)
    requires var last := messages[|messages| - 1];
             !(last.UpdateSubscription? && last.client == c && i in last.l)
    ensures var init, last := messages[..|messages| - 1], messages[|messages| - 1];
            Silent(messages, c, i) <==> Silent(init, c, i) && !Subscribes(last, c, i)
  {
    hide Registered;
    var n := |messages| - 1;
    var init := messages[..n];
    if k: nat :| SilentSince(messages, c, i, k) {
      SilentSinceSnoc(messages, c, i, k);
    }
    if Silent(init, c, i) && !Subscribes(messages[n], c, i) {
      var k: nat :| SilentSince(init, c, i, k);
      SilentSinceSnoc(messages, c, i, k);
    }
  }

  /** And for a client that is not. */
  lemma {:induction false} ServedIfStale(messages: seq<Message>, c: Client, i: Item)
    requires i !in Registered(messages, c)
    ensures Served(messages, c, i) <==> Stale(messages, c, i)
  {
    if messages == [] {
      NothingStale(c, i);
    } else {
      var init, last := messages[..|messages| - 1], messages[|messages| - 1];
      if i in Registered(init, c) {
        ServedUnlessSilent(init, c, i);
        StaleByLast(messages, c, i);
      } else {
        ServedIfStale(init, c, i);
        StaleCarries(messages, c, i);
      }
    }
  }

  lemma NothingStale(c: Client, i: Item)
    ensures !Stale([], c, i)
  {
  }

  lemma StaleByLast(messages: seq<Message>, c: Client, i: Item)
    requires messages != [] && i !in Registered(messages, c)
    requires i in Registered(messages[..|messages| - 1], c)
    ensures var init, last := messages[..|messages| - 1], messages[|messages| - 1];
            Stale(messages, c, i) <==>
              && last.UpdateSubscription? && last.client == c && last.l != [] && i !in last.l
              && !Silent(init, c, i)
  {
    hide Registered, Silent;
    var n := |messages| - 1;
    assert messages[..n + 1] == messages;
    if k: nat :| StaleSince(messages, c, i, k) {
      assert k <= n;
    }
    var last := messages[n];
    if last.UpdateSubscription? && last.client == c && last.l != [] && i !in last.l &&
       !Silent(messages[..n], c, i) {
      assert StaleSince(messages, c, i, n);
    }
  }

  lemma StaleCarries(messages: seq<Message>, c: Client, i: Item)
    requires messages != [] && i !in Registered(messages, c)
    requires i !in Registered(messages[..|messages| - 1], c)
    ensures Stale(messages, c, i) <==> Stale(messages[..|messages| - 1], c, i)
  {
    hide Registered, Silent;
    var n := |messages| - 1;
    var init := messages[..n];
    assert messages[..n + 1] == messages && init[..n] == init;
    forall j | 0 <= j <= n ensures init[..j] == messages[..j] {
      PrefixOfInit(messages, j);
    }
    if k: nat :| StaleSince(messages, c, i, k) {
      assert StaleSince(init, c, i, k);
    }
    if k: nat :| StaleSince(init, c, i, k) {
      assert StaleSince(messages, c, i, k);
    }
  }

  /** Over every run the maps are inverse exactly when no client is silent on an item and none
      is still led to by one that it dropped. */
  lemma InverseIff(messages: seq<Message>)
    ensures Inverse(Run(messages).index) <==>
              forall c, i :: !Silent(messages, c, i) && !Stale(messages, c, i)
  {
    NoEntryIsEmpty(messages);
    var ix := Run(messages).index;
    forall c, i
      ensures (i in At(ix.clientItems, c) <==> c in At(ix.itemClients, i)) <==>
              !Silent(messages, c, i) && !Stale(messages, c, i)
    {
      ServedOrNot(messages, c, i);
    }
  }

  lemma ServedOrNot(messages: seq<Message>, c: Client, i: Item)
    ensures var ix := Run(messages).index;
            && (i in At(ix.clientItems, c) && c !in At(ix.itemClients, i) <==>
                Silent(messages, c, i))
            && (i !in At(ix.clientItems, c) && c in At(ix.itemClients, i) <==>
                Stale(messages, c, i))
  {
    MapsTell(messages, c, i);
    if i in Registered(messages, c) {
      ServedUnlessSilent(messages, c, i);
      NotStaleIfRegistered(messages, c, i);
    } else {
      ServedIfStale(messages, c, i);
    }
  }

  lemma NotStaleIfRegistered(messages: seq<Message>, c: Client, i: Item)
    requires i in Registered(messages, c)
    ensures !Stale(messages, c, i)
  {
    assert messages[..|messages|] == messages;
  }

  /** Without harmful updates a client is served exactly what it is registered for, and the
      framework's items are exactly those somebody is registered for. */
  lemma {:induction false} ServedIfRegistered(messages: seq<Message>, c: Client, i: Item)
    requires HarmlessRun(messages)
    ensures Served(messages, c, i) <==> i in Registered(messages, c)
    ensures i in Run(messages).index.itemClients <==> exists d :: i in Registered(messages, d)
  {
    var ix := Run(messages).index;
    IndexIsInverse(messages);
    forall d ensures i in Registered(messages, d) <==> d in At(ix.itemClients, i) {
      MapsTell(messages, d, i);
    }
    MapsTell(messages, c, i);
    if i in ix.itemClients {
      HasMember(ix.itemClients[i]);
      var d :| d in ix.itemClients[i];
      assert i in Registered(messages, d);
    }
    forall d | i in Registered(messages, d) ensures i in ix.itemClients {
      assert d in At(ix.itemClients, i);
    }
  }

  lemma HasMember(s: set<int>)
    requires s != {}
    ensures exists x :: x in s
  {
    assert (forall x :: x !in s) ==> s == {};
  }

  // ---------------------------------------------------------------- the framework

  /** The items a subscription object was asked for and not told to forget since. */
  function Outstanding(calls: seq<FrameworkCall>, obj: int): set<Item> {
    if calls == [] then {}
    else
      var had, last := Outstanding(calls[..|calls| - 1], obj), calls[|calls| - 1];
      if last.obj != obj then had
      else if last.Ask? then had + last.items
      else had - last.items
  }

  lemma OutstandingSnoc(calls: seq<FrameworkCall>, call: FrameworkCall, obj: int)
    ensures Outstanding(calls + [call], obj) ==
              if call.obj != obj then Outstanding(calls, obj)
              else if call.Ask? then Outstanding(calls, obj) + call.items
              else Outstanding(calls, obj) - call.items
  {
    assert (calls + [call])[..|calls|] == calls;
  }

  /** The call for what joined the keys, if anything did, and the one for what left them. */
  function Difference(obj: int, keys: set<Item>, keys': set<Item>, request: bool)
    : seq<FrameworkCall>
  {
    (if keys' - keys == {} then [] else [Ask(obj, keys' - keys, request)]) +
    (if keys - keys' == {} then [] else [Unask(obj, keys - keys')])
  }

  predicate Requests(message: Message) {
    message.Subscribe? && message.request
  }

  /** What changes in the item-to-clients map's keys is exactly what the framework is told,
      the literal updateSubscription included. */
  lemma DeltaIsKeyDifference(o: Observer, message: Message)
    requires !message.SetSubscriptionObj?
    ensures var o' := Step(o, message);
            && o'.obj == o.obj
            && o'.calls == o.calls +
                 if o.obj == NULL then []
                 else Difference(o.obj, o.index.itemClients.Keys, o'.index.itemClients.Keys,
                                 Requests(message))
  {
    hide Added, Trimmed, GoneVals, GoneKeys, At, Items, SendCached, Inverse, Changed, CachedAll,
      Tell, Difference;
    var ix := o.index;
    NoDifference(o.obj, ix.itemClients.Keys, Requests(message));
    match message
    case Subscribe(l, client, request) =>
      var o1 := o.(index := Subscribed(ix, Items(l), client));
      SendCachedKeeps(o1, Items(l), client);
      if l != [] {
        SubscribeKeys(ix, l, client);
        TellsDifference(SendCached(o1, Items(l), client), ix.itemClients.Keys,
                        Change(o1.index, Items(l) - ix.itemClients.Keys, {}), request);
      }
    case UpdateSubscription(l, client) =>
      var had := At(ix.clientItems, client);
      SendCachedKeeps(o, Items(l) - had, client);
      ReplacedKeys(ix, Items(l), client, had * Items(l), Items(l) - had);
      TellsDifference(SendCached(o, Items(l) - had, client), ix.itemClients.Keys,
                      Updated(ix, Items(l), client), false);
    case Unsubscribe(l, client) =>
      UnsubscribeKeys(ix, GoneVals(ix.clientItems, {client}, Items(l)), client);
      TellsDifference(o, ix.itemClients.Keys, Unsubscribed(ix, Items(l), client), false);
    case UnsubscribeAll(client) =>
      UnsubscribeKeys(ix, At(ix.clientItems, client), client);
      TellsDifference(o, ix.itemClients.Keys, UnsubscribedAll(ix, client), false);
    case Notify(_) =>
  }

  lemma NoDifference(obj: int, keys: set<Item>, request: bool)
    ensures Difference(obj, keys, keys, request) == []
  {
  }

  lemma TellsDifference(o: Observer, keys: set<Item>, change: Change, request: bool)
    requires change.index.itemClients.Keys - keys == change.ask
    requires keys - change.index.itemClients.Keys == change.unask
    ensures var o', keys' := Tell(o, change, request), change.index.itemClients.Keys;
            && o'.obj == o.obj && o'.index == change.index
            && o'.calls == o.calls +
                 if o.obj == NULL then [] else Difference(o.obj, keys, keys', request)
  {
  }

  lemma SubscribeKeys(ix: Index, l: seq<Item>, client: Client)
    requires l != []
    ensures var keys, keys' := ix.itemClients.Keys,
                               Subscribed(ix, Items(l), client).itemClients.Keys;
            keys' - keys == Items(l) - keys && keys - keys' == {}
  {
    AddedAt(ix.itemClients, Items(l), {client}, l[0]);
  }

  lemma UnsubscribeKeys(ix: Index, items: set<Item>, client: Client)
    ensures var keys, keys' := ix.itemClients.Keys,
                               Trimmed(ix.itemClients, items, {client}).Keys;
            keys' - keys == {} && keys - keys' == GoneKeys(ix.itemClients, items, {client})
  {
    TrimmedKeys(ix.itemClients, items, {client});
  }

  lemma ReplacedKeys(ix: Index, items: set<Item>, client: Client, gone: set<Item>, novel: set<Item>)
    requires gone !! novel
    ensures var change := Replaced(ix, items, client, gone, novel);
            var keys, keys' := ix.itemClients.Keys, change.index.itemClients.Keys;
            keys' - keys == change.ask && keys - keys' == change.unask
  {
    TrimmedKeys(ix.itemClients, gone, {client});
    AddedAt(Trimmed(ix.itemClients, gone, {client}), novel, {client}, 0);
  }

  /** The subscription object that is set has been asked for exactly the items some client
      is registered for. */
  ghost predicate Agrees(o: Observer) {
    o.obj != NULL ==> Outstanding(o.calls, o.obj) == o.index.itemClients.Keys
  }

  lemma AgreesStep(o: Observer, message: Message)
    requires Agrees(o) && !message.SetSubscriptionObj?
    ensures Agrees(Step(o, message))
  {
    hide Step, Outstanding;
    DeltaIsKeyDifference(o, message);
    var keys, keys' := o.index.itemClients.Keys, Step(o, message).index.itemClients.Keys;
    var ask, unask := Ask(o.obj, keys' - keys, Requests(message)), Unask(o.obj, keys - keys');
    OutstandingSnoc(o.calls, ask, o.obj);
    OutstandingSnoc(o.calls, unask, o.obj);
    OutstandingSnoc(o.calls + [ask], unask, o.obj);
    assert keys + (keys' - keys) - (keys - keys') == keys';
    assert keys' - keys == {} ==> keys - (keys - keys') == keys';
    assert keys - keys' == {} ==> keys + (keys' - keys) == keys';
    assert keys' - keys == {} && keys - keys' == {} ==> keys == keys';
    if o.obj != NULL {
      DifferenceShape(o.calls, o.obj, keys, keys', Requests(message));
    }
  }

  lemma DifferenceShape(calls: seq<FrameworkCall>, obj: int, keys: set<Item>, keys': set<Item>,
                        request: bool)
    ensures var ask, unask := Ask(obj, keys' - keys, request), Unask(obj, keys - keys');
            calls + Difference(obj, keys, keys', request) ==
              if keys' - keys == {} then (if keys - keys' == {} then calls else calls + [unask])
              else if keys - keys' == {} then calls + [ask]
              else calls + [ask] + [unask]
  {
  }

  /** Setting a subscription object makes it agree exactly when it was not still holding a
      request for an item that nobody is registered for now. */
  lemma SetAgreesIff(o: Observer, obj: int)
    requires obj != NULL
    ensures Agrees(Step(o, SetSubscriptionObj(obj))) <==>
              Outstanding(o.calls, obj) <= o.index.itemClients.Keys
  {
    hide Outstanding;
    var keys := o.index.itemClients.Keys;
    var ask, request := Ask(obj, keys, false), Ask(obj, keys, true);
    OutstandingSnoc(o.calls, ask, obj);
    OutstandingSnoc(o.calls + [ask], request, obj);
    assert o.calls + [ask] + [request] == o.calls + [ask, request];
    assert Outstanding(o.calls, obj) <= keys <==> Outstanding(o.calls, obj) + keys == keys;
  }

  ghost predicate WasSet(messages: seq<Message>, obj: int) {
    SetSubscriptionObj(obj) in messages
  }

  /** Each object set is one not set before, or the one that is set already. */
  ghost predicate NewObjects(messages: seq<Message>) {
    messages != [] ==>
      var init, last := messages[..|messages| - 1], messages[|messages| - 1];
      && NewObjects(init)
      && (last.SetSubscriptionObj? ==> !WasSet(init, last.o) || last.o == Run(init).obj)
  }

  ghost predicate OnlyTo(calls: seq<FrameworkCall>, messages: seq<Message>) {
    forall call :: call in calls ==> WasSet(messages, call.obj)
  }

  lemma {:induction false} NeverAsked(calls: seq<FrameworkCall>, obj: int)
    requires forall call :: call in calls ==> call.obj != obj
    ensures Outstanding(calls, obj) == {}
  {
    if calls != [] {
      assert calls[|calls| - 1] in calls;
      NeverAsked(calls[..|calls| - 1], obj);
    }
  }

  lemma {:induction false} CallsGoToObjectsSet(messages: seq<Message>)
    ensures OnlyTo(Run(messages).calls, messages)
    ensures Run(messages).obj != NULL ==> WasSet(messages, Run(messages).obj)
  {
    if messages != [] {
      var init, last := messages[..|messages| - 1], messages[|messages| - 1];
      assert messages == init + [last];
      CallsGoToObjectsSet(init);
      if !last.SetSubscriptionObj? {
        hide Step;
        DeltaIsKeyDifference(Run(init), last);
      }
    }
  }

  /** Each object is set when it holds no request for an item nobody is registered for. */
  ghost predicate SetsClean(messages: seq<Message>) {
    messages != [] ==>
      var o, last := Run(messages[..|messages| - 1]), messages[|messages| - 1];
      && SetsClean(messages[..|messages| - 1])
      && (last.SetSubscriptionObj? && last.o != NULL ==>
            Outstanding(o.calls, last.o) <= o.index.itemClients.Keys)
  }

  lemma {:induction false} NewObjectsAreClean(messages: seq<Message>)
    requires NewObjects(messages)
    ensures SetsClean(messages)
  {
    if messages != [] {
      var init, last := messages[..|messages| - 1], messages[|messages| - 1];
      NewObjectsAreClean(init);
      if last.SetSubscriptionObj? && last.o != NULL {
        CallsGoToObjectsSet(init);
        FrameworkAgrees(init);
        if !WasSet(init, last.o) {
          NeverAsked(Run(init).calls, last.o);
        }
      }
    }
  }

  /** Over every run, literal updates included, the object that is set has been asked for
      exactly the items in the index, provided no object was set while holding a stale
      request; objects not set before never do. */
  lemma {:induction false} FrameworkAgrees(messages: seq<Message>)
    requires SetsClean(messages)
    ensures Agrees(Run(messages))
  {
    if messages != [] {
      var init, last := messages[..|messages| - 1], messages[|messages| - 1];
      FrameworkAgrees(init);
      if !last.SetSubscriptionObj? {
        AgreesStep(Run(init), last);
      } else if last.o != NULL {
        SetAgreesIff(Run(init), last.o);
      }
    }
  }

  /** Object 1 is set, replaced, and set again after the item it asked for is gone. */
  function StaleRun(): seq<Message> {
    [SetSubscriptionObj(1), Subscribe([5], 7, false), SetSubscriptionObj(2), Unsubscribe([5], 7)]
  }

  lemma StaleObjectDisagrees()
    ensures !Agrees(Run(StaleRun() + [SetSubscriptionObj(1)]))
  {
    hide Run, Agrees;
    RunSnoc(StaleRun(), SetSubscriptionObj(1));
    StaleRunHolds();
    SetAgreesIff(Run(StaleRun()), 1);
  }

  lemma StaleRunHolds()
    ensures 5 in Outstanding(Run(StaleRun()).calls, 1)
    ensures 5 !in Run(StaleRun()).index.itemClients
  {
    hide Run, Step, Outstanding;
    var p1 := [SetSubscriptionObj(1)];
    var p2 := p1 + [Subscribe([5], 7, false)];
    var p3 := p2 + [SetSubscriptionObj(2)];
    assert p3 + [Unsubscribe([5], 7)] == StaleRun();
    SetFirst();
    RunSnoc(p1, Subscribe([5], 7, false));
    RunSnoc(p2, SetSubscriptionObj(2));
    RunSnoc(p3, Unsubscribe([5], 7));
    AsksFirst(Run(p1));
    SetsSecond(Run(p2));
    GivesUp(Run(p3));
  }

  lemma SetFirst()
    ensures Run([SetSubscriptionObj(1)]) == INITIAL.(obj := 1)
  {
    assert [SetSubscriptionObj(1)][..0] == [];
  }

  lemma AsksFirst(o: Observer)
    requires o == INITIAL.(obj := 1)
    ensures var o' := Step(o, Subscribe([5], 7, false));
            && o'.index == Index(map[7 := {5}], map[5 := {7}]) && o'.obj == 1
            && o'.calls == [Ask(1, {5}, false)]
  {
    hide SendCached;
    assert Items([5]) == {5} && {5} - o.index.itemClients.Keys == {5};
    assert At(o.index.clientItems, 7) + {5} == {5} && At(o.index.itemClients, 5) + {7} == {7};
    assert Added(o.index.clientItems, {7}, {5}) == map[7 := {5}];
    assert Added(o.index.itemClients, {5}, {7}) == map[5 := {7}];
    SendCachedKeeps(o.(index := Subscribed(o.index, {5}, 7)), {5}, 7);
  }

  lemma SetsSecond(o: Observer)
    requires o.index == Index(map[7 := {5}], map[5 := {7}])
    requires o.calls == [Ask(1, {5}, false)]
    ensures var o' := Step(o, SetSubscriptionObj(2));
            o'.index == o.index && o'.obj == 2 && 5 in Outstanding(o'.calls, 1)
  {
    var ask, request := Ask(2, {5}, false), Ask(2, {5}, true);
    assert 5 in o.index.itemClients && o.index.itemClients.Keys == {5};
    assert Step(o, SetSubscriptionObj(2)).calls == [] + [Ask(1, {5}, false)] + [ask] + [request];
    OutstandingSnoc([], Ask(1, {5}, false), 1);
    OutstandingSnoc([] + [Ask(1, {5}, false)], ask, 1);
    OutstandingSnoc([] + [Ask(1, {5}, false)] + [ask], request, 1);
  }

  lemma GivesUp(o: Observer)
    requires o.index == Index(map[7 := {5}], map[5 := {7}]) && o.obj == 2
    requires 5 in Outstanding(o.calls, 1)
    ensures var o' := Step(o, Unsubscribe([5], 7));
            5 in Outstanding(o'.calls, 1) && 5 !in o'.index.itemClients
  {
    hide Outstanding;
    assert Items([5]) == {5};
    assert GoneVals(o.index.clientItems, {7}, {5}) == {5};
    assert GoneKeys(o.index.itemClients, {5}, {7}) == {5};
    assert Trimmed(o.index.itemClients, {5}, {7}) == map[];
    assert Step(o, Unsubscribe([5], 7)).calls == o.calls + [Unask(2, {5})];
    OutstandingSnoc(o.calls, Unask(2, {5}), 1);
  }

  // ---------------------------------------------------------------- notifications

  lemma {:induction false} ChangedMeans(cache: map<Item, Value>, reports: seq<Report>, i: Item)
    ensures i in Changed(cache, reports) ==> i in CachedAll(cache, reports)
    ensures i !in Changed(cache, reports) ==>
              && (i in CachedAll(cache, reports) <==> i in cache)
              && (i in cache ==> CachedAll(cache, reports)[i] == cache[i])
  {
    if reports != [] {
      ChangedMeans(cache, reports[..|reports| - 1], i);
    }
  }

  /** Every client that a changed item leads to hears, in one call, exactly those of its items
      that changed and their new values; nobody else is called. */
  lemma NotifyTells(o: Observer, reports: seq<Report>, c: Client)
    ensures var o', changed := Step(o, Notify(reports)), Changed(o.cache, reports);
            var items := At(o.index.clientItems, c) * changed;
            && o'.index == o.index && o'.cache == CachedAll(o.cache, reports)
            && Told(o'.told, c) ==
                 Told(o.told, c) +
                 (if c in Audience(o.index, changed) && items != {}
                  then [Select(o'.cache, items)] else [])
            && Select(o'.cache, items).Keys == items
  {
    hide Changed, CachedAll, At, Audience;
    var changed := Changed(o.cache, reports);
    var o1 := o.(cache := CachedAll(o.cache, reports));
    var items := At(o.index.clientItems, c) * changed;
    forall i | i in changed ensures i in o1.cache {
      ChangedMeans(o.cache, reports, i);
    }
    SendAllTells(o1, Audience(o.index, changed), changed, c);
    assert Select(o1.cache, items).Keys == items;
    assert Select(o1.cache, items) == map[] <==> items == {};
  }

  /** Every item of a client leads to it. */
  ghost predicate Covers(ix: Index) {
    forall c, i :: i in At(ix.clientItems, c) ==> c in At(ix.itemClients, i)
  }

  /** So with such an index every client holding an item that changed is called once, with
      exactly those of its items that changed and their new values, and no other client is. */
  lemma NotifiesExactly(o: Observer, reports: seq<Report>, c: Client)
    requires Covers(o.index)
    ensures var o' := Step(o, Notify(reports));
            var items := At(o.index.clientItems, c) * Changed(o.cache, reports);
            && Told(o'.told, c) ==
                 Told(o.told, c) + (if items == {} then [] else [Select(o'.cache, items)])
            && Select(o'.cache, items).Keys == items
  {
    hide Covers, Changed, Step, At, Audience;
    NotifyTells(o, reports, c);
    AudienceCovers(o.index, Changed(o.cache, reports), c);
  }

  lemma AudienceCovers(ix: Index, items: set<Item>, c: Client)
    requires Covers(ix)
    ensures At(ix.clientItems, c) * items != {} ==> c in Audience(ix, items)
  {
    var both := At(ix.clientItems, c) * items;
    if both != {} {
      HasMember(both);
      var i :| i in both;
      assert c in At(ix.itemClients, i);
    }
  }

  /** A literal update keeps every item leading to its client exactly when it names none that
      the client already had. */
  lemma UpdatedCovers(ix: Index, items: set<Item>, client: Client)
    requires Covers(ix)
    ensures Covers(Updated(ix, items, client).index) <==> At(ix.clientItems, client) * items == {}
  {
    hide Replaced, At;
    var had := At(ix.clientItems, client);
    forall c, i {
      ReplacedAt(ix, items, client, had * items, items - had, c, i);
    }
    var both := had * items;
    if both != {} {
      HasMember(both);
      var i :| i in both;
      ReplacedAt(ix, items, client, had * items, items - had, client, i);
    }
  }

  /** Over every run the index covers exactly when no client is silent on an item. */
  lemma CoversIff(messages: seq<Message>)
    ensures Covers(Run(messages).index) <==> forall c, i :: !Silent(messages, c, i)
  {
    hide Run, At, Silent;
    var ix := Run(messages).index;
    forall c, i
      ensures (i in At(ix.clientItems, c) ==> c in At(ix.itemClients, i)) <==>
              !Silent(messages, c, i)
    {
      ServedOrNot(messages, c, i);
    }
  }

  lemma SendAllTells(o: Observer, clients: set<Client>, items: set<Item>, c: Client)
    ensures Told(SendAll(o, clients, items).told, c) ==
              Told(o.told, c) +
              if c in clients && News(o, items, c) != map[] then [News(o, items, c)] else []
  {
    hide News;
  }

  datatype Heard = Nothing | Value(v: Value)

  /** What a client last heard about an item. */
  function Latest(told: seq<map<Item, Value>>, i: Item): Heard {
    if told == [] then Nothing
    else
      var last := told[|told| - 1];
      if i in last then Heard.Value(last[i]) else Latest(told[..|told| - 1], i)
  }

  lemma LatestSnoc(told: seq<map<Item, Value>>, call: map<Item, Value>, i: Item)
    ensures Latest(told + [call], i) == if i in call then Heard.Value(call[i]) else Latest(told, i)
  {
    assert (told + [call])[..|told|] == told;
  }

  /** The client knows the cached value of the item. */
  ghost predicate UpToDate(o: Observer, c: Client, i: Item) {
    i in At(o.index.clientItems, c) && i in o.cache ==>
      Latest(Told(o.told, c), i) == Heard.Value(o.cache[i])
  }

  lemma SendCachedLatest(o: Observer, items: set<Item>, client: Client, c: Client, i: Item)
    ensures Latest(Told(SendCached(o, items, client).told, c), i) ==
              if c == client && i in items && i in o.cache then Heard.Value(o.cache[i])
              else Latest(Told(o.told, c), i)
  {
    hide Latest;
    LatestSnoc(Told(o.told, client), Select(o.cache, items), i);
    if i in items && i in o.cache {
      assert i in Select(o.cache, items);
    }
  }

  lemma UpToDateStep(o: Observer, message: Message, c: Client, i: Item)
    requires c != NULL && (c in At(o.index.itemClients, i) ==> UpToDate(o, c, i))
    ensures c in At(Step(o, message).index.itemClients, i) ==> UpToDate(Step(o, message), c, i)
  {
    hide Latest, At, Changed, CachedAll, SendAll, SendCached, Audience, Tell;
    RegisteredStep(o, message, c);
    ServedStep(o, message, c, i);
    match message
    case Subscribe(l, client, request) =>
      var o1 := o.(index := Subscribed(o.index, Items(l), client));
      SendCachedKeeps(o1, Items(l), client);
      SendCachedLatest(o1, Items(l), client, c, i);
      TellIndex(SendCached(o1, Items(l), client),
                Change(o1.index, Items(l) - o.index.itemClients.Keys, {}), request);
    case UpdateSubscription(l, client) =>
      var novel := Items(l) - At(o.index.clientItems, client);
      SendCachedKeeps(o, novel, client);
      SendCachedLatest(o, novel, client, c, i);
      TellIndex(SendCached(o, novel, client), Updated(o.index, Items(l), client), false);
    case Unsubscribe(l, client) => TellIndex(o, Unsubscribed(o.index, Items(l), client), false);
    case UnsubscribeAll(client) => TellIndex(o, UnsubscribedAll(o.index, client), false);
    case Notify(reports) => UpToDateNotify(o, reports, c, i);
    case _ =>
  }

  lemma UpToDateNotify(o: Observer, reports: seq<Report>, c: Client, i: Item)
    requires c in At(o.index.itemClients, i) ==> UpToDate(o, c, i)
    ensures c in At(o.index.itemClients, i) ==> UpToDate(Step(o, Notify(reports)), c, i)
  {
    hide Latest, Changed, CachedAll, SendAll, Step;
    NotifyTells(o, reports, c);
    ChangedMeans(o.cache, reports, i);
    var items := At(o.index.clientItems, c) * Changed(o.cache, reports);
    LatestSnoc(Told(o.told, c), Select(CachedAll(o.cache, reports), items), i);
    assert Told(o.told, c) + [] == Told(o.told, c);
  }

  /** Over every run, literal updates included, each client knows the cached value of every
      item that it is registered for and not silent on. */
  lemma {:induction false} ClientsAreUpToDate(messages: seq<Message>, c: Client, i: Item)
    requires i in Registered(messages, c) && !Silent(messages, c, i) && i in Run(messages).cache
    ensures Latest(Told(Run(messages).told, c), i) == Heard.Value(Run(messages).cache[i])
  {
    hide At, Latest, Registered, Served, Silent;
    ServedUnlessSilent(messages, c, i);
    MapsTell(messages, c, i);
    NullIsNobody(messages, i);
    if c != NULL {
      UpToDateRun(messages, c, i);
    }
  }

  lemma {:induction false} UpToDateRun(messages: seq<Message>, c: Client, i: Item)
    requires c != NULL
    ensures c in At(Run(messages).index.itemClients, i) ==> UpToDate(Run(messages), c, i)
  {
    if messages != [] {
      var init, last := messages[..|messages| - 1], messages[|messages| - 1];
      UpToDateRun(init, c, i);
      UpToDateStep(Run(init), last, c, i);
    }
  }

  /** And over every run, when an item changes, a client registered for it is told the new
      value unless it is silent on it, and then hears nothing. */
  lemma TellsUnlessSilent(messages: seq<Message>, c: Client, i: Item, v: Value)
    requires i in Registered(messages, c) && Changes(Run(messages).cache, Report(i, v, true))
    ensures var told, told' := Told(Run(messages).told, c),
                               Told(Run(messages + [Notify([Report(i, v, true)])]).told, c);
            told' == if Silent(messages, c, i) then told else told + [map[i := v]]
  {
    hide At, Registered, Served, Silent, Audience, SendAll, Step;
    ServedUnlessSilent(messages, c, i);
    var o, report := Run(messages), Report(i, v, true);
    assert (messages + [Notify([report])])[..|messages|] == messages;
    MapsTell(messages, c, i);
    NotifyTells(o, [report], c);
    OneReport(o.cache, report);
    OnlyListeners(o.index, c, i);
    assert At(o.index.clientItems, c) * {i} == {i};
    assert Select(CachedAll(o.cache, [report]), {i}) == map[i := v];
  }

  lemma OnlyListeners(ix: Index, c: Client, i: Item)
    ensures c in Audience(ix, {i}) <==> c in At(ix.itemClients, i)
  {
    if c in At(ix.itemClients, i) {
      assert i in {i};
    }
  }

  lemma OneReport(cache: map<Item, Value>, report: Report)
    ensures CachedAll(cache, [report]) == Cached(cache, report)
    ensures Changed(cache, [report]) == if Changes(cache, report) then {report.id} else {}
  {
    assert [report][..0] == [];
  }

  /** A client gone silent: client 1 holds item 5 and names it again, and the next change does
      not reach it. */
  function SilentRun(): seq<Message> {
    [Subscribe([5], 1, false), Notify([Report(5, 10, true)]), UpdateSubscription([5], 1)]
  }

  lemma SilencedByUpdate()
    ensures var o := Run(SilentRun() + [Notify([Report(5, 20, true)])]);
            && 5 in At(o.index.clientItems, 1) && 5 in o.cache && o.cache[5] == 20
            && Latest(Told(o.told, 1), 5) == Heard.Value(10)
  {
    hide Run, At, Latest, Step;
    GoesSilent();
    SilentRunCache();
    var o, report := Run(SilentRun()), Report(5, 20, true);
    var run := SilentRun() + [Notify([report])];
    assert run[..3] == SilentRun();
    TellsUnlessSilent(SilentRun(), 1, 5, 20);
    MapsTell(run, 1, 5);
    assert Registered(run, 1) == Registered(SilentRun(), 1);
    RunSnoc(SilentRun(), Notify([report]));
    NotifyTells(o, [report], 1);
    OneReport(o.cache, report);
  }

  lemma RunSnoc(messages: seq<Message>, message: Message)
    ensures Run(messages + [message]) == Step(Run(messages), message)
  {
    assert (messages + [message])[..|messages|] == messages;
  }

  lemma GoesSilent()
    ensures 5 in Registered(SilentRun(), 1) && Silent(SilentRun(), 1, 5)
  {
    var run := SilentRun();
    FirstRegistered();
    assert run[..2] == [Subscribe([5], 1, false)] + [Notify([Report(5, 10, true)])];
    assert 5 in Items([5]) && 5 in run[2].l;
    assert SilentSince(run, 1, 5, 2);
  }

  lemma SilentRunCache()
    ensures 5 in Run(SilentRun()).cache && Run(SilentRun()).cache[5] == 10
    ensures Latest(Told(Run(SilentRun()).told, 1), 5) == Heard.Value(10)
  {
    hide Run, Registered, Served, Silent, Latest, Tell, SendCached, SendAll, At, Changed, Updated;
    var p1 := [Subscribe([5], 1, false)];
    var p2 := p1 + [Notify([Report(5, 10, true)])];
    assert p2 + [UpdateSubscription([5], 1)] == SilentRun();
    RunSnoc(p1, Notify([Report(5, 10, true)]));
    RunSnoc(p2, UpdateSubscription([5], 1));
    FirstRegistered();
    var o := Run(p2);
    NotifyTells(Run(p1), [Report(5, 10, true)], 1);
    OneReport(Run(p1).cache, Report(5, 10, true));
    ClientsAreUpToDate(p2, 1, 5);
    MapsTell(p2, 1, 5);
    var novel := Items([5]) - At(o.index.clientItems, 1);
    SendCachedKeeps(o, novel, 1);
    SendCachedLatest(o, novel, 1, 1, 5);
    TellIndex(SendCached(o, novel, 1), Updated(o.index, Items([5]), 1), false);
  }

  lemma FirstRegistered()
    ensures var p2 := [Subscribe([5], 1, false)] + [Notify([Report(5, 10, true)])];
            5 in Registered(p2, 1) && !Silent(p2, 1, 5)
  {
    var p1 := [Subscribe([5], 1, false)];
    var p2 := p1 + [Notify([Report(5, 10, true)])];
    assert p2[..1] == p1 && p1[..0] == [];
    assert 5 in Items([5]);
    assert Registered(p1, 1) == {} + Items([5]);
    forall k: nat ensures !SilentSince(p2, 1, 5, k) {
    }
  }
}
