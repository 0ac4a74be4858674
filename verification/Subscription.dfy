/** The subscription index of the system status observer: what each message does to the two
    set-maps, to the data item cache, to what clients are told, and to the framework. */
module Subscription {
  import opened SetMap

  type Client = int
  type Item = int
  type Value = int

  /** The null pointer, for a client or a subscription object. */
  const NULL: int := 0

  datatype Index = Index(clientItems: map<Client, set<Item>>, itemClients: map<Item, set<Client>>)

  /** A call to a subscription object: subscribe or requestData, or unsubscribe. */
  datatype FrameworkCall =
    | Ask(obj: int, items: set<Item>, request: bool)
    | Unask(obj: int, items: set<Item>)

  /** `told[c]` is what the calls to client c's notify delivered, in order. */
  datatype Observer = Observer(
    index: Index,
    cache: map<Item, Value>,
    told: map<Client, seq<map<Item, Value>>>,
    obj: int,
    calls: seq<FrameworkCall>)

  /** A data item reported; `accepted` is whether the system status records it. */
  datatype Report = Report(id: Item, value: Value, accepted: bool)

  datatype Message =
    | Subscribe(l: seq<Item>, client: Client, request: bool)
    | UpdateSubscription(l: seq<Item>, client: Client)
    | Unsubscribe(l: seq<Item>, client: Client)
    | UnsubscribeAll(client: Client)
    | Notify(reports: seq<Report>)
    | SetSubscriptionObj(o: int)

  function Items(l: seq<Item>): set<Item> {
    set i | i in l
  }

  // ---------------------------------------------------------------- the index

  function Subscribed(ix: Index, items: set<Item>, client: Client): Index {
    Index(Added(ix.clientItems, {client}, items), Added(ix.itemClients, items, {client}))
  }

  /** An index with the items the framework must forget. */
  datatype Change = Change(index: Index, ask: set<Item>, unask: set<Item>)

  function Unsubscribed(ix: Index, items: set<Item>, client: Client): Change {
    var unused := GoneVals(ix.clientItems, {client}, items);
    Change(Index(Trimmed(ix.clientItems, {client}, items),
                 Trimmed(ix.itemClients, unused, {client})),
           {}, GoneKeys(ix.itemClients, unused, {client}))
  }

  function UnsubscribedAll(ix: Index, client: Client): Change {
    var items := At(ix.clientItems, client);
    if items == {} then Change(ix, {}, {})
    else Change(Index(ix.clientItems - {client}, Trimmed(ix.itemClients, items, {client})),
                {}, GoneKeys(ix.itemClients, items, {client}))
  }

  /** Replaces the client's items; `gone` are the items the set-map's update reports as
      dropped, and `novel` those it leaves as new. */
  function Replaced(ix: Index, items: set<Item>, client: Client, gone: set<Item>, novel: set<Item>)
    : Change
  {
    var trimmed := Trimmed(ix.itemClients, gone, {client});
    Change(Index(ix.clientItems[client := items], Added(trimmed, novel, {client})),
           novel - trimmed.Keys, GoneKeys(ix.itemClients, gone, {client}))
  }

  /** As the program does it: it takes for dropped the items that are kept. */
  function Updated(ix: Index, items: set<Item>, client: Client): Change {
    var had := At(ix.clientItems, client);
    Replaced(ix, items, client, had * items, items - had)
  }

  /** As the set-map's documentation has it. */
  function UpdatedAsDocumented(ix: Index, items: set<Item>, client: Client): Change {
    var had := At(ix.clientItems, client);
    Replaced(ix, items, client, had - items, items - had)
  }

  // ---------------------------------------------------------------- the messages

  function Told(told: map<Client, seq<map<Item, Value>>>, client: Client): seq<map<Item, Value>> {
    if client in told then told[client] else []
  }

  function Select(cache: map<Item, Value>, items: set<Item>): map<Item, Value> {
    map i | i in items && i in cache :: cache[i]
  }

  /** Sends the cached ones of the items, if any. */
  function SendCached(o: Observer, items: set<Item>, client: Client): Observer {
    var call := Select(o.cache, items);
    if call == map[] then o
    else o.(told := o.told[client := Told(o.told, client) + [call]])
  }

  /** The framework is told only of changes, and only if its object is set. */
  function Tell(o: Observer, change: Change, request: bool): Observer {
    var o' := o.(index := change.index);
    if o.obj == NULL then o'
    else o'.(calls := o.calls + (if change.ask == {} then [] else [Ask(o.obj, change.ask, request)])
                              + (if change.unask == {} then [] else [Unask(o.obj, change.unask)]))
  }

  /** The cache after a report, and whether it changed. */
  function Cached(cache: map<Item, Value>, report: Report): map<Item, Value> {
    if report.accepted then cache[report.id := report.value] else cache
  }

  function CachedAll(cache: map<Item, Value>, reports: seq<Report>): map<Item, Value> {
    if reports == [] then cache
    else Cached(CachedAll(cache, reports[..|reports| - 1]), reports[|reports| - 1])
  }

  predicate Changes(cache: map<Item, Value>, report: Report) {
    report.accepted && (report.id in cache ==> cache[report.id] != report.value)
  }

  function Changed(cache: map<Item, Value>, reports: seq<Report>): set<Item> {
    if reports == [] then {}
    else
      var init, last := reports[..|reports| - 1], reports[|reports| - 1];
      if Changes(CachedAll(cache, init), last)
      then Changed(cache, init) + {last.id} else Changed(cache, init)
  }

  /** The clients registered with any of the items. */
  function Audience(ix: Index, items: set<Item>): set<Client> {
    set i, c | i in items && i in ix.itemClients && c in ix.itemClients[i] :: c
  }

  /** What the client hears of these items. */
  function News(o: Observer, items: set<Item>, c: Client): map<Item, Value> {
    Select(o.cache, At(o.index.clientItems, c) * items)
  }

  /** Each client is sent those of its items that changed. */
  function SendAll(o: Observer, clients: set<Client>, items: set<Item>): Observer {
    var called := set c | c in clients && News(o, items, c) != map[];
    o.(told := map c | c in o.told.Keys + called ::
         Told(o.told, c) + if c in called then [News(o, items, c)] else [])
  }

  function Step(o: Observer, message: Message): Observer {
    match message
    case Subscribe(l, client, request) =>
      if l == [] || client == NULL then o
      else
        var ix := Subscribed(o.index, Items(l), client);
        var change := Change(ix, Items(l) - o.index.itemClients.Keys, {});
        Tell(SendCached(o.(index := ix), Items(l), client), change, request)
    case UpdateSubscription(l, client) =>
      if l == [] || client == NULL then o
      else
        var change := Updated(o.index, Items(l), client);
        var novel := Items(l) - At(o.index.clientItems, client);
        Tell(SendCached(o, novel, client), change, false)
    case Unsubscribe(l, client) =>
      if l == [] || client == NULL then o
      else Tell(o, Unsubscribed(o.index, Items(l), client), false)
    case UnsubscribeAll(client) =>
      if client == NULL then o
      else Tell(o, UnsubscribedAll(o.index, client), false)
    case Notify(reports) =>
      var items := Changed(o.cache, reports);
      SendAll(o.(cache := CachedAll(o.cache, reports)), Audience(o.index, items), items)
    case SetSubscriptionObj(obj) =>
      if obj == NULL then o
      else if o.index.itemClients == map[] then o.(obj := obj)
      else
        var items := o.index.itemClients.Keys;
        o.(obj := obj, calls := o.calls + [Ask(obj, items, false), Ask(obj, items, true)])
  }

  const INITIAL: Observer := Observer(Index(map[], map[]), map[], map[], NULL, [])

  function Run(messages: seq<Message>): Observer {
    if messages == [] then INITIAL
    else Step(Run(messages[..|messages| - 1]), messages[|messages| - 1])
  }

  // ---------------------------------------------------------------- the inverse index

  /** Each map is the other's inverse, without empty entries. */
  ghost predicate Inverse(ix: Index) {
    && (forall c, i :: i in At(ix.clientItems, c) <==> c in At(ix.itemClients, i))
    && NoEmptySet(ix.clientItems) && NoEmptySet(ix.itemClients)
  }

  lemma SubscribedInverse(ix: Index, items: set<Item>, client: Client)
    requires Inverse(ix)
    ensures Inverse(Subscribed(ix, items, client))
  {
    hide Added, At;
    forall c, i
      ensures i in At(Subscribed(ix, items, client).clientItems, c) <==>
              c in At(Subscribed(ix, items, client).itemClients, i)
    {
      AddedAt(ix.clientItems, {client}, items, c);
      AddedAt(ix.itemClients, items, {client}, i);
    }
    AddedAt(ix.clientItems, {client}, items, client);
    AddedAt(ix.itemClients, items, {client}, 0);
  }

  lemma UnsubscribedInverse(ix: Index, items: set<Item>, client: Client)
    requires Inverse(ix)
    ensures Inverse(Unsubscribed(ix, items, client).index)
    ensures forall c :: At(Unsubscribed(ix, items, client).index.clientItems, c) ==
                          At(ix.clientItems, c) - if c == client then items else {}
  {
    var ix' := Unsubscribed(ix, items, client).index;
    var unused := GoneVals(ix.clientItems, {client}, items);
    forall c, i
      ensures i in At(ix'.clientItems, c) <==> c in At(ix'.itemClients, i)
    {
      TrimmedAt(ix.clientItems, {client}, items, c);
      TrimmedAt(ix.itemClients, unused, {client}, i);
    }
    TrimmedKeys(ix.clientItems, {client}, items);
    TrimmedKeys(ix.itemClients, unused, {client});
  }

  lemma UnsubscribedAllInverse(ix: Index, client: Client)
    requires Inverse(ix)
    ensures Inverse(UnsubscribedAll(ix, client).index)
  {
    var ix' := UnsubscribedAll(ix, client).index;
    var items := At(ix.clientItems, client);
    if items != {} {
      forall c, i
        ensures i in At(ix'.clientItems, c) <==> c in At(ix'.itemClients, i)
      {
        TrimmedAt(ix.itemClients, items, {client}, i);
        assert c == client ==> At(ix'.clientItems, c) == {};
        assert c != client ==> At(ix'.clientItems, c) == At(ix.clientItems, c);
        assert i in At(ix.clientItems, c) <==> c in At(ix.itemClients, i);
      }
      TrimmedKeys(ix.itemClients, items, {client});
    }
  }

  lemma ReplacedAt(ix: Index, items: set<Item>, client: Client, gone: set<Item>, novel: set<Item>,
                   c: Client, i: Item)
    ensures var ix' := Replaced(ix, items, client, gone, novel).index;
            && At(ix'.clientItems, c) == (if c == client then items else At(ix.clientItems, c))
            && (c in At(ix'.itemClients, i) <==>
                if c == client then i in novel || (i !in gone && c in At(ix.itemClients, i))
                else c in At(ix.itemClients, i))
  {
    var trimmed := Trimmed(ix.itemClients, gone, {client});
    TrimmedAt(ix.itemClients, gone, {client}, i);
    AddedAt(trimmed, novel, {client}, i);
  }

  lemma ReplacedNoEmpty(ix: Index, items: set<Item>, client: Client, gone: set<Item>,
                        novel: set<Item>)
    requires NoEmptySet(ix.clientItems) && NoEmptySet(ix.itemClients) && items != {}
    ensures var ix' := Replaced(ix, items, client, gone, novel).index;
            NoEmptySet(ix'.clientItems) && NoEmptySet(ix'.itemClients)
  {
    TrimmedKeys(ix.itemClients, gone, {client});
    AddedAt(Trimmed(ix.itemClients, gone, {client}), novel, {client}, 0);
  }

  /** As the program has it, updating a subscription keeps the index exactly when the client
      had none. */
  lemma UpdatedInverse(ix: Index, items: set<Item>, client: Client)
    requires Inverse(ix) && items != {}
    ensures Inverse(Updated(ix, items, client).index) <==> At(ix.clientItems, client) == {}
  {
    hide Replaced, At;
    var had := At(ix.clientItems, client);
    ReplacedNoEmpty(ix, items, client, had * items, items - had);
    forall c, i {
      ReplacedAt(ix, items, client, had * items, items - had, c, i);
    }
    if had != {} {
      var i :| i in had;
      ReplacedAt(ix, items, client, had * items, items - had, client, i);
    }
  }

  /** Reporting the values dropped instead would always keep it. */
  lemma UpdatedAsDocumentedInverse(ix: Index, items: set<Item>, client: Client)
    requires Inverse(ix) && items != {}
    ensures Inverse(UpdatedAsDocumented(ix, items, client).index)
  {
    hide Replaced, At;
    var had := At(ix.clientItems, client);
    ReplacedNoEmpty(ix, items, client, had - items, items - had);
    forall c, i {
      ReplacedAt(ix, items, client, had - items, items - had, c, i);
    }
  }

  /** The message is not an updateSubscription for a client that already has items. */
  predicate Harmless(o: Observer, message: Message) {
    message.UpdateSubscription? && message.l != [] && message.client != NULL ==>
      At(o.index.clientItems, message.client) == {}
  }

  ghost predicate HarmlessRun(messages: seq<Message>) {
    messages != [] ==>
      HarmlessRun(messages[..|messages| - 1]) &&
      Harmless(Run(messages[..|messages| - 1]), messages[|messages| - 1])
  }

  lemma InverseStep(o: Observer, message: Message)
    requires Inverse(o.index) && Harmless(o, message)
    ensures Inverse(Step(o, message).index)
  {
    hide Inverse, Subscribed, Unsubscribed, UnsubscribedAll, Updated, SendCached;
    match message
    case Subscribe(l, client, _) =>
      SubscribedInverse(o.index, Items(l), client);
      SendCachedKeeps(o.(index := Subscribed(o.index, Items(l), client)), Items(l), client);
    case UpdateSubscription(l, client) =>
      if l != [] && client != NULL {
        assert l[0] in Items(l);
        UpdatedInverse(o.index, Items(l), client);
      }
    case Unsubscribe(l, client) => UnsubscribedInverse(o.index, Items(l), client);
    case UnsubscribeAll(client) => UnsubscribedAllInverse(o.index, client);
    case _ =>
  }

  lemma SendCachedKeeps(o: Observer, items: set<Item>, client: Client)
    ensures var o' := SendCached(o, items, client);
            o'.index == o.index && o'.calls == o.calls && o'.obj == o.obj && o'.cache == o.cache
  {
  }

  /** Over every run in which updateSubscription is called only for clients without items,
      the maps are inverse. */
  lemma {:induction false} IndexIsInverse(messages: seq<Message>)
    requires HarmlessRun(messages)
    ensures Inverse(Run(messages).index)
  {
    if messages != [] {
      IndexIsInverse(messages[..|messages| - 1]);
      InverseStep(Run(messages[..|messages| - 1]), messages[|messages| - 1]);
    }
  }
}
