/** What timer clients and the message thread do to timers: the delegates, the shared locks
    that outlive their clients, the message queue and the two heaps, `true` naming the
    alarms (wake on expire) and `false` the plain timers. */
module TimerLedger {
  import opened Counting
  import opened HeapTree

  datatype Ref = Null | To(id: nat)

  datatype Msg = MsgPush(d: nat) | MsgRemove(d: nat) | MsgExpire(wake: bool)

  /** `client` is mClient, cleared when the timer is stopped; `lock` is the client whose
      shared lock the delegate holds; `attached` says that mContainer is not NULL; `wake`
      is the container its messages go to. */
  datatype Delegate = Delegate(client: Ref, lock: nat, attached: bool, wake: bool,
                               deadline: int, deleted: bool)

  datatype Event =
    | Started(c: nat, d: nat)
    | Stopped(c: nat, d: nat)   // a client's stop() returned true
    | TimedOut(c: nat, d: nat)  // timeOutCallback
    | PushSent(d: nat)
    | RemoveSent(d: nat)
    | Freed(d: nat)
    | LockFreed(c: nat)

  /** `clients` maps each live LocTimer to its mTimer; `log` counts what has happened. */
  datatype Ledger = Ledger(
    clients: map<nat, Ref>, locks: map<nat, int>, delegates: map<nat, Delegate>, next: nat,
    queue: seq<Msg>, hw: Tree, sw: Tree, log: multiset<Event>)
  {
    function Heap(wake: bool): Tree { if wake then hw else sw }

    function WithHeap(wake: bool, t: Tree): Ledger {
      if wake then this.(hw := t) else this.(sw := t)
    }
  }

  // ---------------------------------------------------------------- client side

  /** LocTimer's constructor; a client identity is never used twice. */
  function NewClient(l: Ledger, c: nat): Ledger {
    if c in l.locks then l else l.(clients := l.clients[c := Null], locks := l.locks[c := 1])
  }

  /** start(), given the deadline; `available` is whether the container could be made. */
  function Start(l: Ledger, c: nat, wake: bool, deadline: int, available: bool): Ledger {
    if c in l.clients && c in l.locks && l.clients[c] == Null && available then
      var d := l.next;
      l.(clients := l.clients[c := To(d)],
         locks := l.locks[c := l.locks[c] + 1],
         delegates := l.delegates[d := Delegate(To(c), c, true, wake, deadline, false)],
         next := d + 1,
         queue := l.queue + [MsgPush(d)],
         log := l.log + multiset{Started(c, d), PushSent(d)})
    else l
  }

  function DestroyLocked(l: Ledger, d: nat): Ledger
    requires d in l.delegates
  {
    var x := l.delegates[d];
    if x.attached then
      l.(delegates := l.delegates[d := x.(client := Null, attached := false)],
         queue := l.queue + [MsgRemove(d)],
         log := l.log + multiset{RemoveSent(d)})
    else
      l.(delegates := l.delegates[d := x.(client := Null)])
  }

  /** stop() returns true. */
  predicate Stops(l: Ledger, c: nat) {
    c in l.clients && l.clients[c].To? && l.clients[c].id in l.delegates
  }

  function Stop(l: Ledger, c: nat, byExpiry: bool): Ledger {
    if Stops(l, c) then
      var d := l.clients[c].id;
      var l1 := DestroyLocked(l.(clients := l.clients[c := Null]), d);
      l1.(log := l1.log + multiset{if byExpiry then TimedOut(c, d) else Stopped(c, d)})
    else l
  }

  /** drop() on a shared lock: the last reference frees it. */
  function Drop(l: Ledger, c: nat): Ledger
    requires c in l.locks
  {
    l.(locks := l.locks[c := l.locks[c] - 1],
       log := if l.locks[c] == 1 then l.log + multiset{LockFreed(c)} else l.log)
  }

  /** LocTimer's destructor. */
  function Destroy(l: Ledger, c: nat): Ledger {
    if c in l.clients && c in l.locks then
      var l1 := Stop(l, c, false);
      Drop(l1.(clients := l1.clients - {c}), c)
    else l
  }

  // ---------------------------------------------------------------- message side

  function Send(l: Ledger, m: Msg): Ledger {
    l.(queue := l.queue + [m])
  }

  function Receive(l: Ledger): Ledger
    requires l.queue != []
  {
    l.(queue := l.queue[1..])
  }

  predicate HeadIs(l: Ledger, d: nat, m: Msg) {
    l.queue != [] && l.queue[0] == m && d in l.delegates
  }

  function ProcPush(l: Ledger, d: nat): Ledger
    requires HeadIs(l, d, MsgPush(d))
  {
    var k := l.delegates[d].wake;
    Receive(l).WithHeap(k, Push(l.Heap(k), Item(l.delegates, d)))
  }

  /** Takes the delegate out of the heap if it is there, then deletes it. */
  function ProcRemove(l: Ledger, d: nat): Ledger
    requires HeadIs(l, d, MsgRemove(d)) && l.delegates[d].lock in l.locks
  {
    var x := l.delegates[d];
    var l1 := Receive(l).WithHeap(x.wake, Apply(l.Heap(x.wake), OpRemove(Item(l.delegates, d))).0);
    var l2 := l1.(delegates := l1.delegates[d := x.(deleted := true)],
                  log := l1.log + multiset{Freed(d)});
    Drop(l2, x.lock)
  }

  /** Pops the top delegate and lets it expire: if it still has a client, the client is
      stopped and, that having succeeded, called back. */
  function PopAndExpire(l: Ledger, wake: bool): Ledger
    requires l.Heap(wake) != Nil
  {
    var d := l.Heap(wake).data.addr;
    var l1 := l.WithHeap(wake, Pop(l.Heap(wake)));
    if d in l.delegates && l.delegates[d].client.To? then Stop(l1, l.delegates[d].client.id, true)
    else l1
  }

  // ---------------------------------------------------------------- invariants

  type Delegates = map<nat, Delegate>

  function Item(ds: Delegates, d: nat): Rankable
    requires d in ds
  {
    Rankable(d, ds[d].deadline)
  }

  /** What both heaps together hold. */
  function Bag(l: Ledger): multiset<Rankable> {
    Elements(l.hw) + Elements(l.sw)
  }

  /** Apart from Expire messages no message is queued twice, and no delegate's Push comes
      after its Remove. */
  ghost predicate QueueInv(q: seq<Msg>) {
    && (forall i, j :: 0 <= i < j < |q| && !q[i].MsgExpire? ==> q[i] != q[j])
    && (forall i, j :: 0 <= i < j < |q| && q[i].MsgRemove? ==> q[j] != MsgPush(q[i].d))
  }

  /** Messages name delegates that exist, and delegates have locks. */
  ghost predicate NamedInv(q: seq<Msg>, ds: Delegates, next: nat, locks: map<nat, int>) {
    && (forall m :: m in q && !m.MsgExpire? ==> m.d in ds)
    && (forall d :: d in ds ==> d < next && ds[d].lock in locks)
  }

  /** A live delegate's client points back at that same delegate. */
  ghost predicate RefInv(clients: map<nat, Ref>, ds: Delegates) {
    && (forall c :: c in clients && clients[c].To? ==>
          clients[c].id in ds && ds[clients[c].id].client == To(c))
    && (forall d :: d in ds ==> ds[d].attached == ds[d].client.To?)
    && (forall d :: d in ds && ds[d].client.To? ==>
          && ds[d].client.id == ds[d].lock
          && ds[d].lock in clients && clients[ds[d].lock] == To(d))
  }

  /** Where one delegate is, according to what has been sent for it and processed. */
  ghost predicate Placed(ds: Delegates, q: seq<Msg>, bag: multiset<Rankable>, d: nat)
    requires d in ds
  {
    && (ds[d].deleted ==>
          && ds[d].client == Null
          && MsgPush(d) !in q && MsgRemove(d) !in q && Item(ds, d) !in bag)
    && (!ds[d].deleted ==> (MsgRemove(d) in q <==> ds[d].client == Null))
    && !(MsgPush(d) in q && Item(ds, d) in bag)
  }

  /** A timer not stopped is on its way to the heap or in it. */
  ghost predicate Kept(ds: Delegates, q: seq<Msg>, bag: multiset<Rankable>, d: nat)
    requires d in ds
  {
    ds[d].client.To? ==> MsgPush(d) in q || Item(ds, d) in bag
  }

  ghost predicate PlaceInv(ds: Delegates, q: seq<Msg>, bag: multiset<Rankable>) {
    forall d :: d in ds ==> Placed(ds, q, bag, d) && Kept(ds, q, bag, d)
  }

  /** A heap holds existing delegates of its own kind, once each. */
  ghost predicate BagInv(bag: multiset<Rankable>, ds: Delegates, wake: bool) {
    forall x :: x in bag ==>
      bag[x] == 1 && x.addr in ds && ds[x.addr].wake == wake && x == Item(ds, x.addr)
  }

  function Holders(ds: Delegates, c: nat): set<nat> {
    set d | d in ds && ds[d].lock == c && !ds[d].deleted
  }

  /** A lock is referenced by its client, while that lives, and by its undeleted delegates. */
  ghost predicate LockInv(locks: map<nat, int>, live: set<nat>, ds: Delegates) {
    && live <= locks.Keys
    && forall c :: c in locks ==>
         locks[c] == (if c in live then 1 else 0) + |Holders(ds, c)|
  }

  predicate StartedBy(ds: Delegates, c: nat, d: nat) {
    d in ds && ds[d].lock == c
  }

  predicate Resolved(ds: Delegates, d: nat) {
    d in ds && ds[d].client == Null
  }

  /** The history agrees with the state of each delegate. */
  ghost predicate LogInv(log: multiset<Event>, ds: Delegates) {
    LogStarts(log, ds) && LogResolves(log, ds)
  }

  ghost predicate LogStarts(log: multiset<Event>, ds: Delegates) {
    && (forall c, d :: log[Started(c, d)] == One(StartedBy(ds, c, d)))
    && (forall d :: log[PushSent(d)] == One(d in ds))
    && (forall d :: log[Freed(d)] == One(d in ds && ds[d].deleted))
  }

  ghost predicate LogResolves(log: multiset<Event>, ds: Delegates) {
    && (forall c, d :: log[Stopped(c, d)] + log[TimedOut(c, d)]
                       == One(StartedBy(ds, c, d) && Resolved(ds, d)))
    && (forall d :: log[RemoveSent(d)] == One(Resolved(ds, d)))
  }

  ghost predicate FreedInv(log: multiset<Event>, locks: map<nat, int>) {
    forall c :: log[LockFreed(c)] == One(c in locks && locks[c] == 0)
  }

  ghost predicate Inv(l: Ledger) {
    && QueueInv(l.queue)
    && NamedInv(l.queue, l.delegates, l.next, l.locks)
    && RefInv(l.clients, l.delegates)
    && PlaceInv(l.delegates, l.queue, Bag(l))
    && Heap(l.hw) && BagInv(Elements(l.hw), l.delegates, true)
    && Heap(l.sw) && BagInv(Elements(l.sw), l.delegates, false)
    && LockInv(l.locks, l.clients.Keys, l.delegates)
    && LogInv(l.log, l.delegates)
    && FreedInv(l.log, l.locks)
  }

  const EMPTY: Ledger := Ledger(map[], map[], map[], 0, [], Nil, Nil, multiset{})

  lemma EmptyInv()
    ensures Inv(EMPTY)
  {
  }

  // ---------------------------------------------------------------- starting a delegate

  function Fresh(c: nat, wake: bool, deadline: int): Delegate {
    Delegate(To(c), c, true, wake, deadline, false)
  }

  lemma StartQueue(q: seq<Msg>, ds: Delegates, d: nat, locks: map<nat, int>, x: Delegate, n: int)
    requires QueueInv(q) && NamedInv(q, ds, d, locks) && x.lock in locks
    ensures QueueInv(q + [MsgPush(d)])
    ensures NamedInv(q + [MsgPush(d)], ds[d := x], d + 1, locks[x.lock := n])
  {
    forall i | 0 <= i < |q| && !q[i].MsgExpire? ensures q[i].d != d {
      assert q[i] in q;
    }
  }

  lemma StartRefs(clients: map<nat, Ref>, ds: Delegates, c: nat, d: nat, wake: bool, t: int)
    requires RefInv(clients, ds) && d !in ds && c in clients && clients[c] == Null
    ensures RefInv(clients[c := To(d)], ds[d := Fresh(c, wake, t)])
  {
  }

  lemma StartPlaces(ds: Delegates, q: seq<Msg>, bag: multiset<Rankable>, d: nat,
                    locks: map<nat, int>, x: Delegate)
    requires PlaceInv(ds, q, bag) && NamedInv(q, ds, d, locks)
    requires forall y :: y in bag ==> y.addr in ds
    requires x.client.To? && !x.deleted
    ensures PlaceInv(ds[d := x], q + [MsgPush(d)], bag)
  {
    var ds', q' := ds[d := x], q + [MsgPush(d)];
    assert MsgPush(d) in q';
    forall e | e in ds' ensures Placed(ds', q', bag, e) && Kept(ds', q', bag, e) {
      if e != d {
        assert Placed(ds, q, bag, e) && Kept(ds, q, bag, e);
      }
    }
  }

  lemma StartHolders(ds: Delegates, d: nat, x: Delegate, c: nat)
    requires d !in ds && !x.deleted
    ensures |Holders(ds[d := x], c)| == |Holders(ds, c)| + One(c == x.lock)
  {
    assert Holders(ds[d := x], c) == Holders(ds, c) + if c == x.lock then {d} else {};
  }

  lemma StartLocks(locks: map<nat, int>, live: set<nat>, ds: Delegates, d: nat, x: Delegate)
    requires LockInv(locks, live, ds) && d !in ds && x.lock in locks && !x.deleted
    ensures LockInv(locks[x.lock := locks[x.lock] + 1], live, ds[d := x])
  {
    var ds' := ds[d := x];
    forall c | c in locks
      ensures |Holders(ds', c)| == |Holders(ds, c)| + One(c == x.lock)
    {
      StartHolders(ds, d, x, c);
    }
    hide Holders;
  }

  lemma StartLog(log: multiset<Event>, ds: Delegates, d: nat, x: Delegate)
    requires LogInv(log, ds) && d !in ds && x.client.To? && !x.deleted
    ensures LogInv(log + multiset{Started(x.lock, d), PushSent(d)}, ds[d := x])
  {
  }

  lemma StartBag(bag: multiset<Rankable>, ds: Delegates, wake: bool, d: nat, x: Delegate)
    requires BagInv(bag, ds, wake) && d !in ds
    ensures BagInv(bag, ds[d := x], wake)
  {
  }

  lemma StartFreed(log: multiset<Event>, locks: map<nat, int>, live: set<nat>, ds: Delegates,
                   c: nat, d: nat)
    requires FreedInv(log, locks) && LockInv(locks, live, ds) && c in live
    ensures FreedInv(log + multiset{Started(c, d), PushSent(d)}, locks[c := locks[c] + 1])
  {
  }

  lemma StartFacts(l: Ledger, c: nat)
    requires Inv(l) && c in l.clients
    ensures c in l.locks && l.next !in l.delegates
    ensures forall y :: y in Bag(l) ==> y.addr in l.delegates
  {
    assert c in l.clients.Keys;
  }

  lemma {:induction false} StartInv(l: Ledger, c: nat, wake: bool, deadline: int, available: bool)
    requires Inv(l)
    ensures Inv(Start(l, c, wake, deadline, available))
  {
    hide QueueInv, NamedInv, RefInv, PlaceInv, BagInv, LockInv, LogInv, FreedInv, Heap, Elements;
    if c in l.clients && l.clients[c] == Null && available {
      var d, x := l.next, Fresh(c, wake, deadline);
      StartFacts(l, c);
      StartQueue(l.queue, l.delegates, d, l.locks, x, l.locks[c] + 1);
      StartRefs(l.clients, l.delegates, c, d, wake, deadline);
      StartPlaces(l.delegates, l.queue, Bag(l), d, l.locks, x);
      StartLocks(l.locks, l.clients.Keys, l.delegates, d, x);
      StartLog(l.log, l.delegates, d, x);
      StartFreed(l.log, l.locks, l.clients.Keys, l.delegates, c, d);
      StartBag(Elements(l.hw), l.delegates, true, d, x);
      StartBag(Elements(l.sw), l.delegates, false, d, x);
      assert l.clients[c := To(d)].Keys == l.clients.Keys;
    }
  }

  lemma NewClientLocks(l: Ledger, c: nat)
    requires NamedInv(l.queue, l.delegates, l.next, l.locks) && c !in l.locks
    requires LockInv(l.locks, l.clients.Keys, l.delegates) && FreedInv(l.log, l.locks)
    ensures LockInv(l.locks[c := 1], l.clients[c := Null].Keys, l.delegates)
    ensures NamedInv(l.queue, l.delegates, l.next, l.locks[c := 1])
    ensures FreedInv(l.log, l.locks[c := 1])
  {
    assert Holders(l.delegates, c) == {};
  }

  lemma NewClientRefs(clients: map<nat, Ref>, ds: Delegates, c: nat)
    requires RefInv(clients, ds) && c !in clients
    ensures RefInv(clients[c := Null], ds)
  {
  }

  lemma {:induction false} NewClientInv(l: Ledger, c: nat)
    requires Inv(l)
    ensures Inv(NewClient(l, c))
  {
    hide QueueInv, NamedInv, RefInv, PlaceInv, BagInv, LockInv, LogInv, FreedInv, Heap, Elements;
    if c !in l.locks {
      if c in l.clients {
        StartFacts(l, c);
      }
      NewClientLocks(l, c);
      NewClientRefs(l.clients, l.delegates, c);
    }
  }

  // ---------------------------------------------------------------- stopping a delegate

  function Detach(x: Delegate): Delegate {
    x.(client := Null, attached := false)
  }

  lemma DetachQueue(q: seq<Msg>, ds: Delegates, next: nat, locks: map<nat, int>, d: nat)
    requires QueueInv(q) && NamedInv(q, ds, next, locks) && d in ds && MsgRemove(d) !in q
    ensures QueueInv(q + [MsgRemove(d)])
    ensures NamedInv(q + [MsgRemove(d)], ds[d := Detach(ds[d])], next, locks)
  {
  }

  lemma DetachRefs(clients: map<nat, Ref>, ds: Delegates, c: nat, d: nat)
    requires RefInv(clients, ds) && c in clients && clients[c] == To(d)
    ensures RefInv(clients[c := Null], ds[d := Detach(ds[d])])
  {
  }

  lemma DetachPlaces(ds: Delegates, q: seq<Msg>, bag: multiset<Rankable>, d: nat)
    requires d in ds && !ds[d].deleted
    requires forall e :: e in ds ==> Placed(ds, q, bag, e) && (e != d ==> Kept(ds, q, bag, e))
    ensures PlaceInv(ds[d := Detach(ds[d])], q + [MsgRemove(d)], bag)
  {
    var ds', q' := ds[d := Detach(ds[d])], q + [MsgRemove(d)];
    assert MsgRemove(d) in q';
    forall e | e in ds' ensures Placed(ds', q', bag, e) && Kept(ds', q', bag, e) {
      assert Placed(ds, q, bag, e);
      assert Item(ds', e) == Item(ds, e);
      assert MsgPush(e) in q' <==> MsgPush(e) in q;
    }
  }

  lemma DetachLocks(locks: map<nat, int>, live: set<nat>, ds: Delegates, d: nat)
    requires LockInv(locks, live, ds) && d in ds
    ensures LockInv(locks, live, ds[d := Detach(ds[d])])
  {
    forall c ensures Holders(ds[d := Detach(ds[d])], c) == Holders(ds, c) {
    }
  }

  lemma DetachLog(log: multiset<Event>, ds: Delegates, d: nat, e: Event)
    requires LogInv(log, ds) && d in ds && ds[d].client.To?
    requires e in {Stopped(ds[d].lock, d), TimedOut(ds[d].lock, d)}
    ensures LogInv(log + multiset{RemoveSent(d)} + multiset{e}, ds[d := Detach(ds[d])])
  {
    hide LogStarts, LogResolves;
    DetachStarts(log, ds, d, e);
    DetachResolves(log, ds, d, e);
  }

  lemma DetachStarts(log: multiset<Event>, ds: Delegates, d: nat, e: Event)
    requires LogStarts(log, ds) && d in ds && (e.Stopped? || e.TimedOut?)
    ensures LogStarts(log + multiset{RemoveSent(d)} + multiset{e}, ds[d := Detach(ds[d])])
  {
  }

  lemma DetachResolves(log: multiset<Event>, ds: Delegates, d: nat, e: Event)
    requires LogResolves(log, ds) && d in ds && ds[d].client.To?
    requires e in {Stopped(ds[d].lock, d), TimedOut(ds[d].lock, d)}
    ensures LogResolves(log + multiset{RemoveSent(d)} + multiset{e}, ds[d := Detach(ds[d])])
  {
  }

  lemma DetachBag(bag: multiset<Rankable>, ds: Delegates, wake: bool, d: nat)
    requires BagInv(bag, ds, wake) && d in ds
    ensures BagInv(bag, ds[d := Detach(ds[d])], wake)
  {
  }

  lemma DetachFreed(log: multiset<Event>, locks: map<nat, int>, d: nat, e: Event)
    requires FreedInv(log, locks) && !e.LockFreed?
    ensures FreedInv(log + multiset{RemoveSent(d)} + multiset{e}, locks)
  {
  }

  /** What stop() relies on, except that the delegate may just have left the heap. */
  ghost predicate InvBut(l: Ledger, d: nat) {
    && QueueInv(l.queue)
    && NamedInv(l.queue, l.delegates, l.next, l.locks)
    && RefInv(l.clients, l.delegates)
    && (forall e :: e in l.delegates ==>
          && Placed(l.delegates, l.queue, Bag(l), e)
          && (e != d ==> Kept(l.delegates, l.queue, Bag(l), e)))
    && Heap(l.hw) && BagInv(Elements(l.hw), l.delegates, true)
    && Heap(l.sw) && BagInv(Elements(l.sw), l.delegates, false)
    && LockInv(l.locks, l.clients.Keys, l.delegates)
    && LogInv(l.log, l.delegates)
    && FreedInv(l.log, l.locks)
  }

  lemma StopFacts(l: Ledger, c: nat)
    requires c in l.clients && l.clients[c].To? && InvBut(l, l.clients[c].id)
    ensures var d := l.clients[c].id;
            && d in l.delegates
            && l.delegates[d].client == To(c) && l.delegates[d].lock == c
            && l.delegates[d].attached && !l.delegates[d].deleted && MsgRemove(d) !in l.queue
  {
    assert Placed(l.delegates, l.queue, Bag(l), l.clients[c].id);
  }

  lemma {:induction false} StopInv(l: Ledger, c: nat, byExpiry: bool)
    requires c in l.clients && l.clients[c].To? && InvBut(l, l.clients[c].id)
    ensures Inv(Stop(l, c, byExpiry))
  {
    hide QueueInv, NamedInv, RefInv, PlaceInv, BagInv, LockInv, LogInv, FreedInv, Heap, Elements;
    var d := l.clients[c].id;
    var e := if byExpiry then TimedOut(c, d) else Stopped(c, d);
    StopFacts(l, c);
    DetachQueue(l.queue, l.delegates, l.next, l.locks, d);
    DetachRefs(l.clients, l.delegates, c, d);
    DetachPlaces(l.delegates, l.queue, Bag(l), d);
    DetachLocks(l.locks, l.clients.Keys, l.delegates, d);
    DetachLog(l.log, l.delegates, d, e);
    DetachBag(Elements(l.hw), l.delegates, true, d);
    DetachBag(Elements(l.sw), l.delegates, false, d);
    DetachFreed(l.log, l.locks, d, e);
    assert l.clients[c := Null].Keys == l.clients.Keys;
  }

  lemma {:induction false} ClientStopInv(l: Ledger, c: nat)
    requires Inv(l)
    ensures Inv(Stop(l, c, false))
  {
    if Stops(l, c) {
      StopInv(l, c, false);
    }
  }

  // ---------------------------------------------------------------- destroying a client

  lemma DropRefs(clients: map<nat, Ref>, ds: Delegates, c: nat)
    requires RefInv(clients, ds) && c in clients && clients[c] == Null
    ensures RefInv(clients - {c}, ds)
  {
  }

  lemma DropLocks(log: multiset<Event>, locks: map<nat, int>, live: set<nat>, ds: Delegates, c: nat)
    requires LockInv(locks, live, ds) && FreedInv(log, locks) && c in live
    ensures c in locks && LockInv(locks[c := locks[c] - 1], live - {c}, ds)
    ensures FreedInv(if locks[c] == 1 then log + multiset{LockFreed(c)} else log,
                     locks[c := locks[c] - 1])
  {
  }

  lemma DropLog(log: multiset<Event>, ds: Delegates, c: nat)
    requires LogInv(log, ds)
    ensures LogInv(log + multiset{LockFreed(c)}, ds)
  {
  }

  lemma DropNamed(q: seq<Msg>, ds: Delegates, next: nat, locks: map<nat, int>, c: nat, n: int)
    requires NamedInv(q, ds, next, locks)
    ensures NamedInv(q, ds, next, locks[c := n])
  {
  }

  lemma {:induction false} DestroyInv(l: Ledger, c: nat)
    requires Inv(l)
    ensures Inv(Destroy(l, c))
  {
    hide QueueInv, NamedInv, RefInv, PlaceInv, BagInv, LockInv, LogInv, FreedInv, Heap, Elements;
    if c in l.clients && c in l.locks {
      ClientStopInv(l, c);
      var l1 := Stop(l, c, false);
      assert l1.clients[c] == Null by {
        DestroyFacts(l, c);
      }
      DropRefs(l1.clients, l1.delegates, c);
      DropLocks(l1.log, l1.locks, l1.clients.Keys, l1.delegates, c);
      DropLog(l1.log, l1.delegates, c);
      DropNamed(l1.queue, l1.delegates, l1.next, l1.locks, c, l1.locks[c] - 1);
      assert (l1.clients - {c}).Keys == l1.clients.Keys - {c};
    }
  }

  lemma DestroyFacts(l: Ledger, c: nat)
    requires RefInv(l.clients, l.delegates) && c in l.clients
    ensures c in Stop(l, c, false).clients && Stop(l, c, false).clients[c] == Null
  {
  }

  // ---------------------------------------------------------------- messages

  /** What remains in the queue once its head has been taken. */
  lemma TailMessages(q: seq<Msg>)
    requires QueueInv(q) && q != []
    ensures QueueInv(q[1..])
    ensures forall m :: m in q[1..] ==> m in q
    ensures forall m :: m in q && m != q[0] ==> m in q[1..]
    ensures !q[0].MsgExpire? ==> q[0] !in q[1..]
    ensures q[0].MsgRemove? ==> MsgPush(q[0].d) !in q[1..]
  {
    assert q == [q[0]] + q[1..];
  }

  lemma TailNamed(q: seq<Msg>, ds: Delegates, next: nat, locks: map<nat, int>)
    requires NamedInv(q, ds, next, locks) && q != []
    ensures NamedInv(q[1..], ds, next, locks)
  {
  }

  lemma SendExpireInv(l: Ledger, wake: bool)
    requires Inv(l)
    ensures Inv(Send(l, MsgExpire(wake)))
  {
    var q, q' := l.queue, l.queue + [MsgExpire(wake)];
    ExpireQueue(q, wake, l.delegates, l.next, l.locks);
    hide QueueInv, NamedInv, RefInv, PlaceInv, BagInv, LockInv, LogInv, FreedInv, Heap, Elements;
    ExpirePlaces(l.delegates, q, q', Bag(l));
  }

  lemma ExpireQueue(q: seq<Msg>, wake: bool, ds: Delegates, next: nat, locks: map<nat, int>)
    requires QueueInv(q) && NamedInv(q, ds, next, locks)
    ensures QueueInv(q + [MsgExpire(wake)]) && NamedInv(q + [MsgExpire(wake)], ds, next, locks)
  {
  }

  lemma ExpirePlaces(ds: Delegates, q: seq<Msg>, q': seq<Msg>, bag: multiset<Rankable>)
    requires PlaceInv(ds, q, bag)
    requires forall m: Msg :: !m.MsgExpire? ==> (m in q' <==> m in q)
    ensures PlaceInv(ds, q', bag)
  {
    forall d | d in ds ensures Placed(ds, q', bag, d) && Kept(ds, q', bag, d) {
      assert Placed(ds, q, bag, d) && Kept(ds, q, bag, d);
    }
  }

  lemma ReceiveExpireInv(l: Ledger)
    requires Inv(l) && l.queue != [] && l.queue[0].MsgExpire?
    ensures Inv(Receive(l))
  {
    TailMessages(l.queue);
    TailNamed(l.queue, l.delegates, l.next, l.locks);
    ExpirePlaces(l.delegates, l.queue, l.queue[1..], Bag(l));
  }

  // ---------------------------------------------------------------- processing a Push

  lemma PushPlaces(ds: Delegates, q: seq<Msg>, bag: multiset<Rankable>, d: nat)
    requires PlaceInv(ds, q, bag) && QueueInv(q) && q != [] && q[0] == MsgPush(d) && d in ds
    ensures PlaceInv(ds, q[1..], bag + multiset{Item(ds, d)})
    ensures Item(ds, d) !in bag
  {
    TailMessages(q);
    var bag' := bag + multiset{Item(ds, d)};
    forall e | e in ds ensures Placed(ds, q[1..], bag', e) && Kept(ds, q[1..], bag', e) {
      assert Placed(ds, q, bag, e) && Kept(ds, q, bag, e);
    }
    assert Placed(ds, q, bag, d);
  }

  lemma PushBag(bag: multiset<Rankable>, ds: Delegates, d: nat)
    requires d in ds && BagInv(bag, ds, ds[d].wake) && Item(ds, d) !in bag
    ensures BagInv(bag + multiset{Item(ds, d)}, ds, ds[d].wake)
  {
  }

  lemma {:induction false} ProcPushInv(l: Ledger, d: nat)
    requires Inv(l) && HeadIs(l, d, MsgPush(d))
    ensures Inv(ProcPush(l, d))
  {
    hide QueueInv, NamedInv, RefInv, PlaceInv, BagInv, LockInv, LogInv, FreedInv, Heap, Elements;
    var k, x := l.delegates[d].wake, Item(l.delegates, d);
    TailMessages(l.queue);
    TailNamed(l.queue, l.delegates, l.next, l.locks);
    PushPlaces(l.delegates, l.queue, Bag(l), d);
    PushHeap(l.Heap(k), x);
    PushElements(l.Heap(k), x);
    PushBag(Elements(l.Heap(k)), l.delegates, d);
    assert Bag(ProcPush(l, d)) == Bag(l) + multiset{x};
  }

  // ---------------------------------------------------------------- processing a Remove

  lemma FreePlaces(ds: Delegates, q: seq<Msg>, bag: multiset<Rankable>, d: nat)
    requires PlaceInv(ds, q, bag) && QueueInv(q) && q != [] && q[0] == MsgRemove(d) && d in ds
    requires bag[Item(ds, d)] <= 1
    ensures PlaceInv(ds[d := ds[d].(deleted := true)], q[1..], bag - multiset{Item(ds, d)})
    ensures !ds[d].deleted && ds[d].client == Null
  {
    TailMessages(q);
    assert Placed(ds, q, bag, d);
    var ds', bag' := ds[d := ds[d].(deleted := true)], bag - multiset{Item(ds, d)};
    forall e | e in ds' ensures Placed(ds', q[1..], bag', e) && Kept(ds', q[1..], bag', e) {
      assert Placed(ds, q, bag, e) && Kept(ds, q, bag, e);
      assert Item(ds', e) == Item(ds, e);
    }
  }

  lemma FreeRefs(clients: map<nat, Ref>, ds: Delegates, d: nat)
    requires RefInv(clients, ds) && d in ds && ds[d].client == Null
    ensures RefInv(clients, ds[d := ds[d].(deleted := true)])
  {
  }

  lemma FreeNamed(q: seq<Msg>, ds: Delegates, next: nat, locks: map<nat, int>, d: nat, n: int)
    requires NamedInv(q, ds, next, locks) && d in ds
    ensures NamedInv(q, ds[d := ds[d].(deleted := true)], next, locks[ds[d].lock := n])
  {
  }

  lemma FreeHolders(ds: Delegates, d: nat, c: nat)
    requires d in ds && !ds[d].deleted
    ensures |Holders(ds[d := ds[d].(deleted := true)], c)| ==
              |Holders(ds, c)| - One(c == ds[d].lock)
  {
    var ds' := ds[d := ds[d].(deleted := true)];
    if c == ds[d].lock {
      assert d in Holders(ds, c) && Holders(ds', c) == Holders(ds, c) - {d};
    } else {
      assert Holders(ds', c) == Holders(ds, c);
    }
  }

  lemma FreeLocks(log: multiset<Event>, locks: map<nat, int>, live: set<nat>, ds: Delegates, d: nat)
    requires LockInv(locks, live, ds) && FreedInv(log, locks)
    requires d in ds && !ds[d].deleted && ds[d].lock in locks
    ensures var c, ds' := ds[d].lock, ds[d := ds[d].(deleted := true)];
            && LockInv(locks[c := locks[c] - 1], live, ds')
            && locks[c] >= 1
            && FreedInv(if locks[c] == 1 then log + multiset{Freed(d)} + multiset{LockFreed(c)}
                        else log + multiset{Freed(d)},
                        locks[c := locks[c] - 1])
  {
    var ds' := ds[d := ds[d].(deleted := true)];
    forall c ensures |Holders(ds', c)| == |Holders(ds, c)| - One(c == ds[d].lock) {
      FreeHolders(ds, d, c);
    }
    hide Holders;
  }

  lemma FreeLog(log: multiset<Event>, ds: Delegates, d: nat)
    requires LogInv(log, ds) && d in ds && !ds[d].deleted
    ensures LogInv(log + multiset{Freed(d)}, ds[d := ds[d].(deleted := true)])
  {
    hide LogStarts, LogResolves;
    FreeStarts(log, ds, d);
    FreeResolves(log, ds, d);
  }

  lemma FreeStarts(log: multiset<Event>, ds: Delegates, d: nat)
    requires LogStarts(log, ds) && d in ds && !ds[d].deleted
    ensures LogStarts(log + multiset{Freed(d)}, ds[d := ds[d].(deleted := true)])
  {
  }

  lemma FreeResolves(log: multiset<Event>, ds: Delegates, d: nat)
    requires LogResolves(log, ds) && d in ds
    ensures LogResolves(log + multiset{Freed(d)}, ds[d := ds[d].(deleted := true)])
  {
  }

  lemma FreeBag(bag: multiset<Rankable>, ds: Delegates, wake: bool, d: nat)
    requires BagInv(bag, ds, wake) && d in ds
    ensures BagInv(bag - multiset{Item(ds, d)}, ds[d := ds[d].(deleted := true)], wake)
    ensures bag[Item(ds, d)] <= 1
    ensures ds[d].wake != wake ==> Item(ds, d) !in bag
  {
  }

  /** Removing an object that may or may not be there. */
  lemma RemoveAny(t: Tree, x: Rankable)
    requires Heap(t)
    ensures Heap(Apply(t, OpRemove(x)).0)
    ensures Elements(Apply(t, OpRemove(x)).0) == Elements(t) - multiset{x}
  {
    ApplyHeap(t, OpRemove(x));
    RemoveTakes(t, x);
  }

  /** ProcRemove, field by field. */
  lemma ProcRemoveFields(l: Ledger, d: nat)
    requires HeadIs(l, d, MsgRemove(d)) && l.delegates[d].lock in l.locks
    ensures var l', x := ProcRemove(l, d), l.delegates[d];
            && l'.clients == l.clients && l'.next == l.next && l'.queue == l.queue[1..]
            && l'.delegates == l.delegates[d := x.(deleted := true)]
            && l'.locks == l.locks[x.lock := l.locks[x.lock] - 1]
            && l'.log == if l.locks[x.lock] == 1 then l.log + multiset{Freed(d)} + multiset{LockFreed(x.lock)}
                         else l.log + multiset{Freed(d)}
  {
    hide Apply, Elements;
  }

  lemma RemoveBags(l: Ledger, d: nat)
    requires HeadIs(l, d, MsgRemove(d)) && l.delegates[d].lock in l.locks
    requires Heap(l.hw) && Heap(l.sw)
    requires Item(l.delegates, d) !in Elements(l.Heap(!l.delegates[d].wake))
    ensures var l', x := ProcRemove(l, d), Item(l.delegates, d);
            && Heap(l'.hw) && Elements(l'.hw) == Elements(l.hw) - multiset{x}
            && Heap(l'.sw) && Elements(l'.sw) == Elements(l.sw) - multiset{x}
  {
    hide Heap, Elements, Apply;
    RemoveAny(l.Heap(l.delegates[d].wake), Item(l.delegates, d));
  }

  lemma BagMinus(a: multiset<Rankable>, b: multiset<Rankable>, x: Rankable)
    requires x !in a || x !in b
    ensures (a - multiset{x}) + (b - multiset{x}) == (a + b) - multiset{x}
    ensures a[x] <= 1 && b[x] <= 1 ==> (a + b)[x] <= 1
  {
  }

  lemma {:induction false} ProcRemoveQueue(l: Ledger, d: nat)
    requires Inv(l) && HeadIs(l, d, MsgRemove(d)) && l.delegates[d].lock in l.locks
    ensures !l.delegates[d].deleted
    ensures var l' := ProcRemove(l, d);
            && QueueInv(l'.queue) && NamedInv(l'.queue, l'.delegates, l'.next, l'.locks)
            && RefInv(l'.clients, l'.delegates)
            && PlaceInv(l'.delegates, l'.queue, Bag(l) - multiset{Item(l.delegates, d)})
  {
    hide QueueInv, NamedInv, RefInv, PlaceInv, BagInv, LockInv, LogInv, FreedInv, Heap, Elements,
      Apply, Placed, Kept, Holders, Item, ProcRemove;
    FreeBag(Elements(l.hw), l.delegates, true, d);
    FreeBag(Elements(l.sw), l.delegates, false, d);
    BagMinus(Elements(l.hw), Elements(l.sw), Item(l.delegates, d));
    assert QueueInv(l.queue[1..]) by {
      TailMessages(l.queue);
    }
    TailNamed(l.queue, l.delegates, l.next, l.locks);
    FreePlaces(l.delegates, l.queue, Bag(l), d);
    FreeRefs(l.clients, l.delegates, d);
    FreeNamed(l.queue[1..], l.delegates, l.next, l.locks, d, l.locks[l.delegates[d].lock] - 1);
    ProcRemoveFields(l, d);
  }

  lemma {:induction false} ProcRemoveLocks(l: Ledger, d: nat)
    requires Inv(l) && HeadIs(l, d, MsgRemove(d)) && l.delegates[d].lock in l.locks
    requires !l.delegates[d].deleted
    ensures var l' := ProcRemove(l, d);
            && LockInv(l'.locks, l'.clients.Keys, l'.delegates)
            && LogInv(l'.log, l'.delegates) && FreedInv(l'.log, l'.locks)
  {
    hide QueueInv, NamedInv, RefInv, PlaceInv, BagInv, LockInv, LogInv, FreedInv, Heap, Elements,
      Apply, Placed, Kept, Holders, Item, ProcRemove;
    var x := l.delegates[d];
    FreeLocks(l.log, l.locks, l.clients.Keys, l.delegates, d);
    FreeLog(l.log, l.delegates, d);
    DropLog(l.log + multiset{Freed(d)}, l.delegates[d := x.(deleted := true)], x.lock);
    ProcRemoveFields(l, d);
  }

  lemma {:induction false} ProcRemoveInv(l: Ledger, d: nat)
    requires Inv(l) && HeadIs(l, d, MsgRemove(d)) && l.delegates[d].lock in l.locks
    ensures Inv(ProcRemove(l, d))
  {
    hide QueueInv, NamedInv, RefInv, PlaceInv, BagInv, LockInv, LogInv, FreedInv, Heap, Elements,
      Apply, Placed, Kept, Holders, Item, ProcRemove;
    var item := Item(l.delegates, d);
    FreeBag(Elements(l.hw), l.delegates, true, d);
    FreeBag(Elements(l.sw), l.delegates, false, d);
    BagMinus(Elements(l.hw), Elements(l.sw), item);
    RemoveBags(l, d);
    ProcRemoveFields(l, d);
    ProcRemoveQueue(l, d);
    ProcRemoveLocks(l, d);
    assert Bag(ProcRemove(l, d)) == Bag(l) - multiset{item};
  }

  // ---------------------------------------------------------------- expiring

  lemma PopPlaces(ds: Delegates, q: seq<Msg>, bag: multiset<Rankable>, d: nat)
    requires PlaceInv(ds, q, bag) && d in ds
    ensures forall e :: e in ds ==>
              && Placed(ds, q, bag - multiset{Item(ds, d)}, e)
              && (e != d || ds[d].client == Null ==>
                    Kept(ds, q, bag - multiset{Item(ds, d)}, e))
    ensures ds[d].client == Null ==> PlaceInv(ds, q, bag - multiset{Item(ds, d)})
  {
    var bag' := bag - multiset{Item(ds, d)};
    forall e | e in ds
      ensures Placed(ds, q, bag', e) && (e != d || ds[d].client == Null ==> Kept(ds, q, bag', e))
    {
      assert Placed(ds, q, bag, e) && Kept(ds, q, bag, e);
    }
  }

  lemma PopBag(bag: multiset<Rankable>, ds: Delegates, wake: bool, x: Rankable)
    requires BagInv(bag, ds, wake)
    ensures BagInv(bag - multiset{x}, ds, wake)
    ensures x in bag ==> x.addr in ds && x == Item(ds, x.addr)
  {
  }

  lemma PopTop(t: Tree)
    requires Heap(t) && t != Nil
    ensures t.data in Elements(t) && Elements(Pop(t)) == Elements(t) - multiset{t.data}
  {
    PopTakes(t);
  }

  lemma PopFacts(l: Ledger, d: nat)
    requires RefInv(l.clients, l.delegates) && d in l.delegates && l.delegates[d].client.To?
    ensures var c := l.delegates[d].client.id; c in l.clients && l.clients[c] == To(d)
  {
  }

  lemma PopAndExpireIs(l: Ledger, wake: bool)
    requires l.Heap(wake) != Nil && l.Heap(wake).data.addr in l.delegates
    ensures PopAndExpire(l, wake) ==
              var l1 := l.WithHeap(wake, Pop(l.Heap(wake)));
              var client := l.delegates[l.Heap(wake).data.addr].client;
              if client.To? then Stop(l1, client.id, true) else l1
  {
  }

  /** After the pop, before the delegate's client is told. */
  lemma PoppedInv(l: Ledger, wake: bool)
    requires Inv(l) && l.Heap(wake) != Nil
    ensures var l1, d := l.WithHeap(wake, Pop(l.Heap(wake))), l.Heap(wake).data.addr;
            d in l.delegates && InvBut(l1, d) && (l.delegates[d].client == Null ==> Inv(l1))
  {
    hide QueueInv, NamedInv, RefInv, PlaceInv, BagInv, LockInv, LogInv, FreedInv, Heap, Elements,
      Pop;
    var t, x := l.Heap(wake), l.Heap(wake).data;
    PopHeap(t);
    PopTop(t);
    PopBag(Elements(t), l.delegates, wake, x);
    PopPlaces(l.delegates, l.queue, Bag(l), x.addr);
    assert Bag(l.WithHeap(wake, Pop(t))) == Bag(l) - multiset{x};
  }

  lemma {:induction false} PopAndExpireInv(l: Ledger, wake: bool)
    requires Inv(l) && l.Heap(wake) != Nil
    ensures Inv(PopAndExpire(l, wake))
  {
    PoppedInv(l, wake);
    PopAndExpireIs(l, wake);
    var d := l.Heap(wake).data.addr;
    if l.delegates[d].client.To? {
      PopFacts(l, d);
      hide Inv, InvBut, PopAndExpire, Stop, Pop;
      StopInv(l.WithHeap(wake, Pop(l.Heap(wake))), l.delegates[d].client.id, true);
    }
  }
}
