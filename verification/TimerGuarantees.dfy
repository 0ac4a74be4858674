/** What the timer service guarantees its clients, over every interleaving of client calls,
    message processing and poll thread steps. */
module TimerGuarantees {
  import opened Counting
  import opened HeapTree
  import opened TimerLedger
  import opened TimerService

  /** No timer is ever lost: a heap that is not empty is waiting for its first deadline under
      poll, or an Expire message for it is queued or being drained, or the poll thread is on
      its way to queueing one, or the message thread is just passing the deadline on. */
  lemma {:induction false} NoTimerLost(boot: nat, steps: seq<Action>, wake: bool)
    ensures var s := Run(boot, steps);
            var heap := s.ledger.Heap(wake);
            heap != Nil ==>
              || (s.Dev(wake).polled && s.Dev(wake).armed == At(heap.data.key))
              || MsgExpire(wake) in s.ledger.queue
              || wake in s.todo
              || (s.work.Draining? && s.work.wake == wake)
              || s.work == Arming(wake, At(heap.data.key))
  {
    RunInv(boot, steps);
  }

  /** For the client: once the threads are idle, a timer that was started and not stopped has
      its device polled and armed no later than its deadline. */
  lemma {:induction false} RunningTimerIsArmed(boot: nat, steps: seq<Action>, c: nat)
    requires var s := Run(boot, steps);
             && s.work == Ready && s.ledger.queue == [] && s.todo == []
             && c in s.ledger.clients && s.ledger.clients[c].To?
    ensures var s := Run(boot, steps);
            var d := s.ledger.clients[c].id;
            && d in s.ledger.delegates
            && var x := s.ledger.delegates[d];
               && !x.deleted && x.client == To(c)
               && s.Dev(x.wake).polled && s.Dev(x.wake).armed.At?
               && s.Dev(x.wake).armed.t <= x.deadline
  {
    RunInv(boot, steps);
    var s := Run(boot, steps);
    IdleTimerIsStored(s.ledger, c);
    var d := s.ledger.clients[c].id;
    var wake := s.ledger.delegates[d].wake;
    TopOutranked(s.ledger.Heap(wake), Item(s.ledger.delegates, d));
    NoTimerLost(boot, steps, wake);
  }

  /** And once the devices have nothing to report either, every timer that was started and
      not stopped is still to come: none is overdue. */
  lemma {:induction false} NoTimerIsOverdue(boot: nat, steps: seq<Action>, c: nat)
    requires var s := Run(boot, steps);
             && s.work == Ready && s.ledger.queue == [] && s.todo == []
             && !Expired(s, true) && !Expired(s, false)
             && c in s.ledger.clients && s.ledger.clients[c].To?
    ensures var s := Run(boot, steps);
            && s.ledger.clients[c].id in s.ledger.delegates
            && s.now < s.ledger.delegates[s.ledger.clients[c].id].deadline
  {
    hide Run;
    RunningTimerIsArmed(boot, steps, c);
  }

  lemma IdleTimerIsStored(l: Ledger, c: nat)
    requires Inv(l) && l.queue == [] && c in l.clients && l.clients[c].To?
    ensures var d := l.clients[c].id;
            && d in l.delegates && l.delegates[d].client == To(c) && !l.delegates[d].deleted
            && Item(l.delegates, d) in Elements(l.Heap(l.delegates[d].wake))
            && Ordered(l.Heap(l.delegates[d].wake))
  {
    var d := l.clients[c].id;
    assert Placed(l.delegates, l.queue, Bag(l), d) && Kept(l.delegates, l.queue, Bag(l), d);
    var x := Item(l.delegates, d);
    assert x in Elements(l.hw) || x in Elements(l.sw);
  }

  /** Over any run a delegate gets exactly one Push and at most one Remove, and is deleted at
      most once, after its Remove was sent; once deleted it is in no heap, no message names
      it and it has no client. */
  lemma {:induction false} DelegateLifetime(boot: nat, steps: seq<Action>, d: nat)
    ensures var l := Run(boot, steps).ledger;
            && l.log[PushSent(d)] == One(d in l.delegates)
            && l.log[Freed(d)] <= l.log[RemoveSent(d)] <= l.log[PushSent(d)]
            && (d in l.delegates ==> (l.delegates[d].deleted <==> l.log[Freed(d)] == 1))
            && (l.log[Freed(d)] == 1 ==>
                  && d in l.delegates && l.delegates[d].client == Null
                  && MsgPush(d) !in l.queue && MsgRemove(d) !in l.queue
                  && Item(l.delegates, d) !in Elements(l.hw)
                  && Item(l.delegates, d) !in Elements(l.sw))
  {
    RunInv(boot, steps);
    var l := Run(boot, steps).ledger;
    if d in l.delegates {
      assert Placed(l.delegates, l.queue, Bag(l), d);
    }
  }

  /** Conversely, whatever a heap stores or a message names has not been deleted. */
  lemma {:induction false} NoDanglingDelegate(boot: nat, steps: seq<Action>)
    ensures var l := Run(boot, steps).ledger;
            && (forall x :: x in Elements(l.hw) || x in Elements(l.sw) ==>
                  && x.addr in l.delegates && !l.delegates[x.addr].deleted
                  && x == Item(l.delegates, x.addr))
            && (forall m :: m in l.queue && !m.MsgExpire? ==>
                  m.d in l.delegates && !l.delegates[m.d].deleted)
  {
    RunInv(boot, steps);
    var l := Run(boot, steps).ledger;
    forall x | x in Elements(l.hw) || x in Elements(l.sw)
      ensures x.addr in l.delegates && !l.delegates[x.addr].deleted && x == Item(l.delegates, x.addr)
    {
      assert x in Bag(l);
      assert Placed(l.delegates, l.queue, Bag(l), x.addr);
    }
    forall m | m in l.queue && !m.MsgExpire?
      ensures m.d in l.delegates && !l.delegates[m.d].deleted
    {
      assert Placed(l.delegates, l.queue, Bag(l), m.d);
    }
  }

  /** Each successful start() is resolved at most once, by one callback or by one client
      stop(), never by both; it is unresolved exactly while the delegate has its client. */
  lemma {:induction false} ResolvedAtMostOnce(boot: nat, steps: seq<Action>, c: nat, d: nat)
    ensures var l := Run(boot, steps).ledger;
            && l.log[Stopped(c, d)] + l.log[TimedOut(c, d)] <= l.log[Started(c, d)] <= 1
            && (l.log[Started(c, d)] == 1 ==>
                  && d in l.delegates && l.delegates[d].lock == c
                  && (l.log[Stopped(c, d)] + l.log[TimedOut(c, d)] == 0
                      <==> l.delegates[d].client == To(c)))
  {
    RunInv(boot, steps);
  }

  /** mTimer and mClient always point at each other, and a delegate that has a client never
      points at a destroyed one. */
  lemma {:induction false} BackPointers(boot: nat, steps: seq<Action>, c: nat, d: nat)
    ensures var l := Run(boot, steps).ledger;
            (c in l.clients && l.clients[c] == To(d)) <==>
            (d in l.delegates && l.delegates[d].client == To(c))
  {
    RunInv(boot, steps);
  }

  /** A shared lock counts its live client and its undeleted delegates, and is freed, once,
      exactly when none of them is left. */
  lemma {:induction false} LockCount(boot: nat, steps: seq<Action>, c: nat)
    ensures var l := Run(boot, steps).ledger;
            && (c in l.clients ==> c in l.locks)
            && (c in l.locks ==>
                  && l.locks[c] == One(c in l.clients) + |Holders(l.delegates, c)|
                  && l.log[LockFreed(c)] ==
                       One(c !in l.clients && Holders(l.delegates, c) == {}))
  {
    RunInv(boot, steps);
    var l := Run(boot, steps).ledger;
    assert c in l.clients ==> c in l.clients.Keys;
    if c in l.locks && |Holders(l.delegates, c)| == 0 {
      assert Holders(l.delegates, c) == {};
    }
  }

  /** One Expire message drains in order: what it has popped is sorted by deadline, due at
      its clock reading after the unconditional first pop, and no later than anything left. */
  lemma {:induction false} ExpiryDrain(boot: nat, steps: seq<Action>)
    requires Run(boot, steps).work.Draining?
    ensures var s := Run(boot, steps);
            var popped := s.work.popped;
            && popped != []
            && (forall i, j :: 0 <= i < j < |popped| ==> popped[i].key <= popped[j].key)
            && (forall i :: 0 < i < |popped| ==> popped[i].key <= s.work.at)
            && forall x :: x in Elements(s.ledger.Heap(s.work.wake)) ==>
                 popped[|popped| - 1].key <= x.key
  {
    hide Run, Inv, Covered, Elements;
    RunInv(boot, steps);
  }

  /** And it stops exactly when every timer left is strictly later than its clock reading. */
  lemma {:induction false} DrainStopsWhenLater(boot: nat, steps: seq<Action>)
    requires Run(boot, steps).work.Draining?
    ensures var s := Run(boot, steps);
            !Step(s, DrainNext).work.Draining? <==>
            forall x :: x in Elements(s.ledger.Heap(s.work.wake)) ==> s.work.at < x.key
  {
    hide Run, Drain, QueueInv, NamedInv, RefInv, PlaceInv, BagInv, LockInv, LogInv, FreedInv,
      Elements, Covered, WorkInv;
    RunInv(boot, steps);
    DrainStops(Run(boot, steps));
  }

  lemma DrainGoesOn(s: System)
    requires s.work.Draining?
    ensures var heap := s.ledger.Heap(s.work.wake);
            Drain(s).work.Draining? <==> heap != Nil && !(s.work.at < heap.data.key)
  {
    hide PopAndExpire;
  }

  lemma DrainStops(s: System)
    requires s.work.Draining? && Ordered(s.ledger.Heap(s.work.wake))
    ensures !Drain(s).work.Draining? <==>
            forall x :: x in Elements(s.ledger.Heap(s.work.wake)) ==> s.work.at < x.key
  {
    DrainGoesOn(s);
    hide Drain;
    var heap := s.ledger.Heap(s.work.wake);
    if heap != Nil && s.work.at < heap.data.key {
      forall x | x in Elements(heap) ensures s.work.at < x.key {
        TopOutranked(heap, x);
      }
    } else if heap != Nil {
      assert heap.data in Elements(heap);
    }
  }

  /** The disarming branch of updateSoonestTime is dead: in no run is a device about to be
      disarmed by the message thread. */
  lemma {:induction false} MessageThreadNeverDisarms(boot: nat, steps: seq<Action>)
    ensures Run(boot, steps).work.Arming? ==> Run(boot, steps).work.alarm.At?
  {
    RunInv(boot, steps);
  }

  /** In particular removing the last timer leaves its device as it was, armed or not. */
  lemma {:induction false} RemovingLastTimerKeepsDevice(boot: nat, steps: seq<Action>, d: nat)
    requires var s := Run(boot, steps);
             && s.work == Ready && s.ledger.queue != [] && s.ledger.queue[0] == MsgRemove(d)
             && d in s.ledger.delegates
             && Step(s, ProcMsg).ledger.Heap(s.ledger.delegates[d].wake) == Nil
    ensures var s, s' := Run(boot, steps), Step(Run(boot, steps), ProcMsg);
            s'.hw == s.hw && s'.sw == s.sw && s'.work == Ready
  {
    hide Run, QueueInv, RefInv, PlaceInv, LockInv, LogInv, FreedInv, Elements, HeapTree.Heap;
    RunInv(boot, steps);
    LastRemoved(Run(boot, steps), d);
  }

  lemma LastRemoved(s: System, d: nat)
    requires s.work == Ready && HeadIs(s.ledger, d, MsgRemove(d))
    requires s.ledger.delegates[d].lock in s.ledger.locks
    requires OnRemove(s, d).ledger.Heap(s.ledger.delegates[d].wake) == Nil
    ensures var s' := OnRemove(s, d); s'.hw == s.hw && s'.sw == s.sw && s'.work == Ready
  {
    hide Apply;
  }
}
