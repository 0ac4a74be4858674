/** The timer service as the program runs it: containers that are heaps with a device, and
    the tables of clients, delegates and shared locks, all updated in place.  Every method
    performs exactly one step of TimerService, and the loop that handles an Expire message
    performs the same steps as the drain does when nothing comes between them. */
module TimerProgram {
  import opened HeapTree
  import opened HeapObjects
  import opened TimerLedger
  import opened TimerService

  /** A heap of timers with the state of its device. */
  class LocTimerContainer {
    const heap: LocHeap
    var armed: Alarm
    var polled: bool

    ghost predicate Valid()
      reads this, heap, heap.Repr
    {
      heap.Valid() && this !in heap.Repr
    }

    ghost function Dev(): Device
      reads this
    {
      Device(armed, polled)
    }

    ghost function Tree(): Tree
      reads heap, heap.mTree
    {
      heap.Model()
    }

    constructor ()
      ensures Valid() && fresh(heap) && fresh(heap.Repr)
      ensures Tree() == Nil && Dev() == Device(Disarmed, false)
    {
      heap := new LocHeap();
      armed, polled := Disarmed, false;
    }

    /** Updates the poll set if the top changed; the time to pass to the device, if any, is
        returned for the caller to set as its next step. */
    method UpdateSoonestTime(priorTop: Answer) returns (toSetTime: bool, alarm: Alarm)
      requires Valid()
      modifies this
      ensures armed == old(armed)
      ensures toSetTime <==>
                && Top(Tree()) != priorTop
                && (Tree() == Nil || priorTop == None || OutRanks(Tree().data, priorTop.item))
      ensures polled == if toSetTime then Tree() != Nil else old(polled)
      ensures toSetTime ==>
                alarm == if Tree() == Nil then Disarmed else TimeSpec(Tree().data.key)
    {
      toSetTime, alarm := false, Disarmed;
      var curTop := heap.Peek();
      if curTop != priorTop {
        if curTop == None {
          polled := false;
          toSetTime := true;
        } else if priorTop == None || OutRanks(curTop.item, priorTop.item) {
          polled := true;
          alarm := TimeSpec(curTop.item.key);
          toSetTime := true;
        }
      }
    }

    /** Pops the top unless it lies after `at`. */
    method PopIfOutRanks(at: int) returns (timer: Answer)
      requires Valid()
      modifies heap.Repr
      ensures Valid() && heap.Repr <= old(heap.Repr)
      ensures timer == None <==> old(Tree()) == Nil || at < old(Tree()).data.key
      ensures timer == None ==> Tree() == old(Tree())
      ensures timer.Some? ==>
                timer.item == old(Tree()).data && Tree() == HeapTree.Pop(old(Tree()))
    {
      timer := heap.Peek();
      if timer.Some? && at < timer.item.key {
        timer := None;
      } else {
        timer := heap.Pop();
      }
    }
  }

  /** Drain steps until the drain stops, nothing coming between them. */
  function DrainAll(s: System): System
    requires s.work.Draining?
    decreases Count(s.ledger.Heap(s.work.wake))
  {
    var s' := Drain(s);
    if s'.work.Draining? then
      PopCount(s.ledger.Heap(s.work.wake));
      DrainAll(s')
    else s'
  }

  lemma {:induction false} PopCount(t: Tree)
    requires t != Nil
    ensures Count(HeapTree.Pop(t)) == Count(t) - 1
  {
    if t.left == Nil && t.right == Nil {
    } else if TakesLeft(t.left, t.right) {
      PopCount(t.left);
    } else {
      PopCount(t.right);
    }
  }

  /** The two containers and the tables of the objects around them.  A client is a LocTimer
      with its mTimer, a lock a reference count, a delegate a row of its fields. */
  class LocTimers {
    var now: int
    var clients: map<nat, Ref>
    var locks: map<nat, int>
    var delegates: map<nat, Delegate>
    var next: nat
    var queue: seq<Msg>
    const hw: LocTimerContainer
    const sw: LocTimerContainer
    ghost var log: multiset<Event>

    ghost predicate Valid()
      reads hw, sw, hw.heap, sw.heap, hw.heap.Repr, sw.heap.Repr
    {
      && hw.Valid() && sw.Valid() && hw != sw
      && hw !in sw.heap.Repr && sw !in hw.heap.Repr
      && this !in hw.heap.Repr && this !in sw.heap.Repr
      && hw.heap.Repr !! sw.heap.Repr
    }

    ghost function Heaps(): set<object>
      reads hw.heap, sw.heap
    {
      hw.heap.Repr + sw.heap.Repr
    }

    ghost function Books(): Ledger
      reads this, hw.heap, sw.heap, hw.heap.mTree, sw.heap.mTree
    {
      Ledger(clients, locks, delegates, next, queue, hw.Tree(), sw.Tree(), log)
    }

    ghost function Model(): System
      reads this, hw, sw, hw.heap, sw.heap, hw.heap.mTree, sw.heap.mTree
    {
      System(now, Books(), hw.Dev(), sw.Dev(), [], ToDisarm, Ready)
    }

    constructor (boot: nat)
      ensures Valid() && fresh(this) && fresh(hw) && fresh(sw) && fresh(Heaps())
      ensures Model() == Run(boot, [])
    {
      now, next := boot + 1, 0;
      clients, locks, delegates, queue, log := map[], map[], map[], [], multiset{};
      hw := new LocTimerContainer();
      sw := new LocTimerContainer();
    }

    lemma Apart()
      requires Valid()
      ensures this !in hw.heap.Repr && this !in sw.heap.Repr
    {
    }

    /** A change of the tables alone leaves the containers as they were. */
    twostate lemma Untouched()
      requires old(Valid())
      requires unchanged(hw, sw, hw.heap, sw.heap, old(hw.heap.Repr), old(sw.heap.Repr))
      ensures Valid() && Heaps() == old(Heaps())
      ensures hw.Tree() == old(hw.Tree()) && sw.Tree() == old(sw.Tree())
      ensures hw.Dev() == old(hw.Dev()) && sw.Dev() == old(sw.Dev())
    {
    }

    // ---- LocTimer, LocTimerDelegate and LocSharedLock

    method NewTimer(c: nat)
      requires Valid()
      modifies this
      ensures Valid() && Model() == Step(old(Model()), New(c))
    {
      if c !in locks {
        clients, locks := clients[c := Null], locks[c := 1];
      }
    }

    method Start(c: nat, wake: bool, ms: nat, available: bool) returns (success: bool)
      requires Valid() && c in clients && c in locks
      modifies this
      ensures Valid() && Model() == Step(old(Model()), StartTimer(c, wake, ms, available))
      ensures success <==> old(clients)[c] == Null && available
    {
      hide Valid, LocTimerContainer.Tree, LocTimerContainer.Dev;
      success := false;
      if clients[c] == Null {
        var future := now + ms * 1_000_000;
        if available {
          var d := next;
          Enlist(c, d, wake, future);
          success := true;
        }
      }
    }

    /** A new delegate, which shares the client's lock, and its Push message. */
    method Enlist(c: nat, d: nat, wake: bool, future: int)
      requires Valid() && c in clients && c in locks && clients[c] == Null && d == next
      modifies this
      ensures Valid() && now == old(now)
      ensures Books() == TimerLedger.Start(old(Books()), c, wake, future, true)
    {
      hide Valid, Heaps, LocTimerContainer.Tree, LocTimerContainer.Dev;
      Apart();
      locks := locks[c := locks[c] + 1];
      delegates := delegates[d := Delegate(To(c), c, true, wake, future, false)];
      next := next + 1;
      queue := queue + [MsgPush(d)];
      clients := clients[c := To(d)];
      log := log + multiset{Started(c, d), PushSent(d)};
      Untouched();
    }

    method DestroyLocked(d: nat)
      requires Valid() && d in delegates
      modifies this
      ensures Valid() && Books() == TimerLedger.DestroyLocked(old(Books()), d) && now == old(now)
    {
      hide Valid, Heaps, LocTimerContainer.Tree, LocTimerContainer.Dev;
      Apart();
      var x := delegates[d];
      delegates := delegates[d := x.(client := Null)];
      if x.attached {
        delegates := delegates[d := delegates[d].(attached := false)];
        queue := queue + [MsgRemove(d)];
        log := log + multiset{RemoveSent(d)};
      }
      Untouched();
    }

    method Stop(c: nat, ghost byExpiry: bool) returns (success: bool)
      requires Valid()
      requires c in clients && (clients[c].To? ==> clients[c].id in delegates)
      modifies this
      ensures Valid() && Books() == TimerLedger.Stop(old(Books()), c, byExpiry) && now == old(now)
      ensures success == Stops(old(Books()), c)
    {
      success := false;
      if clients[c].To? {
        var d := clients[c].id;
        clients := clients[c := Null];
        DestroyLocked(d);
        log := log + multiset{if byExpiry then TimedOut(c, d) else Stopped(c, d)};
        success := true;
      }
    }

    method Drop(c: nat)
      requires Valid() && c in locks
      modifies this
      ensures Valid() && Books() == TimerLedger.Drop(old(Books()), c) && now == old(now)
    {
      if locks[c] == 1 {
        log := log + multiset{LockFreed(c)};
      }
      locks := locks[c := locks[c] - 1];
    }

    method Destroy(c: nat)
      requires Valid() && c in clients && c in locks
      requires clients[c].To? ==> clients[c].id in delegates
      modifies this
      ensures Valid() && Model() == Step(old(Model()), DestroyTimer(c))
    {
      hide Valid, TimerLedger.Stop, TimerLedger.Drop, Stops, LocTimerContainer.Tree,
        LocTimerContainer.Dev;
      StopKeepsLocks(Books(), c);
      var _ := Stop(c, false);
      Forget(c);
      Drop(c);
    }

    lemma StopKeepsLocks(l: Ledger, c: nat)
      ensures TimerLedger.Stop(l, c, false).locks == l.locks
    {
    }

    method Forget(c: nat)
      requires Valid()
      modifies this
      ensures Valid() && now == old(now) && Books() == old(Books()).(clients := old(clients) - {c})
    {
      hide Valid, Heaps, LocTimerContainer.Tree, LocTimerContainer.Dev;
      Apart();
      clients := clients - {c};
      Untouched();
    }

    /** LocTimerDelegate::expire(); the callback is made when stop() succeeds. */
    method Expire(d: nat) returns (callback: bool)
      requires Valid() && d in delegates
      requires delegates[d].client.To? ==>
                 && delegates[d].client.id in clients
                 && (clients[delegates[d].client.id].To? ==>
                       clients[delegates[d].client.id].id in delegates)
      modifies this
      ensures Valid() && now == old(now)
      ensures Books() == if old(delegates)[d].client.To?
                         then TimerLedger.Stop(old(Books()), old(delegates)[d].client.id, true)
                         else old(Books())
      ensures callback <==>
                old(delegates)[d].client.To? && Stops(old(Books()), old(delegates)[d].client.id)
    {
      var client := delegates[d].client;
      callback := false;
      if client.To? {
        callback := Stop(client.id, true);
      }
    }

    // ---- the poll thread

    /** LocTimerContainer::expire() on the poll thread: disarm, stop polling, send. */
    method PollExpire(wake: bool)
      requires Valid()
      modifies this, hw, sw
      ensures Valid()
      ensures Model() == Poll(Poll(Poll(old(Model()).(todo := [wake]))))
    {
      var container := if wake then hw else sw;
      container.armed := Disarmed;
      container.polled := false;
      queue := queue + [MsgExpire(wake)];
    }

    // ---- the message thread

    /** updateSoonestTime with the timerfd_settime call it ends in. */
    method UpdateSoonestTime(wake: bool, priorTop: Answer)
      requires Valid()
      modifies hw, sw
      ensures Valid() && Books() == old(Books()) && Heaps() == old(Heaps())
      ensures Model() == SetTime(TimerService.UpdateSoonestTime(old(Model()), wake, priorTop))
    {
      var container := if wake then hw else sw;
      var toSetTime, alarm := container.UpdateSoonestTime(priorTop);
      if toSetTime {
        container.armed := alarm;
      }
    }

    method Peek(wake: bool) returns (top: Answer)
      requires Valid()
      ensures top == Top(Books().Heap(wake))
    {
      var container := if wake then hw else sw;
      top := container.heap.Peek();
    }

    method Push(x: Rankable, wake: bool)
      requires Valid()
      modifies Heaps()
      ensures Valid() && fresh(Heaps() - old(Heaps()))
      ensures Model() == old(Model()).(
                ledger := old(Books()).WithHeap(wake, HeapTree.Push(old(Books()).Heap(wake), x)))
    {
      if wake {
        hw.heap.Push(x);
      } else {
        sw.heap.Push(x);
      }
    }

    method Remove(x: Rankable, wake: bool) returns (removed: Answer)
      requires Valid()
      modifies Heaps()
      ensures Valid() && Heaps() <= old(Heaps())
      ensures var r := Apply(old(Books()).Heap(wake), OpRemove(x));
              removed == r.1 &&
              Model() == old(Model()).(ledger := old(Books()).WithHeap(wake, r.0))
    {
      if wake {
        removed := hw.heap.Remove(x);
      } else {
        removed := sw.heap.Remove(x);
      }
    }

    method ProcPush()
      requires Valid() && queue != [] && queue[0].MsgPush? && queue[0].d in delegates
      modifies this, hw, sw, Heaps()
      ensures Valid()
      ensures Model() == SetTime(OnPush(old(Model()), old(queue)[0].d))
    {
      hide Valid, SetTime, TimerService.UpdateSoonestTime, HeapTree.Push;
      var d, wake := queue[0].d, delegates[queue[0].d].wake;
      var priorTop := Peek(wake);
      Push(Item(delegates, d), wake);
      Receive();
      UpdateSoonestTime(wake, priorTop);
    }

    /** Takes the head off the queue; the messages read it first. */
    method Receive()
      requires Valid() && queue != []
      modifies this
      ensures Valid()
      ensures Model() == old(Model()).(ledger := TimerLedger.Receive(old(Books())))
    {
      queue := queue[1..];
    }

    ghost function Deleted(l: Ledger, d: nat): Ledger
      requires d in l.delegates && l.delegates[d].lock in l.locks
    {
      TimerLedger.Drop(l.(delegates := l.delegates[d := l.delegates[d].(deleted := true)],
                          log := l.log + multiset{Freed(d)}), l.delegates[d].lock)
    }

    method Delete(d: nat)
      requires Valid() && d in delegates && delegates[d].lock in locks
      modifies this
      ensures Valid()
      ensures Model() == old(Model()).(ledger := Deleted(old(Books()), d))
    {
      delegates := delegates[d := delegates[d].(deleted := true)];
      log := log + multiset{Freed(d)};
      Drop(delegates[d].lock);
    }

    /** Deleting the delegate and telling the device come to the same in either order. */
    lemma DeleteLast(s: System, d: nat, wake: bool)
      requires d in s.ledger.delegates && s.ledger.delegates[d].lock in s.ledger.locks
      ensures var s1 := SetTime(TimerService.UpdateSoonestTime(s, wake, None));
              && s1.ledger == s.ledger
              && SetTime(TimerService.UpdateSoonestTime(s.(ledger := Deleted(s.ledger, d)), wake, None))
                   == s1.(ledger := Deleted(s.ledger, d))
    {
    }

    method ProcRemove()
      requires Valid() && queue != [] && queue[0].MsgRemove? && queue[0].d in delegates
      requires delegates[queue[0].d].lock in locks
      modifies this, hw, sw, Heaps()
      ensures Valid()
      ensures Model() == SetTime(OnRemove(old(Model()), old(queue)[0].d))
    {
      hide Valid, HeapTree.Apply;
      var d, wake := queue[0].d, delegates[queue[0].d].wake;
      var priorTop := Peek(wake);
      var removed := Remove(Item(delegates, d), wake);
      Receive();
      ghost var s := Model();
      if priorTop == removed {
        UpdateSoonestTime(wake, None);
      }
      DeleteLast(s, d, wake);
      Delete(d);
    }

    method Pop(wake: bool) returns (timer: Answer)
      requires Valid()
      modifies Heaps()
      ensures Valid() && Heaps() <= old(Heaps())
      ensures timer == Top(old(Books()).Heap(wake))
      ensures timer == None ==> Model() == old(Model())
      ensures timer.Some? ==>
                Model() == old(Model()).(ledger :=
                  old(Books()).WithHeap(wake, HeapTree.Pop(old(Books()).Heap(wake))))
    {
      if wake {
        timer := hw.heap.Pop();
      } else {
        timer := sw.heap.Pop();
      }
    }

    method PopIfOutRanks(wake: bool, at: int) returns (timer: Answer)
      requires Valid()
      modifies Heaps()
      ensures Valid() && Heaps() <= old(Heaps())
      ensures var t := old(Books()).Heap(wake);
              if t == Nil || at < t.data.key then timer == None && Model() == old(Model())
              else
                && timer == Some(t.data)
                && Model() == old(Model()).(ledger :=
                     old(Books()).WithHeap(wake, HeapTree.Pop(t)))
    {
      if wake {
        timer := hw.PopIfOutRanks(at);
      } else {
        timer := sw.PopIfOutRanks(at);
      }
    }

    /** The pending pop of `timer` from state `s`, of a drain that will end in `goal`. */
    ghost predicate Pending(s: System, wake: bool, at: int, popped: seq<Rankable>,
                            timer: Answer, goal: System)
      reads this, hw, sw, hw.heap, sw.heap, hw.heap.mTree, sw.heap.mTree
    {
      var t := s.ledger.Heap(wake);
      if timer == None then
        && Model() == s.(work := Ready)
        && TimerService.UpdateSoonestTime(s.(work := Ready), wake, None) == goal
      else
        && Inv(s.ledger) && t != Nil && timer.item == t.data
        && Model() == s.(ledger := s.ledger.WithHeap(wake, HeapTree.Pop(t)), work := Ready)
        && DrainAll(PopNext(s, wake, at, popped)) == goal
    }

    lemma PendingFacts(l: Ledger, wake: bool)
      requires Inv(l) && l.Heap(wake) != Nil
      ensures var d := l.Heap(wake).data.addr;
              && d in l.delegates
              && (l.delegates[d].client.To? ==>
                    && l.delegates[d].client.id in l.clients
                    && l.clients[l.delegates[d].client.id] == To(d))
    {
      assert l.Heap(wake).data in Elements(l.Heap(wake));
    }

    /** The delegate, just popped from the heap as it was in `l`, expires. */
    method ExpirePopped(d: nat, ghost l: Ledger, wake: bool)
      requires Valid() && Inv(l) && l.Heap(wake) != Nil && d == l.Heap(wake).data.addr
      requires Books() == l.WithHeap(wake, HeapTree.Pop(l.Heap(wake)))
      modifies this
      ensures Valid() && now == old(now) && Books() == PopAndExpire(l, wake)
    {
      PendingFacts(l, wake);
      PopAndExpireIs(l, wake);
      hide Valid, Inv, TimerLedger.Stop, HeapTree.Pop, LocTimerContainer.Tree, PopAndExpire,
        LocTimerContainer.Dev, Stops;
      var _ := Expire(d);
    }

    /** One round of the loop: the popped timer expires and the next one is popped. */
    method ExpireNext(wake: bool, at: int, d: nat, ghost s: System, ghost popped: seq<Rankable>,
                      ghost goal: System)
      returns (timer: Answer)
      requires Valid() && s.ledger.Heap(wake) != Nil && s.ledger.Heap(wake).data.addr == d
      requires Pending(s, wake, at, popped, Some(s.ledger.Heap(wake).data), goal)
      modifies this, Heaps()
      ensures Valid() && Heaps() <= old(Heaps())
      ensures var s' := PopNext(s, wake, at, popped);
              && Pending(s', wake, at, s'.work.popped, timer, goal)
              && (timer.Some? ==> timer == Top(s'.ledger.Heap(wake)))
              && Count(s'.ledger.Heap(wake)) < Count(s.ledger.Heap(wake))
    {
      hide Valid, Inv, DrainAll, TimerService.UpdateSoonestTime, PopAndExpire;
      PopAndExpireHeap(s.ledger, wake);
      PopAndExpireInv(s.ledger, wake);
      PopCount(s.ledger.Heap(wake));
      DrainAllUnfolds(PopNext(s, wake, at, popped));
      ExpirePopped(d, s.ledger, wake);
      timer := PopIfOutRanks(wake, at);
    }

    method ExpireFirst(wake: bool, ghost goal: System) returns (timer: Answer)
      requires Valid() && queue != [] && queue[0] == MsgExpire(wake) && Inv(Books())
      requires goal == ExpireAll(Model(), wake)
      modifies this, Heaps()
      ensures Valid() && Heaps() <= old(Heaps())
      ensures var s := old(Model()).(ledger := TimerLedger.Receive(old(Books())));
              && timer == Top(s.ledger.Heap(wake))
              && Pending(s, wake, old(now), [], timer, goal)
    {
      hide Valid, Inv, DrainAll, PopNext, ExpireAll, TimerService.UpdateSoonestTime;
      ExpireAllUnfolds(Model(), wake);
      ReceiveExpireInv(Books());
      Receive();
      timer := Pop(wake);
    }

    method ExpireDone(wake: bool, at: int, ghost s: System, ghost popped: seq<Rankable>,
                      ghost goal: System)
      requires Valid() && Pending(s, wake, at, popped, None, goal)
      modifies hw, sw
      ensures Valid() && Model() == SetTime(goal)
    {
      hide Valid, SetTime, TimerService.UpdateSoonestTime;
      UpdateSoonestTime(wake, None);
    }

    /** The message: pop unconditionally, then whatever is due, then tell the device. */
    method ProcExpire()
      requires Valid() && queue != [] && queue[0].MsgExpire? && Inv(Books())
      modifies this, hw, sw, Heaps()
      ensures Valid()
      ensures Model() == SetTime(ExpireAll(old(Model()), old(queue)[0].wake))
    {
      hide Valid, SetTime, Inv, DrainAll, ExpireAll, TimerService.UpdateSoonestTime, Pending;
      var wake, at := queue[0].wake, now;
      ghost var goal, popped: seq<Rankable> := ExpireAll(Model(), wake), [];
      ghost var s := Model().(ledger := TimerLedger.Receive(Books()));
      var timer := ExpireFirst(wake, goal);
      while timer.Some?
        invariant Valid() && Pending(s, wake, at, popped, timer, goal)
        invariant timer.Some? ==> timer == Top(s.ledger.Heap(wake))
        invariant Heaps() <= old(Heaps())
        decreases if timer.Some? then 1 + Count(s.ledger.Heap(wake)) else 0
      {
        ghost var s', popped' := PopNext(s, wake, at, popped), popped + [timer.item];
        timer := ExpireNext(wake, at, timer.item.addr, s, popped, goal);
        s, popped := s', popped';
      }
      ExpireDone(wake, at, s, popped, goal);
    }
  }

  function ExpireAll(s: System, wake: bool): System
    requires s.ledger.queue != []
  {
    var s' := OnExpire(s, wake);
    if s'.work.Draining? then DrainAll(s') else s'
  }

  lemma ExpireAllUnfolds(s: System, wake: bool)
    requires s.work == Ready && s.ledger.queue != []
    ensures var s' := s.(ledger := TimerLedger.Receive(s.ledger));
            ExpireAll(s, wake) ==
              if s.ledger.Heap(wake) == Nil then TimerService.UpdateSoonestTime(s', wake, None)
              else DrainAll(PopNext(s', wake, s.now, []))
  {
  }

  lemma PopAndExpireHeap(l: Ledger, wake: bool)
    requires l.Heap(wake) != Nil
    ensures PopAndExpire(l, wake).Heap(wake) == HeapTree.Pop(l.Heap(wake))
  {
  }

  lemma DrainAllUnfolds(s: System)
    requires s.work.Draining?
    ensures var wake, t := s.work.wake, s.ledger.Heap(s.work.wake);
            DrainAll(s) ==
              if t != Nil && !(s.work.at < t.data.key)
              then DrainAll(PopNext(s, wake, s.work.at, s.work.popped))
              else TimerService.UpdateSoonestTime(s.(work := Ready), wake, None)
  {
  }
}
