/** The timer service as one system of interleaved steps: client threads start, stop and
    destroy timers; the message thread owns the heaps and sets the timer devices; the poll
    thread turns an expired device into an Expire message in three separate steps.  `true`
    names the alarm container and device, `false` the timer ones. */
module TimerService {
  import opened HeapTree
  import opened TimerLedger

  datatype Alarm = Disarmed | At(t: int)

  datatype Device = Device(armed: Alarm, polled: bool)

  datatype Stage = ToDisarm | ToUnpoll | ToSend

  /** What the message thread is in the middle of: nothing; draining a heap after an Expire
      message; or about to pass a new time to a device it has already put under poll. */
  datatype Work =
    | Ready
    | Draining(wake: bool, at: int, popped: seq<Rankable>)
    | Arming(dev: bool, alarm: Alarm)

  /** `todo` lists the devices epoll reported whose expiry the poll thread has yet to finish. */
  datatype System = System(
    now: int, ledger: Ledger, hw: Device, sw: Device, todo: seq<bool>, stage: Stage, work: Work)
  {
    function Dev(wake: bool): Device { if wake then hw else sw }

    function WithDev(wake: bool, d: Device): System {
      if wake then this.(hw := d) else this.(sw := d)
    }
  }

  datatype Action =
    | Tick(ns: nat)
    | New(c: nat)
    | StartTimer(c: nat, wake: bool, ms: nat, available: bool)
    | StopTimer(c: nat)
    | DestroyTimer(c: nat)
    | ProcMsg
    | DrainNext
    | SetDevice
    | PollWake(ready: seq<bool>)
    | PollNext

  // ---------------------------------------------------------------- the message thread

  function Top(t: Tree): Answer {
    if t == Nil then None else Some(t.data)
  }

  /** timerfd_settime with an absolute time; zero disarms. */
  function TimeSpec(t: int): Alarm {
    if t == 0 then Disarmed else At(t)
  }

  function UpdateSoonestTime(s: System, wake: bool, priorTop: Answer): System {
    var curTop := Top(s.ledger.Heap(wake));
    if curTop == priorTop then s
    else if curTop == None then
      s.WithDev(wake, s.Dev(wake).(polled := false)).(work := Arming(wake, Disarmed))
    else if priorTop == None || OutRanks(curTop.item, priorTop.item) then
      s.WithDev(wake, s.Dev(wake).(polled := true)).(work := Arming(wake, TimeSpec(curTop.item.key)))
    else s
  }

  function OnPush(s: System, d: nat): System
    requires HeadIs(s.ledger, d, MsgPush(d))
  {
    var wake := s.ledger.delegates[d].wake;
    UpdateSoonestTime(s.(ledger := ProcPush(s.ledger, d)), wake, Top(s.ledger.Heap(wake)))
  }

  function OnRemove(s: System, d: nat): System
    requires HeadIs(s.ledger, d, MsgRemove(d)) && s.ledger.delegates[d].lock in s.ledger.locks
  {
    var wake := s.ledger.delegates[d].wake;
    var removed := Apply(s.ledger.Heap(wake), OpRemove(Item(s.ledger.delegates, d))).1;
    var s' := s.(ledger := ProcRemove(s.ledger, d));
    if Top(s.ledger.Heap(wake)) == removed then UpdateSoonestTime(s', wake, None) else s'
  }

  function PopNext(s: System, wake: bool, at: int, popped: seq<Rankable>): System
    requires s.ledger.Heap(wake) != Nil
  {
    s.(ledger := PopAndExpire(s.ledger, wake),
       work := Draining(wake, at, popped + [s.ledger.Heap(wake).data]))
  }

  /** The first pop of an Expire message is unconditional. */
  function OnExpire(s: System, wake: bool): System
    requires s.ledger.queue != []
  {
    var s' := s.(ledger := Receive(s.ledger));
    if s.ledger.Heap(wake) == Nil then UpdateSoonestTime(s', wake, None)
    else PopNext(s', wake, s.now, [])
  }

  function OnMsg(s: System): System {
    if s.work != Ready || s.ledger.queue == [] then s
    else
      match s.ledger.queue[0]
      case MsgPush(d) => if d in s.ledger.delegates then OnPush(s, d) else s
      case MsgRemove(d) =>
        if d in s.ledger.delegates && s.ledger.delegates[d].lock in s.ledger.locks
        then OnRemove(s, d) else s
      case MsgExpire(wake) => OnExpire(s, wake)
  }

  /** The later pops of an Expire message take what does not lie after its clock reading. */
  function Drain(s: System): System {
    if !s.work.Draining? then s
    else
      var heap := s.ledger.Heap(s.work.wake);
      if heap != Nil && !(s.work.at < heap.data.key)
      then PopNext(s, s.work.wake, s.work.at, s.work.popped)
      else UpdateSoonestTime(s.(work := Ready), s.work.wake, None)
  }

  function SetTime(s: System): System {
    if !s.work.Arming? then s
    else s.WithDev(s.work.dev, s.Dev(s.work.dev).(armed := s.work.alarm)).(work := Ready)
  }

  // ---------------------------------------------------------------- the poll thread

  predicate Expired(s: System, wake: bool) {
    s.Dev(wake).polled && s.Dev(wake).armed.At? && s.Dev(wake).armed.t <= s.now
  }

  /** epoll_wait returns, reporting each ready device once. */
  function Wake(s: System, ready: seq<bool>): System {
    if && s.todo == []
       && (forall k :: k in ready ==> Expired(s, k))
       && (forall i, j :: 0 <= i < j < |ready| ==> ready[i] != ready[j])
    then s.(todo := ready, stage := ToDisarm) else s
  }

  function Poll(s: System): System {
    if s.todo == [] then s
    else
      var k := s.todo[0];
      match s.stage
      case ToDisarm => s.WithDev(k, s.Dev(k).(armed := Disarmed)).(stage := ToUnpoll)
      case ToUnpoll => s.WithDev(k, s.Dev(k).(polled := false)).(stage := ToSend)
      case ToSend =>
        s.(ledger := Send(s.ledger, MsgExpire(k)), todo := s.todo[1..], stage := ToDisarm)
  }

  // ---------------------------------------------------------------- runs

  function Step(s: System, a: Action): System {
    match a
    case Tick(ns) => s.(now := s.now + ns)
    case New(c) => s.(ledger := NewClient(s.ledger, c))
    case StartTimer(c, wake, ms, available) =>
      s.(ledger := Start(s.ledger, c, wake, s.now + ms * 1_000_000, available))
    case StopTimer(c) => s.(ledger := Stop(s.ledger, c, false))
    case DestroyTimer(c) => s.(ledger := Destroy(s.ledger, c))
    case ProcMsg => OnMsg(s)
    case DrainNext => Drain(s)
    case SetDevice => SetTime(s)
    case PollWake(ready) => Wake(s, ready)
    case PollNext => Poll(s)
  }

  /** The clock is positive when the service starts. */
  function Run(boot: nat, steps: seq<Action>): System {
    if steps == [] then
      System(boot + 1, EMPTY, Device(Disarmed, false), Device(Disarmed, false), [], ToDisarm, Ready)
    else Step(Run(boot, steps[..|steps| - 1]), steps[|steps| - 1])
  }

  // ---------------------------------------------------------------- invariants

  /** A heap that holds timers is going to be looked at when its first one is due. */
  ghost predicate Covered(s: System, wake: bool) {
    var heap, dev := s.ledger.Heap(wake), s.Dev(wake);
    || heap == Nil
    || wake in s.todo
    || MsgExpire(wake) in s.ledger.queue
    || (s.work.Draining? && s.work.wake == wake)
    || (s.work.Arming? && s.work.dev == wake && dev.polled)
    || (dev.polled && dev.armed == At(heap.data.key))
  }

  /** What the message thread has established so far. */
  ghost predicate WorkInv(s: System) {
    match s.work
    case Ready => true
    case Draining(wake, at, popped) =>
      && popped != []
      && (forall i, j :: 0 <= i < j < |popped| ==> popped[i].key <= popped[j].key)
      && (forall i :: 0 < i < |popped| ==> popped[i].key <= at)
      && (forall x :: x in Elements(s.ledger.Heap(wake)) ==> popped[|popped| - 1].key <= x.key)
    case Arming(wake, alarm) =>
      s.ledger.Heap(wake) != Nil && alarm == At(s.ledger.Heap(wake).data.key)
  }

  ghost predicate ClockInv(s: System) {
    s.now > 0 && Deadlines(s.ledger)
  }

  ghost predicate SystemInv(s: System) {
    Inv(s.ledger) && ClockInv(s) && Covered(s, true) && Covered(s, false) && WorkInv(s)
  }

  // ---------------------------------------------------------------- client steps

  /** The ledger changed on the clients' side: the heaps are as they were and messages were
      only appended. */
  ghost predicate ClientSide(l: Ledger, l': Ledger) {
    l'.hw == l.hw && l'.sw == l.sw && forall m :: m in l.queue ==> m in l'.queue
  }

  ghost predicate Deadlines(l: Ledger) {
    forall d :: d in l.delegates ==> l.delegates[d].deadline > 0
  }

  lemma ClientSideKeeps(s: System, l': Ledger)
    requires ClientSide(s.ledger, l')
    ensures var s' := s.(ledger := l');
            && (Covered(s, true) ==> Covered(s', true))
            && (Covered(s, false) ==> Covered(s', false))
            && (WorkInv(s) ==> WorkInv(s'))
  {
  }

  lemma ClientOps(l: Ledger, c: nat, wake: bool, deadline: int, available: bool, byExpiry: bool)
    requires Deadlines(l) && deadline > 0
    ensures ClientSide(l, NewClient(l, c)) && Deadlines(NewClient(l, c))
    ensures ClientSide(l, Start(l, c, wake, deadline, available))
    ensures Deadlines(Start(l, c, wake, deadline, available))
    ensures ClientSide(l, Stop(l, c, byExpiry)) && Deadlines(Stop(l, c, byExpiry))
    ensures ClientSide(l, Destroy(l, c)) && Deadlines(Destroy(l, c))
  {
    StopOps(l, c, byExpiry);
    StopOps(l, c, false);
    hide Stop;
  }

  lemma StopOps(l: Ledger, c: nat, byExpiry: bool)
    requires Deadlines(l)
    ensures ClientSide(l, Stop(l, c, byExpiry)) && Deadlines(Stop(l, c, byExpiry))
  {
  }

  lemma {:induction false} ClientStepInv(s: System, a: Action)
    requires SystemInv(s)
    requires a.Tick? || a.New? || a.StartTimer? || a.StopTimer? || a.DestroyTimer?
    ensures SystemInv(Step(s, a))
  {
    hide Inv, Covered, WorkInv, Deadlines, ClientSide, NewClient, Start, Stop, Destroy;
    var deadline := s.now + if a.StartTimer? then a.ms * 1_000_000 else 0;
    var wake, available := a.StartTimer? && a.wake, a.StartTimer? && a.available;
    match a
    case Tick(ns) => TickKeeps(s, ns);
    case New(c) =>
      ClientOps(s.ledger, c, wake, deadline, available, false);
      NewClientInv(s.ledger, c);
      ClientSideKeeps(s, NewClient(s.ledger, c));
    case StartTimer(c, _, _, _) =>
      ClientOps(s.ledger, c, wake, deadline, available, false);
      TimerLedger.StartInv(s.ledger, c, wake, deadline, available);
      ClientSideKeeps(s, Start(s.ledger, c, wake, deadline, available));
    case StopTimer(c) =>
      ClientOps(s.ledger, c, wake, deadline, available, false);
      ClientStopInv(s.ledger, c);
      ClientSideKeeps(s, Stop(s.ledger, c, false));
    case DestroyTimer(c) =>
      ClientOps(s.ledger, c, wake, deadline, available, false);
      DestroyInv(s.ledger, c);
      ClientSideKeeps(s, Destroy(s.ledger, c));
  }

  lemma TickKeeps(s: System, ns: nat)
    ensures var s' := s.(now := s.now + ns);
            && (Covered(s, true) ==> Covered(s', true))
            && (Covered(s, false) ==> Covered(s', false))
            && (WorkInv(s) ==> WorkInv(s'))
  {
  }

  // ---------------------------------------------------------------- message thread steps

  /** Telling the device keeps both heaps covered, if this one was covered under an
      unchanged top or its top is new. */
  lemma UpdateKeeps(s: System, wake: bool, priorTop: Answer)
    requires s.work == Ready && Covered(s, !wake)
    requires var curTop := Top(s.ledger.Heap(wake));
             || (curTop == None && priorTop == None)
             || (&& curTop.Some? && curTop.item.key > 0
                 && (|| priorTop == None
                     || OutRanks(curTop.item, priorTop.item)
                     || (curTop == priorTop && Covered(s, wake))))
    ensures var s' := UpdateSoonestTime(s, wake, priorTop);
            && Covered(s', true) && Covered(s', false) && WorkInv(s')
            && s'.ledger == s.ledger && s'.now == s.now
  {
    var s' := UpdateSoonestTime(s, wake, priorTop);
    assert Covered(s', wake);
    assert Covered(s', !wake);
  }

  lemma UpdateKeepsLedger(s: System, wake: bool, priorTop: Answer)
    ensures var s' := UpdateSoonestTime(s, wake, priorTop); s'.ledger == s.ledger && s'.now == s.now
  {
  }

  /** Stored timers are due after time zero. */
  lemma TopIsPositive(l: Ledger, wake: bool)
    requires Inv(l) && Deadlines(l) && l.Heap(wake) != Nil
    ensures l.Heap(wake).data.key > 0
  {
    assert l.Heap(wake).data in Elements(l.Heap(wake));
  }

  /** The queue lost its head, which was not an Expire message, and only this heap changed. */
  ghost predicate OneHeap(l: Ledger, l': Ledger, wake: bool) {
    && l.queue != [] && !l.queue[0].MsgExpire? && l'.queue == l.queue[1..]
    && l'.Heap(!wake) == l.Heap(!wake)
  }

  lemma OneHeapKeeps(s: System, l': Ledger, wake: bool)
    requires OneHeap(s.ledger, l', wake) && s.work == Ready
    ensures var s' := s.(ledger := l');
            && (Covered(s, !wake) ==> Covered(s', !wake))
            && (&& Covered(s, wake) && s.ledger.Heap(wake) != Nil && l'.Heap(wake) != Nil
                && s.ledger.Heap(wake).data == l'.Heap(wake).data
                ==> Covered(s', wake))
  {
    var q := s.ledger.queue;
    assert q == [q[0]] + q[1..];
    forall k | MsgExpire(k) in q ensures MsgExpire(k) in l'.queue {
    }
  }

  lemma PushFacts(l: Ledger, d: nat)
    requires HeadIs(l, d, MsgPush(d)) && Heap(l.hw) && Heap(l.sw)
    ensures var wake, l', x := l.delegates[d].wake, ProcPush(l, d), Item(l.delegates, d);
            && OneHeap(l, l', wake) && l'.delegates == l.delegates
            && l'.Heap(wake) != Nil
            && l'.Heap(wake).data ==
                 if l.Heap(wake) == Nil || OutRanks(x, l.Heap(wake).data) then x
                 else l.Heap(wake).data
  {
    PushHeap(l.Heap(l.delegates[d].wake), Item(l.delegates, d));
  }

  lemma {:induction false} OnPushInv(s: System, d: nat)
    requires SystemInv(s) && s.work == Ready && HeadIs(s.ledger, d, MsgPush(d))
    ensures SystemInv(OnPush(s, d))
  {
    hide Covered, WorkInv, ProcPush, HeapTree.Heap, Elements, QueueInv, NamedInv, RefInv, PlaceInv,
      BagInv, LockInv, LogInv, FreedInv;
    var wake, l' := s.ledger.delegates[d].wake, ProcPush(s.ledger, d);
    ProcPushInv(s.ledger, d);
    PushFacts(s.ledger, d);
    OneHeapKeeps(s, l', wake);
    TopIsPositive(l', wake);
    UpdateKeeps(s.(ledger := l'), wake, Top(s.ledger.Heap(wake)));
  }

  lemma RemoveFacts(l: Ledger, d: nat)
    requires HeadIs(l, d, MsgRemove(d)) && l.delegates[d].lock in l.locks && Heap(l.hw) && Heap(l.sw)
    requires Deadlines(l)
    ensures var wake, l', x := l.delegates[d].wake, ProcRemove(l, d), Item(l.delegates, d);
            && OneHeap(l, l', wake) && Deadlines(l')
            && (Top(l.Heap(wake)) != Apply(l.Heap(wake), OpRemove(x)).1 ==>
                  && l.Heap(wake) != Nil && l'.Heap(wake) != Nil
                  && l'.Heap(wake).data == l.Heap(wake).data)
  {
    var t, x := l.Heap(l.delegates[d].wake), Item(l.delegates, d);
    if Remove(t, x).Removed? {
      RemoveHeap(t, x);
    }
  }

  lemma {:induction false} OnRemoveInv(s: System, d: nat)
    requires SystemInv(s) && s.work == Ready
    requires HeadIs(s.ledger, d, MsgRemove(d)) && s.ledger.delegates[d].lock in s.ledger.locks
    ensures SystemInv(OnRemove(s, d))
  {
    hide Covered, WorkInv, ProcRemove, HeapTree.Heap, Elements, QueueInv, NamedInv, RefInv, PlaceInv,
      BagInv, LockInv, LogInv, FreedInv, Apply, OneHeap;
    var wake, l' := s.ledger.delegates[d].wake, ProcRemove(s.ledger, d);
    var s' := s.(ledger := l');
    ProcRemoveInv(s.ledger, d);
    RemoveFacts(s.ledger, d);
    OneHeapKeeps(s, l', wake);
    if Top(s.ledger.Heap(wake)) == Apply(s.ledger.Heap(wake), OpRemove(Item(s.ledger.delegates, d))).1 {
      if l'.Heap(wake) != Nil {
        TopIsPositive(l', wake);
      }
      UpdateKeeps(s', wake, None);
    } else {
      ReadyWork(s');
    }
  }

  lemma ReadyWork(s: System)
    requires s.work == Ready
    ensures WorkInv(s)
  {
  }

  lemma PopFacts(l: Ledger, wake: bool)
    requires Inv(l) && Deadlines(l) && l.Heap(wake) != Nil
    ensures var l', top := PopAndExpire(l, wake), l.Heap(wake).data;
            && l'.Heap(!wake) == l.Heap(!wake) && Deadlines(l')
            && (forall m :: m in l.queue ==> m in l'.queue)
            && top in Elements(l.Heap(wake))
            && forall x :: x in Elements(l'.Heap(wake)) ==> top.key <= x.key
  {
    hide QueueInv, NamedInv, RefInv, PlaceInv, BagInv, LockInv, LogInv, FreedInv, Elements,
      HeapTree.Heap, PopAndExpire, Deadlines, Stop, Pop;
    PopLeavesLater(l.Heap(wake));
    PopSide(l, wake);
  }

  lemma PopLeavesLater(t: Tree)
    requires HeapTree.Heap(t) && t != Nil
    ensures t.data in Elements(t)
    ensures forall x :: x in Elements(Pop(t)) ==> t.data.key <= x.key
  {
    PopTakes(t);
  }

  lemma PopSide(l: Ledger, wake: bool)
    requires Deadlines(l) && l.Heap(wake) != Nil
    ensures var l' := PopAndExpire(l, wake);
            && l'.Heap(!wake) == l.Heap(!wake) && l'.Heap(wake) == Pop(l.Heap(wake))
            && Deadlines(l') && (forall m :: m in l.queue ==> m in l'.queue)
  {
    hide Stop, Pop;
    var d := l.Heap(wake).data.addr;
    if d in l.delegates && l.delegates[d].client.To? {
      StopOps(l.WithHeap(wake, Pop(l.Heap(wake))), l.delegates[d].client.id, true);
    }
  }

  /** One pop of the drain: sorted so far, and nothing left is sooner. */
  lemma {:induction false} PopNextInv(s: System, wake: bool, at: int, popped: seq<Rankable>)
    requires Inv(s.ledger) && ClockInv(s) && s.ledger.Heap(wake) != Nil && Covered(s, !wake)
    requires s.work == Ready || s.work == Draining(wake, at, popped)
    requires popped == [] || WorkInv(s.(work := Draining(wake, at, popped)))
    requires popped != [] ==> s.ledger.Heap(wake).data.key <= at
    ensures SystemInv(PopNext(s, wake, at, popped))
  {
    hide QueueInv, NamedInv, RefInv, PlaceInv, BagInv, LockInv, LogInv, FreedInv, HeapTree.Heap,
      Elements, PopAndExpire, Deadlines;
    PopAndExpireInv(s.ledger, wake);
    PopFacts(s.ledger, wake);
    var s' := PopNext(s, wake, at, popped);
    assert Covered(s', !wake);
    assert Covered(s', wake);
    assert WorkInv(s');
  }

  lemma {:induction false} OnExpireInv(s: System, wake: bool)
    requires SystemInv(s) && s.work == Ready
    requires s.ledger.queue != [] && s.ledger.queue[0] == MsgExpire(wake)
    ensures SystemInv(OnExpire(s, wake))
  {
    hide Inv, WorkInv, PopNext;
    ReceiveExpireInv(s.ledger);
    var s' := s.(ledger := Receive(s.ledger));
    var q := s.ledger.queue;
    assert q == [q[0]] + q[1..];
    assert Covered(s', !wake);
    if s.ledger.Heap(wake) == Nil {
      UpdateKeeps(s', wake, None);
    } else {
      PopNextInv(s', wake, s.now, []);
    }
  }

  lemma {:induction false} DrainInv(s: System)
    requires SystemInv(s)
    ensures SystemInv(Drain(s))
  {
    hide Inv, PopNext, Deadlines;
    if s.work.Draining? {
      var wake, heap := s.work.wake, s.ledger.Heap(s.work.wake);
      if heap != Nil && !(s.work.at < heap.data.key) {
        PopNextInv(s, wake, s.work.at, s.work.popped);
      } else {
        var s' := s.(work := Ready);
        assert Covered(s', !wake);
        if heap != Nil {
          TopIsPositive(s.ledger, wake);
        }
        UpdateKeeps(s', wake, None);
      }
    }
  }

  lemma {:induction false} OnMsgInv(s: System)
    requires SystemInv(s)
    ensures SystemInv(OnMsg(s))
  {
    hide SystemInv, OnPush, OnRemove, OnExpire;
    if s.work == Ready && s.ledger.queue != [] {
      match s.ledger.queue[0]
      case MsgPush(d) => if d in s.ledger.delegates { OnPushInv(s, d); }
      case MsgRemove(d) =>
        if d in s.ledger.delegates && s.ledger.delegates[d].lock in s.ledger.locks {
          OnRemoveInv(s, d);
        }
      case MsgExpire(wake) => OnExpireInv(s, wake);
    }
  }

  // ---------------------------------------------------------------- device and poll steps

  lemma {:induction false} SetTimeInv(s: System)
    requires SystemInv(s)
    ensures SystemInv(SetTime(s))
  {
    hide Inv, Deadlines;
  }

  lemma {:induction false} WakeInv(s: System, ready: seq<bool>)
    requires SystemInv(s)
    ensures SystemInv(Wake(s, ready))
  {
    hide Inv, Deadlines;
  }

  lemma SendDeadlines(l: Ledger, wake: bool)
    requires Deadlines(l)
    ensures Deadlines(Send(l, MsgExpire(wake)))
  {
  }

  lemma {:induction false} PollInv(s: System)
    requires SystemInv(s)
    ensures SystemInv(Poll(s))
  {
    hide Inv, Deadlines, Covered, WorkInv;
    if s.todo != [] {
      PollCovers(s, true);
      PollCovers(s, false);
      PollWork(s);
      if s.stage == ToSend {
        SendExpireInv(s.ledger, s.todo[0]);
        SendDeadlines(s.ledger, s.todo[0]);
      }
    }
  }

  /** Between reporting a device and queueing its Expire message the poll thread itself
      covers the heap; afterwards the message does. */
  lemma PollCovers(s: System, wake: bool)
    requires Covered(s, wake) && s.todo != []
    ensures Covered(Poll(s), wake)
  {
    assert s.todo == [s.todo[0]] + s.todo[1..];
    assert MsgExpire(s.todo[0]) in Send(s.ledger, MsgExpire(s.todo[0])).queue;
  }

  lemma PollWork(s: System)
    requires WorkInv(s)
    ensures WorkInv(Poll(s))
  {
    hide Elements;
    var s' := Poll(s);
    assert s'.work == s.work && s'.ledger.hw == s.ledger.hw && s'.ledger.sw == s.ledger.sw;
  }

  lemma {:induction false} StepInv(s: System, a: Action)
    requires SystemInv(s)
    ensures SystemInv(Step(s, a))
  {
    hide SystemInv, OnMsg, Drain, SetTime, Wake, Poll;
    match a
    case ProcMsg => OnMsgInv(s);
    case DrainNext => DrainInv(s);
    case SetDevice => SetTimeInv(s);
    case PollWake(ready) => WakeInv(s, ready);
    case PollNext => PollInv(s);
    case _ => ClientStepInv(s, a);
  }

  lemma {:induction false} RunInv(boot: nat, steps: seq<Action>)
    ensures SystemInv(Run(boot, steps))
  {
    if steps == [] {
      EmptyInv();
    } else {
      RunInv(boot, steps[..|steps| - 1]);
      StepInv(Run(boot, steps[..|steps| - 1]), steps[|steps| - 1]);
    }
  }
}
