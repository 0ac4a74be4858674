/** What a client asked for is what its timer does: the deadline and the container of every
    timer, from the actions alone, and that these are what the device is armed by and the
    callback waits for. */
module TimerTerms {
  import opened HeapTree
  import opened Deadline
  import opened TimerLedger
  import opened TimerService
  import opened TimerGuarantees
  import opened TimerPunctuality
  import opened TimerRanking

  // ---------------------------------------------------------------- the clock

  /** The clock, from the ticks alone. */
  function Clock(boot: nat, steps: seq<Action>): nat {
    if steps == [] then boot + 1
    else
      var last := steps[|steps| - 1];
      Clock(boot, steps[..|steps| - 1]) + if last.Tick? then last.ns else 0
  }

  lemma ClockStep(s: System, a: Action)
    ensures Step(s, a).now == s.now + if a.Tick? then a.ns else 0
  {
    hide Start, Stop, Destroy, NewClient, Poll, Wake;
    match a
    case ProcMsg => MessagesKeepTimes(s);
    case DrainNext => DrainKeepsTimes(s);
    case PollNext => PollKeepsTerms(s);
    case PollWake(_) => PollKeepsTerms(s);
    case _ =>
  }

  lemma PollKeepsTerms(s: System)
    ensures Poll(s).now == s.now && Poll(s).ledger.delegates == s.ledger.delegates
    ensures forall ready :: Wake(s, ready).now == s.now && Wake(s, ready).ledger == s.ledger
  {
  }

  lemma {:induction false} NowIsClock(boot: nat, steps: seq<Action>)
    ensures Run(boot, steps).now == Clock(boot, steps)
  {
    if steps != [] {
      NowIsClock(boot, steps[..|steps| - 1]);
      ClockStep(Run(boot, steps[..|steps| - 1]), steps[|steps| - 1]);
    }
  }

  // ---------------------------------------------------------------- what a start gives

  /** A start of a timer that is not running gives the client a new timer that is due exactly
      the timeout from now, in the container asked for. */
  lemma StartGivesTimer(boot: nat, steps: seq<Action>, c: nat, wake: bool, ms: nat)
    requires var l := Run(boot, steps).ledger; c in l.clients && l.clients[c] == Null
    ensures var s, s' := Run(boot, steps), Run(boot, steps + [StartTimer(c, wake, ms, true)]);
            && c in s'.ledger.clients && s'.ledger.clients[c].To?
            && var d := s'.ledger.clients[c].id;
               && d !in s.ledger.delegates && d in s'.ledger.delegates
               && s'.ledger.delegates[d].client == To(c) && s'.ledger.delegates[d].wake == wake
               && s'.ledger.delegates[d].deadline == s.now + ms * 1_000_000
               && s'.ledger.delegates[d].deadline ==
                    Instant(FutureTime(Spec(Clock(boot, steps)), ms))
  {
    RunSnoc(boot, steps, StartTimer(c, wake, ms, true));
    RunInv(boot, steps);
    NowIsClock(boot, steps);
    FutureTimeIsSpec(Clock(boot, steps), ms);
    SpecIsInstant(Clock(boot, steps) + ms * 1_000_000);
    hide Run, QueueInv, PlaceInv, BagInv, LogInv, FreedInv, RefInv, Covered, WorkInv, Elements;
    StartFacts(Run(boot, steps).ledger, c);
  }

  /** A start does nothing to a timer that is running, or without a container. */
  lemma StartGivesNothing(boot: nat, steps: seq<Action>, c: nat, wake: bool, ms: nat, ok: bool)
    requires var l := Run(boot, steps).ledger; c !in l.clients || l.clients[c].To? || !ok
    ensures Run(boot, steps + [StartTimer(c, wake, ms, ok)]) == Run(boot, steps)
  {
    RunSnoc(boot, steps, StartTimer(c, wake, ms, ok));
  }

  /** A stop of a running timer ends it for the client, for good, and sends its Remove. */
  lemma StopEndsTimer(boot: nat, steps: seq<Action>, c: nat)
    requires var l := Run(boot, steps).ledger; c in l.clients && l.clients[c].To?
    ensures var l, l' := Run(boot, steps).ledger, Run(boot, steps + [StopTimer(c)]).ledger;
            var d := l.clients[c].id;
            && l'.clients == l.clients[c := Null]
            && d in l'.delegates && l'.delegates[d].client == Null
            && l'.queue == l.queue + [MsgRemove(d)] && l'.hw == l.hw && l'.sw == l.sw
            && l'.log[Stopped(c, d)] == l.log[Stopped(c, d)] + 1
            && l'.log[TimedOut(c, d)] == l.log[TimedOut(c, d)]
  {
    RunSnoc(boot, steps, StopTimer(c));
    RunInv(boot, steps);
    hide Run, QueueInv, NamedInv, PlaceInv, BagInv, LogInv, FreedInv, LockInv, Covered, WorkInv,
      Elements, HeapTree.Heap;
  }

  /** The poll thread handles an expiry in three steps: it disarms the device, takes it out of
      the poll set, and queues an Expire message for its container. */
  lemma ExpirySteps(s: System, wake: bool, rest: seq<bool>)
    requires s.todo == [wake] + rest && s.stage == ToDisarm
    ensures var s1 := Step(s, PollNext);
            var s2, s3 := Step(s1, PollNext), Step(Step(s1, PollNext), PollNext);
            && s1.Dev(wake) == Device(Disarmed, s.Dev(wake).polled) && s1.ledger == s.ledger
            && s2.Dev(wake) == Device(Disarmed, false) && s2.ledger == s.ledger
            && s3.Dev(wake) == Device(Disarmed, false)
            && s3.ledger == s.ledger.(queue := s.ledger.queue + [MsgExpire(wake)])
            && s3.todo == rest && s3.Dev(!wake) == s.Dev(!wake)
  {
  }

  /** epoll reports only devices that are polled and due, each once, and only to an idle poll
      thread. */
  lemma WakesOnlyDue(s: System, ready: seq<bool>)
    ensures var s' := Step(s, PollWake(ready));
            if && s.todo == []
               && (forall k :: k in ready ==>
                     s.Dev(k).polled && s.Dev(k).armed.At? && s.Dev(k).armed.t <= s.now)
               && (forall i, j :: 0 <= i < j < |ready| ==> ready[i] != ready[j])
            then s' == s.(todo := ready, stage := ToDisarm)
            else s' == s
  {
  }

  /** Over every run a drain goes by one clock reading, taken when its Expire was handled. */
  lemma DrainReadsClock(boot: nat, steps: seq<Action>, a: Action)
    ensures var s, s' := Run(boot, steps), Run(boot, steps + [a]);
            s'.work.Draining? ==>
              if s.work.Draining? then s'.work.at == s.work.at && s'.work.wake == s.work.wake
              else a == ProcMsg && s.ledger.queue != [] &&
                   s.ledger.queue[0] == MsgExpire(s'.work.wake) && s'.work.at == Clock(boot, steps)
  {
    RunSnoc(boot, steps, a);
    NowIsClock(boot, steps);
    WorkStep(Run(boot, steps), a);
  }

  lemma WorkStep(s: System, a: Action)
    ensures var s' := Step(s, a);
            s'.work.Draining? ==>
              if s.work.Draining? then s'.work.at == s.work.at && s'.work.wake == s.work.wake
              else a == ProcMsg && s.ledger.queue != [] &&
                   s.ledger.queue[0] == MsgExpire(s'.work.wake) && s'.work.at == s.now
  {
    hide PopAndExpire, ProcPush, ProcRemove, Start, Stop, Destroy, NewClient, Apply;
  }

  // ---------------------------------------------------------------- the terms of a timer

  /** The k-th action is the start that made timer d. */
  ghost predicate Made(boot: nat, steps: seq<Action>, d: nat, k: nat) {
    && k < |steps| && steps[k].StartTimer?
    && d !in Run(boot, steps[..k]).ledger.delegates
    && d in Run(boot, steps[..k + 1]).ledger.delegates
  }

  /** The timer is as its maker asked: due the timeout after the clock then, in its container,
      for its client. */
  ghost predicate AsAsked(boot: nat, steps: seq<Action>, d: nat, k: nat) {
    && Made(boot, steps, d, k)
    && d in Run(boot, steps).ledger.delegates
    && var x := Run(boot, steps).ledger.delegates[d];
       && x.deadline == Clock(boot, steps[..k]) + steps[k].ms * 1_000_000
       && x.wake == steps[k].wake && x.lock == steps[k].c
  }

  ghost predicate SameTerms(l: Ledger, l': Ledger) {
    forall d :: d in l.delegates ==>
      && d in l'.delegates
      && l'.delegates[d].deadline == l.delegates[d].deadline
      && l'.delegates[d].wake == l.delegates[d].wake
      && l'.delegates[d].lock == l.delegates[d].lock
  }

  lemma ClientsKeepTerms(l: Ledger, c: nat)
    ensures SameTerms(l, NewClient(l, c)) && SameTerms(l, Destroy(l, c))
    ensures SameTerms(l, Stop(l, c, false)) && SameTerms(l, Stop(l, c, true))
    ensures NewClient(l, c).delegates.Keys <= l.delegates.Keys
    ensures Destroy(l, c).delegates.Keys <= l.delegates.Keys
    ensures Stop(l, c, false).delegates.Keys <= l.delegates.Keys
    ensures Stop(l, c, true).delegates.Keys <= l.delegates.Keys
  {
    StopKeepsTerms(l, c, true);
    StopKeepsTerms(l, c, false);
    hide Stop;
  }

  lemma StopKeepsTerms(l: Ledger, c: nat, byExpiry: bool)
    ensures SameTerms(l, Stop(l, c, byExpiry))
    ensures Stop(l, c, byExpiry).delegates.Keys <= l.delegates.Keys
  {
  }

  lemma PopKeepsTerms(l: Ledger, wake: bool)
    requires l.Heap(wake) != Nil
    ensures SameTerms(l, PopAndExpire(l, wake))
    ensures PopAndExpire(l, wake).delegates.Keys <= l.delegates.Keys
  {
    var d, l1 := l.Heap(wake).data.addr, l.WithHeap(wake, Pop(l.Heap(wake)));
    if d in l.delegates && l.delegates[d].client.To? {
      StopKeepsTerms(l1, l.delegates[d].client.id, true);
    }
    hide Stop, Pop;
  }

  lemma RemoveKeepsTerms(l: Ledger, d: nat)
    requires HeadIs(l, d, MsgRemove(d)) && l.delegates[d].lock in l.locks
    ensures SameTerms(l, ProcRemove(l, d))
    ensures ProcRemove(l, d).delegates.Keys <= l.delegates.Keys
  {
    hide Apply;
  }

  lemma MessagesKeepTerms(s: System)
    ensures SameTerms(s.ledger, OnMsg(s).ledger) && SameTerms(s.ledger, Drain(s).ledger)
    ensures OnMsg(s).ledger.delegates.Keys <= s.ledger.delegates.Keys
    ensures Drain(s).ledger.delegates.Keys <= s.ledger.delegates.Keys
  {
    hide Push, Apply, PopAndExpire, UpdateSoonestTime, TimerLedger.Drop, SameTerms, ProcRemove;
    TermsAreSame(s.ledger);
    if s.work.Draining? {
      UpdateKeepsLedger(s.(work := Ready), s.work.wake, None);
      if s.ledger.Heap(s.work.wake) != Nil {
        PopKeepsTerms(s.ledger, s.work.wake);
      }
    }
    if s.work == Ready && s.ledger.queue != [] {
      match s.ledger.queue[0]
      case MsgPush(x) =>
        if x in s.ledger.delegates {
          var wake := s.ledger.delegates[x].wake;
          UpdateKeepsLedger(s.(ledger := ProcPush(s.ledger, x)), wake, Top(s.ledger.Heap(wake)));
          EqualTerms(s.ledger, ProcPush(s.ledger, x));
        }
      case MsgRemove(x) =>
        if x in s.ledger.delegates && s.ledger.delegates[x].lock in s.ledger.locks {
          RemoveKeepsTerms(s.ledger, x);
          UpdateKeepsLedger(s.(ledger := ProcRemove(s.ledger, x)), s.ledger.delegates[x].wake, None);
        }
      case MsgExpire(wake) =>
        var s1 := s.(ledger := Receive(s.ledger));
        UpdateKeepsLedger(s1, wake, None);
        EqualTerms(s.ledger, s1.ledger);
        if s.ledger.Heap(wake) != Nil {
          PopKeepsTerms(s1.ledger, wake);
          TermsCompose(s.ledger, s1.ledger, PopAndExpire(s1.ledger, wake));
        }
    }
  }

  lemma TermsAreSame(l: Ledger)
    ensures SameTerms(l, l)
  {
  }

  lemma EqualTerms(l: Ledger, l': Ledger)
    requires l'.delegates == l.delegates
    ensures SameTerms(l, l')
  {
  }

  lemma TermsCompose(l: Ledger, l1: Ledger, l2: Ledger)
    requires l1.delegates == l.delegates && SameTerms(l1, l2)
    ensures SameTerms(l, l2)
  {
  }

  lemma StartKeepsTerms(l: Ledger, c: nat, wake: bool, t: int, ok: bool)
    requires Inv(l)
    ensures SameTerms(l, Start(l, c, wake, t, ok))
  {
    if c in l.clients {
      StartFacts(l, c);
    }
    hide Inv;
  }

  /** Every step keeps the terms of the timers there are, and only a start makes one. */
  lemma StepKeepsTerms(s: System, a: Action)
    requires Inv(s.ledger)
    ensures SameTerms(s.ledger, Step(s, a).ledger)
    ensures !a.StartTimer? ==> Step(s, a).ledger.delegates.Keys <= s.ledger.delegates.Keys
  {
    hide Inv, OnMsg, Drain, Stop, Destroy, NewClient, Start, Poll, Wake, SetTime, SameTerms;
    TermsAreSame(s.ledger);
    match a
    case New(c) => ClientsKeepTerms(s.ledger, c);
    case StopTimer(c) => ClientsKeepTerms(s.ledger, c);
    case DestroyTimer(c) => ClientsKeepTerms(s.ledger, c);
    case ProcMsg => MessagesKeepTerms(s);
    case DrainNext => MessagesKeepTerms(s);
    case StartTimer(c, wake, ms, ok) =>
      StartKeepsTerms(s.ledger, c, wake, s.now + ms * 1_000_000, ok);
    case SetDevice => SetKeepsLedger(s);
    case PollNext =>
      PollKeepsTerms(s);
      EqualTerms(s.ledger, Poll(s).ledger);
    case PollWake(_) => PollKeepsTerms(s);
    case Tick(_) =>
  }

  lemma SetKeepsLedger(s: System)
    ensures SetTime(s).ledger == s.ledger
  {
  }

  /** Over every run each timer was made by one start and is as that start asked. */
  lemma {:induction false} TimersAreAsAsked(boot: nat, steps: seq<Action>, d: nat)
    requires d in Run(boot, steps).ledger.delegates
    ensures exists k: nat :: AsAsked(boot, steps, d, k)
  {
    hide Inv, Step, AsAsked, SameTerms;
    if steps == [] {
      NoneAtFirst(boot);
      assert false;
    } else {
      var n := |steps| - 1;
      var init := steps[..n];
      RunInv(boot, init);
      StepKeepsTerms(Run(boot, init), steps[n]);
      if d in Run(boot, init).ledger.delegates {
        TimersAreAsAsked(boot, init, d);
        var k: nat :| AsAsked(boot, init, d, k);
        CarryTerms(boot, steps, d, k);
      } else {
        MadeNow(boot, steps, d);
      }
    }
  }

  lemma NoneAtFirst(boot: nat)
    ensures Run(boot, []).ledger.delegates == map[]
  {
  }

  lemma CarryTerms(boot: nat, steps: seq<Action>, d: nat, k: nat)
    requires steps != [] && AsAsked(boot, steps[..|steps| - 1], d, k)
    requires SameTerms(Run(boot, steps[..|steps| - 1]).ledger, Run(boot, steps).ledger)
    ensures AsAsked(boot, steps, d, k)
  {
    hide Run, Clock;
    var init := steps[..|steps| - 1];
    assert init[..k] == steps[..k] && init[..k + 1] == steps[..k + 1];
  }

  lemma MadeNow(boot: nat, steps: seq<Action>, d: nat)
    requires steps != [] && d in Run(boot, steps).ledger.delegates
    requires d !in Run(boot, steps[..|steps| - 1]).ledger.delegates
    requires steps[|steps| - 1].StartTimer?
    ensures AsAsked(boot, steps, d, |steps| - 1)
  {
    var init, last := steps[..|steps| - 1], steps[|steps| - 1];
    assert steps[..|steps|] == steps && init + [last] == steps;
    RunSnoc(boot, init, last);
    NowIsClock(boot, init);
    hide Run, Clock;
  }

  // ---------------------------------------------------------------- what they do

  /** With the threads idle, a running timer is in the heap of the container it asked for, by
      the deadline it asked for, in no other; and that container's device is polled and armed
      by the first of the deadlines stored there. */
  lemma {:induction false} RunningAsAsked(boot: nat, steps: seq<Action>, c: nat, k: nat)
    requires var s := Run(boot, steps);
             && s.work == Ready && s.ledger.queue == [] && s.todo == []
             && c in s.ledger.clients && s.ledger.clients[c].To?
             && AsAsked(boot, steps, s.ledger.clients[c].id, k)
    ensures var s := Run(boot, steps);
            var d, wake := s.ledger.clients[c].id, steps[k].wake;
            var asked := Clock(boot, steps[..k]) + steps[k].ms * 1_000_000;
            && steps[k].c == c
            && Rankable(d, asked) in Elements(s.ledger.Heap(wake))
            && Rankable(d, asked) !in Elements(s.ledger.Heap(!wake))
            && s.Dev(wake).polled && s.Dev(wake).armed.At?
            && (forall x :: x in Elements(s.ledger.Heap(wake)) ==> s.Dev(wake).armed.t <= x.key)
            && exists x :: x in Elements(s.ledger.Heap(wake)) && s.Dev(wake).armed.t == x.key
  {
    RunInv(boot, steps);
    hide Run, QueueInv, NamedInv, PlaceInv, LockInv, LogInv, FreedInv, Covered, WorkInv, Elements,
      HeapTree.Heap;
    var s := Run(boot, steps);
    IdleTimerIsStored(s.ledger, c);
    var wake := steps[k].wake;
    NoTimerLost(boot, steps, wake);
    FirstIsLeast(s.ledger, wake, Item(s.ledger.delegates, s.ledger.clients[c].id));
  }

  lemma FirstIsLeast(l: Ledger, wake: bool, x: Rankable)
    requires Inv(l) && x in Elements(l.Heap(wake))
    ensures l.Heap(wake) != Nil && l.Heap(wake).data in Elements(l.Heap(wake))
    ensures forall y :: y in Elements(l.Heap(wake)) ==> l.Heap(wake).data.key <= y.key
  {
    hide QueueInv, NamedInv, PlaceInv, LockInv, LogInv, FreedInv, RefInv, BagInv;
    var t := l.Heap(wake);
    assert t != Nil;
    forall y | y in Elements(t) ensures t.data.key <= y.key {
      TopOutranked(t, y);
    }
  }

  /** And a callback comes before the deadline its timer was asked for only when it is popped
      early. */
  lemma CallbackAsAsked(boot: nat, steps: seq<Action>, a: Action, c: nat, d: nat, k: nat)
    requires AsAsked(boot, steps, d, k)
    ensures var s, s' := Run(boot, steps), Run(boot, steps + [a]);
            (&& s'.ledger.log[TimedOut(c, d)] > s.ledger.log[TimedOut(c, d)]
             && Clock(boot, steps + [a]) < Clock(boot, steps[..k]) + steps[k].ms * 1_000_000)
            <==> PopsEarly(s, a, c, d)
  {
    hide Run, PopsEarly;
    CallbackIsEarlyIff(boot, steps, a, c, d);
    NowIsClock(boot, steps + [a]);
  }
}
