/** The AGPS state machine as the program runs it: a list of subscriber objects that handlers
    append to, mark and erase from in place, and the manager that routes requests to the
    machines.  Every event handler performs exactly the step of AgpsSpec. */
module AgpsMachine {
  import opened AgpsSpec

  class AgpsSubscriber {
    const mConnHandle: int
    var mWaitForCloseComplete: bool
    var mIsInactive: bool

    constructor (connHandle: int, waitForCloseComplete: bool, isInactive: bool)
      ensures mConnHandle == connHandle
      ensures mWaitForCloseComplete == waitForCloseComplete && mIsInactive == isInactive
    {
      mConnHandle, mWaitForCloseComplete, mIsInactive :=
        connHandle, waitForCloseComplete, isInactive;
    }

    ghost function Value(): Subscriber
      reads this
    {
      Subscriber(mConnHandle, mWaitForCloseComplete, mIsInactive)
    }
  }

  ghost function Values(list: seq<AgpsSubscriber>): seq<Subscriber>
    reads list
  {
    seq(|list|, i requires 0 <= i < |list| reads list => list[i].Value())
  }

  lemma NotesHead(trace: seq<Mark>, done: seq<Subscriber>, rest: seq<Subscriber>, kind: Kind,
                  to: Audience)
    requires rest != []
    ensures Hears(rest[0].inactive, to) ==>
              && trace + Notes(rest, kind, to)
                   == (trace + [Note(kind, rest[0].handle)]) + Notes(rest[1..], kind, to)
              && Others(rest, to) == Others(rest[1..], to)
    ensures !Hears(rest[0].inactive, to) ==>
              && Notes(rest, kind, to) == Notes(rest[1..], kind, to)
              && done + Others(rest, to) == (done + [rest[0]]) + Others(rest[1..], to)
  {
    if Hears(rest[0].inactive, to) {
      Regroup(trace, Note(kind, rest[0].handle), Notes(rest[1..], kind, to));
    } else {
      Regroup(done, rest[0], Others(rest[1..], to));
    }
  }

  lemma Regroup<T>(a: seq<T>, x: T, b: seq<T>)
    ensures a + ([x] + b) == (a + [x]) + b
  {
  }

  lemma DeleteHead(done: seq<Subscriber>, rest: seq<Subscriber>, h: int)
    requires rest != []
    ensures done + Delete(rest, h) ==
              (if rest[0].handle == h then done else done + [rest[0]]) + Delete(rest[1..], h)
  {
    Regroup(done, rest[0], Delete(rest[1..], h));
  }

  lemma DeleteNone(h: int)
    ensures Delete([], h) == []
  {
  }

  lemma NotesNone(kind: Kind, to: Audience)
    ensures Notes([], kind, to) == [] && Others([], to) == []
  {
  }

  datatype AgpsEvent =
    | AGPS_EVENT_SUBSCRIBE
    | AGPS_EVENT_UNSUBSCRIBE
    | AGPS_EVENT_GRANTED
    | AGPS_EVENT_RELEASED
    | AGPS_EVENT_DENIED

  class AgpsStateMachine {
    var mState: State
    var mSubscriberList: seq<AgpsSubscriber>
    var mCurrentSubscriber: AgpsSubscriber?
    ghost var trace: seq<Mark>
    /** Everything this machine has been told. */
    ghost var inputs: seq<Input>

    /** The list holds each object once. */
    ghost predicate Valid()
      reads this`mSubscriberList
    {
      forall i, j :: 0 <= i < j < |mSubscriberList| ==> mSubscriberList[i] != mSubscriberList[j]
    }

    /** No object joined the list that existed before. */
    twostate predicate OnlyNewJoin()
      reads this`mSubscriberList
    {
      forall s :: s in mSubscriberList ==> s in old(mSubscriberList) || fresh(s)
    }

    ghost function Model(): Machine
      reads this`mState, this`mSubscriberList, this`trace, mSubscriberList
    {
      Machine(mState, Values(mSubscriberList), trace)
    }

    twostate lemma Undisturbed()
      requires old(Lawful()) && unchanged(this)
      requires forall s :: s in mSubscriberList ==> s.Value() == old(s.Value())
      ensures Lawful()
    {
      assert Values(mSubscriberList) == old(Values(mSubscriberList));
    }

    /** The machine is where its inputs lead. */
    ghost predicate Lawful()
      reads this`mState, this`mSubscriberList, this`trace, this`inputs, mSubscriberList
    {
      Valid() && Model() == Run(inputs)
    }

    constructor ()
      ensures Lawful() && inputs == [] && mSubscriberList == []
    {
      mState, mSubscriberList, mCurrentSubscriber, trace := RELEASED, [], null, [];
      inputs := [];
    }

    method Record(ghost mark: Mark)
      modifies this`trace
      ensures trace == old(trace) + [mark]
    {
      trace := trace + [mark];
    }

    method GetSubscriber(connHandle: int) returns (subscriber: AgpsSubscriber?)
      requires Valid()
      ensures subscriber == null <==> Lookup(Values(mSubscriberList), connHandle) == Absent
      ensures subscriber != null ==>
                && IsListed(subscriber) && subscriber.mConnHandle == connHandle
                && Lookup(Values(mSubscriberList), connHandle) ==
                     Present(subscriber.mWaitForCloseComplete, subscriber.mIsInactive)
    {
      ghost var vs := Values(mSubscriberList);
      var i := 0;
      while i < |mSubscriberList|
        invariant 0 <= i <= |mSubscriberList|
        invariant Lookup(vs[i..], connHandle) == Lookup(vs, connHandle)
        invariant forall k :: 0 <= k < i ==> mSubscriberList[k].mConnHandle != connHandle
      {
        assert vs[i..][1..] == vs[i + 1..];
        subscriber := mSubscriberList[i];
        if subscriber.mConnHandle == connHandle {
          assert FirstAt(i, connHandle);
          return;
        }
        i := i + 1;
      }
      subscriber := null;
    }

    ghost predicate FirstAt(k: nat, connHandle: int)
      reads this`mSubscriberList
    {
      && k < |mSubscriberList| && mSubscriberList[k].mConnHandle == connHandle
      && forall i :: 0 <= i < k ==> mSubscriberList[i].mConnHandle != connHandle
    }

    /** The object is the first of the list with its handle. */
    ghost predicate IsListed(subscriber: AgpsSubscriber)
      reads this`mSubscriberList
    {
      exists k :: 0 <= k < |mSubscriberList| && FirstAt(k, subscriber.mConnHandle) &&
                  mSubscriberList[k] == subscriber
    }

    method AnyActiveSubscribers() returns (any: bool)
      ensures any == AnyActive(Values(mSubscriberList))
    {
      ghost var vs := Values(mSubscriberList);
      var i := 0;
      while i < |mSubscriberList|
        invariant 0 <= i <= |mSubscriberList|
        invariant AnyActive(vs[i..]) == AnyActive(vs)
      {
        assert vs[i..][1..] == vs[i + 1..];
        if !mSubscriberList[i].mIsInactive {
          return true;
        }
        i := i + 1;
      }
      any := false;
    }

    method AddSubscriber(subscriberToAdd: AgpsSubscriber)
      requires Valid() && !subscriberToAdd.mIsInactive
      modifies this`mSubscriberList, this`trace
      ensures Valid()
      ensures Model() == Accept(old(Model()), subscriberToAdd.mConnHandle,
                                subscriberToAdd.mWaitForCloseComplete)
      ensures OnlyNewJoin()
    {
      var h := subscriberToAdd.mConnHandle;
      var present := GetSubscriber(h);
      if present == null {
        var cloned := new AgpsSubscriber(h, subscriberToAdd.mWaitForCloseComplete,
                                         subscriberToAdd.mIsInactive);
        ghost var vs := Values(mSubscriberList);
        mSubscriberList := mSubscriberList + [cloned];
        assert Values(mSubscriberList) == vs + [cloned.Value()];
        Record(Accepted(h));
      }
    }

    /** erase(it): the iterator then stands at the next element. */
    method EraseAt(ghost done: seq<Subscriber>, ghost rest: seq<Subscriber>, i: nat)
      requires Valid() && i < |mSubscriberList|
      requires Values(mSubscriberList) == done + rest && |done| == i
      modifies this`mSubscriberList
      ensures Valid() && |mSubscriberList| == |old(mSubscriberList)| - 1
      ensures OnlyNewJoin()
      ensures Values(mSubscriberList) == done + rest[1..]
    {
      ghost var vs := Values(mSubscriberList);
      mSubscriberList := mSubscriberList[..i] + mSubscriberList[i + 1..];
      assert Values(mSubscriberList) == vs[..i] + vs[i + 1..];
      assert (done + rest)[..i] == done && (done + rest)[i + 1..] == rest[1..];
    }

    /** The element the iterator stands at, in a list of which `done` has been passed. */
    lemma AtIterator(done: seq<Subscriber>, rest: seq<Subscriber>, i: nat)
      requires i < |mSubscriberList|
      requires Values(mSubscriberList) == done + rest && |done| == i
      ensures rest != [] && rest[0] == mSubscriberList[i].Value()
      ensures (done + [rest[0]]) + rest[1..] == done + rest
    {
      assert Values(mSubscriberList)[i] == (done + rest)[i];
    }

    method DeleteSubscriber(connHandle: int)
      requires Valid()
      modifies this`mSubscriberList
      ensures Valid()
      ensures Model() == old(Model()).(list := Delete(old(Model()).list, connHandle))
      ensures OnlyNewJoin()
    {
      hide Valid, Values, Delete;
      ghost var was := Values(mSubscriberList);
      ghost var done, rest: seq<Subscriber> := [], was;
      var i := 0;
      while i < |mSubscriberList|
        invariant 0 <= i <= |mSubscriberList| && Valid()
        invariant OnlyNewJoin()
        invariant Values(mSubscriberList) == done + rest && |done| == i
        invariant done + Delete(rest, connHandle) == Delete(was, connHandle)
        decreases |mSubscriberList| - i
      {
        AtIterator(done, rest, i);
        DeleteHead(done, rest, connHandle);
        if mSubscriberList[i].mConnHandle == connHandle {
          EraseAt(done, rest, i);
        } else {
          done, i := done + [rest[0]], i + 1;
        }
        rest := rest[1..];
      }
      AtEnd(done, rest);
      DeleteNone(connHandle);
    }

    lemma AtEnd(done: seq<Subscriber>, rest: seq<Subscriber>)
      requires Values(mSubscriberList) == done + rest && |done| == |mSubscriberList|
      ensures rest == [] && done == Values(mSubscriberList)
    {
      assert |Values(mSubscriberList)| == |mSubscriberList|;
    }

    method NotifyAllSubscribers(kind: Kind, deleteSubscriberPostNotify: bool, to: Audience)
      requires Valid()
      modifies this`mSubscriberList, this`trace
      ensures Valid()
      ensures Model() == NotifyAll(old(Model()), kind, deleteSubscriberPostNotify, to)
      ensures OnlyNewJoin()
    {
      hide Valid, Values, Notes, Others;
      ghost var was := Values(mSubscriberList);
      ghost var done, rest: seq<Subscriber> := [], was;
      var i := 0;
      while i < |mSubscriberList|
        invariant 0 <= i <= |mSubscriberList| && Valid()
        invariant OnlyNewJoin()
        invariant Values(mSubscriberList) == done + rest && |done| == i
        invariant if deleteSubscriberPostNotify then done + Others(rest, to) == Others(was, to)
                  else done + rest == was
        invariant trace + Notes(rest, kind, to) == old(trace) + Notes(was, kind, to)
        decreases |mSubscriberList| - i
      {
        AtIterator(done, rest, i);
        NotesHead(trace, done, rest, kind, to);
        var subscriber := mSubscriberList[i];
        if Hears(subscriber.mIsInactive, to) {
          Record(Note(kind, subscriber.mConnHandle));
          if deleteSubscriberPostNotify {
            EraseAt(done, rest, i);
          } else {
            done, i := done + [rest[0]], i + 1;
          }
        } else {
          done, i := done + [rest[0]], i + 1;
        }
        rest := rest[1..];
      }
      AtEnd(done, rest);
      NotesNone(kind, to);
    }

    method DropAllSubscribers()
      requires Valid()
      modifies this`mSubscriberList, this`trace
      ensures Valid() && Model() == OnRestart(old(Model()))
      ensures OnlyNewJoin()
    {
      ghost var was := Values(mSubscriberList);
      while mSubscriberList != []
        invariant Valid()
        invariant trace + Drops(Values(mSubscriberList)) == old(trace) + Drops(was)
        decreases |mSubscriberList|
      {
        ghost var vs := Values(mSubscriberList);
        Record(Dropped(mSubscriberList[0].mConnHandle));
        mSubscriberList := mSubscriberList[1..];
        assert Values(mSubscriberList) == vs[1..];
      }
    }

    method NotifyEventToSubscriber(kind: Kind, connHandle: int, deleteSubscriberPostNotify: bool)
      requires Valid()
      modifies this`mSubscriberList, this`trace
      ensures Valid()
      ensures var m := Emit(old(Model()), [Note(kind, connHandle)]);
              Model() == if deleteSubscriberPostNotify
                         then m.(list := Delete(m.list, connHandle)) else m
      ensures OnlyNewJoin()
    {
      Record(Note(kind, connHandle));
      if deleteSubscriberPostNotify {
        DeleteSubscriber(connHandle);
      }
    }

    method TransitionState(newState: State)
      modifies this`mState
      ensures mState == newState
    {
      mState := newState;
    }

    /** For the base machine asking the framework always succeeds. */
    method RequestOrReleaseDataConn(request: bool)
      modifies this`trace
      ensures trace == old(trace) + [if request then Request else Release]
    {
      Record(if request then Request else Release);
    }

    method ProcessSubscribe()
      requires Valid() && mCurrentSubscriber != null && !mCurrentSubscriber.mIsInactive
      modifies this`mState, this`mSubscriberList, this`trace
      ensures Valid()
      ensures Model() == OnSubscribe(old(Model()), mCurrentSubscriber.mConnHandle,
                                     mCurrentSubscriber.mWaitForCloseComplete)
      ensures OnlyNewJoin()
    {
      match mState
      case RELEASED =>
        AddSubscriber(mCurrentSubscriber);
        RequestOrReleaseDataConn(true);
        TransitionState(PENDING);
      case PENDING => AddSubscriber(mCurrentSubscriber);
      case ACQUIRED =>
        NotifyEventToSubscriber(OpenOk, mCurrentSubscriber.mConnHandle, false);
        AddSubscriber(mCurrentSubscriber);
      case RELEASING => AddSubscriber(mCurrentSubscriber);
    }

    ghost predicate CurrentIsListed()
      reads this`mSubscriberList, this`mCurrentSubscriber
    {
      mCurrentSubscriber != null && IsListed(mCurrentSubscriber)
    }

    /** Marks the listed subscriber inactive, or tells it and deletes it. */
    method LeaveCurrent()
      requires Valid() && CurrentIsListed()
      modifies this`mSubscriberList, this`trace, mCurrentSubscriber`mIsInactive
      ensures Valid()
      ensures Model() == Leave(old(Model()), mCurrentSubscriber.mConnHandle,
                               mCurrentSubscriber.mWaitForCloseComplete)
      ensures OnlyNewJoin()
    {
      if mCurrentSubscriber.mWaitForCloseComplete {
        ghost var k :| 0 <= k < |mSubscriberList| && FirstAt(k, mCurrentSubscriber.mConnHandle) &&
                 mSubscriberList[k] == mCurrentSubscriber;
        ghost var vs := Values(mSubscriberList);
        DeactivateAt(vs, k, mCurrentSubscriber.mConnHandle);
        mCurrentSubscriber.mIsInactive := true;
        assert Values(mSubscriberList) == vs[k := vs[k].(inactive := true)];
      } else {
        NotifyEventToSubscriber(Closed, mCurrentSubscriber.mConnHandle, true);
      }
    }

    method ProcessUnsubscribe()
      requires Valid() && CurrentIsListed()
      modifies this`mState, this`mSubscriberList, this`trace, mCurrentSubscriber`mIsInactive
      ensures Valid()
      ensures Model() == OnUnsubscribe(old(Model()), old(mCurrentSubscriber.mConnHandle),
                                       old(mCurrentSubscriber.mWaitForCloseComplete))
      ensures OnlyNewJoin()
    {
      hide Valid, AnyActive, Delete, Deactivate;
      match mState
      case RELEASED => NotifyEventToSubscriber(Closed, mCurrentSubscriber.mConnHandle, false);
      case RELEASING =>
        LeaveCurrent();
        if mSubscriberList == [] {
          TransitionState(RELEASED);
        }
      case _ => LeaveConnected();
    }

    /** An unsubscribe while the connection is pending or there. */
    method LeaveConnected()
      requires Valid() && CurrentIsListed() && mState in {PENDING, ACQUIRED}
      modifies this`mState, this`mSubscriberList, this`trace, mCurrentSubscriber`mIsInactive
      ensures Valid()
      ensures Model() == OnUnsubscribe(old(Model()), old(mCurrentSubscriber.mConnHandle),
                                       old(mCurrentSubscriber.mWaitForCloseComplete))
      ensures OnlyNewJoin()
    {
      hide Valid, AnyActive, Delete, Deactivate, Leave, OnlyNewJoin;
      LeaveCurrent();
      var active := AnyActiveSubscribers();
      if mSubscriberList == [] {
        TransitionState(RELEASED);
        RequestOrReleaseDataConn(false);
      } else if !active {
        TransitionState(RELEASING);
        RequestOrReleaseDataConn(false);
      }
    }

    method ProcessGranted()
      requires Valid()
      modifies this`mState, this`mSubscriberList, this`trace
      ensures Valid() && Model() == OnGranted(old(Model()))
      ensures OnlyNewJoin()
    {
      if mState == PENDING {
        TransitionState(ACQUIRED);
        NotifyAllSubscribers(OpenOk, false, ActiveOnes);
      }
    }

    method ProcessReleasingDone()
      requires Valid() && mState == RELEASING
      modifies this`mState, this`mSubscriberList, this`trace
      ensures Valid() && Model() == ReleasingDone(old(Model()))
      ensures OnlyNewJoin()
    {
      NotifyAllSubscribers(Closed, true, InactiveOnes);
      var active := AnyActiveSubscribers();
      if active {
        TransitionState(PENDING);
        RequestOrReleaseDataConn(true);
      } else {
        TransitionState(RELEASED);
      }
    }

    method ProcessReleased()
      requires Valid()
      modifies this`mState, this`mSubscriberList, this`trace
      ensures Valid() && Model() == OnReleased(old(Model()))
      ensures OnlyNewJoin()
    {
      match mState
      case RELEASED =>
      case PENDING =>
      case ACQUIRED =>
        TransitionState(RELEASED);
        NotifyAllSubscribers(Closed, true, All);
      case RELEASING => ProcessReleasingDone();
    }

    method ProcessDenied()
      requires Valid()
      modifies this`mState, this`mSubscriberList, this`trace
      ensures Valid() && Model() == OnDenied(old(Model()))
      ensures OnlyNewJoin()
    {
      match mState
      case RELEASED =>
      case ACQUIRED =>
      case PENDING =>
        TransitionState(RELEASED);
        NotifyAllSubscribers(OpenFail, true, All);
      case RELEASING => ProcessReleasingDone();
    }

    method SetCurrentSubscriber(subscriber: AgpsSubscriber)
      modifies this`mCurrentSubscriber
      ensures mCurrentSubscriber == subscriber
    {
      mCurrentSubscriber := subscriber;
    }

    /** The event in terms of the specification: a subscribe or an unsubscribe is about the
        current subscriber. */
    ghost predicate Means(event: AgpsEvent, input: Input)
      reads this, mSubscriberList, mCurrentSubscriber
    {
      match event
      case AGPS_EVENT_SUBSCRIBE =>
        && mCurrentSubscriber != null && !mCurrentSubscriber.mIsInactive
        && input == Subscribe(mCurrentSubscriber.mConnHandle,
                              mCurrentSubscriber.mWaitForCloseComplete)
      case AGPS_EVENT_UNSUBSCRIBE =>
        CurrentIsListed() && input == Unsubscribe(mCurrentSubscriber.mConnHandle)
      case AGPS_EVENT_GRANTED => input == Granted
      case AGPS_EVENT_RELEASED => input == ReleasedEvent
      case AGPS_EVENT_DENIED => input == Denied
    }

    method ProcessAgpsEvent(event: AgpsEvent, ghost input: Input)
      requires Lawful() && Means(event, input)
      modifies this, mSubscriberList
      ensures Lawful() && OnlyNewJoin() && inputs == old(inputs) + [input]
    {
      hide Run;
      RunSnoc(inputs, input);
      Hear(input);
      match event
      case AGPS_EVENT_SUBSCRIBE => ProcessSubscribe();
      case AGPS_EVENT_UNSUBSCRIBE =>
        CurrentLookup();
        ProcessUnsubscribe();
      case AGPS_EVENT_GRANTED => ProcessGranted();
      case AGPS_EVENT_RELEASED => ProcessReleased();
      case AGPS_EVENT_DENIED => ProcessDenied();
    }

    method Hear(ghost input: Input)
      modifies this`inputs, this`trace
      ensures inputs == old(inputs) + [input] && trace == old(trace) + [Got(input)]
    {
      inputs := inputs + [input];
      Record(Got(input));
    }

    method HandleModemSSR()
      requires Lawful()
      modifies this
      ensures Lawful() && OnlyNewJoin() && inputs == old(inputs) + [ModemRestart]
    {
      RunSnoc(inputs, ModemRestart);
      Hear(ModemRestart);
      DropAllSubscribers();
    }

    lemma CurrentLookup()
      requires CurrentIsListed()
      ensures Lookup(Values(mSubscriberList), mCurrentSubscriber.mConnHandle) ==
                Present(mCurrentSubscriber.mWaitForCloseComplete, mCurrentSubscriber.mIsInactive)
    {
      var k :| 0 <= k < |mSubscriberList| && FirstAt(k, mCurrentSubscriber.mConnHandle) &&
               mSubscriberList[k] == mCurrentSubscriber;
      LookupAt(Values(mSubscriberList), k, mCurrentSubscriber.mConnHandle);
    }
  }

  lemma RunSnoc(inputs: seq<Input>, input: Input)
    ensures Run(inputs + [input]) == Step(Run(inputs), input)
  {
    assert (inputs + [input])[..|inputs|] == inputs;
  }

  lemma {:induction false} LookupAt(vs: seq<Subscriber>, k: nat, h: int)
    requires k < |vs| && vs[k].handle == h && forall i :: 0 <= i < k ==> vs[i].handle != h
    ensures Lookup(vs, h) == Present(vs[k].wait, vs[k].inactive)
  {
    if k > 0 {
      LookupAt(vs[1..], k - 1, h);
    }
  }

  lemma {:induction false} DeactivateAt(vs: seq<Subscriber>, k: nat, h: int)
    requires k < |vs| && vs[k].handle == h && forall i :: 0 <= i < k ==> vs[i].handle != h
    ensures Deactivate(vs, h) == vs[k := vs[k].(inactive := true)]
  {
    if k > 0 {
      DeactivateAt(vs[1..], k - 1, h);
    }
  }
}
