/** When the AGPS state machine changes state and calls the framework, by who is listed. */
module AgpsTransitions {
  import opened AgpsSpec
  import opened AgpsGuarantees

  // ---------------------------------------------------------------- who is listed

  ghost predicate Listed(m: Machine, g: int) {
    Lookup(m.list, g).Present?
  }

  ghost predicate Active(m: Machine, g: int) {
    Lookup(m.list, g).Present? && !Lookup(m.list, g).inactive
  }

  lemma {:induction false} HeadLooksUp(list: seq<Subscriber>)
    requires list != []
    ensures Lookup(list, list[0].handle) == Present(list[0].wait, list[0].inactive)
  {
  }

  lemma {:induction false} ActiveExists(list: seq<Subscriber>) returns (g: int)
    requires AnyActive(list) && Distinct(list)
    ensures Lookup(list, g).Present? && !Lookup(list, g).inactive
  {
    if !list[0].inactive {
      g := list[0].handle;
    } else {
      g := ActiveExists(list[1..]);
    }
  }

  /** Somebody active is listed, in terms of the handles. */
  lemma AnyActiveIff(list: seq<Subscriber>)
    requires Distinct(list)
    ensures AnyActive(list) <==>
              exists g :: Lookup(list, g).Present? && !Lookup(list, g).inactive
  {
    if AnyActive(list) {
      var g := ActiveExists(list);
    }
    if g :| Lookup(list, g).Present? && !Lookup(list, g).inactive {
      ActiveIf(list, g);
    }
  }

  lemma EmptyIff(list: seq<Subscriber>)
    ensures list == [] <==> forall g :: Lookup(list, g) == Absent
  {
    if list != [] {
      HeadLooksUp(list);
    }
  }

  // ---------------------------------------------------------------- state

  ghost predicate SomeActive(m: Machine) {
    exists g :: Active(m, g)
  }

  ghost predicate OtherActive(m: Machine, h: int) {
    exists g :: g != h && Active(m, g)
  }

  ghost predicate OtherListed(m: Machine, h: int) {
    exists g :: g != h && Listed(m, g)
  }

  /** The state after an input: a connection is kept while somebody other than the one who
      leaves is active; it is gone at once if nobody waits for its close; and a modem restart
      leaves the state alone. */
  ghost function NextState(m: Machine, input: Input): State {
    match input
    case Subscribe(_, _) => if m.state == RELEASED then PENDING else m.state
    case Unsubscribe(h) =>
      if !Listed(m, h) then m.state
      else if m.state in {PENDING, ACQUIRED} && OtherActive(m, h) then m.state
      else if OtherListed(m, h) || Lookup(m.list, h).wait then RELEASING
      else RELEASED
    case Granted => if m.state == PENDING then ACQUIRED else m.state
    case ReleasedEvent =>
      (match m.state
       case ACQUIRED => RELEASED
       case RELEASING => if SomeActive(m) then PENDING else RELEASED
       case _ => m.state)
    case Denied =>
      (match m.state
       case PENDING => RELEASED
       case RELEASING => if SomeActive(m) then PENDING else RELEASED
       case _ => m.state)
    case ModemRestart => m.state
  }

  lemma LeaveLists(m: Machine, h: int)
    requires Distinct(m.list) && Listed(m, h)
    ensures var m' := Leave(m, h, Lookup(m.list, h).wait);
            && m'.state == m.state
            && (AnyActive(m'.list) <==> OtherActive(m, h))
            && (m'.list == [] <==> !OtherListed(m, h) && !Lookup(m.list, h).wait)
  {
    hide Distinct, AnyActive, Lookup;
    var wait := Lookup(m.list, h).wait;
    var list' := Leave(m, h, wait).list;
    forall g
      ensures Lookup(list', g) ==
                if g != h then Lookup(m.list, g)
                else if wait then Lookup(m.list, g).(inactive := true)
                else Absent
    {
      DeleteLookup(m.list, h, g);
      DeactivateLookup(m.list, h, g);
    }
    DeleteLookup(m.list, h, h);
    DeactivateLookup(m.list, h, h);
    if AnyActive(list') {
      var g := ActiveExists(list');
      assert g != h && Active(m, g);
    }
    if g :| g != h && Active(m, g) {
      ActiveIf(list', g);
    }
    if list' == [] {
      EmptyIff(list');
      assert Lookup(list', h) == Absent;
      forall g | g != h ensures !Listed(m, g) {
        assert Lookup(list', g) == Absent;
      }
    } else {
      HeadLooksUp(list');
      var g := list'[0].handle;
      assert Lookup(list', g).Present?;
      assert g != h ==> Listed(m, g);
    }
  }

  lemma LoudLists(m: Machine)
    requires Distinct(m.list)
    ensures AnyActive(Others(m.list, InactiveOnes)) <==> SomeActive(m)
  {
    hide Distinct, AnyActive, Lookup, Others;
    forall g
      ensures Lookup(Others(m.list, InactiveOnes), g) ==
                if Addressed(Lookup(m.list, g), InactiveOnes) then Absent else Lookup(m.list, g)
      ensures Distinct(Others(m.list, InactiveOnes))
    {
      OthersLookup(m.list, InactiveOnes, g);
    }
    var others := Others(m.list, InactiveOnes);
    OthersLookup(m.list, InactiveOnes, 0);
    if AnyActive(others) {
      var g := ActiveExists(others);
      assert Active(m, g);
    }
    if g :| Active(m, g) {
      ActiveIf(others, g);
    }
  }

  lemma LeaveState(m: Machine, h: int)
    requires ListInv(m) && Listed(m, h)
    ensures OnUnsubscribe(m, h, Lookup(m.list, h).wait).state == NextState(m, Unsubscribe(h))
  {
    NobodyListed(m, h);
    LeaveLists(m, h);
    hide Leave, OtherActive, OtherListed, AnyActive, Lookup, Distinct, InactiveWaits;
    if OtherActive(m, h) {
      ActiveIsListed(m, h);
    }
  }

  lemma ActiveIsListed(m: Machine, h: int)
    requires OtherActive(m, h)
    ensures OtherListed(m, h)
  {
    var g :| g != h && Active(m, g);
    assert Listed(m, g);
  }

  lemma StateStep(m: Machine, input: Input)
    requires ListInv(m)
    ensures Step(m, input).state == NextState(m, input)
  {
    hide Distinct, InactiveWaits, AnyActive, Others, Notes, Delete, Deactivate, Add, OtherActive,
      OtherListed, SomeActive, Lookup;
    if input.Unsubscribe? {
      if Listed(m, input.u) {
        var m1 := Emit(m, [Got(input)]);
        LeaveState(m1, input.u);
        SameLists(m, m1, input.u);
        hide OnUnsubscribe;
      }
    } else if m.state == RELEASING {
      LoudLists(m);
    }
  }

  lemma NobodyListed(m: Machine, h: int)
    ensures m.list == [] ==> !Listed(m, h)
  {
  }

  lemma SameLists(m: Machine, m1: Machine, h: int)
    requires m1.list == m.list
    ensures OtherActive(m1, h) <==> OtherActive(m, h)
    ensures OtherListed(m1, h) <==> OtherListed(m, h)
  {
    if g :| g != h && Active(m, g) {
      assert Active(m1, g);
    }
    if g :| g != h && Active(m1, g) {
      assert Active(m, g);
    }
    if g :| g != h && Listed(m, g) {
      assert Listed(m1, g);
    }
    if g :| g != h && Listed(m1, g) {
      assert Listed(m, g);
    }
  }

  /** Over every run the machine changes state exactly as NextState says. */
  lemma StatesFollow(inputs: seq<Input>, input: Input)
    ensures Run(inputs + [input]).state == NextState(Run(inputs), input)
  {
    hide Step, ListInv, NextState;
    assert (inputs + [input])[..|inputs|] == inputs;
    ListInvariant(inputs);
    StateStep(Run(inputs), input);
  }

  // ---------------------------------------------------------------- calls to the framework

  /** The requests and releases sent. */
  function CallsOf(trace: seq<Mark>): seq<Mark> {
    if trace == [] then []
    else
      var last := trace[|trace| - 1];
      CallsOf(trace[..|trace| - 1]) + if last in {Request, Release} then [last] else []
  }

  lemma CallsSnoc(trace: seq<Mark>, mark: Mark)
    ensures CallsOf(trace + [mark]) ==
              CallsOf(trace) + if mark in {Request, Release} then [mark] else []
  {
    assert (trace + [mark])[..|trace|] == trace;
  }

  lemma {:induction false} CallsQuiet(trace: seq<Mark>, marks: seq<Mark>)
    requires forall k :: k in marks ==> Neutral(k)
    ensures CallsOf(trace + marks) == CallsOf(trace)
  {
    if marks == [] {
      assert trace + marks == trace;
    } else {
      var init, last := marks[..|marks| - 1], marks[|marks| - 1];
      assert trace + marks == (trace + init) + [last];
      assert last in marks && Neutral(last);
      CallsQuiet(trace, init);
      CallsSnoc(trace + init, last);
    }
  }

  lemma NotesAreQuiet(trace: seq<Mark>, list: seq<Subscriber>, kind: Kind, to: Audience)
    ensures CallsOf(trace + Notes(list, kind, to)) == CallsOf(trace)
    ensures CallsOf(trace + Drops(list)) == CallsOf(trace)
  {
    NotesNeutral(list, kind, to);
    CallsQuiet(trace, Notes(list, kind, to));
    CallsQuiet(trace, Drops(list));
  }

  lemma CallsStep(m: Machine, input: Input)
    requires ListInv(m)
    ensures var m' := Step(m, input);
            CallsOf(m'.trace) ==
              CallsOf(m.trace) +
              if m'.state == PENDING && m.state != PENDING then [Request]
              else if input.Unsubscribe? && m.state in {PENDING, ACQUIRED} && m'.state != m.state
              then [Release]
              else []
  {
    hide CallsOf, Distinct, InactiveWaits, AnyActive, Others, Notes, Drops, Delete, Deactivate, Add,
      Lookup;
    var t := m.trace + [Got(input)];
    CallsSnoc(m.trace, Got(input));
    match input
    case Subscribe(h, _) =>
      CallsSnoc(t, Note(OpenOk, h));
      CallsSnoc(t, Accepted(h));
      CallsSnoc(t, Request);
      CallsSnoc(t + [Note(OpenOk, h)], Accepted(h));
      CallsSnoc(t + [Accepted(h)], Request);
    case Unsubscribe(h) =>
      CallsSnoc(t, Note(Closed, h));
      CallsSnoc(t, Release);
      CallsSnoc(t + [Note(Closed, h)], Release);
    case ModemRestart => NotesAreQuiet(t, m.list, OpenOk, All);
    case _ =>
      NotesAreQuiet(t, m.list, OpenOk, ActiveOnes);
      NotesAreQuiet(t, m.list, OpenFail, All);
      NotesAreQuiet(t, m.list, Closed, All);
      NotesAreQuiet(t, m.list, Closed, InactiveOnes);
      CallsSnoc(t + Notes(m.list, Closed, InactiveOnes), Request);
  }

  /** Over every run each input sends the framework at most one call: a request when the
      machine comes to PENDING, a release when an unsubscribe leaves PENDING or ACQUIRED. */
  lemma CallsFollow(inputs: seq<Input>, input: Input)
    ensures var m, m' := Run(inputs), Run(inputs + [input]);
            CallsOf(m'.trace) ==
              CallsOf(m.trace) +
              if m'.state == PENDING && m.state != PENDING then [Request]
              else if input.Unsubscribe? && m.state in {PENDING, ACQUIRED} && m'.state != m.state
              then [Release]
              else []
  {
    hide Step, ListInv, CallsOf;
    assert (inputs + [input])[..|inputs|] == inputs;
    ListInvariant(inputs);
    CallsStep(Run(inputs), input);
  }
}
