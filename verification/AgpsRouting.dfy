/** The AGPS manager: which state machine a request for a data connection goes to, where its
    release finds it, and what that gives each handle over a whole run of calls. */
module AgpsRouting {
  import opened Counting
  import opened AgpsSpec
  import opened AgpsGuarantees

  /** The remaining types name the internet connection. */
  datatype AgpsType = TYPE_INVALID | TYPE_SUPL | TYPE_SUPL_ES | TYPE_WWAN_ANY | TYPE_ANY | TYPE_C2K

  /** A machine, once created, is known by what it has been told. */
  datatype Nif = Missing | Running(inputs: seq<Input>)

  datatype Reply = OpenRefused(h: int) | CloseRefused(h: int)

  datatype Call =
    | Create(agpsCapable: bool)
    | RequestATL(h: int, agpsType: AgpsType)
    | ReleaseATL(r: int)
    | OpenSuccess(granted: AgpsType)
    | OpenFailed(failed: AgpsType)
    | AtlClosed(closed: AgpsType)
    | ModemSSR

  datatype Manager = Manager(agnss: Nif, internet: Nif, replies: seq<Reply>)

  predicate UsesAgnss(t: AgpsType) {
    t in {TYPE_INVALID, TYPE_SUPL, TYPE_SUPL_ES}
  }

  function Tell(nif: Nif, input: Input): Nif {
    if nif == Missing then Missing else Running(nif.inputs + [input])
  }

  function TellType(m: Manager, t: AgpsType, input: Input): Manager {
    if UsesAgnss(t) then m.(agnss := Tell(m.agnss, input))
    else m.(internet := Tell(m.internet, input))
  }

  function Born(nif: Nif): Nif {
    if nif == Missing then Running([]) else nif
  }

  function Inputs(nif: Nif): seq<Input> {
    if nif == Missing then [] else nif.inputs
  }

  predicate Lists(nif: Nif, h: int) {
    Lookup(Run(Inputs(nif)).list, h).Present?
  }

  function Handle(m: Manager, call: Call): Manager {
    match call
    case Create(agpsCapable) =>
      Manager(if agpsCapable then Born(m.agnss) else m.agnss, Born(m.internet), m.replies)
    case RequestATL(h, t) =>
      if (if UsesAgnss(t) then m.agnss else m.internet) == Missing
      then m.(replies := m.replies + [OpenRefused(h)])
      else TellType(m, t, Subscribe(h, t == TYPE_SUPL_ES))
    case ReleaseATL(h) =>
      if Lists(m.agnss, h) then m.(agnss := Tell(m.agnss, Unsubscribe(h)))
      else if Lists(m.internet, h) then m.(internet := Tell(m.internet, Unsubscribe(h)))
      else m.(replies := m.replies + [CloseRefused(h)])
    case OpenSuccess(t) => TellType(m, t, Granted)
    case OpenFailed(t) => TellType(m, t, Denied)
    case AtlClosed(t) => TellType(m, t, ReleasedEvent)
    case ModemSSR =>
      m.(agnss := Tell(m.agnss, ModemRestart), internet := Tell(m.internet, ModemRestart))
  }

  function Handled(calls: seq<Call>): Manager {
    if calls == [] then Manager(Missing, Missing, [])
    else Handle(Handled(calls[..|calls| - 1]), calls[|calls| - 1])
  }

  // ---------------------------------------------------------------- every request is placed once

  function Requests(calls: seq<Call>, h: int): nat {
    if calls == [] then 0
    else Requests(calls[..|calls| - 1], h) +
         var last := calls[|calls| - 1]; if last.RequestATL? && last.h == h then 1 else 0
  }

  function Subscriptions(inputs: seq<Input>, h: int): nat {
    if inputs == [] then 0
    else Subscriptions(inputs[..|inputs| - 1], h) + One(Asks(inputs[|inputs| - 1], h))
  }

  function Refusals(replies: seq<Reply>, h: int): nat {
    if replies == [] then 0
    else Refusals(replies[..|replies| - 1], h) + One(replies[|replies| - 1] == OpenRefused(h))
  }

  /** Each request is refused or told to exactly one machine. */
  lemma {:induction false} RequestsConserved(calls: seq<Call>, h: int)
    ensures var m := Handled(calls);
            Requests(calls, h) ==
              Subscriptions(Inputs(m.agnss), h) + Subscriptions(Inputs(m.internet), h) +
              Refusals(m.replies, h)
  {
    if calls != [] {
      RequestsConserved(calls[..|calls| - 1], h);
      ConservedStep(Handled(calls[..|calls| - 1]), calls[|calls| - 1], h);
    }
  }

  lemma TellCounts(nif: Nif, input: Input, h: int)
    ensures Subscriptions(Inputs(Tell(nif, input)), h) ==
              Subscriptions(Inputs(nif), h) + One(nif != Missing && Asks(input, h))
  {
    if nif != Missing {
      assert (nif.inputs + [input])[..|nif.inputs|] == nif.inputs;
    }
  }

  lemma ConservedStep(m: Manager, call: Call, h: int)
    ensures var m' := Handle(m, call);
            Subscriptions(Inputs(m'.agnss), h) + Subscriptions(Inputs(m'.internet), h) +
            Refusals(m'.replies, h) ==
              Subscriptions(Inputs(m.agnss), h) + Subscriptions(Inputs(m.internet), h) +
              Refusals(m.replies, h) + One(call.RequestATL? && call.h == h)
  {
    hide Subscriptions, Refusals, Lists, Tell;
    match call
    case Create(_) =>
    case ReleaseATL(r) =>
      TellCounts(m.agnss, Unsubscribe(r), h);
      TellCounts(m.internet, Unsubscribe(r), h);
      RefusalSnoc(m.replies, CloseRefused(r), h);
    case RequestATL(g, t) =>
      TellCounts(m.agnss, Subscribe(g, t == TYPE_SUPL_ES), h);
      TellCounts(m.internet, Subscribe(g, t == TYPE_SUPL_ES), h);
      RefusalSnoc(m.replies, OpenRefused(g), h);
    case OpenSuccess(_) => TellsNothing(m, Granted, h);
    case OpenFailed(_) => TellsNothing(m, Denied, h);
    case AtlClosed(_) => TellsNothing(m, ReleasedEvent, h);
    case ModemSSR => TellsNothing(m, ModemRestart, h);
  }

  lemma TellsNothing(m: Manager, input: Input, h: int)
    requires !input.Subscribe?
    ensures Subscriptions(Inputs(Tell(m.agnss, input)), h) == Subscriptions(Inputs(m.agnss), h)
    ensures Subscriptions(Inputs(Tell(m.internet, input)), h) ==
              Subscriptions(Inputs(m.internet), h)
  {
    TellCounts(m.agnss, input, h);
    TellCounts(m.internet, input, h);
  }

  lemma RefusalSnoc(replies: seq<Reply>, reply: Reply, h: int)
    ensures Refusals(replies + [reply], h) == Refusals(replies, h) + One(reply == OpenRefused(h))
  {
    assert (replies + [reply])[..|replies|] == replies;
  }

  // ---------------------------------------------------------------- what each handle gets

  lemma {:induction false} SubscriptionsIfAsked(inputs: seq<Input>, i: nat)
    requires i < |inputs| && inputs[i].Subscribe?
    ensures Subscriptions(inputs, inputs[i].h) >= 1
  {
    if i < |inputs| - 1 {
      SubscriptionsIfAsked(inputs[..|inputs| - 1], i);
    }
  }

  lemma {:induction false} SubscriptionsTwice(inputs: seq<Input>, i: nat, j: nat)
    requires i < j < |inputs| && inputs[i].Subscribe? && inputs[j].Subscribe?
    requires inputs[i].h == inputs[j].h
    ensures Subscriptions(inputs, inputs[i].h) >= 2
  {
    if j < |inputs| - 1 {
      SubscriptionsTwice(inputs[..|inputs| - 1], i, j);
    } else {
      SubscriptionsIfAsked(inputs[..|inputs| - 1], i);
    }
  }

  lemma {:induction false} SubscribedOnce(inputs: seq<Input>, h: int)
    ensures Subscriptions(inputs, h) >= 1 <==> Requested(inputs, h)
  {
    if inputs != [] {
      SubscribedOnce(inputs[..|inputs| - 1], h);
      AskedSnoc(inputs, h);
    }
  }

  lemma FreshIf(inputs: seq<Input>, h: int)
    requires Subscriptions(inputs, h) <= 1
    ensures FreshHandle(inputs, h)
  {
    forall i, j | 0 <= i < j < |inputs| ensures !(Asks(inputs[i], h) && Asks(inputs[j], h)) {
      if Asks(inputs[i], h) && Asks(inputs[j], h) {
        SubscriptionsTwice(inputs, i, j);
      }
    }
  }

  lemma FreshMachines(calls: seq<Call>, h: int)
    requires Requests(calls, h) <= 1
    ensures NeverBadAgain(Inputs(Handled(calls).agnss), h)
    ensures NeverBadAgain(Inputs(Handled(calls).internet), h)
  {
    RequestsConserved(calls, h);
    FreshIf(Inputs(Handled(calls).agnss), h);
    FreshIf(Inputs(Handled(calls).internet), h);
    FreshIsNeverBad(Inputs(Handled(calls).agnss), h);
    FreshIsNeverBad(Inputs(Handled(calls).internet), h);
  }

  function LifeIn(nif: Nif, h: int): Life {
    LifeOf(Run(Inputs(nif)).trace, h)
  }

  /** Over every run of calls that requests a handle at most once, if it was requested it
      either was refused at once or lives in exactly one machine, and there its notifications
      are lawful: so across both machines it is granted at most once and ends at most once. */
  lemma OneLifePerRequest(calls: seq<Call>, h: int)
    requires Requests(calls, h) <= 1
    ensures var m := Handled(calls);
            && LifeIn(m.agnss, h) != Wrong && LifeIn(m.internet, h) != Wrong
            && One(LifeIn(m.agnss, h) != Unknown) + One(LifeIn(m.internet, h) != Unknown) +
               Refusals(m.replies, h) == Requests(calls, h) <= 1
  {
    var m := Handled(calls);
    FreshMachines(calls, h);
    LivesAreLawful(Inputs(m.agnss), h);
    LivesAreLawful(Inputs(m.internet), h);
    RequestsConserved(calls, h);
    SubscribedOnce(Inputs(m.agnss), h);
    SubscribedOnce(Inputs(m.internet), h);
  }

  /** A release leaves its handle in no machine's list, unless as an inactive entry waiting for
      the connection to close. */
  lemma ReleaseReaches(calls: seq<Call>, h: int)
    requires Requests(calls, h) <= 1
    ensures var m := Handle(Handled(calls), ReleaseATL(h));
            && Lookup(Run(Inputs(m.agnss)).list, h) in {Absent, Present(true, true)}
            && Lookup(Run(Inputs(m.internet)).list, h) in {Absent, Present(true, true)}
  {
    hide Lookup, LifeIn, Run, Requests, Refusals, Handled;
    var m := Handled(calls);
    OneLifePerRequest(calls, h);
    ListedHasLife(calls, m.agnss, h);
    ListedHasLife(calls, m.internet, h);
    if Lists(m.agnss, h) {
      ReleaseLeaves(m.agnss, h);
    } else if Lists(m.internet, h) {
      ReleaseLeaves(m.internet, h);
    }
  }

  lemma ListedHasLife(calls: seq<Call>, nif: Nif, h: int)
    requires Requests(calls, h) <= 1 && nif in {Handled(calls).agnss, Handled(calls).internet}
    ensures Lists(nif, h) ==> LifeIn(nif, h) != Unknown
  {
    FreshMachines(calls, h);
    LivesAreLawful(Inputs(nif), h);
  }

  lemma ReleaseLeaves(nif: Nif, h: int)
    requires Lists(nif, h)
    ensures Lookup(Run(Inputs(Tell(nif, Unsubscribe(h)))).list, h) in {Absent, Present(true, true)}
  {
    var inputs := Inputs(nif);
    assert (inputs + [Unsubscribe(h)])[..|inputs|] == inputs;
    ListInvariant(inputs);
    DeleteLookup(Run(inputs).list, h, h);
    DeactivateLookup(Run(inputs).list, h, h);
  }

  // ---------------------------------------------------------------- where each call goes

  /** Only the AGNSS machine, which is there, is told. */
  predicate ToldAgnss(m: Manager, m': Manager, input: Input) {
    && m.agnss.Running? && m'.agnss == Running(m.agnss.inputs + [input])
    && m'.internet == m.internet && m'.replies == m.replies
  }

  /** Only the internet machine, which is there, is told. */
  predicate ToldInternet(m: Manager, m': Manager, input: Input) {
    && m.internet.Running? && m'.internet == Running(m.internet.inputs + [input])
    && m'.agnss == m.agnss && m'.replies == m.replies
  }

  predicate OnlyReplied(m: Manager, m': Manager, reply: Reply) {
    m'.agnss == m.agnss && m'.internet == m.internet && m'.replies == m.replies + [reply]
  }

  lemma HandledSnoc(calls: seq<Call>, call: Call)
    ensures Handled(calls + [call]) == Handle(Handled(calls), call)
  {
    assert (calls + [call])[..|calls|] == calls;
  }

  /** A request for SUPL, or for no known type, goes to the AGNSS machine, one for emergency
      SUPL too, to wait for the close; the others go to the internet machine.  Without the
      machine the request is refused. */
  lemma RequestGoes(calls: seq<Call>, h: int)
    ensures var m := Handled(calls);
            && (m.agnss.Running? ==>
                  && ToldAgnss(m, Handled(calls + [RequestATL(h, TYPE_SUPL)]), Subscribe(h, false))
                  && ToldAgnss(m, Handled(calls + [RequestATL(h, TYPE_INVALID)]),
                               Subscribe(h, false))
                  && ToldAgnss(m, Handled(calls + [RequestATL(h, TYPE_SUPL_ES)]),
                               Subscribe(h, true)))
            && (m.agnss == Missing ==>
                  && OnlyReplied(m, Handled(calls + [RequestATL(h, TYPE_SUPL)]), OpenRefused(h))
                  && OnlyReplied(m, Handled(calls + [RequestATL(h, TYPE_INVALID)]), OpenRefused(h))
                  && OnlyReplied(m, Handled(calls + [RequestATL(h, TYPE_SUPL_ES)]), OpenRefused(h)))
    ensures var m := Handled(calls);
            forall t :: t in {TYPE_WWAN_ANY, TYPE_ANY, TYPE_C2K} ==>
              var m' := Handled(calls + [RequestATL(h, t)]);
              if m.internet.Running? then ToldInternet(m, m', Subscribe(h, false))
              else OnlyReplied(m, m', OpenRefused(h))
  {
    forall t {
      HandledSnoc(calls, RequestATL(h, t));
    }
  }

  /** What the network reports for a type is told to its machine and to no other. */
  lemma ReportGoes(calls: seq<Call>)
    ensures var m := Handled(calls);
            m.agnss.Running? ==>
              forall t :: t in {TYPE_SUPL, TYPE_SUPL_ES, TYPE_INVALID} ==>
                && ToldAgnss(m, Handled(calls + [OpenSuccess(t)]), Granted)
                && ToldAgnss(m, Handled(calls + [OpenFailed(t)]), Denied)
                && ToldAgnss(m, Handled(calls + [AtlClosed(t)]), ReleasedEvent)
    ensures var m := Handled(calls);
            m.internet.Running? ==>
              forall t :: t in {TYPE_WWAN_ANY, TYPE_ANY, TYPE_C2K} ==>
                && ToldInternet(m, Handled(calls + [OpenSuccess(t)]), Granted)
                && ToldInternet(m, Handled(calls + [OpenFailed(t)]), Denied)
                && ToldInternet(m, Handled(calls + [AtlClosed(t)]), ReleasedEvent)
  {
    hide Handled;
    forall t
      ensures Handled(calls + [OpenSuccess(t)]) == Handle(Handled(calls), OpenSuccess(t))
      ensures Handled(calls + [OpenFailed(t)]) == Handle(Handled(calls), OpenFailed(t))
      ensures Handled(calls + [AtlClosed(t)]) == Handle(Handled(calls), AtlClosed(t))
    {
      HandledSnoc(calls, OpenSuccess(t));
      HandledSnoc(calls, OpenFailed(t));
      HandledSnoc(calls, AtlClosed(t));
    }
  }

  /** A release goes to the AGNSS machine if it lists the handle, else to the internet machine
      if that does, and else is refused. */
  lemma ReleaseGoes(calls: seq<Call>, h: int)
    ensures var m, m' := Handled(calls), Handled(calls + [ReleaseATL(h)]);
            if m.agnss.Running? && Lookup(Run(m.agnss.inputs).list, h).Present?
            then ToldAgnss(m, m', Unsubscribe(h))
            else if m.internet.Running? && Lookup(Run(m.internet.inputs).list, h).Present?
            then ToldInternet(m, m', Unsubscribe(h))
            else OnlyReplied(m, m', CloseRefused(h))
  {
    HandledSnoc(calls, ReleaseATL(h));
    assert !Lists(Missing, h);
  }

  /** The internet machine is always created, the AGNSS one if the device is capable; neither
      is created twice, nor ever goes away. */
  lemma CreateMakes(calls: seq<Call>, agpsCapable: bool)
    ensures var m, m' := Handled(calls), Handled(calls + [Create(agpsCapable)]);
            && m'.replies == m.replies
            && m'.internet == (if m.internet == Missing then Running([]) else m.internet)
            && m'.agnss == if m.agnss == Missing && agpsCapable then Running([]) else m.agnss
    ensures forall call :: var m, m' := Handled(calls), Handled(calls + [call]);
              && (m.agnss.Running? ==> m'.agnss.Running?)
              && (m.internet.Running? ==> m'.internet.Running?)
  {
    HandledSnoc(calls, Create(agpsCapable));
    forall call ensures Handled(calls + [call]) == Handle(Handled(calls), call) {
      HandledSnoc(calls, call);
    }
  }

  // ---------------------------------------------------------------- what handles hear

  /** What a listed handle comes to when its machine is told one of the four events. */
  lemma ListedHears(inputs: seq<Input>, h: int)
    requires NeverBadAgain(inputs, h) && Lookup(Run(inputs).list, h).Present?
    ensures var m, e := Run(inputs), Lookup(Run(inputs).list, h);
            && (m.state == PENDING && !e.inactive ==>
                  LifeOf(Run(inputs + [Granted]).trace, h) == Served)
            && (m.state == PENDING ==> LifeOf(Run(inputs + [Denied]).trace, h) == Failed)
            && (m.state == ACQUIRED || (m.state == RELEASING && e.inactive) ==>
                  LifeOf(Run(inputs + [ReleasedEvent]).trace, h) == Ended)
            && (m.state == RELEASING && e.inactive ==>
                  LifeOf(Run(inputs + [Denied]).trace, h) == Ended)
            && LifeOf(Run(inputs + [ModemRestart]).trace, h) == Lost
  {
    hide Run, Lookup, LifeOf, NeverBadAgain;
    EventHears(inputs, Granted, h);
    EventHears(inputs, Denied, h);
    EventHears(inputs, ReleasedEvent, h);
    EventHears(inputs, ModemRestart, h);
  }

  lemma EventHears(inputs: seq<Input>, input: Input, h: int)
    requires NeverBadAgain(inputs, h) && !input.Subscribe?
    ensures var m := Run(inputs);
            LifeOf(Run(inputs + [input]).trace, h) ==
              NextLife(m.state, Lookup(m.list, h), LifeOf(m.trace, h), input, h)
  {
    assert (inputs + [input])[..|inputs|] == inputs;
    hide Run, LifeOf, NextLife, NextEntry;
    LivesFollow(inputs, input, h);
  }

  /** So what the network reports for SUPL reaches the handles listed at the AGNSS machine, and
      what it reports for any connection those at the internet machine: they are granted, fail
      or end; a modem restart loses them all. */
  lemma ReportsReach(calls: seq<Call>, h: int)
    requires Requests(calls, h) <= 1
    ensures var m := Handled(calls);
            var machine, e := Run(Inputs(m.agnss)), Lookup(Run(Inputs(m.agnss)).list, h);
            m.agnss.Running? && e.Present? ==>
              && (machine.state == PENDING && !e.inactive ==>
                    LifeIn(Handled(calls + [OpenSuccess(TYPE_SUPL)]).agnss, h) == Served)
              && (machine.state == PENDING ==>
                    LifeIn(Handled(calls + [OpenFailed(TYPE_SUPL)]).agnss, h) == Failed)
              && (machine.state == ACQUIRED ==>
                    LifeIn(Handled(calls + [AtlClosed(TYPE_SUPL)]).agnss, h) == Ended)
              && LifeIn(Handled(calls + [ModemSSR]).agnss, h) == Lost
    ensures var m := Handled(calls);
            var machine, e := Run(Inputs(m.internet)), Lookup(Run(Inputs(m.internet)).list, h);
            m.internet.Running? && e.Present? ==>
              && (machine.state == PENDING && !e.inactive ==>
                    LifeIn(Handled(calls + [OpenSuccess(TYPE_WWAN_ANY)]).internet, h) == Served)
              && (machine.state == PENDING ==>
                    LifeIn(Handled(calls + [OpenFailed(TYPE_WWAN_ANY)]).internet, h) == Failed)
              && (machine.state == ACQUIRED ==>
                    LifeIn(Handled(calls + [AtlClosed(TYPE_WWAN_ANY)]).internet, h) == Ended)
              && LifeIn(Handled(calls + [ModemSSR]).internet, h) == Lost
  {
    hide Run, Lookup, LifeOf, Handled, Requests, Handle;
    FreshMachines(calls, h);
    ReportGoes(calls);
    RestartGoes(calls);
    var m := Handled(calls);
    if Lookup(Run(Inputs(m.agnss)).list, h).Present? {
      ListedHears(Inputs(m.agnss), h);
    }
    if Lookup(Run(Inputs(m.internet)).list, h).Present? {
      ListedHears(Inputs(m.internet), h);
    }
  }

  lemma RestartGoes(calls: seq<Call>)
    ensures var m, m' := Handled(calls), Handled(calls + [ModemSSR]);
            && m'.replies == m.replies
            && (m.agnss.Running? ==> m'.agnss == Running(m.agnss.inputs + [ModemRestart]))
            && (m.internet.Running? ==> m'.internet == Running(m.internet.inputs + [ModemRestart]))
  {
    HandledSnoc(calls, ModemSSR);
  }
}
