/** What the modem asked for, from the events alone, and exactly when the framework is asked. */
module OdcpiSends {
  import opened Odcpi

  function Heard(events: seq<Event>): bool {
    events != [] && (Heard(events[..|events| - 1]) || events[|events| - 1].Init?)
  }

  /** The modem's latest word, once a callback is registered, or a restart of the sessions. */
  function Wanted(events: seq<Event>): bool {
    events != [] &&
    var init, last := events[..|events| - 1], events[|events| - 1];
    match last
    case ReportStart(_, _) => Heard(init) || Wanted(init)
    case ReportStop => !Heard(init) && Wanted(init)
    case RestartSessions => false
    case _ => Wanted(init)
  }

  function Clock(events: seq<Event>): nat {
    if events == [] then 0
    else
      var last := events[|events| - 1];
      Clock(events[..|events| - 1]) + if last.Advance? then last.ms else 0
  }

  lemma StepSets(o: Odcpi, event: Event)
    ensures var o' := Step(o, event);
            && (o'.ready <==> o.ready || event.Init?)
            && o'.now == (o.now + if event.Advance? then event.ms else 0)
            && o'.active ==
                 match event
                 case ReportStart(_, _) => o.ready || o.active
                 case ReportStop => !o.ready && o.active
                 case RestartSessions => false
                 case _ => o.active
  {
  }

  /** Over every run a request is active exactly when the latest of the modem's starts and
      stops, heard once a callback was registered, and of the restarts was a start; it is the
      latest one started, and time is the sum of its advances. */
  lemma {:induction false} ActiveIffWanted(events: seq<Event>)
    ensures var o := Run(events);
            && o.ready == Heard(events) && o.active == Wanted(events)
            && o.request == LatestStart(events) && o.now == Clock(events)
  {
    hide Step;
    RequestIsLatest(events);
    if events != [] {
      var init := events[..|events| - 1];
      ActiveIffWanted(init);
      StepSets(Run(init), events[|events| - 1]);
    }
  }

  /** The framework is asked exactly: at once by a start, if nothing is wanted and the timer
      stands; at once by an emergency that replaces an ordinary request; and at the handling of
      an expiry, if something is wanted then.  Never otherwise. */
  function Sends(events: seq<Event>, event: Event, pending: bool): seq<Sent> {
    match event
    case ReportStart(request, _) =>
      if !Heard(events) then []
      else if !Wanted(events) && (TimerOf(events) == NotStarted || TimerOf(events).stopped)
      then [Sent(Clock(events), request, false)]
      else if !LatestStart(events).emergency && request.emergency
      then [Sent(Clock(events), request, true)]
      else []
    case HandleExpiry(_) =>
      if pending && Wanted(events) then [Sent(Clock(events), LatestStart(events), false)] else []
    case _ => []
  }

  lemma SendsExactly(events: seq<Event>, event: Event)
    ensures Run(events + [event]).sent ==
              Run(events).sent + Sends(events, event, Run(events).expired > 0)
  {
    hide Run, Step, TimerOf, Wanted, Heard, LatestStart, Clock;
    RunSnoc(events, event);
    ActiveIffWanted(events);
    TimerTracked(events);
    StepSends(Run(events), event);
    assert Run(events).sent + [] == Run(events).sent;
  }

  /** None of these events stops what is wanted or handles an expiry. */
  ghost predicate Leaves(events: seq<Event>) {
    forall e :: e in events ==> !e.ReportStop? && !e.RestartSessions? && !e.HandleExpiry?
  }

  lemma {:induction false} StaysWanted(before: seq<Event>, between: seq<Event>)
    requires Wanted(before) && Leaves(between)
    ensures Wanted(before + between)
  {
    if between == [] {
      assert before + between == before;
    } else {
      var init, last := between[..|between| - 1], between[|between| - 1];
      assert last in between;
      StaysWanted(before, init);
      assert (before + between)[..|before + between| - 1] == before + init;
    }
  }

  /** A request heard, at once sent or not, is sent when an expiry is next handled, if nothing
      stopped it, in the form of the latest the modem started. */
  lemma HeardIsSent(before: seq<Event>, request: Request, ok: bool, between: seq<Event>, ok': bool)
    requires Heard(before) && Leaves(between)
    requires Run(before + [ReportStart(request, ok)] + between).expired > 0
    ensures var events := before + [ReportStart(request, ok)] + between;
            Run(events + [HandleExpiry(ok')]).sent ==
              Run(events).sent + [Sent(Clock(events), LatestStart(events), false)]
  {
    var start := before + [ReportStart(request, ok)];
    assert start[..|before|] == before;
    StaysWanted(start, between);
    var events := start + between;
    SendsExactly(events, HandleExpiry(ok'));
    ActiveIffWanted(events);
    RequestIsLatest(events);
  }

  /** What was stopped is not sent again, and the timer then stands. */
  lemma StoppedIsNotSent(events: seq<Event>, ok: bool)
    requires !Wanted(events) && Run(events).expired > 0
    ensures var o' := Run(events + [HandleExpiry(ok)]);
            o'.sent == Run(events).sent && !o'.timerActive && o'.alarm == Idle
  {
    SendsExactly(events, HandleExpiry(ok));
    ActiveIffWanted(events);
    RunSnoc(events, HandleExpiry(ok));
  }
}
