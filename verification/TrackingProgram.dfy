/** The tracking multiplexer as the adapter runs it, with its loops over the session map.
    Whether the engine carries out a start or stop is a parameter of each message. */
module TrackingProgram {
  import opened Tracking

  datatype LocationError = SUCCESS | GENERAL_FAILURE | CALLBACK_MISSING | INVALID_PARAMETER

  /** What is reported to the client: nothing about a session there is not. */
  datatype Response = NoResponse | Response(err: LocationError)

  datatype EngineFix = Idle | Running(options: LocationOptions)

  class GnssAdapter {
    var mTrackingSessions: Sessions
    var engine: EngineFix
    var mSessionIdCounter: nat

    ghost function Model(): Tracker
      reads this
    {
      Tracker(mTrackingSessions,
              if engine.Idle? then Off else Fixing(engine.options.minInterval),
              mSessionIdCounter)
    }

    constructor ()
      ensures Model() == Run(INITIAL, [])
    {
      mTrackingSessions, engine, mSessionIdCounter := map[], Idle, 1;
    }

    method GenerateSessionId() returns (id: nat)
      modifies this`mSessionIdCounter
      ensures Model() == Step(old(Model()), GenerateId) && id == mSessionIdCounter
    {
      mSessionIdCounter := mSessionIdCounter + 1;
      if mSessionIdCounter == ID_LIMIT {
        mSessionIdCounter := 1;
      }
      id := mSessionIdCounter;
    }

    method StartTracking(options: LocationOptions, ok: bool) returns (err: LocationError)
      modifies this`engine
      ensures var outcome := StartEngine(old(Model()).engine, options.minInterval, ok);
              && Model() == old(Model()).(engine := outcome.engine)
              && err == if outcome.success then SUCCESS else GENERAL_FAILURE
    {
      err := GENERAL_FAILURE;
      if ok {
        engine, err := Running(options), SUCCESS;
      }
    }

    method StopTracking(ok: bool) returns (err: LocationError)
      modifies this`engine
      ensures var outcome := StopEngine(old(Model()).engine, ok);
              && Model() == old(Model()).(engine := outcome.engine)
              && err == if outcome.success then SUCCESS else GENERAL_FAILURE
    {
      err := GENERAL_FAILURE;
      if ok {
        engine, err := Idle, SUCCESS;
      }
    }

    /** The first options found with the smallest interval; options of size zero stand for
        none found yet, which the options that are saved never look like. */
    method SmallestInterval(keys: set<SessionKey>) returns (smallest: LocationOptions)
      requires keys <= mTrackingSessions.Keys && keys != {} && OptionsSet(Model())
      ensures exists key :: key in keys && mTrackingSessions[key] == smallest
      ensures forall key :: key in keys ==>
                smallest.minInterval <= mTrackingSessions[key].minInterval
    {
      smallest := LocationOptions(0, 0, 0);
      var todo := keys;
      while todo != {}
        invariant todo <= keys
        invariant smallest.size == 0 <==> todo == keys
        invariant smallest.size != 0 ==>
                    exists key :: key in keys && mTrackingSessions[key] == smallest
        invariant forall key :: key in keys && key !in todo ==>
                    smallest.minInterval <= mTrackingSessions[key].minInterval
      {
        var key :| key in todo;
        var options := mTrackingSessions[key];
        assert options.size != 0;
        if smallest.size == 0 || options.minInterval < smallest.minInterval {
          smallest := options;
        }
        todo := todo - {key};
      }
    }

    method SmallestOf(ghost sessions: Sessions, keys: set<SessionKey>)
      returns (smallest: LocationOptions)
      requires keys != {} && keys == sessions.Keys && OptionsSet(Model())
      requires forall key :: key in keys ==>
                 key in mTrackingSessions && mTrackingSessions[key] == sessions[key]
      ensures smallest.minInterval == MinInterval(sessions)
    {
      smallest := SmallestInterval(keys);
      assert exists key :: key in sessions && sessions[key].minInterval == smallest.minInterval;
      MinUnique(sessions, smallest.minInterval);
    }

    method StartTrackingMultiplex(options: LocationOptions, ok: bool) returns (err: LocationError)
      requires OptionsSet(Model())
      modifies this`engine
      ensures var outcome := StartMultiplex(old(Model()), options, ok);
              && Model() == old(Model()).(engine := outcome.engine)
              && err == if outcome.success then SUCCESS else GENERAL_FAILURE
    {
      err := SUCCESS;
      if |mTrackingSessions| == 0 {
        err := StartTracking(options, ok);
      } else {
        var smallest := SmallestOf(mTrackingSessions, mTrackingSessions.Keys);
        if options.minInterval < smallest.minInterval {
          err := StartTracking(options, ok);
        }
      }
    }

    lemma OneSession(key: SessionKey)
      requires key in mTrackingSessions
      ensures |mTrackingSessions| == 1 <==> mTrackingSessions - {key} == map[]
    {
      var others := mTrackingSessions - {key};
      assert others.Keys == mTrackingSessions.Keys - {key};
      assert |others| == |mTrackingSessions| - 1;
    }

    method UpdateTrackingMultiplex(key: SessionKey, options: LocationOptions, ok: bool)
      returns (err: LocationError)
      requires OptionsSet(Model()) && key in mTrackingSessions
      modifies this`engine
      ensures var outcome := UpdateMultiplex(old(Model()), key, options, ok);
              && Model() == old(Model()).(engine := outcome.engine)
              && err == if outcome.success then SUCCESS else GENERAL_FAILURE
    {
      err := SUCCESS;
      OneSession(key);
      if |mTrackingSessions| == 1 {
        err := StartTracking(options, ok);
      } else {
        var smallest := SmallestOf(mTrackingSessions - {key}, mTrackingSessions.Keys - {key});
        if options.minInterval < smallest.minInterval {
          err := StartTracking(options, ok);
        } else if mTrackingSessions[key].minInterval < smallest.minInterval {
          err := StartTracking(smallest, ok);
        }
      }
    }

    method StopTrackingMultiplex(key: SessionKey, ok: bool) returns (err: LocationError)
      requires OptionsSet(Model()) && key in mTrackingSessions
      modifies this`engine
      ensures var outcome := StopMultiplex(old(Model()), key, ok);
              && Model() == old(Model()).(engine := outcome.engine)
              && err == if outcome.success then SUCCESS else GENERAL_FAILURE
    {
      err := SUCCESS;
      OneSession(key);
      if |mTrackingSessions| == 1 {
        err := StopTracking(ok);
      } else {
        var smallest := SmallestOf(mTrackingSessions - {key}, mTrackingSessions.Keys - {key});
        if mTrackingSessions[key].minInterval < smallest.minInterval {
          err := StartTracking(smallest, ok);
        }
      }
    }

    /** The caller's side: it draws an id for the message that starts the session. */
    method StartTrackingCommand(client: int) returns (key: SessionKey)
      modifies this`mSessionIdCounter
      ensures Model() == Step(old(Model()), GenerateId)
      ensures key == SessionKey(client, Model().lastId)
    {
      var sessionId := GenerateSessionId();
      key := SessionKey(client, sessionId);
    }

    /** The message, handled later. */
    method MsgStartTracking(key: SessionKey, options: LocationOptions, hasCallback: bool, ok: bool)
      returns (err: LocationError)
      requires OptionsSet(Model())
      modifies this
      ensures Model() == Step(old(Model()), Start(key, options, hasCallback, ok))
      ensures OptionsSet(Model())
      ensures !hasCallback ==> err == CALLBACK_MISSING
      ensures hasCallback && options.size == 0 ==> err == INVALID_PARAMETER
      ensures hasCallback && options.size != 0 ==> err in {SUCCESS, GENERAL_FAILURE}
      ensures mTrackingSessions ==
                if err == SUCCESS then old(mTrackingSessions)[key := options]
                else old(mTrackingSessions)
    {
      if !hasCallback {
        err := CALLBACK_MISSING;
      } else if options.size == 0 {
        err := INVALID_PARAMETER;
      } else {
        err := StartTrackingMultiplex(options, ok);
        if err == SUCCESS {
          mTrackingSessions := mTrackingSessions[key := options];
        }
      }
    }

    method UpdateTrackingOptionsCommand(key: SessionKey, options: LocationOptions, ok: bool)
      returns (answer: Response)
      requires OptionsSet(Model())
      modifies this
      ensures Model() == Step(old(Model()), Update(key, options, ok)) && OptionsSet(Model())
      ensures answer == NoResponse <==> key !in old(mTrackingSessions)
      ensures key in old(mTrackingSessions) ==>
                && (options.size == 0 <==> answer.err == INVALID_PARAMETER)
                && (options.size != 0 ==> answer.err in {SUCCESS, GENERAL_FAILURE})
      ensures mTrackingSessions ==
                if answer == Response(SUCCESS) then old(mTrackingSessions)[key := options]
                else old(mTrackingSessions)
    {
      answer := NoResponse;
      if key in mTrackingSessions {
        var err := INVALID_PARAMETER;
        if options.size != 0 {
          err := UpdateTrackingMultiplex(key, options, ok);
          if err == SUCCESS {
            mTrackingSessions := mTrackingSessions[key := options];
          }
        }
        answer := Response(err);
      }
    }

    method StopTrackingCommand(key: SessionKey, ok: bool) returns (answer: Response)
      requires OptionsSet(Model())
      modifies this
      ensures Model() == Step(old(Model()), Stop(key, ok)) && OptionsSet(Model())
      ensures answer == NoResponse <==> key !in old(mTrackingSessions)
      ensures key in old(mTrackingSessions) ==> answer.err in {SUCCESS, GENERAL_FAILURE}
      ensures mTrackingSessions ==
                if answer == Response(SUCCESS) then old(mTrackingSessions) - {key}
                else old(mTrackingSessions)
    {
      answer := NoResponse;
      if key in mTrackingSessions {
        var err := StopTrackingMultiplex(key, ok);
        if err == SUCCESS {
          mTrackingSessions := mTrackingSessions - {key};
        }
        answer := Response(err);
      }
    }

    /** Stops each of the client's sessions once, whether or not others could be stopped. */
    method StopClientSessions(client: int, ok: SessionKey -> bool)
      returns (ghost order: seq<SessionKey>)
      requires OptionsSet(Model())
      modifies this
      ensures Model() == Run(old(Model()), StopsFor(order, ok)) && OptionsSet(Model())
      ensures forall i, j :: 0 <= i < j < |order| ==> order[i] != order[j]
      ensures forall key :: key in order <==> key in old(mTrackingSessions) && key.client == client
      ensures forall key :: key in old(mTrackingSessions) && key.client != client ==>
                key in mTrackingSessions && mTrackingSessions[key] == old(mTrackingSessions)[key]
      ensures mTrackingSessions.Keys <= old(mTrackingSessions).Keys
      ensures forall key :: key in mTrackingSessions && key.client == client ==> !ok(key)
    {
      order := [];
      var todo := mTrackingSessions.Keys;
      while todo != {}
        invariant todo <= mTrackingSessions.Keys <= old(mTrackingSessions).Keys
        invariant Model() == Run(old(Model()), StopsFor(order, ok)) && OptionsSet(Model())
        invariant forall i, j :: 0 <= i < j < |order| ==> order[i] != order[j]
        invariant forall key :: key in order <==>
                    key in old(mTrackingSessions) && key.client == client && key !in todo
        invariant forall key :: key in mTrackingSessions ==>
                    mTrackingSessions[key] == old(mTrackingSessions)[key]
        invariant forall key :: key in old(mTrackingSessions) && key.client != client ==>
                    key in mTrackingSessions
        invariant forall key :: key in mTrackingSessions && key.client == client && key !in todo ==>
                    !ok(key)
      {
        hide Step, Run, StopsFor;
        var key :| key in todo;
        todo := todo - {key};
        if key.client == client {
          StopLeaves(Model(), key, ok(key));
          StopsForSnoc(old(Model()), order, key, ok);
          var _ := StopTrackingCommand(key, ok(key));
          order := order + [key];
        }
      }
    }

    lemma StopLeaves(t: Tracker, key: SessionKey, ok: bool)
      ensures var sessions := Step(t, Stop(key, ok)).sessions;
              sessions == t.sessions - {key} || (!ok && sessions == t.sessions)
    {
      assert key !in t.sessions ==> t.sessions - {key} == t.sessions;
    }

    /** The engine has come up idle. */
    method RestartSessions(ok: bool)
      requires OptionsSet(Model())
      modifies this
      ensures Model() == Step(old(Model()), EngineUp(ok)) && OptionsSet(Model())
    {
      engine := Idle;
      if |mTrackingSessions| == 0 {
        return;
      }
      var smallest := SmallestOf(mTrackingSessions, mTrackingSessions.Keys);
      var _ := StartTracking(smallest, ok);
    }
  }

  ghost function StopsFor(order: seq<SessionKey>, ok: SessionKey -> bool): seq<Message> {
    seq(|order|, i requires 0 <= i < |order| => Stop(order[i], ok(order[i])))
  }

  lemma StopsForSnoc(t: Tracker, order: seq<SessionKey>, key: SessionKey, ok: SessionKey -> bool)
    ensures Run(t, StopsFor(order + [key], ok)) ==
              Step(Run(t, StopsFor(order, ok)), Stop(key, ok(key)))
  {
    assert StopsFor(order + [key], ok)[..|order|] == StopsFor(order, ok);
  }

  /** Removing a client keeps the engine shared by the sessions that are left. */
  lemma {:induction false} StopsShare(t: Tracker, stops: seq<Message>)
    requires Shares(t) && forall stop :: stop in stops ==> stop.Stop?
    ensures Shares(Run(t, stops))
  {
    if stops != [] {
      var init, last := stops[..|stops| - 1], stops[|stops| - 1];
      assert stops == init + [last];
      StopsShare(t, init);
      StoppedShares(Run(t, init), last.key, last.ok);
    }
  }
}
