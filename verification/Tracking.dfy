/** The tracking multiplexer: many client sessions share one engine fix.  The engine is known
    by the interval it was last started with. */
module Tracking {

  datatype LocationOptions = LocationOptions(size: nat, minInterval: nat, mode: int)

  datatype SessionKey = SessionKey(client: int, id: int)

  datatype Engine = Off | Fixing(minInterval: nat)

  type Sessions = map<SessionKey, LocationOptions>

  /** `lastId` is the session id generated last. */
  datatype Tracker = Tracker(sessions: Sessions, engine: Engine, lastId: nat)

  /** `ok` is whether the engine carries out a start or stop, if the message comes to one. */
  datatype Message =
    | GenerateId
    | Start(key: SessionKey, options: LocationOptions, hasCallback: bool, ok: bool)
    | Update(key: SessionKey, options: LocationOptions, ok: bool)
    | Stop(key: SessionKey, ok: bool)
    | EngineUp(ok: bool)

  const ID_LIMIT: nat := 0xFFFF_FFFF

  function NextId(lastId: nat): nat {
    if lastId + 1 == ID_LIMIT then 1 else lastId + 1
  }

  ghost predicate IsMin(sessions: Sessions, interval: nat) {
    && (exists key :: key in sessions && sessions[key].minInterval == interval)
    && forall key :: key in sessions ==> interval <= sessions[key].minInterval
  }

  lemma {:induction false} HasMin(sessions: Sessions)
    requires sessions != map[]
    ensures exists interval :: IsMin(sessions, interval)
    decreases |sessions|
  {
    var key :| key in sessions;
    var interval := sessions[key].minInterval;
    var others := sessions - {key};
    if others == map[] {
      assert forall k :: k in sessions ==> k == key || k in others;
      assert IsMin(sessions, interval);
    } else {
      HasMin(others);
      var least :| IsMin(others, least);
      var k :| k in others && others[k].minInterval == least;
      assert k in sessions && sessions[k].minInterval == least;
      assert forall k :: k in sessions ==> k == key || k in others;
      assert IsMin(sessions, if interval < least then interval else least);
    }
  }

  ghost function MinInterval(sessions: Sessions): (interval: nat)
    requires sessions != map[]
    ensures IsMin(sessions, interval)
  {
    HasMin(sessions);
    var interval :| IsMin(sessions, interval);
    interval
  }

  lemma MinUnique(sessions: Sessions, interval: nat)
    requires IsMin(sessions, interval)
    ensures sessions != map[] && MinInterval(sessions) == interval
  {
  }

  // ---------------------------------------------------------------- what the messages do

  /** The engine after a request, and whether it was carried out. */
  datatype Outcome = Outcome(engine: Engine, success: bool)

  function StartEngine(engine: Engine, interval: nat, ok: bool): Outcome {
    if ok then Outcome(Fixing(interval), true) else Outcome(engine, false)
  }

  function StopEngine(engine: Engine, ok: bool): Outcome {
    if ok then Outcome(Off, true) else Outcome(engine, false)
  }

  ghost function StartMultiplex(t: Tracker, options: LocationOptions, ok: bool): Outcome {
    if t.sessions == map[] || options.minInterval < MinInterval(t.sessions)
    then StartEngine(t.engine, options.minInterval, ok)
    else Outcome(t.engine, true)
  }

  ghost function UpdateMultiplex(t: Tracker, key: SessionKey, options: LocationOptions, ok: bool)
    : Outcome
    requires key in t.sessions
  {
    var others := t.sessions - {key};
    if others == map[] || options.minInterval < MinInterval(others)
    then StartEngine(t.engine, options.minInterval, ok)
    else if t.sessions[key].minInterval < MinInterval(others)
    then StartEngine(t.engine, MinInterval(others), ok)
    else Outcome(t.engine, true)
  }

  ghost function StopMultiplex(t: Tracker, key: SessionKey, ok: bool): Outcome
    requires key in t.sessions
  {
    var others := t.sessions - {key};
    if others == map[] then StopEngine(t.engine, ok)
    else if t.sessions[key].minInterval < MinInterval(others)
    then StartEngine(t.engine, MinInterval(others), ok)
    else Outcome(t.engine, true)
  }

  /** A session with this key and these options starts. */
  ghost function Started(t: Tracker, key: SessionKey, options: LocationOptions, hasCallback: bool,
                         ok: bool): Tracker
  {
    if !hasCallback || options.size == 0 then t
    else
      var outcome := StartMultiplex(t, options, ok);
      if outcome.success
      then t.(engine := outcome.engine, sessions := t.sessions[key := options])
      else t.(engine := outcome.engine)
  }

  ghost function Updated(t: Tracker, key: SessionKey, options: LocationOptions, ok: bool): Tracker {
    if key !in t.sessions || options.size == 0 then t
    else
      var outcome := UpdateMultiplex(t, key, options, ok);
      if outcome.success
      then t.(engine := outcome.engine, sessions := t.sessions[key := options])
      else t.(engine := outcome.engine)
  }

  ghost function Stopped(t: Tracker, key: SessionKey, ok: bool): Tracker {
    if key !in t.sessions then t
    else
      var outcome := StopMultiplex(t, key, ok);
      if outcome.success
      then t.(engine := outcome.engine, sessions := t.sessions - {key})
      else t.(engine := outcome.engine)
  }

  /** The engine comes up idle; the sessions are then started again in one. */
  ghost function Restarted(t: Tracker, ok: bool): Tracker {
    if t.sessions == map[] then t.(engine := Off)
    else t.(engine := StartEngine(Off, MinInterval(t.sessions), ok).engine)
  }

  ghost function Step(t: Tracker, message: Message): Tracker {
    match message
    case GenerateId => t.(lastId := NextId(t.lastId))
    case Start(key, options, hasCallback, ok) => Started(t, key, options, hasCallback, ok)
    case Update(key, options, ok) => Updated(t, key, options, ok)
    case Stop(key, ok) => Stopped(t, key, ok)
    case EngineUp(ok) => Restarted(t, ok)
  }

  ghost function Run(t: Tracker, messages: seq<Message>): Tracker
  {
    if messages == [] then t
    else Step(Run(t, messages[..|messages| - 1]), messages[|messages| - 1])
  }

  const INITIAL := Tracker(map[], Off, 1)

  // ---------------------------------------------------------------- the invariant

  /** The engine fixes exactly when there is a session, at the smallest interval of all. */
  ghost predicate Shares(t: Tracker) {
    t.engine == if t.sessions == map[] then Off else Fixing(MinInterval(t.sessions))
  }

  /** No saved options look unset. */
  ghost predicate OptionsSet(t: Tracker) {
    forall key :: key in t.sessions ==> t.sessions[key].size != 0
  }

  /** The smallest interval with one more session, or one replaced. */
  lemma MinWith(sessions: Sessions, key: SessionKey, options: LocationOptions)
    ensures var others, sessions' := sessions - {key}, sessions[key := options];
            MinInterval(sessions') ==
              if others != map[] && MinInterval(others) <= options.minInterval
              then MinInterval(others) else options.minInterval
  {
    var others, sessions' := sessions - {key}, sessions[key := options];
    assert sessions'[key] == options;
    assert forall k :: k in sessions' <==> k == key || k in others;
    if others != map[] && MinInterval(others) <= options.minInterval {
      var k :| k in others && others[k].minInterval == MinInterval(others);
      assert k in sessions' && sessions'[k].minInterval == MinInterval(others);
      MinUnique(sessions', MinInterval(others));
    } else {
      MinUnique(sessions', options.minInterval);
    }
  }

  lemma MinSplit(sessions: Sessions, key: SessionKey)
    requires key in sessions
    ensures var others, own := sessions - {key}, sessions[key].minInterval;
            MinInterval(sessions) ==
              if others != map[] && MinInterval(others) <= own then MinInterval(others) else own
  {
    assert sessions[key := sessions[key]] == sessions;
    MinWith(sessions, key, sessions[key]);
  }

  lemma StartedShares(t: Tracker, key: SessionKey, options: LocationOptions, hasCallback: bool,
                      ok: bool)
    requires Shares(t) && key !in t.sessions
    ensures Shares(Started(t, key, options, hasCallback, ok))
  {
    assert t.sessions - {key} == t.sessions;
    MinWith(t.sessions, key, options);
  }

  /** Were the key in use already, what the engine does would no longer match exactly when the
      session replaced was alone at the smallest interval and the new one is slower; whether
      the engine would carry out a start makes no difference. */
  lemma ReusedKey(t: Tracker, key: SessionKey, options: LocationOptions, hasCallback: bool, ok: bool)
    requires Shares(t) && key in t.sessions
    ensures Shares(Started(t, key, options, hasCallback, ok)) <==>
              || !hasCallback || options.size == 0
              || options.minInterval <= MinInterval(t.sessions)
              || exists k :: k in t.sessions && k != key &&
                             t.sessions[k].minInterval == MinInterval(t.sessions)
  {
    var others := t.sessions - {key};
    MinWith(t.sessions, key, options);
    MinSplit(t.sessions, key);
    if k :| k in t.sessions && k != key && t.sessions[k].minInterval == MinInterval(t.sessions) {
      assert k in others;
    } else if others != map[] {
      var k :| k in others && others[k].minInterval == MinInterval(others);
      assert k in t.sessions && k != key;
    }
  }

  lemma UpdatedShares(t: Tracker, key: SessionKey, options: LocationOptions, ok: bool)
    requires Shares(t)
    ensures Shares(Updated(t, key, options, ok))
  {
    MinWith(t.sessions, key, options);
    if key in t.sessions {
      MinSplit(t.sessions, key);
    }
  }

  lemma StoppedShares(t: Tracker, key: SessionKey, ok: bool)
    requires Shares(t)
    ensures Shares(Stopped(t, key, ok))
  {
    if key in t.sessions {
      MinSplit(t.sessions, key);
    }
  }

  /** A restart the engine carries out restores the invariant whatever came before it. */
  lemma RestartShares(t: Tracker, ok: bool)
    ensures Shares(Restarted(t, ok)) <==> ok || t.sessions == map[]
  {
  }

  // ---------------------------------------------------------------- runs

  /** The latest restart of the engine, if there was one, succeeded or found no session. */
  ghost predicate RestartedWell(t: Tracker, messages: seq<Message>) {
    messages != [] ==>
      var init, last := messages[..|messages| - 1], messages[|messages| - 1];
      if last.EngineUp? then last.ok || Run(t, init).sessions == map[] else RestartedWell(t, init)
  }

  function Generated(messages: seq<Message>): nat {
    if messages == [] then 0
    else
      var last := messages[|messages| - 1];
      Generated(messages[..|messages| - 1]) + if last.GenerateId? then 1 else 0
  }

  /** The session id drawn last, by how many were drawn: they come back after ID_LIMIT - 1. */
  lemma {:induction false} IdAfter(messages: seq<Message>)
    ensures Run(INITIAL, messages).lastId == Generated(messages) % 0xFFFF_FFFE + 1
  {
    if messages != [] {
      var init := messages[..|messages| - 1];
      IdAfter(init);
      NextIdCounts(Generated(init));
    }
  }

  lemma NextIdCounts(n: nat)
    ensures NextId(n % (ID_LIMIT - 1) + 1) == (n + 1) % (ID_LIMIT - 1) + 1
  {
    var m := ID_LIMIT - 1;
    assert n == m * (n / m) + n % m;
    if n % m == m - 1 {
      assert n + 1 == m * (n / m + 1);
      assert (n + 1) % m == 0;
    } else {
      assert n + 1 == m * (n / m) + (n % m + 1);
      assert (n + 1) % m == n % m + 1;
    }
  }

  lemma {:induction false} OptionsAreSet(messages: seq<Message>)
    ensures OptionsSet(Run(INITIAL, messages))
  {
    hide StartMultiplex, UpdateMultiplex, StopMultiplex, MinInterval;
    if messages != [] {
      OptionsAreSet(messages[..|messages| - 1]);
    }
  }

  /** No session is started under a key that is in use. */
  ghost predicate KeysFresh(messages: seq<Message>) {
    messages != [] ==>
      var init, last := messages[..|messages| - 1], messages[|messages| - 1];
      var t := Run(INITIAL, init);
      && KeysFresh(init)
      && (last.Start? ==> last.key !in t.sessions)
  }

  /** Over every run that starts no session under a key in use, with the engine free to refuse
      any start or stop, the engine fixes exactly when there is a session, at the smallest
      interval of all, provided its latest restart succeeded. */
  lemma {:induction false} EngineIsShared(messages: seq<Message>)
    requires KeysFresh(messages) && RestartedWell(INITIAL, messages)
    ensures Shares(Run(INITIAL, messages))
  {
    hide MinInterval, Started, Updated, Stopped, Restarted;
    if messages != [] {
      var init, last := messages[..|messages| - 1], messages[|messages| - 1];
      var t := Run(INITIAL, init);
      match last
      case EngineUp(ok) => RestartShares(t, ok);
      case GenerateId => EngineIsShared(init);
      case Start(key, options, hasCallback, ok) =>
        EngineIsShared(init);
        StartedShares(t, key, options, hasCallback, ok);
      case Update(key, options, ok) =>
        EngineIsShared(init);
        UpdatedShares(t, key, options, ok);
      case Stop(key, ok) =>
        EngineIsShared(init);
        StoppedShares(t, key, ok);
    }
  }

  // ---------------------------------------------------------------- where keys come from

  /** Ids are drawn in the callers' threads and the messages that use them are handled later:
      each start uses an id drawn for it before, at the position `draw` says. */
  ghost predicate Drawn(messages: seq<Message>, draw: map<nat, nat>) {
    && (forall p :: 0 <= p < |messages| && messages[p].Start? ==>
          && p in draw && draw[p] < p && messages[draw[p]].GenerateId?
          && messages[p].key.id == Run(INITIAL, messages[..draw[p] + 1]).lastId)
    && (forall p, q :: 0 <= p < q < |messages| && messages[p].Start? && messages[q].Start? ==>
          draw[p] != draw[q])
  }

  lemma {:induction false} GeneratedGrows(messages: seq<Message>, a: nat, b: nat)
    requires a <= b <= |messages|
    ensures Generated(messages[..a]) <= Generated(messages[..b])
  {
    if a < b {
      GeneratedGrows(messages, a, b - 1);
      assert messages[..b][..b - 1] == messages[..b - 1];
    }
  }

  lemma DrawCounts(messages: seq<Message>, a: nat)
    requires a < |messages| && messages[a].GenerateId?
    ensures Generated(messages[..a + 1]) == Generated(messages[..a]) + 1
  {
    assert messages[..a + 1][..a] == messages[..a];
  }

  /** Of at most ID_LIMIT - 1 ids drawn no two are the same. */
  lemma DrawsDiffer(messages: seq<Message>, a: nat, b: nat)
    requires a < b < |messages| && messages[a].GenerateId? && messages[b].GenerateId?
    requires Generated(messages) <= ID_LIMIT - 1
    ensures Run(INITIAL, messages[..a + 1]).lastId != Run(INITIAL, messages[..b + 1]).lastId
  {
    IdAfter(messages[..a + 1]);
    IdAfter(messages[..b + 1]);
    DrawCounts(messages, a);
    DrawCounts(messages, b);
    GeneratedGrows(messages, a + 1, b);
    GeneratedGrows(messages, b + 1, |messages|);
    assert messages[..|messages|] == messages;
    Residues(Generated(messages[..a + 1]), Generated(messages[..b + 1]));
  }

  lemma Residues(m: nat, n: nat)
    requires 0 < m < n <= ID_LIMIT - 1
    ensures m % (ID_LIMIT - 1) != n % (ID_LIMIT - 1)
  {
  }

  lemma {:induction false} KeyWasStarted(messages: seq<Message>, key: SessionKey)
    requires key in Run(INITIAL, messages).sessions
    ensures exists p :: 0 <= p < |messages| && messages[p].Start? && messages[p].key == key
  {
    var init, last := messages[..|messages| - 1], messages[|messages| - 1];
    hide StartMultiplex, UpdateMultiplex, StopMultiplex, MinInterval;
    if key in Run(INITIAL, init).sessions {
      KeyWasStarted(init, key);
      var p :| 0 <= p < |init| && init[p].Start? && init[p].key == key;
      assert messages[p] == init[p];
    } else {
      assert messages[|messages| - 1] == last;
    }
  }

  /** In particular keys are fresh until session ids come back. */
  lemma {:induction false} KeysFreshUntilWrap(messages: seq<Message>, draw: map<nat, nat>)
    requires Drawn(messages, draw) && Generated(messages) <= ID_LIMIT - 1
    ensures KeysFresh(messages)
  {
    FreshUpTo(messages, draw, |messages|);
    assert messages[..|messages|] == messages;
  }

  lemma {:induction false} FreshUpTo(messages: seq<Message>, draw: map<nat, nat>, n: nat)
    requires Drawn(messages, draw) && Generated(messages) <= ID_LIMIT - 1 && n <= |messages|
    ensures KeysFresh(messages[..n])
  {
    hide Run, Generated;
    if n > 0 {
      FreshUpTo(messages, draw, n - 1);
      assert messages[..n][..n - 1] == messages[..n - 1];
      if messages[n - 1].Start? && messages[n - 1].key in Run(INITIAL, messages[..n - 1]).sessions {
        KeyWasStarted(messages[..n - 1], messages[n - 1].key);
        var p :| 0 <= p < n - 1 && messages[..n - 1][p].Start? &&
                 messages[..n - 1][p].key == messages[n - 1].key;
        SameKeyNever(messages, draw, p, n - 1);
      }
    }
  }

  lemma SameKeyNever(messages: seq<Message>, draw: map<nat, nat>, p: nat, q: nat)
    requires Drawn(messages, draw) && Generated(messages) <= ID_LIMIT - 1
    requires p < q < |messages| && messages[p].Start? && messages[q].Start?
    ensures messages[p].key != messages[q].key
  {
    hide Run, Generated;
    if draw[p] < draw[q] {
      DrawsDiffer(messages, draw[p], draw[q]);
    } else {
      DrawsDiffer(messages, draw[q], draw[p]);
    }
  }

  // ---------------------------------------------------------------- a key that comes back

  /** Client 1 keeps a session while all other session ids are given out, and starts another
      one then, a slower one. */
  function WrapRun(fast: LocationOptions, slow: LocationOptions): seq<Message> {
    First(fast) + Ticks(ID_LIMIT - 1) + [Start(SessionKey(1, 2), slow, true, true)]
  }

  function First(fast: LocationOptions): seq<Message> {
    [GenerateId, Start(SessionKey(1, 2), fast, true, true)]
  }

  function Ticks(n: nat): seq<Message> {
    seq(n, i requires 0 <= i < n => GenerateId)
  }

  lemma {:induction false} TicksKeep(first: seq<Message>, n: nat)
    ensures var t, t' := Run(INITIAL, first), Run(INITIAL, first + Ticks(n));
            && t'.sessions == t.sessions && t'.engine == t.engine
            && Generated(first + Ticks(n)) == Generated(first) + n
    decreases n
  {
    hide Started, Updated, Stopped, Restarted;
    var run := first + Ticks(n);
    if n == 0 {
      assert run == first;
    } else {
      TicksKeep(first, n - 1);
      assert run[..|run| - 1] == first + Ticks(n - 1);
    }
  }

  /** The run: the id drawn last is the one the first session has, and the engine is left at an
      interval that no session has. */
  lemma WrappedKeyBreaks(fast: LocationOptions, slow: LocationOptions)
    requires fast.size != 0 && slow.size != 0 && fast.minInterval < slow.minInterval
    ensures Run(INITIAL, First(fast)).lastId == 2
    ensures Run(INITIAL, First(fast) + Ticks(ID_LIMIT - 1)).lastId == 2
    ensures var t := Run(INITIAL, WrapRun(fast, slow));
            && t.sessions == map[SessionKey(1, 2) := slow]
            && t.engine == Fixing(fast.minInterval) && !Shares(t)
  {
    hide Run, Ticks;
    var init := First(fast) + Ticks(ID_LIMIT - 1);
    FirstSession(fast);
    TicksKeep(First(fast), ID_LIMIT - 1);
    IdAfter(init);
    SecondSession(Run(INITIAL, init), fast, slow);
    RunLast(init, Start(SessionKey(1, 2), slow, true, true));
  }

  lemma RunLast(init: seq<Message>, last: Message)
    ensures Run(INITIAL, init + [last]) == Step(Run(INITIAL, init), last)
  {
    assert (init + [last])[..|init|] == init;
  }

  lemma FirstSession(options: LocationOptions)
    requires options.size != 0
    ensures var t := Run(INITIAL, First(options));
            && t.sessions == map[SessionKey(1, 2) := options] && t.lastId == 2
            && t.engine == Fixing(options.minInterval) && Generated(First(options)) == 1
  {
    assert First(options)[..1] == [GenerateId] && [GenerateId][..0] == [];
  }

  lemma SecondSession(t: Tracker, fast: LocationOptions, slow: LocationOptions)
    requires t.sessions == map[SessionKey(1, 2) := fast] && t.engine == Fixing(fast.minInterval)
    requires slow.size != 0 && fast.minInterval < slow.minInterval
    ensures var t' := Step(t, Start(SessionKey(1, 2), slow, true, true));
            && t'.sessions == map[SessionKey(1, 2) := slow]
            && t'.engine == Fixing(fast.minInterval) && !Shares(t')
  {
    assert t.sessions[SessionKey(1, 2)].minInterval == fast.minInterval;
    MinUnique(t.sessions, fast.minInterval);
    var sessions := map[SessionKey(1, 2) := slow];
    assert sessions[SessionKey(1, 2)].minInterval == slow.minInterval;
    MinUnique(sessions, slow.minInterval);
  }

  // ---------------------------------------------------------------- which sessions there are

  /** The sessions clients have asked for and not given up, from the messages alone. */
  function Wanted(messages: seq<Message>): Sessions {
    if messages == [] then map[]
    else
      var had, last := Wanted(messages[..|messages| - 1]), messages[|messages| - 1];
      match last
      case Start(key, options, hasCallback, _) =>
        if hasCallback && options.size != 0 then had[key := options] else had
      case Update(key, options, _) =>
        if key in had && options.size != 0 then had[key := options] else had
      case Stop(key, _) => had - {key}
      case _ => had
  }

  predicate Obeyed(message: Message) {
    match message
    case Start(_, _, _, ok) => ok
    case Update(_, _, ok) => ok
    case Stop(_, ok) => ok
    case _ => true
  }

  ghost predicate AllObeyed(messages: seq<Message>) {
    forall m :: m in messages ==> Obeyed(m)
  }

  /** While the engine does as it is told, the sessions are exactly those wanted: only the
      engine can refuse a request that is well formed. */
  lemma {:induction false} SessionsAreWanted(messages: seq<Message>)
    requires AllObeyed(messages)
    ensures Run(INITIAL, messages).sessions == Wanted(messages)
  {
    if messages != [] {
      var init, last := messages[..|messages| - 1], messages[|messages| - 1];
      assert last in messages && forall m :: m in init ==> m in messages;
      SessionsAreWanted(init);
      if last.Stop? && last.key !in Wanted(init) {
        assert Wanted(init) - {last.key} == Wanted(init);
      }
    }
  }

  // ---------------------------------------------------------------- what is refused

  ghost predicate HasFaster(sessions: Sessions, interval: nat) {
    exists key :: key in sessions && sessions[key].minInterval <= interval
  }

  lemma FasterIff(sessions: Sessions, interval: nat)
    ensures HasFaster(sessions, interval) <==>
              sessions != map[] && MinInterval(sessions) <= interval
  {
  }

  /** A well formed start is saved unless it needed the engine and that refused: it needs it
      exactly if no session is as fast. */
  lemma StartSavedIff(t: Tracker, key: SessionKey, options: LocationOptions, hasCallback: bool,
                      ok: bool)
    ensures var t' := Started(t, key, options, hasCallback, ok);
            t'.sessions ==
              if hasCallback && options.size != 0 &&
                 (ok || HasFaster(t.sessions, options.minInterval))
              then t.sessions[key := options] else t.sessions
  {
    FasterIff(t.sessions, options.minInterval);
  }

  /** An update needs it exactly if no other session is as fast as the new options, or none as
      the old ones. */
  lemma UpdateSavedIff(t: Tracker, key: SessionKey, options: LocationOptions, ok: bool)
    requires key in t.sessions && options.size != 0
    ensures var t', others := Updated(t, key, options, ok), t.sessions - {key};
            t'.sessions ==
              if ok || (HasFaster(others, options.minInterval) &&
                        HasFaster(others, t.sessions[key].minInterval))
              then t.sessions[key := options] else t.sessions
  {
    FasterIff(t.sessions - {key}, options.minInterval);
    FasterIff(t.sessions - {key}, t.sessions[key].minInterval);
  }

  /** A stop needs it exactly if no other session is as fast. */
  lemma StopErasedIff(t: Tracker, key: SessionKey, ok: bool)
    requires key in t.sessions
    ensures var t', others := Stopped(t, key, ok), t.sessions - {key};
            t'.sessions ==
              if ok || HasFaster(others, t.sessions[key].minInterval)
              then others else t.sessions
  {
    FasterIff(t.sessions - {key}, t.sessions[key].minInterval);
  }
}
