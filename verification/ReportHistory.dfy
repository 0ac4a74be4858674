/** The bounded history of reported items, against the full log it is the end of, and the mask
    of connected network types that the network reports build up. */
module ReportHistory {

  const MAX_ITEM: nat := 5

  /** An item with its content and the time it was last reported. */
  datatype Entry<T> = Entry(content: T, utcTime: int, utcReported: int)

  datatype Event<T> = Default(item: Entry<T>) | Report(item: Entry<T>)

  /** How a new item takes account of the latest one, and when the two count as equal. */
  datatype Kind<!T> = Kind(collate: (T, T) -> T, equals: (T, T) -> bool)

  function Last<T>(s: seq<T>): T
    requires s != []
  {
    s[|s| - 1]
  }

  function Collated<T>(kind: Kind<T>, report: seq<Entry<T>>, item: Entry<T>): Entry<T> {
    if report == [] then item
    else item.(content := kind.collate(item.content, Last(report).content))
  }

  predicate Unchanged<T>(kind: Kind<T>, report: seq<Entry<T>>, item: Entry<T>) {
    report != [] &&
    kind.equals(Last(report).content, kind.collate(item.content, Last(report).content))
  }

  function Trim<T>(report: seq<Entry<T>>): seq<Entry<T>> {
    if |report| > MAX_ITEM then report[1..] else report
  }

  function Touch<T>(report: seq<Entry<T>>, utcReported: int): seq<Entry<T>>
    requires report != []
  {
    report[|report| - 1 := Last(report).(utcReported := utcReported)]
  }

  /** The report vector after the events. */
  function Reports<T>(kind: Kind<T>, events: seq<Event<T>>): seq<Entry<T>> {
    if events == [] then []
    else
      var report := Reports(kind, events[..|events| - 1]);
      match Last(events)
      case Default(s) => Trim(report + [s])
      case Report(s) =>
        if Unchanged(kind, report, s) then Touch(report, s.utcReported)
        else Trim(report + [Collated(kind, report, s)])
  }

  /** The same without a bound. */
  function Log<T>(kind: Kind<T>, events: seq<Event<T>>): seq<Entry<T>> {
    if events == [] then []
    else
      var log := Log(kind, events[..|events| - 1]);
      match Last(events)
      case Default(s) => log + [s]
      case Report(s) =>
        if Unchanged(kind, log, s) then Touch(log, s.utcReported)
        else log + [Collated(kind, log, s)]
  }

  function Suffix<T>(s: seq<T>, n: nat): seq<T> {
    if |s| <= n then s else s[|s| - n..]
  }

  /** The report vector is always the last five entries of the full log, or all of it. */
  lemma {:induction false} ReportsAreLatest<T>(kind: Kind<T>, events: seq<Event<T>>)
    ensures Reports(kind, events) == Suffix(Log(kind, events), 5)
    ensures |Reports(kind, events)| <= 5
  {
    if events != [] {
      ReportsAreLatest(kind, events[..|events| - 1]);
    }
  }

  /** Without defaults, no two neighbours in the history are equal, so what is kept are the
      last five changes. */
  lemma {:induction false} NeighboursDiffer<T>(kind: Kind<T>, events: seq<Event<T>>, i: nat)
    requires forall event :: event in events ==> event.Report?
    requires i + 1 < |Reports(kind, events)|
    ensures var report := Reports(kind, events);
            !kind.equals(report[i].content, report[i + 1].content)
  {
    var init := events[..|events| - 1];
    var before := Reports(kind, init);
    assert Last(events) in events;
    assert forall event :: event in init ==> event in events;
    var s := Last(events).item;
    if Unchanged(kind, before, s) {
      NeighboursDiffer(kind, init, i);
    } else {
      var all := before + [Collated(kind, before, s)];
      var k := if |all| > MAX_ITEM then i + 1 else i;
      if k + 1 < |before| {
        NeighboursDiffer(kind, init, k);
      }
    }
  }

  /** The last entry was reported when the last event was. */
  lemma LastIsReportedNow<T>(kind: Kind<T>, events: seq<Event<T>>)
    requires events != []
    ensures Reports(kind, events) != []
    ensures Last(Reports(kind, events)).utcReported == Last(events).item.utcReported
  {
  }

  /** A report that changes nothing alters the time the last entry was reported at, and no
      other field and no other entry. */
  lemma UnchangedTouchesTime<T>(kind: Kind<T>, events: seq<Event<T>>, s: Entry<T>)
    requires var before := Reports(kind, events);
             before != [] &&
             kind.equals(Last(before).content, kind.collate(s.content, Last(before).content))
    ensures var before, after := Reports(kind, events), Reports(kind, events + [Report(s)]);
            && |after| == |before|
            && (forall i :: 0 <= i < |before| - 1 ==> after[i] == before[i])
            && Last(after).content == Last(before).content
            && Last(after).utcTime == Last(before).utcTime
            && Last(after).utcReported == s.utcReported
  {
    assert (events + [Report(s)])[..|events|] == events;
  }

  /** Any other report is the last entry afterwards, as collated with the one before, and the
      oldest of more than five goes. */
  lemma ChangedIsAppended<T>(kind: Kind<T>, events: seq<Event<T>>, s: Entry<T>)
    requires var before := Reports(kind, events);
             before == [] ||
             !kind.equals(Last(before).content, kind.collate(s.content, Last(before).content))
    ensures var before, after := Reports(kind, events), Reports(kind, events + [Report(s)]);
            && after != []
            && after[..|after| - 1] == (if |before| == 5 then before[1..] else before)
            && Last(after).utcTime == s.utcTime && Last(after).utcReported == s.utcReported
            && Last(after).content ==
                 if before == [] then s.content else kind.collate(s.content, Last(before).content)
  {
    assert (events + [Report(s)])[..|events|] == events;
    ReportsAreLatest(kind, events);
  }

  /** A default is the last entry afterwards, as it is. */
  lemma DefaultIsAppended<T>(kind: Kind<T>, events: seq<Event<T>>, s: Entry<T>)
    ensures var before, after := Reports(kind, events), Reports(kind, events + [Default(s)]);
            && after != [] && Last(after) == s
            && after[..|after| - 1] == if |before| == 5 then before[1..] else before
  {
    assert (events + [Default(s)])[..|events|] == events;
    ReportsAreLatest(kind, events);
  }

  // ---------------------------------------------------------------- network types

  /** A 64-bit mask, as the positions of its bits: `|` is union and `& ~` is difference. */
  type Mask = set<nat>

  datatype NetworkInfo = NetworkInfo(allTypes: Mask, connected: bool, kind: int, roaming: bool)

  function Collate(info: NetworkInfo, current: NetworkInfo): NetworkInfo {
    if info.connected then info.(allTypes := info.allTypes + current.allTypes)
    else if info.allTypes != {} then info.(allTypes := current.allTypes - info.allTypes)
    else info
  }

  function SameTypes(a: NetworkInfo, b: NetworkInfo): bool {
    a.allTypes == b.allTypes
  }

  const NETWORK: Kind<NetworkInfo> := Kind(Collate, SameTypes)

  /** The first report is taken as it is; afterwards only a connection adds types. */
  predicate Sets(events: seq<Event<NetworkInfo>>, i: nat, bit: nat)
    requires i < |events|
  {
    var info := events[i].item.content;
    (info.connected || i == 0) && bit in info.allTypes
  }

  /** A disconnection takes its own types away, or all of them if it names none. */
  predicate Clears(events: seq<Event<NetworkInfo>>, i: nat, bit: nat)
    requires i < |events|
  {
    var info := events[i].item.content;
    i > 0 && !info.connected && (info.allTypes == {} || bit in info.allTypes)
  }

  /** Some report set the type, and none after it cleared it. */
  ghost predicate IsConnected(events: seq<Event<NetworkInfo>>, bit: nat) {
    exists i :: 0 <= i < |events| && Sets(events, i, bit) &&
                forall j :: i < j < |events| ==> !Clears(events, j, bit)
  }

  lemma ConnectedSnoc(events: seq<Event<NetworkInfo>>, bit: nat)
    requires events != []
    ensures IsConnected(events, bit) <==>
              || Sets(events, |events| - 1, bit)
              || (IsConnected(events[..|events| - 1], bit) && !Clears(events, |events| - 1, bit))
  {
    var init := events[..|events| - 1];
    assert forall i :: 0 <= i < |init| ==>
             Sets(init, i, bit) == Sets(events, i, bit) &&
             Clears(init, i, bit) == Clears(events, i, bit);
    if IsConnected(init, bit) && !Clears(events, |events| - 1, bit) {
      var i :| 0 <= i < |init| && Sets(init, i, bit) &&
               forall j :: i < j < |init| ==> !Clears(init, j, bit);
      assert Sets(events, i, bit);
    }
  }

  /** The latest mask tells for each type whether it is connected. */
  lemma {:induction false} LatestMask(events: seq<Event<NetworkInfo>>, bit: nat)
    requires events != [] && forall event :: event in events ==> event.Report?
    ensures Reports(NETWORK, events) != []
    ensures bit in Last(Reports(NETWORK, events)).content.allTypes <==> IsConnected(events, bit)
  {
    hide IsConnected;
    var init := events[..|events| - 1];
    ConnectedSnoc(events, bit);
    assert Last(events) in events;
    assert forall event :: event in init ==> event in events;
    if init == [] {
      assert Reports(NETWORK, init) == [];
      NothingConnected(bit);
    } else {
      LatestMask(init, bit);
      LatestStep(events);
    }
  }

  lemma NothingConnected(bit: nat)
    ensures !IsConnected([], bit)
  {
  }

  lemma LatestStep(events: seq<Event<NetworkInfo>>)
    requires events != [] && Last(events).Report?
    requires Reports(NETWORK, events[..|events| - 1]) != []
    ensures var before := Reports(NETWORK, events[..|events| - 1]);
            && Reports(NETWORK, events) != []
            && Last(Reports(NETWORK, events)).content.allTypes ==
                 Collate(Last(events).item.content, Last(before).content).allTypes
  {
  }
}

/** The history as the program keeps it, and the network report that is written back. */
module ReportProgram {
  import opened ReportHistory

  class History<!T> {
    const kind: Kind<T>
    var report: seq<Entry<T>>
    ghost var events: seq<Event<T>>

    ghost predicate Valid()
      reads this
    {
      report == Reports(kind, events)
    }

    constructor (kind: Kind<T>)
      ensures Valid() && events == [] && this.kind == kind
    {
      this.kind, report, events := kind, [], [];
    }

    /** Returns whether the item was new, and the item as collated. */
    method SetIteminReport(s: Entry<T>) returns (updated: bool, s': Entry<T>)
      requires Valid()
      modifies this
      ensures Valid() && events == old(events) + [Report(s)]
      ensures updated <==> !Unchanged(kind, old(report), s)
      ensures s' == Collated(kind, old(report), s)
      ensures report != [] && (updated ==> Last(report) == s')
    {
      events := events + [Report(s)];
      assert events[..|events| - 1] == old(events);
      s' := s;
      if |report| > 0 {
        s' := s.(content := kind.collate(s.content, report[|report| - 1].content));
        if kind.equals(report[|report| - 1].content, s'.content) {
          report := report[|report| - 1 := report[|report| - 1].(utcReported := s'.utcReported)];
          return false, s';
        }
      }
      report := report + [s'];
      if |report| > MAX_ITEM {
        report := report[1..];
      }
      updated := true;
    }

    method SetDefaultIteminReport(s: Entry<T>)
      requires Valid()
      modifies this
      ensures Valid() && events == old(events) + [Default(s)]
    {
      events := events + [Default(s)];
      assert events[..|events| - 1] == old(events);
      report := report + [s];
      if |report| > MAX_ITEM {
        report := report[1..];
      }
    }

    method GetIteminReport() returns (reportout: seq<Entry<T>>)
      requires Valid()
      ensures reportout == Suffix(Log(kind, events), 1)
    {
      ReportsAreLatest(kind, events);
      reportout := [];
      if |report| >= 1 {
        reportout := [report[|report| - 1]];
      }
    }
  }

  /** A network data item as it arrives; collating it changes its mask too. */
  class NetworkInfoDataItem {
    var info: NetworkInfo

    constructor (info: NetworkInfo)
      ensures this.info == info
    {
      this.info := info;
    }
  }

  /** Records a network report; the item's mask becomes the one of all connected types. */
  method EventDataItemNotify(history: History<NetworkInfo>, item: NetworkInfoDataItem, now: int)
    returns (updated: bool)
    requires history.Valid() && history.kind == NETWORK
    modifies history, item
    ensures history.Valid()
    ensures history.events == old(history.events) + [Report(Entry(old(item.info), now, now))]
    ensures updated <==>
              old(history.report) == [] ||
              Last(old(history.report)).content.allTypes != item.info.allTypes
    ensures item.info == old(item.info).(allTypes := item.info.allTypes)
    ensures item.info.allTypes == Last(history.report).content.allTypes
  {
    var s := Entry(item.info, now, now);
    var s';
    updated, s' := history.SetIteminReport(s);
    item.info := item.info.(allTypes := s'.content.allTypes);
  }
}
