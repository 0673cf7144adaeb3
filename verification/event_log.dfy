/** Views of the event log: what each listener heard, which statuses were
    written to the repository, how many sensor updates were issued, and the
    well-formedness rule that every alarm write is announced at once. */
module EventLog {
  import opened CatpointData

  /** A notification as one listener receives it. */
  datatype Notice = AlarmChanged(status: AlarmStatus) | SensorsChanged | CatChanged(cat: bool)

  /** What one event tells listener `l`, if anything. */
  function NoticeOf(e: Event, l: ListenerId): seq<Notice>
  {
    match e
    case AlarmNotified(to, s) => if l in to then [AlarmChanged(s)] else []
    case SensorsChangedNotified(to) => if l in to then [SensorsChanged] else []
    case CatNotified(to, c) => if l in to then [CatChanged(c)] else []
    case _ => []
  }

  /** Everything listener `l` was told, in order. */
  function Notices(events: seq<Event>, l: ListenerId): (r: seq<Notice>)
    ensures |r| <= |events|
  {
    if events == [] then [] else NoticeOf(events[0], l) + Notices(events[1..], l)
  }

  /** The alarm status one event writes to the repository, if any. */
  function AlarmWriteOf(e: Event): seq<AlarmStatus>
  {
    if e.AlarmWritten? then [e.alarm] else []
  }

  /** The alarm statuses written to the repository, in order. */
  function AlarmWrites(events: seq<Event>): (r: seq<AlarmStatus>)
    ensures |r| <= |events|
  {
    if events == [] then [] else AlarmWriteOf(events[0]) + AlarmWrites(events[1..])
  }

  /** The arming status one event writes to the repository, if any. */
  function ArmingWriteOf(e: Event): seq<ArmingStatus>
  {
    if e.ArmingWritten? then [e.arming] else []
  }

  /** The arming statuses written to the repository, in order. */
  function ArmingWrites(events: seq<Event>): (r: seq<ArmingStatus>)
    ensures |r| <= |events|
  {
    if events == [] then [] else ArmingWriteOf(events[0]) + ArmingWrites(events[1..])
  }

  /** Number of updateSensor calls one event stands for. */
  function UpdatesOf(e: Event): nat
  {
    match e
    case SensorWritten(_, _) => 1
    case SensorsDeactivated(ids) => |ids|
    case _ => 0
  }

  /** Number of updateSensor calls issued to the repository. */
  function UpdateCount(events: seq<Event>): nat
  {
    if events == [] then 0 else UpdatesOf(events[0]) + UpdateCount(events[1..])
  }

  /** One call into the repository, with its arguments. The arming loop's
      one updateSensor call per sensor is a single `ResetAll` over the ids it
      walks, because a hash set is walked in no fixed order. */
  datatype RepoCall =
    | Update(id: SensorId, active: bool)
    | ResetAll(ids: set<SensorId>)
    | Add(id: SensorId, active: bool)
    | Remove(id: SensorId)
    | StoreAlarm(alarm: AlarmStatus)
    | StoreArming(arming: ArmingStatus)

  /** The repository call one event stands for, if any. */
  function RepoCallOf(e: Event): seq<RepoCall>
  {
    match e
    case SensorWritten(id, active) => [Update(id, active)]
    case SensorsDeactivated(ids) => [ResetAll(ids)]
    case SensorAdded(id, active) => [Add(id, active)]
    case SensorRemoved(id) => [Remove(id)]
    case AlarmWritten(s) => [StoreAlarm(s)]
    case ArmingWritten(a) => [StoreArming(a)]
    case _ => []
  }

  /** Every call into the repository, in order. */
  function RepoCalls(events: seq<Event>): (r: seq<RepoCall>)
    ensures |r| <= |events|
  {
    if events == [] then [] else RepoCallOf(events[0]) + RepoCalls(events[1..])
  }

  /** Every alarm write is immediately followed by the announcement of that
      same status to the listeners. */
  predicate WritesAnnounced(events: seq<Event>)
  {
    forall i | 0 <= i < |events| && events[i].AlarmWritten? ::
      i + 1 < |events| && events[i + 1].AlarmNotified? && events[i + 1].alarm == events[i].alarm
  }

  lemma {:induction false} NoticesAppend(a: seq<Event>, b: seq<Event>, l: ListenerId)
    ensures Notices(a + b, l) == Notices(a, l) + Notices(b, l)
  {
    if a == [] {
      assert a + b == b;
    } else {
      assert (a + b)[1..] == a[1..] + b;
      NoticesAppend(a[1..], b, l);
    }
  }

  lemma {:induction false} AlarmWritesAppend(a: seq<Event>, b: seq<Event>)
    ensures AlarmWrites(a + b) == AlarmWrites(a) + AlarmWrites(b)
  {
    if a == [] {
      assert a + b == b;
    } else {
      assert (a + b)[1..] == a[1..] + b;
      AlarmWritesAppend(a[1..], b);
    }
  }

  lemma {:induction false} ArmingWritesAppend(a: seq<Event>, b: seq<Event>)
    ensures ArmingWrites(a + b) == ArmingWrites(a) + ArmingWrites(b)
  {
    if a == [] {
      assert a + b == b;
    } else {
      assert (a + b)[1..] == a[1..] + b;
      ArmingWritesAppend(a[1..], b);
    }
  }

  lemma {:induction false} UpdateCountAppend(a: seq<Event>, b: seq<Event>)
    ensures UpdateCount(a + b) == UpdateCount(a) + UpdateCount(b)
  {
    if a == [] {
      assert a + b == b;
    } else {
      assert (a + b)[1..] == a[1..] + b;
      UpdateCountAppend(a[1..], b);
    }
  }

  lemma {:induction false} RepoCallsAppend(a: seq<Event>, b: seq<Event>)
    ensures RepoCalls(a + b) == RepoCalls(a) + RepoCalls(b)
  {
    if a == [] {
      assert a + b == b;
    } else {
      assert (a + b)[1..] == a[1..] + b;
      RepoCallsAppend(a[1..], b);
    }
  }

  /** The views of a one-event log. */
  lemma SingleEventViews(e: Event)
    ensures forall l :: Notices([e], l) == NoticeOf(e, l)
    ensures AlarmWrites([e]) == AlarmWriteOf(e)
    ensures ArmingWrites([e]) == ArmingWriteOf(e)
    ensures UpdateCount([e]) == UpdatesOf(e)
    ensures RepoCalls([e]) == RepoCallOf(e)
    ensures WritesAnnounced([e]) <==> !e.AlarmWritten?
  {
    assert [e][1..] == [];
  }

  /** The views of the empty log. */
  lemma EmptyViews()
    ensures forall l :: Notices([], l) == []
    ensures AlarmWrites([]) == [] && ArmingWrites([]) == [] && UpdateCount([]) == 0
    ensures RepoCalls([]) == []
    ensures WritesAnnounced([])
  {
  }

  /** Gluing two announced logs yields an announced log. */
  lemma WritesAnnouncedAppend(a: seq<Event>, b: seq<Event>)
    requires WritesAnnounced(a) && WritesAnnounced(b)
    ensures WritesAnnounced(a + b)
  {
    var ab := a + b;
    forall i | 0 <= i < |ab| && ab[i].AlarmWritten?
      ensures i + 1 < |ab| && ab[i + 1].AlarmNotified? && ab[i + 1].alarm == ab[i].alarm
    {
      if i < |a| {
        assert ab[i] == a[i];
        assert ab[i + 1] == a[i + 1];
      } else {
        assert ab[i] == b[i - |a|];
        assert ab[i + 1] == b[i - |a| + 1];
      }
    }
  }

  /** The last element of a non-empty sequence of writes: the value the
      repository holds after them. */
  function Last<T>(s: seq<T>): T
    requires |s| > 0
  {
    s[|s| - 1]
  }
}
