/** Sequences of calls into the controller and the invariants they keep. */
module ServiceTraces {
  import opened CatpointData
  import opened EventLog
  import opened SecurityService
  import opened ServiceProperties

  /** One public call into the controller. `ProcessImage` carries the
      detector's answer for the image rather than the image. */
  datatype Op =
    | SetArming(arming: ArmingStatus)
    | ChangeSensor(sensor: Option<Sensor>, active: bool)
    | ProcessImage(cat: bool)
    | SetAlarm(alarm: AlarmStatus)
    | AddListener(l: ListenerId)
    | RemoveListener(l: ListenerId)
    | AddSensorOp(s: Sensor)
    | RemoveSensorOp(s: Sensor)

  /** One call: the state it leaves and what it wrote and told. Registering
      and unregistering a listener write and tell nothing. */
  function Apply(st: State, op: Op): (r: Step)
    ensures r.state.listeners == (match op
                                  case AddListener(l) => st.listeners + {l}
                                  case RemoveListener(l) => st.listeners - {l}
                                  case _ => st.listeners)
    ensures op.AddListener? || op.RemoveListener? ==> r.events == []
  {
    match op
    case SetArming(a) => SetArmingStatus(st, a)
    case ChangeSensor(s, active) => ChangeSensorActivationStatus(st, s, active)
    case ProcessImage(cat) => HandleCatDetected(st, cat)
    case SetAlarm(s) => SetAlarmStatus(st, s)
    case AddListener(l) => NoEffect(AddStatusListener(st, l))
    case RemoveListener(l) => NoEffect(RemoveStatusListener(st, l))
    case AddSensorOp(s) => AddSensor(st, s)
    case RemoveSensorOp(s) => RemoveSensor(st, s)
  }

  /** A sequence of calls: the state the last one leaves and all events in order. */
  function Run(st: State, ops: seq<Op>): (r: Step)
    decreases |ops|
  {
    if ops == [] then NoEffect(st)
    else
      var first := Apply(st, ops[0]);
      var rest := Run(first.state, ops[1..]);
      Step(rest.state, first.events + rest.events)
  }

  // ----- the repository agrees with the last write -----

  /** The repository's alarm and arming statuses are the last ones written in
      `history`, if any were, and every alarm write there is announced at once. */
  predicate Consistent(st: State, history: seq<Event>)
  {
    && (AlarmWrites(history) != [] ==> Last(AlarmWrites(history)) == st.alarm)
    && (ArmingWrites(history) != [] ==> Last(ArmingWrites(history)) == st.arming)
    && WritesAnnounced(history)
  }

  /** The writes of a step agree with the state it leaves: the alarm status
      it writes last is the one it leaves, a status it does not write is
      unchanged from `st`, likewise the arming status, and its alarm writes
      are announced. */
  predicate Settles(st: State, r: Step)
  {
    && (AlarmWrites(r.events) != [] ==> Last(AlarmWrites(r.events)) == r.state.alarm)
    && (AlarmWrites(r.events) == [] ==> r.state.alarm == st.alarm)
    && (ArmingWrites(r.events) != [] ==> Last(ArmingWrites(r.events)) == r.state.arming)
    && (ArmingWrites(r.events) == [] ==> r.state.arming == st.arming)
    && WritesAnnounced(r.events)
  }

  /** Every call settles. */
  lemma ApplySettles(st: State, op: Op)
    ensures Settles(st, Apply(st, op))
  {
    match op {
      case SetArming(a) =>
        SetArmingSettles(st, a);
      case ChangeSensor(s, active) =>
        ChangeSensorSettles(st, s, active);
      case ProcessImage(cat) =>
        CatDetectedSettles(st, cat);
      case SetAlarm(s) =>
      case AddListener(l) =>
        EmptyViews();
      case RemoveListener(l) =>
        EmptyViews();
      case AddSensorOp(s) =>
        SingleEventViews(SensorAdded(s.id, s.active));
      case RemoveSensorOp(s) =>
        SingleEventViews(SensorRemoved(s.id));
    }
  }

  lemma SetArmingSettles(st: State, a: ArmingStatus)
    ensures Settles(st, SetArmingStatus(st, a))
  {
    SetArmingStatusWrites(st, a);
    SetArmingStatusAnnounced(st, a);
  }

  lemma ChangeSensorSettles(st: State, s: Option<Sensor>, active: bool)
    ensures Settles(st, ChangeSensorActivationStatus(st, s, active))
  {
    ChangeSensorWrites(st, s, active);
  }

  lemma CatDetectedSettles(st: State, cat: bool)
    ensures Settles(st, HandleCatDetected(st, cat))
  {
    CatDetectedWrites(st, cat);
  }

  /** Two steps that settle, one after the other, settle together. */
  lemma SettlesCompose(st: State, first: Step, rest: Step)
    requires Settles(st, first) && Settles(first.state, rest)
    ensures Settles(st, Step(rest.state, first.events + rest.events))
  {
    AlarmWritesAppend(first.events, rest.events);
    ArmingWritesAppend(first.events, rest.events);
    WritesAnnouncedAppend(first.events, rest.events);
  }

  /** A settling step keeps the repository consistent with the history. */
  lemma SettlesKeepsConsistent(st: State, history: seq<Event>, r: Step)
    requires Consistent(st, history) && Settles(st, r)
    ensures Consistent(r.state, history + r.events)
  {
    AlarmWritesAppend(history, r.events);
    ArmingWritesAppend(history, r.events);
    WritesAnnouncedAppend(history, r.events);
  }

  lemma {:induction false} RunSettles(st: State, ops: seq<Op>)
    ensures Settles(st, Run(st, ops))
    decreases |ops|
  {
    if ops == [] {
      EmptyViews();
    } else {
      var first := Apply(st, ops[0]);
      ApplySettles(st, ops[0]);
      RunSettles(first.state, ops[1..]);
      SettlesCompose(st, first, Run(first.state, ops[1..]));
    }
  }

  /** Whatever sequence of calls runs, the repository afterwards holds the
      last statuses written, and every alarm write was announced at once. */
  lemma RunPreservesConsistent(st: State, history: seq<Event>, ops: seq<Op>)
    requires Consistent(st, history)
    ensures var r := Run(st, ops);
            Consistent(r.state, history + r.events)
  {
    RunSettles(st, ops);
    SettlesKeepsConsistent(st, history, Run(st, ops));
  }

  // ----- disarmed means no alarm -----

  /** While disarmed, the alarm status is no alarm. */
  predicate QuietWhenDisarmed(st: State)
  {
    st.arming == Disarmed ==> st.alarm == NoAlarm
  }

  /** Every call except a direct setAlarmStatus keeps a disarmed system quiet. */
  lemma ApplyKeepsQuiet(st: State, op: Op)
    requires QuietWhenDisarmed(st) && !op.SetAlarm?
    ensures QuietWhenDisarmed(Apply(st, op).state)
  {
  }

  lemma {:induction false} RunKeepsQuiet(st: State, ops: seq<Op>)
    requires QuietWhenDisarmed(st)
    requires forall i :: 0 <= i < |ops| ==> !ops[i].SetAlarm?
    ensures QuietWhenDisarmed(Run(st, ops).state)
    decreases |ops|
  {
    if ops != [] {
      ApplyKeepsQuiet(st, ops[0]);
      RunKeepsQuiet(Apply(st, ops[0]).state, ops[1..]);
    }
  }

  // ----- the latch over many sensor changes -----

  /** Sensor traffic: activation changes and sensor membership changes. */
  predicate IsSensorTraffic(op: Op)
  {
    op.ChangeSensor? || op.AddSensorOp? || op.RemoveSensorOp?
  }

  /** One step of sensor traffic under the latch. */
  lemma ApplyLatch(st: State, op: Op)
    requires st.alarm == Alarm && IsSensorTraffic(op)
    ensures var r := Apply(st, op);
            r.state.alarm == Alarm && AlarmWrites(r.events) == []
  {
    match op {
      case ChangeSensor(s, active) =>
        LatchWritesNoAlarm(st, s, active);
      case AddSensorOp(s) =>
        SingleEventViews(SensorAdded(s.id, s.active));
      case RemoveSensorOp(s) =>
        SingleEventViews(SensorRemoved(s.id));
    }
  }

  /** Once the alarm is raised, no amount of sensor traffic lowers it or
      writes any alarm status. */
  lemma {:induction false} LatchUnderSensorTraffic(st: State, ops: seq<Op>)
    requires st.alarm == Alarm
    requires forall i :: 0 <= i < |ops| ==> IsSensorTraffic(ops[i])
    ensures var r := Run(st, ops);
            r.state.alarm == Alarm && AlarmWrites(r.events) == []
    decreases |ops|
  {
    if ops == [] {
      EmptyViews();
    } else {
      var first := Apply(st, ops[0]);
      ApplyLatch(st, ops[0]);
      LatchUnderSensorTraffic(first.state, ops[1..]);
      AlarmWritesAppend(first.events, Run(first.state, ops[1..]).events);
    }
  }

  // ----- listeners hear only while registered -----

  /** One call tells nothing to a listener that was not registered when it
      began, and leaves it unregistered unless the call registers it. */
  lemma ApplyTellsOnlyRegistered(st: State, op: Op, l: ListenerId)
    requires l !in st.listeners
    ensures Notices(Apply(st, op).events, l) == []
    ensures op != AddListener(l) ==> l !in Apply(st, op).state.listeners
  {
    match op {
      case SetArming(a) =>
        SetArmingStatusNotices(st, a, l);
      case ChangeSensor(s, active) =>
        ChangeSensorNotices(st, s, active, l);
      case ProcessImage(cat) =>
        CatDetectedNotices(st, cat, l);
      case SetAlarm(s) =>
      case AddListener(k) =>
        EmptyViews();
      case RemoveListener(k) =>
        EmptyViews();
      case AddSensorOp(s) =>
        SingleEventViews(SensorAdded(s.id, s.active));
      case RemoveSensorOp(s) =>
        SingleEventViews(SensorRemoved(s.id));
    }
  }

  /** A listener that is not registered, and that no call registers, is told nothing. */
  lemma {:induction false} UnregisteredHearsNothing(st: State, ops: seq<Op>, l: ListenerId)
    requires l !in st.listeners
    requires forall i :: 0 <= i < |ops| ==> ops[i] != AddListener(l)
    ensures Notices(Run(st, ops).events, l) == []
    decreases |ops|
  {
    if ops == [] {
      EmptyViews();
    } else {
      var first := Apply(st, ops[0]);
      ApplyTellsOnlyRegistered(st, ops[0], l);
      UnregisteredHearsNothing(first.state, ops[1..], l);
      NoticesAppend(first.events, Run(first.state, ops[1..]).events, l);
    }
  }
}
