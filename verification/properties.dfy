/** What each entry point writes to the repository and whom it tells, read
    off the events of its Step, plus the rules that relate several calls. */
module ServiceProperties {
  import opened CatpointData
  import opened EventLog
  import opened SecurityService

  // ----- setAlarmStatus and the listener registry -----

  /** A listener removed beforehand hears nothing of a later status change,
      while every listener still registered hears it, even with an unchanged status. */
  lemma RemovedListenerHearsNothing(st: State, l: ListenerId, status: AlarmStatus)
    ensures var r := SetAlarmStatus(RemoveStatusListener(st, l), status);
            && Notices(r.events, l) == []
            && (forall k :: k in st.listeners && k != l ==> Notices(r.events, k) == [AlarmChanged(status)])
  {
  }

  /** Registration is an idempotent set operation. */
  lemma RegistryIdempotent(st: State, l: ListenerId)
    ensures AddStatusListener(AddStatusListener(st, l), l) == AddStatusListener(st, l)
    ensures RemoveStatusListener(RemoveStatusListener(st, l), l) == RemoveStatusListener(st, l)
    ensures RemoveStatusListener(AddStatusListener(st, l), l) == RemoveStatusListener(st, l)
    ensures l in st.listeners ==> AddStatusListener(st, l) == st
    ensures l !in st.listeners ==> RemoveStatusListener(st, l) == st
  {
  }

  /** The writes of a step that either does nothing or is one setAlarmStatus
      call: at most one alarm write, of the status it leaves, announced at
      once, and nothing else. */
  lemma AlarmStepWrites(st: State, r: Step)
    requires r == NoEffect(st) || r == SetAlarmStatus(st, r.state.alarm)
    ensures r.events == [] <==> r == NoEffect(st)
    ensures r.state.listeners == st.listeners
    ensures UpdateCount(r.events) == 0 && ArmingWrites(r.events) == []
    ensures AlarmWrites(r.events) == (if r.events == [] then [] else [r.state.alarm])
    ensures RepoCalls(r.events) == (if r.events == [] then [] else [StoreAlarm(r.state.alarm)])
    ensures WritesAnnounced(r.events)
  {
    if r == NoEffect(st) {
      EmptyViews();
    }
  }

  /** Whom a step that does nothing or is one setAlarmStatus call tells:
      exactly the registered listeners, of the status it leaves. */
  lemma AlarmStepNotices(st: State, r: Step, l: ListenerId)
    requires r == NoEffect(st) || r == SetAlarmStatus(st, r.state.alarm)
    ensures Notices(r.events, l) ==
            (if l in st.listeners && r.events != [] then [AlarmChanged(r.state.alarm)] else [])
  {
  }

  /** The writes of an alarm step followed by one event that writes neither status. */
  lemma AlarmStepThen(st: State, r: Step, e: Event)
    requires r == NoEffect(st) || r == SetAlarmStatus(st, r.state.alarm)
    requires !e.AlarmWritten? && !e.ArmingWritten?
    ensures var d := r.events + [e];
            && UpdateCount(d) == UpdatesOf(e)
            && ArmingWrites(d) == []
            && AlarmWrites(d) == (if r.events == [] then [] else [r.state.alarm])
            && RepoCalls(d) == (if r.events == [] then [] else [StoreAlarm(r.state.alarm)]) + RepoCallOf(e)
            && WritesAnnounced(d)
  {
    SingleEventViews(e);
    if r == NoEffect(st) {
      assert r.events + [e] == [e];
    } else {
      SetAlarmThen(st, r.state.alarm, e);
    }
  }

  /** The writes of one setAlarmStatus call followed by one event that
      writes neither status. */
  lemma SetAlarmThen(st: State, status: AlarmStatus, e: Event)
    requires !e.AlarmWritten? && !e.ArmingWritten?
    ensures var d := SetAlarmStatus(st, status).events + [e];
            && UpdateCount(d) == UpdatesOf(e)
            && ArmingWrites(d) == []
            && AlarmWrites(d) == [status]
            && RepoCalls(d) == [StoreAlarm(status)] + RepoCallOf(e)
            && WritesAnnounced(d)
  {
    var d := SetAlarmStatus(st, status).events + [e];
    assert d == [AlarmWritten(status), AlarmNotified(st.listeners, status), e];
    assert d[1..][1..] == [e];
    SingleEventViews(e);
    RepoCallsAppend(SetAlarmStatus(st, status).events, [e]);
  }

  /** The writes of one event that writes neither status followed by an alarm step. */
  lemma EventThenAlarmStep(st: State, e: Event, r: Step)
    requires r == NoEffect(st) || r == SetAlarmStatus(st, r.state.alarm)
    requires !e.AlarmWritten? && !e.ArmingWritten?
    ensures var d := [e] + r.events;
            && UpdateCount(d) == UpdatesOf(e)
            && ArmingWrites(d) == []
            && AlarmWrites(d) == (if r.events == [] then [] else [r.state.alarm])
            && RepoCalls(d) == RepoCallOf(e) + (if r.events == [] then [] else [StoreAlarm(r.state.alarm)])
            && WritesAnnounced(d)
  {
    SingleEventViews(e);
    AlarmStepWrites(st, r);
    RepoCallsAppend([e], r.events);
    AlarmWritesAppend([e], r.events);
    ArmingWritesAppend([e], r.events);
    UpdateCountAppend([e], r.events);
    WritesAnnouncedAppend([e], r.events);
  }

  // ----- changeSensorActivationStatus -----

  /** An absent sensor leaves no trace. A present one is written exactly once,
      under its own key with the new flag, and then at most one alarm status
      is written: the final one, announced at once. An alarm status is
      written exactly when it changes, and the repository sees nothing else. */
  lemma ChangeSensorWrites(st: State, sensor: Option<Sensor>, active: bool)
    ensures var r := ChangeSensorActivationStatus(st, sensor, active);
            var d := r.events;
            && (sensor.None? ==> d == [])
            && (sensor.Some? ==> UpdateCount(d) == 1)
            && (sensor.Some? ==>
                  RepoCalls(d) == [Update(sensor.value.id, active)]
                                  + (if r.state.alarm == st.alarm then [] else [StoreAlarm(r.state.alarm)]))
            && ArmingWrites(d) == []
            && |AlarmWrites(d)| <= 1
            && (AlarmWrites(d) != [] ==> AlarmWrites(d) == [r.state.alarm])
            && (AlarmWrites(d) == [] <==> r.state.alarm == st.alarm)
            && WritesAnnounced(d)
  {
    match sensor {
      case None =>
        EmptyViews();
      case Some(s) =>
        var update := UpdateSensor(st, s.id, active);
        var rule := SensorRule(update.state, st.alarm, s.active, active);
        assert ChangeSensorActivationStatus(st, sensor, active) == Step(rule.state, update.events + rule.events);
        EventThenAlarmStep(update.state, SensorWritten(s.id, active), rule);
        AlarmStepWrites(update.state, rule);
    }
  }

  /** A sensor change tells a listener the new alarm status exactly when the
      listener is registered and an alarm status was written, and tells it
      nothing else. */
  lemma ChangeSensorNotices(st: State, sensor: Option<Sensor>, active: bool, l: ListenerId)
    ensures var r := ChangeSensorActivationStatus(st, sensor, active);
            Notices(r.events, l) ==
              (if l in st.listeners && AlarmWrites(r.events) != [] then [AlarmChanged(r.state.alarm)] else [])
  {
    match sensor {
      case None =>
        EmptyViews();
      case Some(s) =>
        var update := UpdateSensor(st, s.id, active);
        var rule := SensorRule(update.state, st.alarm, s.active, active);
        var e := SensorWritten(s.id, active);
        assert ChangeSensorActivationStatus(st, sensor, active) == Step(rule.state, [e] + rule.events);
        EventThenAlarmStep(update.state, e, rule);
        AlarmStepNotices(update.state, rule, l);
        assert Notices([e], l) == [];
        NoticesAppend([e], rule.events, l);
    }
  }

  /** The latch writes no alarm status at all, whatever the sensor does. */
  lemma LatchWritesNoAlarm(st: State, sensor: Option<Sensor>, active: bool)
    requires st.alarm == Alarm
    ensures var r := ChangeSensorActivationStatus(st, sensor, active);
            AlarmWrites(r.events) == [] && r.state.alarm == Alarm
  {
    ChangeSensorWrites(st, sensor, active);
    if sensor.Some? {
      assert SensorRule(UpdateSensor(st, sensor.value.id, active).state, st.alarm, sensor.value.active, active).events == [];
    }
  }

  /** Calls that never reach setAlarmStatus: deactivating a sensor that was
      already inactive, and activating one while disarmed. */
  lemma QuietSensorChanges(st: State, s: Sensor, active: bool)
    requires (!active && !s.active) || (active && st.arming == Disarmed)
    ensures var r := ChangeSensorActivationStatus(st, Some(s), active);
            AlarmWrites(r.events) == [] && r.state.alarm == st.alarm
  {
    ChangeSensorWrites(st, Some(s), active);
    assert SensorRule(UpdateSensor(st, s.id, active).state, st.alarm, s.active, active).events == [];
  }

  /** Activation never lowers the alarm status and deactivation never raises it. */
  lemma ChangeSensorMonotone(st: State, sensor: Option<Sensor>, active: bool)
    ensures var r := ChangeSensorActivationStatus(st, sensor, active);
            && (active ==> Rank(r.state.alarm) >= Rank(st.alarm))
            && (!active ==> Rank(r.state.alarm) <= Rank(st.alarm))
  {
  }

  /** Activating any sensor twice from no alarm, while armed, raises the
      alarm; the second activation may be the same sensor again. */
  lemma TwoActivationsRaiseAlarm(st: State, s1: Sensor, s2: Sensor)
    requires IsArmed(st.arming) && st.alarm == NoAlarm
    ensures var st1 := ChangeSensorActivationStatus(st, Some(s1), true).state;
            var st2 := ChangeSensorActivationStatus(st1, Some(s2), true).state;
            st1.alarm == PendingAlarm && st2.alarm == Alarm
  {
  }

  /** Deactivating the last active sensor clears a pending alarm; deactivating
      one of several active sensors does not. */
  lemma LastSensorOffClearsPending(st: State, s: Sensor, other: SensorId)
    requires st.alarm == PendingAlarm && s.active && s.id in st.sensors
    ensures NoOtherActive(st.sensors, s.id) ==>
              ChangeSensorActivationStatus(st, Some(s), false).state.alarm == NoAlarm
    ensures other in st.sensors && other != s.id && st.sensors[other] ==>
              ChangeSensorActivationStatus(st, Some(s), false).state.alarm == PendingAlarm
  {
  }

  // ----- setArmingStatus -----

  /** Arming writes every sensor in the repository once and the arming
      status once; an alarm status is written only on disarm (always no
      alarm, even with a cat remembered, and before the arming status) or on
      arming with a cat remembered (always alarm, after the arming status). */
  lemma SetArmingStatusWrites(st: State, a: ArmingStatus)
    ensures var d := SetArmingStatus(st, a).events;
            && ArmingWrites(d) == [a]
            && AlarmWrites(d) == (if a == Disarmed then [NoAlarm] else if st.catDetected then [Alarm] else [])
            && UpdateCount(d) == (if a == Disarmed then 0 else |st.sensors|)
            && RepoCalls(d) == (if a == Disarmed then [StoreAlarm(NoAlarm)] else [ResetAll(st.sensors.Keys)])
                               + [StoreArming(a)]
                               + (if IsArmed(a) && st.catDetected then [StoreAlarm(Alarm)] else [])
  {
    SetArmingStatusAlarmWrites(st, a);
    SetArmingStatusOtherWrites(st, a);
    SetArmingStatusCalls(st, a);
  }

  /** The alarm statuses setArmingStatus writes. */
  lemma SetArmingStatusAlarmWrites(st: State, a: ArmingStatus)
    ensures AlarmWrites(SetArmingStatus(st, a).events) ==
              (if a == Disarmed then [NoAlarm] else if st.catDetected then [Alarm] else [])
  {
    var prefix := ArmingPrefix(st, a);
    ArmingPrefixWrites(st, a);
    ArmingSuffixWrites(prefix.state, a);
    AlarmWritesAppend(prefix.events, ArmingSuffix(prefix.state, a).events);
  }

  /** The arming statuses and sensor updates setArmingStatus writes. */
  lemma SetArmingStatusOtherWrites(st: State, a: ArmingStatus)
    ensures ArmingWrites(SetArmingStatus(st, a).events) == [a]
    ensures UpdateCount(SetArmingStatus(st, a).events) == (if a == Disarmed then 0 else |st.sensors|)
  {
    var prefix := ArmingPrefix(st, a);
    ArmingPrefixWrites(st, a);
    ArmingSuffixWrites(prefix.state, a);
    ArmingWritesAppend(prefix.events, ArmingSuffix(prefix.state, a).events);
    UpdateCountAppend(prefix.events, ArmingSuffix(prefix.state, a).events);
  }

  /** The repository calls of setArmingStatus, in order. */
  lemma SetArmingStatusCalls(st: State, a: ArmingStatus)
    ensures RepoCalls(SetArmingStatus(st, a).events) ==
              (if a == Disarmed then [StoreAlarm(NoAlarm)] else [ResetAll(st.sensors.Keys)])
              + [StoreArming(a)]
              + (if IsArmed(a) && st.catDetected then [StoreAlarm(Alarm)] else [])
  {
    var prefix := ArmingPrefix(st, a);
    ArmingPrefixWrites(st, a);
    ArmingSuffixWrites(prefix.state, a);
    RepoCallsAppend(prefix.events, ArmingSuffix(prefix.state, a).events);
  }

  /** The alarm write of setArmingStatus, if any, is announced at once. */
  lemma SetArmingStatusAnnounced(st: State, a: ArmingStatus)
    ensures WritesAnnounced(SetArmingStatus(st, a).events)
  {
    ArmingPrefixWrites(st, a);
    ArmingSuffixWrites(ArmingPrefix(st, a).state, a);
    WritesAnnouncedAppend(ArmingPrefix(st, a).events, ArmingSuffix(ArmingPrefix(st, a).state, a).events);
  }

  /** Every registered listener is told of the alarm write of setArmingStatus,
      if any, and then that the sensors changed; no one else is told anything. */
  lemma SetArmingStatusNotices(st: State, a: ArmingStatus, l: ListenerId)
    ensures var n := Notices(SetArmingStatus(st, a).events, l);
            && (l !in st.listeners ==> n == [])
            && (l in st.listeners && a == Disarmed ==> n == [AlarmChanged(NoAlarm), SensorsChanged])
            && (l in st.listeners && IsArmed(a) && st.catDetected ==> n == [AlarmChanged(Alarm), SensorsChanged])
            && (l in st.listeners && IsArmed(a) && !st.catDetected ==> n == [SensorsChanged])
  {
    var stored := ArmingPrefix(st, a).state;
    ArmingPrefixWrites(st, a);
    ArmingPrefixNotices(st, a, l);
    ArmingSuffixNotices(stored, a, l);
    NoticesAppend(ArmingPrefix(st, a).events, ArmingSuffix(stored, a).events, l);
  }

  /** The first half of setArmingStatus, the disarm or reset step and the
      arming write: what it writes. */
  lemma ArmingPrefixWrites(st: State, a: ArmingStatus)
    ensures var r := ArmingPrefix(st, a);
            var d := r.events;
            && r.state.listeners == st.listeners
            && r.state.catDetected == st.catDetected
            && ArmingWrites(d) == [a]
            && AlarmWrites(d) == (if a == Disarmed then [NoAlarm] else [])
            && UpdateCount(d) == (if a == Disarmed then 0 else |st.sensors|)
            && RepoCalls(d) == (if a == Disarmed then [StoreAlarm(NoAlarm)] else [ResetAll(st.sensors.Keys)])
                               + [StoreArming(a)]
            && WritesAnnounced(d)
  {
    var first := DisarmOrReset(st, a);
    var w := [ArmingWritten(a)];
    SingleEventViews(ArmingWritten(a));
    if a != Disarmed {
      SingleEventViews(SensorsDeactivated(st.sensors.Keys));
    }
    AlarmWritesAppend(first.events, w);
    ArmingWritesAppend(first.events, w);
    UpdateCountAppend(first.events, w);
    RepoCallsAppend(first.events, w);
    WritesAnnouncedAppend(first.events, w);
  }

  /** The first half of setArmingStatus: whom it tells. */
  lemma ArmingPrefixNotices(st: State, a: ArmingStatus, l: ListenerId)
    ensures Notices(ArmingPrefix(st, a).events, l) ==
            (if a == Disarmed && l in st.listeners then [AlarmChanged(NoAlarm)] else [])
  {
    var first := DisarmOrReset(st, a);
    SingleEventViews(ArmingWritten(a));
    if a != Disarmed {
      SingleEventViews(SensorsDeactivated(st.sensors.Keys));
    }
    NoticesAppend(first.events, [ArmingWritten(a)], l);
  }

  /** The second half of setArmingStatus, the remembered-cat check and the
      sensors-changed fan-out from the state just after the arming write:
      what it writes. */
  lemma ArmingSuffixWrites(stored: State, a: ArmingStatus)
    ensures var d := ArmingSuffix(stored, a).events;
            && ArmingWrites(d) == []
            && AlarmWrites(d) == (if IsArmed(a) && stored.catDetected then [Alarm] else [])
            && UpdateCount(d) == 0
            && RepoCalls(d) == (if IsArmed(a) && stored.catDetected then [StoreAlarm(Alarm)] else [])
            && WritesAnnounced(d)
  {
    AlarmStepThen(stored, RememberedCatCheck(stored, a), SensorsChangedNotified(stored.listeners));
  }

  /** The second half of setArmingStatus: whom it tells. */
  lemma ArmingSuffixNotices(stored: State, a: ArmingStatus, l: ListenerId)
    ensures Notices(ArmingSuffix(stored, a).events, l) ==
            if l in stored.listeners
            then (if IsArmed(a) && stored.catDetected then [AlarmChanged(Alarm)] else []) + [SensorsChanged]
            else []
  {
    var check := RememberedCatCheck(stored, a);
    SingleEventViews(SensorsChangedNotified(stored.listeners));
    AlarmStepNotices(stored, check, l);
    NoticesAppend(check.events, [SensorsChangedNotified(stored.listeners)], l);
  }

  /** Setting the same arming status twice ends where setting it once does. */
  lemma SetArmingStatusIdempotent(st: State, a: ArmingStatus)
    ensures var once := SetArmingStatus(st, a).state;
            SetArmingStatus(once, a).state == once
  {
    var once := SetArmingStatus(st, a).state;
    var twice := SetArmingStatus(once, a).state;
    if IsArmed(a) {
      assert twice.sensors == once.sensors;
    }
  }

  // ----- processImage / handleCatDetected -----

  /** A camera answer makes no sensor call and writes no arming status, and
      at most one alarm status: the final one, announced at once. A cat while armed-home
      always writes the alarm; no cat while armed with no active sensor always
      writes no-alarm, even when that is already the status; otherwise nothing
      is written. Without an alarm write the alarm status is unchanged. */
  lemma CatDetectedWrites(st: State, cat: bool)
    ensures var r := HandleCatDetected(st, cat);
            var d := r.events;
            && UpdateCount(d) == 0
            && ArmingWrites(d) == []
            && |AlarmWrites(d)| <= 1
            && (AlarmWrites(d) != [] ==> AlarmWrites(d) == [r.state.alarm])
            && (AlarmWrites(d) == [] ==> r.state.alarm == st.alarm)
            && (cat && st.arming == ArmedHome ==> AlarmWrites(d) == [Alarm])
            && (!cat && AllSensorsInactive(st.sensors) && st.arming != Disarmed ==> AlarmWrites(d) == [NoAlarm])
            && (cat && st.arming != ArmedHome ==> AlarmWrites(d) == [])
            && (!cat && (!AllSensorsInactive(st.sensors) || st.arming == Disarmed) ==> AlarmWrites(d) == [])
            && RepoCalls(d) == (if AlarmWrites(d) == [] then [] else [StoreAlarm(r.state.alarm)])
            && WritesAnnounced(d)
  {
    var remembered := st.(catDetected := cat);
    var rule := CatAlarmRule(remembered, cat);
    var e := CatNotified(st.listeners, cat);
    assert HandleCatDetected(st, cat) == Step(rule.state, rule.events + [e]);
    assert RepoCallOf(e) == [];
    AlarmStepThen(remembered, rule, e);
    if cat && st.arming == ArmedHome {
      assert rule == SetAlarmStatus(remembered, Alarm);
    } else if !cat && AllSensorsInactive(st.sensors) && st.arming != Disarmed {
      assert rule == SetAlarmStatus(remembered, NoAlarm);
    } else {
      assert rule == NoEffect(remembered);
    }
  }

  /** Every registered listener hears the alarm write of a camera answer, if
      any, and then the answer itself; no one else hears anything. */
  lemma CatDetectedNotices(st: State, cat: bool, l: ListenerId)
    ensures var r := HandleCatDetected(st, cat);
            && (l in st.listeners ==>
                  Notices(r.events, l) ==
                    (if AlarmWrites(r.events) == [] then [] else [AlarmChanged(r.state.alarm)]) + [CatChanged(cat)])
            && (l !in st.listeners ==> Notices(r.events, l) == [])
  {
    var remembered := st.(catDetected := cat);
    var rule := CatAlarmRule(remembered, cat);
    var e := CatNotified(st.listeners, cat);
    assert HandleCatDetected(st, cat) == Step(rule.state, rule.events + [e]);
    AlarmStepThen(remembered, rule, e);
    AlarmStepNotices(remembered, rule, l);
    NoticesAppend(rule.events, [e], l);
    assert Notices([e], l) == (if l in st.listeners then [CatChanged(cat)] else []);
  }

  /** Disarmed, a cat is seen: nothing changes. Then arming, to either armed
      status, raises the alarm because the cat is remembered. */
  lemma CatWhileDisarmedThenArm(st: State, a: ArmingStatus)
    requires st.arming == Disarmed && IsArmed(a)
    ensures var r := HandleCatDetected(st, true);
            && r.state.alarm == st.alarm
            && AlarmWrites(r.events) == []
            && SetArmingStatus(r.state, a).state.alarm == Alarm
  {
    CatDetectedWrites(st, true);
  }

  /** With no cat seen, arming home writes no alarm: the flag stays clear. */
  lemma NoCatThenArmHome(st: State)
    ensures var r1 := HandleCatDetected(st, false);
            var r2 := SetArmingStatus(r1.state, ArmedHome);
            Alarm !in AlarmWrites(r1.events + r2.events)
  {
    var r1 := HandleCatDetected(st, false);
    var r2 := SetArmingStatus(r1.state, ArmedHome);
    CatDetectedWrites(st, false);
    SetArmingStatusWrites(r1.state, ArmedHome);
    AlarmWritesAppend(r1.events, r2.events);
  }

  /** The camera rule only fires for armed-home; arming fires for both armed
      statuses. From armed-away with a cat, a fresh arm raises the alarm that
      the camera answer alone did not. */
  lemma CatAsymmetry(st: State)
    requires st.arming == ArmedAway && st.alarm == NoAlarm
    ensures var st1 := HandleCatDetected(st, true).state;
            st1.alarm == NoAlarm && SetArmingStatus(st1, ArmedAway).state.alarm == Alarm
  {
  }

  // ----- queries -----

  /** The queries read back exactly what the last call stored. */
  lemma QueriesReadThrough(st: State, status: AlarmStatus, a: ArmingStatus, s: Sensor, active: bool)
    ensures GetAlarmStatus(SetAlarmStatus(st, status).state) == status
    ensures GetArmingStatus(SetArmingStatus(st, a).state) == a
    ensures var m := GetSensors(ChangeSensorActivationStatus(st, Some(s), active).state);
            s.id in m && m[s.id] == active
    ensures GetSensors(AddSensor(st, s).state) == st.sensors[s.id := s.active]
    ensures GetSensors(RemoveSensor(AddSensor(st, s).state, s).state) == st.sensors - {s.id}
  {
  }
}
