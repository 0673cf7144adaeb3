/** The alarm controller: its entry points as pure transitions. Each entry
    point that touches the repository or the listeners returns a Step: the
    state it leaves and, in order, what it wrote and whom it told.
    Properties of those events are in ServiceProperties. */
module SecurityService {
  import opened CatpointData
  import opened EventLog

  /** No sensor in the repository is active (a none-match over the flags). */
  function AllSensorsInactive(sensors: map<SensorId, bool>): (r: bool)
    ensures r <==> forall id :: id in sensors ==> !sensors[id]
  {
    true !in sensors.Values
  }

  /** No sensor other than `id` is active. */
  predicate NoOtherActive(sensors: map<SensorId, bool>, id: SensorId)
  {
    forall k :: k in sensors && k != id ==> !sensors[k]
  }

  /** After a sensor is switched off, none is active iff no other one was. */
  lemma InactiveAfterSwitchOff(sensors: map<SensorId, bool>, id: SensorId)
    ensures AllSensorsInactive(sensors[id := false]) <==> NoOtherActive(sensors, id)
  {
    var after := sensors[id := false];
    if !NoOtherActive(sensors, id) {
      var k :| k in sensors && k != id && sensors[k];
      assert k in after && after[k];
    }
  }

  // ----- read-through queries -----

  function GetAlarmStatus(st: State): AlarmStatus { st.alarm }

  function GetArmingStatus(st: State): ArmingStatus { st.arming }

  function GetSensors(st: State): map<SensorId, bool> { st.sensors }

  // ----- listener registry -----

  /** Registers `l`; registering twice is the same as once. No one is told. */
  function AddStatusListener(st: State, l: ListenerId): (r: State)
    ensures r == st.(listeners := r.listeners)
    ensures l in r.listeners
    ensures r.listeners - {l} == st.listeners - {l}
  {
    st.(listeners := st.listeners + {l})
  }

  /** Unregisters `l` if present. No one is told. */
  function RemoveStatusListener(st: State, l: ListenerId): (r: State)
    ensures r == st.(listeners := r.listeners)
    ensures l !in r.listeners
    ensures r.listeners + {l} == st.listeners + {l}
  {
    st.(listeners := st.listeners - {l})
  }

  // ----- sensor membership, delegated to the repository -----

  /** Stores the sensor under its key, replacing any sensor with that key. */
  function AddSensor(st: State, s: Sensor): (r: Step)
    ensures r.state == st.(sensors := r.state.sensors)
    ensures s.id in r.state.sensors && r.state.sensors[s.id] == s.active
    ensures r.state.sensors - {s.id} == st.sensors - {s.id}
    ensures r.events == [SensorAdded(s.id, s.active)]
  {
    Step(st.(sensors := st.sensors[s.id := s.active]), [SensorAdded(s.id, s.active)])
  }

  /** Drops the sensor with that key, if any. */
  function RemoveSensor(st: State, s: Sensor): (r: Step)
    ensures r.state == st.(sensors := r.state.sensors)
    ensures s.id !in r.state.sensors
    ensures forall k :: k in st.sensors && k != s.id ==> k in r.state.sensors && r.state.sensors[k] == st.sensors[k]
    ensures r.state.sensors.Keys <= st.sensors.Keys
    ensures r.events == [SensorRemoved(s.id)]
  {
    Step(st.(sensors := st.sensors - {s.id}), [SensorRemoved(s.id)])
  }

  // ----- alarm status -----

  /** Stores `status` and tells every registered listener, even when the
      status does not change. */
  function SetAlarmStatus(st: State, status: AlarmStatus): (r: Step)
    ensures r.state == st.(alarm := status)
    ensures AlarmWrites(r.events) == [status]
    ensures UpdateCount(r.events) == 0
    ensures ArmingWrites(r.events) == []
    ensures forall l :: Notices(r.events, l) ==
                        (if l in st.listeners then [AlarmChanged(status)] else [])
    ensures RepoCalls(r.events) == [StoreAlarm(status)]
    ensures WritesAnnounced(r.events)
  {
    var events := [AlarmWritten(status), AlarmNotified(st.listeners, status)];
    assert UpdateCount(events[1..][1..]) == 0;
    assert RepoCalls(events[1..][1..]) == [];
    Step(st.(alarm := status), events)
  }

  // ----- arming -----

  /** Every sensor set inactive, membership unchanged. */
  function DeactivateAll(sensors: map<SensorId, bool>): (r: map<SensorId, bool>)
    ensures r.Keys == sensors.Keys
    ensures AllSensorsInactive(r)
  {
    map id | id in sensors :: false
  }

  /** The arming loop: each sensor is set inactive and written back. */
  function ResetSensors(st: State): Step
  {
    Step(st.(sensors := DeactivateAll(st.sensors)), [SensorsDeactivated(st.sensors.Keys)])
  }

  /** The first step of setArmingStatus: disarming clears the alarm, arming
      resets every sensor. */
  function DisarmOrReset(st: State, a: ArmingStatus): Step
  {
    if a == Disarmed then SetAlarmStatus(st, NoAlarm) else ResetSensors(st)
  }

  /** A cat remembered from the camera raises the alarm on arming. */
  function RememberedCatCheck(st: State, a: ArmingStatus): Step
  {
    if IsArmed(a) && st.catDetected then SetAlarmStatus(st, Alarm) else NoEffect(st)
  }

  /** The first half of setArmingStatus: disarm or reset, then store the
      new arming status. */
  function ArmingPrefix(st: State, a: ArmingStatus): Step
  {
    var first := DisarmOrReset(st, a);
    Step(first.state.(arming := a), first.events + [ArmingWritten(a)])
  }

  /** The second half of setArmingStatus: the remembered-cat check, then the
      sensors-changed fan-out. */
  function ArmingSuffix(stored: State, a: ArmingStatus): Step
  {
    var check := RememberedCatCheck(stored, a);
    Step(check.state, check.events + [SensorsChangedNotified(check.state.listeners)])
  }

  /** Disarming clears the alarm; arming resets every sensor. Either way the
      new status is stored, a remembered cat raises the alarm when armed, and
      every listener hears that the sensors changed. */
  function SetArmingStatus(st: State, a: ArmingStatus): (r: Step)
    ensures r.state == st.(arming := a, sensors := r.state.sensors, alarm := r.state.alarm)
    ensures a == Disarmed ==> r.state.alarm == NoAlarm && r.state.sensors == st.sensors
    ensures IsArmed(a) ==> r.state.sensors.Keys == st.sensors.Keys && AllSensorsInactive(r.state.sensors)
    ensures IsArmed(a) ==> r.state.alarm == (if st.catDetected then Alarm else st.alarm)
  {
    var prefix := ArmingPrefix(st, a);
    var suffix := ArmingSuffix(prefix.state, a);
    Step(suffix.state, prefix.events + suffix.events)
  }

  // ----- sensor activation -----

  /** Stores the flag under the sensor's key (updateSensor). */
  function UpdateSensor(st: State, id: SensorId, active: bool): Step
  {
    Step(st.(sensors := st.sensors[id := active]), [SensorWritten(id, active)])
  }

  /** A sensor turned on: escalate one step unless disarmed. */
  function HandleSensorActivated(st: State): (r: Step)
    ensures r == NoEffect(st) || r == SetAlarmStatus(st, r.state.alarm)
    ensures st.arming != Disarmed ==> r.state.alarm == Escalate(st.alarm)
    ensures st.arming == Disarmed ==> r == NoEffect(st)
  {
    if st.arming == Disarmed then NoEffect(st)
    else match st.alarm
      case NoAlarm => SetAlarmStatus(st, PendingAlarm)
      case PendingAlarm => SetAlarmStatus(st, Alarm)
      case Alarm => NoEffect(st)
  }

  /** A sensor turned off: a pending alarm clears once nothing is active. */
  function HandleSensorDeactivated(st: State): (r: Step)
    ensures r == NoEffect(st) || r == SetAlarmStatus(st, NoAlarm)
    ensures r.state.alarm ==
            (if st.alarm == PendingAlarm && AllSensorsInactive(st.sensors) then NoAlarm else st.alarm)
  {
    if st.alarm == PendingAlarm && AllSensorsInactive(st.sensors) then SetAlarmStatus(st, NoAlarm)
    else NoEffect(st)
  }

  /** What follows the sensor write: the activation rule on every
      activation, the deactivation rule only on a genuine active-to-inactive
      change, and nothing once the alarm read on entry was already raised. */
  function SensorRule(st: State, entryAlarm: AlarmStatus, wasActive: bool, active: bool): (r: Step)
    ensures r == NoEffect(st) || r == SetAlarmStatus(st, r.state.alarm)
  {
    if entryAlarm == Alarm then NoEffect(st)
    else if active then HandleSensorActivated(st)
    else if wasActive then HandleSensorDeactivated(st)
    else NoEffect(st)
  }

  /** Sets one sensor's flag and writes it back, then runs the sensor rule
      with the alarm status read on entry and the flag the sensor object
      carried. An absent sensor is ignored. */
  function ChangeSensorActivationStatus(st: State, sensor: Option<Sensor>, active: bool): (r: Step)
    ensures sensor.None? ==> r == NoEffect(st)
    ensures sensor.Some? ==>
      r.state == st.(sensors := st.sensors[sensor.value.id := active], alarm := r.state.alarm)
    // the latch
    ensures st.alarm == Alarm ==> r.state.alarm == Alarm
    // the activation rule, also for a sensor that was already active
    ensures sensor.Some? && active && st.alarm != Alarm ==>
      r.state.alarm == (if st.arming == Disarmed then st.alarm else Escalate(st.alarm))
    // the deactivation rule, both directions
    ensures sensor.Some? && !active && st.alarm != Alarm ==>
      r.state.alarm == (if sensor.value.active && st.alarm == PendingAlarm
                           && NoOtherActive(st.sensors, sensor.value.id)
                        then NoAlarm else st.alarm)
  {
    match sensor
    case None => NoEffect(st)
    case Some(s) =>
      var update := UpdateSensor(st, s.id, active);
      var rule := SensorRule(update.state, st.alarm, s.active, active);
      InactiveAfterSwitchOff(st.sensors, s.id);
      Step(rule.state, update.events + rule.events)
  }

  // ----- camera -----

  /** The alarm decision on a camera answer. */
  function CatAlarmRule(st: State, cat: bool): (r: Step)
    ensures r == NoEffect(st) || r == SetAlarmStatus(st, r.state.alarm)
  {
    if cat && st.arming == ArmedHome then SetAlarmStatus(st, Alarm)
    else if !cat && AllSensorsInactive(st.sensors) && st.arming != Disarmed then SetAlarmStatus(st, NoAlarm)
    else NoEffect(st)
  }

  /** processImage: `cat` is the detector's answer for the image. The answer
      is remembered; a cat while armed-home raises the alarm; no cat with no
      active sensor while armed clears it; every listener hears the answer. */
  function HandleCatDetected(st: State, cat: bool): (r: Step)
    ensures r.state == st.(catDetected := cat, alarm := r.state.alarm)
    ensures cat && st.arming == ArmedHome ==> r.state.alarm == Alarm
    ensures !cat && AllSensorsInactive(st.sensors) && st.arming != Disarmed ==> r.state.alarm == NoAlarm
    ensures (cat && st.arming != ArmedHome) || (!cat && (!AllSensorsInactive(st.sensors) || st.arming == Disarmed))
            ==> r.state.alarm == st.alarm
  {
    var rule := CatAlarmRule(st.(catDetected := cat), cat);
    Step(rule.state, rule.events + [CatNotified(rule.state.listeners, cat)])
  }
}
