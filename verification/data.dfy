/** The data the alarm controller works on: the two status enumerations, the
    sensors, the listener registry, and the log of repository writes and
    listener notifications that every operation appends to. */
module CatpointData {

  datatype Option<+T> = None | Some(value: T)

  /** Whether the system is disarmed or armed with the home or the away profile. */
  datatype ArmingStatus = Disarmed | ArmedHome | ArmedAway

  /** The escalation ladder: no alarm, pending alarm, alarm. */
  datatype AlarmStatus = NoAlarm | PendingAlarm | Alarm

  /** A sensor is identified by its key; the repository maps keys to active flags. */
  type SensorId = string

  /** A sensor object as a caller holds it: its key and the flag it carries. */
  datatype Sensor = Sensor(id: SensorId, active: bool)

  /** A registered status listener, unique by identity. */
  type ListenerId = nat

  /** One observable effect of the controller: a write to the repository or a
      fan-out to a set of listeners. A fan-out is one event over the whole
      listener set, because the order in which the set is walked is unspecified. */
  datatype Event =
    | SensorWritten(id: SensorId, active: bool)      // one updateSensor call
    | SensorsDeactivated(ids: set<SensorId>)          // one updateSensor(inactive) per id, in no fixed order
    | SensorAdded(id: SensorId, active: bool)
    | SensorRemoved(id: SensorId)
    | AlarmWritten(alarm: AlarmStatus)
    | ArmingWritten(arming: ArmingStatus)
    | AlarmNotified(to: set<ListenerId>, alarm: AlarmStatus)
    | SensorsChangedNotified(to: set<ListenerId>)
    | CatNotified(to: set<ListenerId>, cat: bool)

  /** The controller together with the repository it reads and writes.
      `arming`, `alarm` and `sensors` live in the repository; `catDetected`
      and `listeners` are local to the controller. */
  datatype State = State(
    arming: ArmingStatus,
    alarm: AlarmStatus,
    sensors: map<SensorId, bool>,
    catDetected: bool,
    listeners: set<ListenerId>)

  /** The outcome of one call: the state it leaves and, in order, the
      repository writes and fan-outs it made. */
  datatype Step = Step(state: State, events: seq<Event>)

  /** A call, or the rest of one, that writes and tells nothing. */
  function NoEffect(st: State): Step {
    Step(st, [])
  }

  predicate IsArmed(a: ArmingStatus) {
    a == ArmedHome || a == ArmedAway
  }

  /** Position on the escalation ladder. */
  function Rank(a: AlarmStatus): nat {
    match a
    case NoAlarm => 0
    case PendingAlarm => 1
    case Alarm => 2
  }

  /** One step up the ladder; the top is a fixed point. */
  function Escalate(a: AlarmStatus): (r: AlarmStatus)
    ensures a != Alarm ==> Rank(r) == Rank(a) + 1
    ensures a == Alarm ==> r == Alarm
  {
    match a
    case NoAlarm => PendingAlarm
    case PendingAlarm => Alarm
    case Alarm => Alarm
  }
}
