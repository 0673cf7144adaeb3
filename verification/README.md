# Catpoint alarm controller in Dafny

A model of the alarm state machine of the Catpoint home-security service
(`SecurityService`), with proofs of its rules. The controller holds an arming status
(disarmed, armed-home, armed-away), an alarm status on the ladder
no alarm → pending alarm → alarm, a set of sensors with active flags, a
remembered "cat detected" flag from the camera, and a set of status listeners.
Three entry points change the alarm status: `setArmingStatus`,
`changeSensorActivationStatus` and `processImage`. There is also a direct
`setAlarmStatus`, which stores a status and tells every listener.

The model is purely functional. `CatpointData.State` holds the repository's
fields (arming, alarm, sensors keyed by id) and the controller's own fields (cat
flag, listener set). Every entry point that writes or notifies returns a `Step`:
the state it leaves, plus the `Event`s it caused, in order. There is one event for each
repository write and one for each listener fan-out. A fan-out is a single event that carries the
whole listener set, because the controller walks a hash set in no fixed order.
`EventLog` reads a sequence of events four ways:
- `Notices(events, l)`: what listener `l` was told;
- `AlarmWrites` and `ArmingWrites`: the statuses written to the repository;
- `UpdateCount`: how many `updateSensor` calls were made;
- `RepoCalls`: every repository call, in order and with its arguments (the arming loop's per-sensor `updateSensor` calls appear as one `ResetAll` over the ids it walks);
- `WritesAnnounced`: whether every alarm write is followed at once by its announcement.

Files:
- `data.dfy` (`CatpointData`): enumerations, sensors, events, state, and the escalation ladder (`Rank`, `Escalate`).
- `event_log.dfy` (`EventLog`): the views of an event sequence and how they distribute over concatenation.
- `security_service.dfy` (`SecurityService`): one function per operation of the controller.
- `sensor_reset.dfy` (`SensorReset`): the arming loop, which resets one sensor at a time in arbitrary order.
- `properties.dfy` (`ServiceProperties`): writes and notifications per call, and scenarios that combine several calls.
- `traces.dfy` (`ServiceTraces`): sequences of calls and the invariants they keep.

Two behaviours of the code are easy to miss:
- Arming resets every sensor even when a cat is remembered. The cat only decides whether the alarm is raised afterwards.
- The alarm status is cleared not only by disarming. A camera answer of "no cat" also clears it, even from ALARM, when the system is armed and no sensor is active (`HandleCatDetected`).

## Model

| member | source | states |
|---|---|---|
| SecurityService.AllSensorsInactive | security-service/src/main/java/com/udacity/catpoint/security/service/SecurityService.java:137-139 | true exactly when every sensor in the repository has its flag off |
| SecurityService.InactiveAfterSwitchOff | security-service/src/main/java/com/udacity/catpoint/security/service/SecurityService.java:89-93 | after one sensor is written back as inactive, all sensors are inactive iff no other sensor was active; this is the check the deactivation rule makes on the updated set |
| SecurityService.AddStatusListener | security-service/src/main/java/com/udacity/catpoint/security/service/SecurityService.java:65-67 | the listener is registered afterwards; no other listener and no repository field changes, and no event is caused |
| SecurityService.RemoveStatusListener | security-service/src/main/java/com/udacity/catpoint/security/service/SecurityService.java:69-71 | the listener is not registered afterwards; no other listener and no repository field changes, and no event is caused |
| SecurityService.AddSensor | security-service/src/main/java/com/udacity/catpoint/security/service/SecurityService.java:125-127 | the sensor is present with its flag; every other sensor is untouched; no alarm, arming or listener change; the one event is the repository add |
| SecurityService.RemoveSensor | security-service/src/main/java/com/udacity/catpoint/security/service/SecurityService.java:129-131 | the sensor is gone; every other sensor keeps its flag; nothing else changes; the one event is the repository remove |
| SecurityService.SetAlarmStatus | security-service/src/main/java/com/udacity/catpoint/security/service/SecurityService.java:73-76 | stores the status; the repository sees exactly one call, the alarm write of that status; every registered listener, and no one else, is told that status once, even when it is unchanged; the write is announced at once |
| SecurityService.DeactivateAll | security-service/src/main/java/com/udacity/catpoint/security/service/SecurityService.java:32-35 | the same sensors as before, none of them active |
| SecurityService.SetArmingStatus | security-service/src/main/java/com/udacity/catpoint/security/service/SecurityService.java:28-46 | stores the arming status. Disarming gives no alarm and leaves every sensor unchanged, even with a cat remembered. Arming keeps sensor membership, leaves every sensor inactive, and gives ALARM if a cat is remembered, otherwise the old alarm status |
| SecurityService.HandleSensorActivated | security-service/src/main/java/com/udacity/catpoint/security/service/SecurityService.java:78-87 | while armed, moves the alarm status one step up the ladder; while disarmed, does nothing; at most one setAlarmStatus |
| SecurityService.HandleSensorDeactivated | security-service/src/main/java/com/udacity/catpoint/security/service/SecurityService.java:89-93 | a pending alarm becomes no alarm when no sensor is active; otherwise the status is unchanged; at most one setAlarmStatus |
| SecurityService.SensorRule | security-service/src/main/java/com/udacity/catpoint/security/service/SecurityService.java:104-110 | what follows the sensor write either does nothing or is exactly one setAlarmStatus call |
| SecurityService.ChangeSensorActivationStatus | security-service/src/main/java/com/udacity/catpoint/security/service/SecurityService.java:94-111 | an absent sensor changes nothing and causes no event. Otherwise only that sensor's flag changes, to the requested value. ALARM on entry stays ALARM. Activation moves one step up the ladder unless disarmed, even for a sensor that was already active. Deactivation gives no alarm iff the sensor was active, the status was pending and no other sensor is active; otherwise the status is unchanged |
| SecurityService.CatAlarmRule | security-service/src/main/java/com/udacity/catpoint/security/service/SecurityService.java:53-59 | the alarm decision on a camera answer either does nothing or is exactly one setAlarmStatus call |
| SecurityService.HandleCatDetected | security-service/src/main/java/com/udacity/catpoint/security/service/SecurityService.java:50-62 | processImage on the detector's answer. The answer is always remembered. A cat while armed-home gives ALARM. No cat, no active sensor and not disarmed gives no alarm. Otherwise the status is unchanged, including a cat while armed-away or disarmed |
| SensorReset.ResetEachSensor | security-service/src/main/java/com/udacity/catpoint/security/service/SecurityService.java:32-35 | walking the sensor snapshot in any order and writing each sensor back as inactive gives the same map as `DeactivateAll`; it writes every sensor exactly once, with no repeats and nothing else |
| ServiceProperties.RemovedListenerHearsNothing | security-service/src/test/java/com/udacity/catpoint/security/service/SecurityServiceTest.java:248-254 | after a listener is removed, a status change tells it nothing but still tells each remaining listener |
| ServiceProperties.RegistryIdempotent | security-service/src/main/java/com/udacity/catpoint/security/service/SecurityService.java:65-71 | adding twice is adding once, removing twice is removing once, removing undoes adding, adding a registered listener and removing an unregistered one change nothing |
| ServiceProperties.AlarmStepWrites | security-service/src/main/java/com/udacity/catpoint/security/service/SecurityService.java:73-76 | a step that does nothing or is one setAlarmStatus call makes no repository call except, when it writes at all, one alarm write of the status it leaves, announces that write at once, and keeps the listeners |
| ServiceProperties.AlarmStepNotices | security-service/src/main/java/com/udacity/catpoint/security/service/SecurityService.java:73-76 | such a step tells exactly the registered listeners, and only when it writes, the status it leaves |
| ServiceProperties.SetAlarmThen | security-service/src/main/java/com/udacity/catpoint/security/service/SecurityService.java:73-76 | a setAlarmStatus call followed by an event that writes neither status: the repository sees the alarm write and then exactly the event's own call, if any; the write is announced at once |
| ServiceProperties.ChangeSensorWrites | security-service/src/main/java/com/udacity/catpoint/security/service/SecurityService.java:94-111 | an absent sensor causes no event. A present one is written exactly once, under its own key with the new flag. There is no arming write and at most one alarm write; that write holds the final status and is announced at once. An alarm status is written exactly when the status changes, so a sensor change that leaves the status alone writes and announces nothing. The repository sees the sensor write first, then the alarm write if any, and nothing else |
| ServiceProperties.ChangeSensorNotices | security-service/src/main/java/com/udacity/catpoint/security/service/SecurityService.java:94-111 | a sensor change tells a listener the final alarm status exactly when the listener is registered and an alarm status was written; no other notification is sent |
| ServiceProperties.LatchWritesNoAlarm | security-service/src/test/java/com/udacity/catpoint/security/service/SecurityServiceTest.java:88-96 | with ALARM on entry, activating or deactivating any sensor writes no alarm status and leaves ALARM |
| ServiceProperties.QuietSensorChanges | security-service/src/main/java/com/udacity/catpoint/security/service/SecurityService.java:104-109 | deactivating an already-inactive sensor, or activating one while disarmed, writes no alarm status and leaves it unchanged |
| ServiceProperties.ChangeSensorMonotone | security-service/src/main/java/com/udacity/catpoint/security/service/SecurityService.java:78-93 | activation never lowers the alarm status and deactivation never raises it |
| ServiceProperties.TwoActivationsRaiseAlarm | security-service/src/test/java/com/udacity/catpoint/security/service/SecurityServiceTest.java:49-67 | armed with no alarm, one activation gives pending and a second (of any sensor, the same one included) gives ALARM |
| ServiceProperties.LastSensorOffClearsPending | security-service/src/main/java/com/udacity/catpoint/security/service/SecurityService.java:89-93 | turning off the last active sensor clears a pending alarm; turning off one of several active sensors keeps it pending |
| ServiceProperties.SetArmingStatusWrites | security-service/src/main/java/com/udacity/catpoint/security/service/SecurityService.java:28-46 | one arming write. Arming writes every sensor in the repository once, by key; disarming writes none. The repository sees, in order: the NO_ALARM write on disarm or the reset of every sensor on arming, then the arming write, then the ALARM write when armed with a cat remembered. Disarming writes exactly one alarm status, no alarm, never ALARM; arming writes exactly ALARM with a cat remembered and no alarm status otherwise |
| ServiceProperties.SetArmingStatusAnnounced | security-service/src/main/java/com/udacity/catpoint/security/service/SecurityService.java:28-46 | every alarm write of setArmingStatus is announced at once |
| ServiceProperties.SetArmingStatusNotices | security-service/src/main/java/com/udacity/catpoint/security/service/SecurityService.java:28-46 | each registered listener hears the alarm write, if any, then that the sensors changed; an unregistered one hears nothing |
| ServiceProperties.ArmingPrefixWrites | security-service/src/main/java/com/udacity/catpoint/security/service/SecurityService.java:29-38 | the disarm-or-reset step plus the arming write: one arming write, the no-alarm write only on disarm, the reset of every sensor in the repository, by key, only on arming; the alarm write or the reset comes before the arming write; listeners and cat flag kept |
| ServiceProperties.ArmingPrefixNotices | security-service/src/main/java/com/udacity/catpoint/security/service/SecurityService.java:29-38 | the disarm-or-reset step plus the arming write tell a listener the cleared status only on disarm and only if registered |
| ServiceProperties.ArmingSuffixWrites | security-service/src/main/java/com/udacity/catpoint/security/service/SecurityService.java:40-45 | the remembered-cat check plus the sensors-changed fan-out: the ALARM write exactly when armed with a cat remembered, announced at once, and no other repository call |
| ServiceProperties.ArmingSuffixNotices | security-service/src/main/java/com/udacity/catpoint/security/service/SecurityService.java:40-45 | the remembered-cat check plus the fan-out tell each registered listener the ALARM if raised and then that the sensors changed; others hear nothing |
| ServiceProperties.SetArmingStatusIdempotent | security-service/src/main/java/com/udacity/catpoint/security/service/SecurityService.java:28-46 | setting the same arming status again leaves the state it reached unchanged |
| ServiceProperties.CatDetectedWrites | security-service/src/main/java/com/udacity/catpoint/security/service/SecurityService.java:50-62 | no sensor call of any kind and no arming write. At most one alarm write, which is the only repository call, holding the final status and announced at once; it is ALARM for a cat while armed-home. With no cat, no active sensor and the system armed, NO_ALARM is written even when it is already the status. In every other case nothing is written and the status is unchanged |
| ServiceProperties.CatDetectedNotices | security-service/src/main/java/com/udacity/catpoint/security/service/SecurityService.java:50-62 | each registered listener hears the alarm write, if any, then the detector's answer; no one else hears anything |
| ServiceProperties.CatWhileDisarmedThenArm | security-service/src/test/java/com/udacity/catpoint/security/service/SecurityServiceTest.java:173-196 | a cat seen while disarmed writes no alarm and changes nothing. Arming afterwards, home or away, gives ALARM |
| ServiceProperties.NoCatThenArmHome | security-service/src/test/java/com/udacity/catpoint/security/service/SecurityServiceTest.java:198-206 | after a "no cat" answer, arming home writes no ALARM at any point |
| ServiceProperties.CatAsymmetry | security-service/src/main/java/com/udacity/catpoint/security/service/SecurityService.java:40-55 | armed-away with no alarm: a cat leaves the status at no alarm, yet re-arming away with that cat remembered gives ALARM |
| ServiceProperties.QueriesReadThrough | security-service/src/main/java/com/udacity/catpoint/security/service/SecurityService.java:117-135 | each query returns what the last write stored: the alarm and arming statuses, a changed sensor's flag, and the sensors after adding and removing |
| ServiceTraces.Apply | security-service/src/main/java/com/udacity/catpoint/security/service/SecurityService.java:28-131 | only add and remove change the listener set, and those two cause no event |
| ServiceTraces.ApplySettles | security-service/src/main/java/com/udacity/catpoint/security/service/SecurityService.java:28-131 | within any single call, the last alarm (or arming) status written is the one left stored, a call that writes none leaves it unchanged, and every alarm write is announced at once |
| ServiceTraces.SetArmingSettles | security-service/src/main/java/com/udacity/catpoint/security/service/SecurityService.java:28-46 | the same for setArmingStatus |
| ServiceTraces.ChangeSensorSettles | security-service/src/main/java/com/udacity/catpoint/security/service/SecurityService.java:94-111 | the same for changeSensorActivationStatus |
| ServiceTraces.CatDetectedSettles | security-service/src/main/java/com/udacity/catpoint/security/service/SecurityService.java:50-62 | the same for processImage |
| ServiceTraces.RunSettles | security-service/src/main/java/com/udacity/catpoint/security/service/SecurityService.java:28-131 | a whole sequence of calls settles the same way: its last alarm and arming writes are the statuses left stored, unwritten statuses are unchanged, and every alarm write is announced at once |
| ServiceTraces.SettlesKeepsConsistent | security-service/src/main/java/com/udacity/catpoint/security/service/SecurityService.java:73-76 | if the stored statuses match the last writes of a history and every write there is announced, that stays true after a call that settles |
| ServiceTraces.RunPreservesConsistent | security-service/src/main/java/com/udacity/catpoint/security/service/SecurityService.java:73-76 | the same after any sequence of calls |
| ServiceTraces.ApplyKeepsQuiet | security-service/src/main/java/com/udacity/catpoint/security/service/SecurityService.java:28-30 | "disarmed implies no alarm" survives every call except a direct setAlarmStatus |
| ServiceTraces.RunKeepsQuiet | security-service/src/main/java/com/udacity/catpoint/security/service/SecurityService.java:28-30 | the same over any sequence of calls with no direct setAlarmStatus |
| ServiceTraces.ApplyLatch | security-service/src/main/java/com/udacity/catpoint/security/service/SecurityService.java:104 | one sensor change, addition or removal under ALARM writes no alarm and leaves ALARM |
| ServiceTraces.LatchUnderSensorTraffic | security-service/src/main/java/com/udacity/catpoint/security/service/SecurityService.java:94-111 | any sequence of sensor changes, additions and removals under ALARM writes no alarm and leaves ALARM |
| ServiceTraces.ApplyTellsOnlyRegistered | security-service/src/main/java/com/udacity/catpoint/security/service/SecurityService.java:65-76 | a call tells nothing to a listener that was not registered when it began, and only adding registers one |
| ServiceTraces.UnregisteredHearsNothing | security-service/src/main/java/com/udacity/catpoint/security/service/SecurityService.java:65-76 | a listener that is not registered and that no call adds is told nothing over any sequence of calls |

## Left out

- The image detector and its fixed confidence threshold of 50.0 (SecurityService.java:113). The detector is a foreign call working in floating point, so `processImage` is modelled as `HandleCatDetected` applied to the detector's boolean answer.
- Exceptions thrown by listeners or by the repository. In the code, one of them aborts the rest of a fan-out. The model assumes every call and notification completes.
- The order in which listeners are told inside one fan-out. The listener set is a hash set, so that order is unspecified; each fan-out is one event over the set.
- Null arguments. The model's booleans and enumerations cannot be null. In the code, a null `active` reaches `sensor.setActive` and `updateSensor`, and is unboxed in the `if (active)` test only when the alarm status read on entry is not ALARM (SecurityService.java lines 97-105); whether the setter throws depends on Sensor.java, which is not part of this model. `setArmingStatus(null)` takes the arming branch: it resets every sensor, stores null, skips the cat check and notifies. `setAlarmStatus(null)` stores null and announces it.
- The `Sensor` class, its sensor types and its equality. Sensor.java is not part of this model. Sensors are keys in a map; a caller passes a key and the flag its object carries, which is the flag read as `wasActive`.
- The repository implementation. Its `updateSensor` and `addSensor` are modelled as storing the flag under the sensor's key, and `removeSensor` as dropping the key.
- The order of the per-sensor writes in the arming loop. In `SetArmingStatus` they form one event; `SensorReset.ResetEachSensor` shows that any order gives the same sensors, with one write each.
- Construction and the initial statuses. These come from the repository, so invariants are stated as "preserved by every call".
- The Swing sensor panel, including its four-sensor limit, which the controller does not enforce.
- Concurrency. The controller is single-threaded and synchronous, and the model treats every call as atomic.
