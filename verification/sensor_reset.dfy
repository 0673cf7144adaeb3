/** The arming loop of setArmingStatus, sensor by sensor: it walks a snapshot
    of the sensor set in whatever order the set yields and writes each sensor
    back as inactive. Whatever the order, the outcome is the one-step
    DeactivateAll, with exactly one write per sensor. */
module SensorReset {
  import opened CatpointData
  import opened SecurityService

  method ResetEachSensor(sensors: map<SensorId, bool>) returns (after: map<SensorId, bool>, writes: seq<SensorId>)
    ensures after == DeactivateAll(sensors)
    ensures |writes| == |sensors|
    ensures forall id :: id in writes <==> id in sensors
    ensures forall i, j :: 0 <= i < j < |writes| ==> writes[i] != writes[j]
  {
    var pending := sensors.Keys;
    after := sensors;
    writes := [];
    while pending != {}
      invariant pending <= sensors.Keys
      invariant after.Keys == sensors.Keys
      invariant forall id :: id in after ==> after[id] == (if id in pending then sensors[id] else false)
      invariant forall id :: id in writes <==> id in sensors && id !in pending
      invariant forall i, j :: 0 <= i < j < |writes| ==> writes[i] != writes[j]
      invariant |writes| + |pending| == |sensors|
      decreases pending
    {
      var id :| id in pending;
      after := after[id := false];
      writes := writes + [id];
      pending := pending - {id};
    }
  }
}
