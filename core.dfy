/**
 * fusion::Core: owns the sensor registry and the measurement buffer, and
 * sequences the Skeleton, Correlator and Calibrator once per fuse cycle.
 */
module FusionCore {
  import opened FusionTypes
  import opened Sensing
  import opened SensorRegistry
  import opened Pipeline

  class Core {
    /** system -> sensor id -> the Sensor the Core owns. */
    var sensors: SensorTable
    /** Measurements added since the last fuse(), in arrival order. */
    var measurementBuffer: seq<Measurement>
    /** Every call made on the skeleton, correlator and calibrator, in order. */
    ghost var trace: seq<Call>
    /** Every measurement ever passed to addMeasurement, in order. */
    ghost var accepted: seq<Measurement>

    ghost predicate Valid()
      reads this, Sensors(sensors)
    {
      && Labelled(sensors)
      && Owned(sensors)
      && Consistent(trace, accepted, measurementBuffer)
    }

    /** The sensors the buffered measurements point at, which the stages reach through them. */
    ghost function BufferedSensors(): set<Sensor>
      reads this, set k | 0 <= k < |measurementBuffer| :: measurementBuffer[k]
    {
      set k | 0 <= k < |measurementBuffer| && measurementBuffer[k].sensor != null :: measurementBuffer[k].sensor
    }

    constructor ()
      ensures Valid()
      ensures sensors == map[] && measurementBuffer == []
      ensures trace == [] && accepted == []
    {
      sensors := map[];
      measurementBuffer := [];
      trace := [];
      accepted := [];
    }

    /** Declares a bone node: the skeleton is told the node and its parent, then its fixed transform. */
    method AddBoneNode(node: NodeDescriptor, parent: NodeDescriptor, boneTransform: Transform3D)
      requires Valid()
      modifies this`trace
      ensures Valid()
      ensures trace == old(trace) + [AddNode(node, parent), SetBoneForNode(node, boneTransform)]
    {
      var calls := [AddNode(node, parent), SetBoneForNode(node, boneTransform)];
      SetupConsistent(trace, calls, accepted, measurementBuffer);
      trace := trace + calls;
    }

    /** Declares a pose node: the skeleton is told the node and its parent, then its initial pose. */
    method AddPoseNode(node: NodeDescriptor, parent: NodeDescriptor, poseInitial: Transform3D)
      requires Valid()
      modifies this`trace
      ensures Valid()
      ensures trace == old(trace) + [AddNode(node, parent), SetPoseNode(node, poseInitial)]
    {
      var calls := [AddNode(node, parent), SetPoseNode(node, poseInitial)];
      SetupConsistent(trace, calls, accepted, measurementBuffer);
      trace := trace + calls;
    }

    /** Seals the skeleton topology with exactly one hierarchy enumeration. */
    method FinaliseSetup()
      requires Valid()
      modifies this`trace
      ensures Valid()
      ensures trace == old(trace) + [EnumerateHierarchy]
    {
      SetupConsistent(trace, [EnumerateHierarchy], accepted, measurementBuffer);
      trace := trace + [EnumerateHierarchy];
    }

    /** Adds a measurement whose sensor observes `node`. */
    method AddMeasurement(m: Measurement, node: NodeDescriptor)
      requires Valid()
      requires m.sensor != null
      modifies this`measurementBuffer, this`accepted, m.sensor`candidates
      ensures Valid()
      ensures m.sensor.candidates == old(m.sensor.candidates) + [node]
      ensures measurementBuffer == old(measurementBuffer) + [m]
      ensures accepted == old(accepted) + [m]
    {
      m.sensor.AddNode(node);
      measurementBuffer := measurementBuffer + [m];
      accepted := accepted + [m];
    }

    /**
     * Adds a measurement whose sensor observes one of `nodes`, recording each
     * candidate in order. With no candidates the sensor is never consulted,
     * so the measurement need not be bound.
     */
    method AddMeasurementWithCandidates(m: Measurement, nodes: seq<NodeDescriptor>)
      requires Valid()
      requires |nodes| > 0 ==> m.sensor != null
      modifies this`measurementBuffer, this`accepted, (if m.sensor == null then {} else {m.sensor})`candidates
      ensures Valid()
      ensures m.sensor != null ==> m.sensor.candidates == old(m.sensor.candidates) + nodes
      ensures measurementBuffer == old(measurementBuffer) + [m]
      ensures accepted == old(accepted) + [m]
    {
      for i := 0 to |nodes|
        invariant m.sensor != null ==> m.sensor.candidates == old(m.sensor.candidates) + nodes[..i]
        invariant unchanged(this)
      {
        m.sensor.AddNode(nodes[i]);
      }
      assert nodes[..|nodes|] == nodes;
      measurementBuffer := measurementBuffer + [m];
      accepted := accepted + [m];
    }

    /**
     * One fuse cycle: the buffer goes to the correlator, then the calibrator,
     * then the skeleton, each being run after receiving it; then the buffer is
     * emptied. The stability signals of the correlator and the calibrator
     * are inputs here, and do not change what happens. The stages may resolve
     * sensors, both registered ones and those the buffered measurements point
     * at, so the node and candidates of any of them may change; the registry
     * itself and each record's system and id do not.
     */
    method Fuse(correlatorStable: bool, calibratorStable: bool)
      requires Valid()
      modifies this`measurementBuffer, this`trace
      modifies Sensors(sensors)`node, Sensors(sensors)`candidates
      modifies BufferedSensors()`node, BufferedSensors()`candidates
      ensures Valid()
      ensures trace == old(trace) + FuseCycle(old(measurementBuffer))
      ensures measurementBuffer == []
    {
      FuseCycleConsistent(trace, accepted, measurementBuffer);
      ghost var expected := trace + FuseCycle(measurementBuffer);
      trace := trace + [AddMeasurementGroup(Correlator, measurementBuffer), Run(Correlator)];
      if correlatorStable || true {
        trace := trace + [AddMeasurementGroup(Calibrator, measurementBuffer), Run(Calibrator)];
        if calibratorStable || true {
          trace := trace + [AddMeasurementGroup(Skeleton, measurementBuffer), Run(Skeleton)];
        }
      }
      assert trace == expected;
      measurementBuffer := [];
    }

    /** The node resolved for (system, id), or "UNKNOWN" for a pair never registered; the registry is only read. */
    method GetCorrelationResult(system: SystemDescriptor, id: SensorID) returns (r: NodeDescriptor)
      ensures Find(sensors, system, id).None? ==> r == Unknown
      ensures Find(sensors, system, id).Some? ==> r == Find(sensors, system, id).value.node
    {
      if system in sensors && id in sensors[system] {
        r := sensors[system][id].GetNode();
      } else {
        r := Unknown;
      }
    }

    /**
     * Binds `m` to the Sensor registered for (system, id), creating and
     * labelling that Sensor first when the pair is unseen.
     */
    method SetMeasurementSensorInfo(m: Measurement, system: SystemDescriptor, id: SensorID)
      requires Valid()
      modifies this`sensors, m`sensor
      ensures Valid()
      ensures m.sensor != null && sensors == Bind(old(sensors), system, id, m.sensor)
      ensures system in sensors && id in sensors[system] && sensors[system][id] == m.sensor
      ensures old(Find(sensors, system, id)).Some? ==> m.sensor == old(Find(sensors, system, id)).value
      ensures old(Find(sensors, system, id)).None? ==>
                fresh(m.sensor) && m.sensor.system == system && m.sensor.id == id && m.sensor.candidates == []
      ensures Sensors(sensors) == old(Sensors(sensors)) + {m.sensor}
      ensures unchanged(old(Sensors(sensors)))
    {
      ghost var table := sensors;
      sensors := SafeAccess(sensors, system);
      if id !in sensors[system] {
        var created := new Sensor();
        sensors := sensors[system := sensors[system][id := created]];
        sensors[system][id].system := system;
        sensors[system][id].id := id;
        assert sensors == Bind(table, system, id, created);
        BindSensors(table, system, id, created);
        BindOwned(table, system, id, created);
      } else {
        assert sensors == Bind(table, system, id, sensors[system][id]);
        BindSensors(table, system, id, sensors[system][id]);
      }
      m.SetSensor(sensors[system][id]);
    }
  }

  /**
   * Two measurements bound to the same (system, id) share one Sensor, and the
   * second binding leaves the registry as the first left it.
   */
  method BindTwice(core: Core, m1: Measurement, m2: Measurement, system: SystemDescriptor, id: SensorID)
    requires core.Valid()
    modifies core`sensors, m1`sensor, m2`sensor
    ensures core.Valid()
    ensures m1.sensor != null && m1.sensor == m2.sensor
    ensures core.sensors == Bind(old(core.sensors), system, id, m1.sensor)
  {
    core.SetMeasurementSensorInfo(m1, system, id);
    core.SetMeasurementSensorInfo(m2, system, id);
    BindIdempotent(old(core.sensors), system, id, m1.sensor, m2.sensor);
  }
}
