/**
 * The calls the Core makes on its three collaborators (Skeleton, Correlator,
 * Calibrator), recorded as a trace. The collaborators' own work is not modelled.
 */
module Pipeline {
  import opened FusionTypes
  import opened Sensing

  datatype Stage = Correlator | Calibrator | Skeleton

  datatype Call =
    | AddNode(node: NodeDescriptor, parent: NodeDescriptor)       // Skeleton::addNode
    | SetBoneForNode(node: NodeDescriptor, bone: Transform3D)       // Skeleton::setBoneForNode
    | SetPoseNode(node: NodeDescriptor, initial: Transform3D)       // Skeleton::setPoseNode
    | EnumerateHierarchy                                            // Skeleton::enumerateHeirarchy
    | AddMeasurementGroup(stage: Stage, batch: seq<Measurement>)    // <stage>::addMeasurementGroup
    | Run(stage: Stage)                                             // identify, calibrate or fuse
  {
    /** The collaborator that receives this call. */
    function Target(): Stage
    {
      if AddMeasurementGroup? || Run? then stage else Skeleton
    }
  }

  /** Position of a stage in the per-cycle pipeline. */
  function Rank(s: Stage): nat
  {
    match s
    case Correlator => 0
    case Calibrator => 1
    case Skeleton => 2
  }

  /**
   * The calls one fuse() makes when its buffer holds `batch`: each stage in
   * pipeline order is handed the whole batch and then run on it.
   */
  function FuseCycle(batch: seq<Measurement>): (r: seq<Call>)
    ensures |r| == 6
    ensures forall i, j | 0 <= i < j < |r| :: Rank(r[i].Target()) <= Rank(r[j].Target())
    ensures forall k | 0 <= k < |r| && r[k].AddMeasurementGroup? :: r[k].batch == batch
    ensures forall k | 0 <= k < |r| && r[k].Run? :: 0 < k && r[k - 1] == AddMeasurementGroup(r[k].stage, batch)
    ensures forall k | 0 <= k < |r| :: r[k].AddMeasurementGroup? || r[k].Run?
    ensures r[0].Target() == Correlator && r[|r| - 1] == Run(Skeleton)
  {
    [AddMeasurementGroup(Correlator, batch), Run(Correlator),
     AddMeasurementGroup(Calibrator, batch), Run(Calibrator),
     AddMeasurementGroup(Skeleton, batch), Run(Skeleton)]
  }

  /** A call that hands no measurements to any stage. */
  predicate IsSetup(c: Call)
  {
    !c.AddMeasurementGroup? && !c.Run?
  }

  /** The batches handed to `stage`, in the order they were handed over. */
  function Delivered(trace: seq<Call>, stage: Stage): seq<seq<Measurement>>
  {
    if trace == [] then []
    else
      (if trace[0].AddMeasurementGroup? && trace[0].stage == stage then [trace[0].batch] else [])
      + Delivered(trace[1..], stage)
  }

  /** The measurements of a sequence of batches, one after another. */
  function Flatten(batches: seq<seq<Measurement>>): seq<Measurement>
  {
    if batches == [] then [] else batches[0] + Flatten(batches[1..])
  }

  lemma {:induction false} DeliveredAppend(a: seq<Call>, b: seq<Call>, stage: Stage)
    ensures Delivered(a + b, stage) == Delivered(a, stage) + Delivered(b, stage)
  {
    if a == [] {
      assert a + b == b;
    } else {
      assert (a + b)[1..] == a[1..] + b;
      DeliveredAppend(a[1..], b, stage);
    }
  }

  lemma {:induction false} FlattenAppend(a: seq<seq<Measurement>>, b: seq<seq<Measurement>>)
    ensures Flatten(a + b) == Flatten(a) + Flatten(b)
  {
    if a == [] {
      assert a + b == b;
    } else {
      assert (a + b)[1..] == a[1..] + b;
      FlattenAppend(a[1..], b);
    }
  }

  /** Setup calls hand no batch to any stage. */
  lemma {:induction false} SetupDeliversNothing(calls: seq<Call>, stage: Stage)
    requires forall k | 0 <= k < |calls| :: IsSetup(calls[k])
    ensures Delivered(calls, stage) == []
  {
    if calls != [] {
      SetupDeliversNothing(calls[1..], stage);
    }
  }

  /** One fuse cycle hands every stage exactly the one batch, once. */
  lemma FuseCycleDelivers(batch: seq<Measurement>, stage: Stage)
    ensures Delivered(FuseCycle(batch), stage) == [batch]
  {
    var correlator := [AddMeasurementGroup(Correlator, batch), Run(Correlator)];
    var calibrator := [AddMeasurementGroup(Calibrator, batch), Run(Calibrator)];
    var skeleton := [AddMeasurementGroup(Skeleton, batch), Run(Skeleton)];
    assert FuseCycle(batch) == correlator + calibrator + skeleton;
    DeliveredAppend(correlator + calibrator, skeleton, stage);
    DeliveredAppend(correlator, calibrator, stage);
    assert correlator[1..][1..] == calibrator[1..][1..] == skeleton[1..][1..] == [];
    assert Delivered(correlator, stage) == if stage == Correlator then [batch] else [];
    assert Delivered(calibrator, stage) == if stage == Calibrator then [batch] else [];
    assert Delivered(skeleton, stage) == if stage == Skeleton then [batch] else [];
  }

  /**
   * The pipeline's bookkeeping: all three stages have been handed the same
   * batches, and those batches followed by what is still buffered are exactly
   * the measurements accepted so far, in order: none lost, none handed over twice.
   */
  ghost predicate Consistent(trace: seq<Call>, accepted: seq<Measurement>, buffer: seq<Measurement>)
  {
    && Delivered(trace, Calibrator) == Delivered(trace, Correlator)
    && Delivered(trace, Skeleton) == Delivered(trace, Correlator)
    && Flatten(Delivered(trace, Correlator)) + buffer == accepted
  }

  /** A fuse cycle on the whole buffer keeps the bookkeeping with an empty buffer. */
  lemma FuseCycleConsistent(trace: seq<Call>, accepted: seq<Measurement>, buffer: seq<Measurement>)
    requires Consistent(trace, accepted, buffer)
    ensures Consistent(trace + FuseCycle(buffer), accepted, [])
  {
    var t := trace + FuseCycle(buffer);
    forall stage ensures Delivered(t, stage) == Delivered(trace, stage) + [buffer] {
      DeliveredAppend(trace, FuseCycle(buffer), stage);
      FuseCycleDelivers(buffer, stage);
    }
    FlattenAppend(Delivered(trace, Correlator), [buffer]);
    assert Flatten([buffer]) == buffer + Flatten([]);
  }

  /** Setup calls keep the bookkeeping. */
  lemma SetupConsistent(trace: seq<Call>, calls: seq<Call>, accepted: seq<Measurement>, buffer: seq<Measurement>)
    requires Consistent(trace, accepted, buffer)
    requires forall k | 0 <= k < |calls| :: IsSetup(calls[k])
    ensures Consistent(trace + calls, accepted, buffer)
  {
    forall stage ensures Delivered(trace + calls, stage) == Delivered(trace, stage) {
      DeliveredAppend(trace, calls, stage);
      SetupDeliversNothing(calls, stage);
    }
  }
}
