# UnrealFusion core orchestrator, modelled in Dafny

UnrealFusion fuses pose measurements from several tracking systems into one
skeleton. `fusion::Core` is the orchestrator: it owns the sensor registry
(tracking system -> sensor id -> Sensor record), a buffer of the measurements
added since the last cycle, and three collaborators: the Skeleton, the
Correlator and the Calibrator. Once per update, `fuse()` hands the buffer to
each collaborator in a fixed order and then empties it.

This project models that orchestration, not the estimation inside the
collaborators:

- `types.dfy` (module `FusionTypes`): node, system and sensor descriptors, and
  an uninterpreted `Transform3D`.
- `sensing.dfy` (module `Sensing`): the `Sensor` record as a class. Its
  `system` and `id` fields are assigned in place. It keeps a log of the nodes
  given to `addNode` and an uninterpreted resolved node. The `Measurement`
  class holds a non-owning reference to its Sensor.
- `registry.dfy` (module `SensorRegistry`): the registry table as a value.
  `Bind` is the get-or-create that `setMeasurementSensorInfo` performs. The
  lemmas say what it adds, what it keeps and that it is idempotent.
- `pipeline.dfy` (module `Pipeline`): the calls the Core makes on its
  collaborators, as a `Call` trace. `FuseCycle` is the call sequence of one
  `fuse()`. `Consistent` says that every stage has been handed the same
  batches, and that those batches followed by the buffer are exactly the
  measurements accepted so far.
- `core.dfy` (module `FusionCore`): the `Core` class, with the registry, the
  buffer, a ghost trace and a ghost log of accepted measurements as fields.
  Each method is proved against the functions above. Each keeps `Valid()`:
  every record's own system and id name the slot that owns it, no two slots
  share a record, and the pipeline bookkeeping is `Consistent`.

## Model

| member | source | states |
|---|---|---|
| FusionCore.Core.AddBoneNode | Source/UnrealFusion/Fusion/Core.cpp:22-26 | exactly two skeleton calls, in order: addNode(node, parent) then setBoneForNode(node, transform); registry and buffer unchanged; invariant kept |
| FusionCore.Core.AddPoseNode | Source/UnrealFusion/Fusion/Core.cpp:28-32 | exactly two skeleton calls, in order: addNode(node, parent) then setPoseNode(node, initial pose); registry and buffer unchanged; invariant kept |
| FusionCore.Core.FinaliseSetup | Source/UnrealFusion/Fusion/Core.cpp:34-37 | exactly one enumerateHeirarchy call and nothing else |
| Pipeline.SetupConsistent | Source/UnrealFusion/Fusion/Core.cpp:22-37 | setup calls hand no measurements to any stage, so they keep the pipeline bookkeeping |
| FusionCore.Core.AddMeasurement | Source/UnrealFusion/Fusion/Core.cpp:40-43 | the measurement's sensor gains exactly the one candidate node; the measurement is appended once at the end of the buffer, earlier entries untouched; no other sensor changes |
| FusionCore.Core.AddMeasurementWithCandidates | Source/UnrealFusion/Fusion/Core.cpp:46-52 | the sensor's candidate log grows by exactly `nodes`, in order (one addNode per element); then the measurement is appended to the buffer exactly once; with no candidates the sensor is never consulted, so an unbound measurement is accepted |
| FusionCore.Core.Fuse | Source/UnrealFusion/Fusion/Core.cpp:55-81 | the trace grows by exactly FuseCycle(old buffer) whatever the two stability signals say; the buffer is empty afterwards; the registry's slots and each record's system and id are untouched, while the stages may rewrite the node and candidates of any registered Sensor or Sensor of a buffered measurement; invariant kept |
| Pipeline.FuseCycle | Source/UnrealFusion/Fusion/Core.cpp:59-74 | six calls: stages in order correlator, calibrator, skeleton; every batch handed over is the whole buffer; each run directly follows that stage's add |
| Pipeline.FuseCycleDelivers | Source/UnrealFusion/Fusion/Core.cpp:59-72 | one cycle hands each of the three stages the buffer exactly once |
| Pipeline.FuseCycleConsistent | Source/UnrealFusion/Fusion/Core.cpp:59-77 | a cycle followed by clearing the buffer loses no accepted measurement and hands none over twice; all stages keep identical batch histories |
| FusionCore.Core.GetCorrelationResult | Source/UnrealFusion/Fusion/Core.cpp:96-105 | "UNKNOWN" when the system or the id is not registered, otherwise the registered sensor's node; no modifies clause, so the registry cannot change |
| FusionCore.Core.SetMeasurementSensorInfo | Source/UnrealFusion/Fusion/Core.cpp:107-117 | registry becomes Bind(old registry, system, id, bound sensor); the measurement is bound to the registry entry for (system, id); a known entry is kept as it was; an unseen pair gets one fresh Sensor labelled with system and id and no candidates; no existing record changes; invariant kept |
| FusionCore.BindTwice | Source/UnrealFusion/Fusion/Core.cpp:110-116 | two bindings of the same pair bind both measurements to one Sensor, and the registry is as after the first |
| SensorRegistry.SafeAccess | Source/UnrealFusion/Fusion/Core.cpp:110-111 | the system is present afterwards; existing inner maps are unchanged; an absent system gets an empty inner map |
| SensorRegistry.Bind | Source/UnrealFusion/Fusion/Core.cpp:110-116 | the pair resolves afterwards: to its old record if it had one, otherwise to the created one; every other pair resolves as before; the system keys grow by at most the given system |
| SensorRegistry.BindSensors | Source/UnrealFusion/Fusion/Core.cpp:110-114 | an unseen pair adds exactly one record (the created one) to the registry; a known pair adds none |
| SensorRegistry.BindIdempotent | Source/UnrealFusion/Fusion/Core.cpp:110-116 | binding the same pair a second time leaves the registry unchanged |
| SensorRegistry.BindOwned | Source/UnrealFusion/Fusion/Core.cpp:111 | a freshly allocated record keeps every slot's record distinct, as a unique owner per slot requires |

## Left out

- The internals of Skeleton, Correlator and Calibrator (identify, calibrate,
  fuse, isStable, getResultsFor, node pose queries) are not part of this
  model: they are floating-point estimators. They appear only as the calls
  recorded in the trace, with the batch each receives.
- `getCalibrationResult`, `getNodeGlobalPose` and `getNodeLocalPose`
  (Core.cpp:83-94) each return one collaborator query unchanged. The
  collaborators are not modelled, so there is nothing to state about them.
- `Transform3D` is an uninterpreted type. No rigid-transform arithmetic is
  modelled.
- The `Sensor` class is not part of this model. `Sensor::addNode` is
  modelled as an append to a log of candidate nodes, with no set or
  resolution semantics. `getNode` returns a field that the core itself never
  writes. The stages run inside `fuse()`, so `Fuse` may change the node and
  the candidates of any registered Sensor, and of any Sensor a buffered
  measurement points at. The model does not say how.
- `utility::safeAccess` is not part of this model. It is assumed to
  return the inner map of `system`, first inserting an empty one if the system
  is absent. This is the behaviour its use at Core.cpp:110-111 needs.
- FusionCore.Core.Fuse and the setup methods assume that every collaborator
  call returns normally. The source has no exception handling. If
  `skeleton.addNode` throws (a duplicate node, say), the `setBoneForNode` or
  `setPoseNode` call after it is skipped. If any stage call in `fuse()`
  throws, the buffer is not cleared, and the next `fuse()` hands the same
  measurements over again. In that case the "none handed over twice" part of
  Pipeline.FuseCycleConsistent does not describe the source.
- Fuse: the `isStable()` results of the correlator and the calibrator are
  parameters, since the collaborators are not modelled. Each is queried
  between two stages, and the `|| true` makes it irrelevant. The queries
  themselves are not recorded in the trace.
- FusionCore.Core.AddMeasurement requires the measurement to be bound to a
  Sensor, because the source dereferences that pointer without a check.
  AddMeasurementWithCandidates requires this only when `nodes` is non-empty,
  because with no candidates the source never dereferences it. Neither
  requires the Sensor to be one in this Core's registry, because the source
  does not check that either.
- The descriptor types are abstract types with equality. Their definitions are
  in headers that are not part of this model. `NodeDescriptor` is a string,
  because the lookup returns the literal "UNKNOWN".
- A measurement's transform, timestamp and other payload are not modelled.
  The core only forwards them.
- Concurrent producers, locking and atomic draining of the buffer are not
  modelled. The source has no locking; the model is sequential.
- The profiling and logging hooks (comments in the source) are not modelled.
- A lookup of an unregistered pair would better return an absent, optional
  result than a magic string. The code returns the string "UNKNOWN", and the
  model follows the code.
- A Sensor's candidate set is meant only to shrink as correlation proceeds.
  The core calls `addNode` once per candidate on every `addMeasurement`
  (Core.cpp:41, 48-50). `Sensor::addNode` is not part of this model, so the
  model records each call in a log and says nothing about whether the
  candidate set grows or shrinks.
