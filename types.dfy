/** Descriptor and value types shared by the fusion core. */
module FusionTypes {

  /** Name of a skeletal node; a string, since a lookup can answer the literal "UNKNOWN". */
  type NodeDescriptor = string

  /** Identity of a tracking system. Only equality matters to the core. */
  type SystemDescriptor(==,0,!new)

  /** Identity of a sensor within its system. Only equality matters to the core. */
  type SensorID(==,0,!new)

  /** A rigid transform. The core only passes transforms on, so it is left uninterpreted. */
  type Transform3D

  /** The sentinel node name reported for a sensor that was never registered. */
  const Unknown: NodeDescriptor := "UNKNOWN"

  datatype Option<T> = None | Some(value: T)
}
