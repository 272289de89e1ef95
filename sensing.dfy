/** The per-sensor record and the measurement that points at it. */
module Sensing {
  import opened FusionTypes

  /**
   * A physical tracker endpoint. The Core's registry owns it; measurements
   * hold a non-owning reference to it.
   */
  class Sensor {
    var system: SystemDescriptor
    var id: SensorID
    /** Every node handed to addNode, in call order (the candidates for this sensor). */
    var candidates: seq<NodeDescriptor>
    /** The node getNode() reports; the core never writes it, and the stages run by Fuse may. */
    var node: NodeDescriptor

    /** A default-constructed record: its system and id are assigned by the registry afterwards. */
    constructor ()
      ensures candidates == []
    {
      candidates := [];
    }

    /** Records one candidate node for this sensor. */
    method AddNode(n: NodeDescriptor)
      modifies this`candidates
      ensures candidates == old(candidates) + [n]
    {
      candidates := candidates + [n];
    }

    function GetNode(): NodeDescriptor
      reads this`node
    {
      node
    }
  }

  /** One observation. Only its binding to a Sensor matters to the core. */
  class Measurement {
    var sensor: Sensor?

    constructor ()
      ensures sensor == null
    {
      sensor := null;
    }

    method SetSensor(s: Sensor)
      modifies this`sensor
      ensures sensor == s
    {
      sensor := s;
    }
  }
}
