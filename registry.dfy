/**
 * The sensor registry as a value: a table from system to sensor id to the
 * Sensor record that the Core owns.
 */
module SensorRegistry {
  import opened FusionTypes
  import opened Sensing

  type SensorTable = map<SystemDescriptor, map<SensorID, Sensor>>

  /** The record registered for (system, id), if any; a lookup that never inserts. */
  function Find(table: SensorTable, system: SystemDescriptor, id: SensorID): Option<Sensor>
  {
    if system in table && id in table[system] then Some(table[system][id]) else None
  }

  /** Every record the table owns. */
  ghost function Sensors(table: SensorTable): set<Sensor>
  {
    set system, id | system in table && id in table[system] :: table[system][id]
  }

  /**
   * The table after safeAccess(table, system): the inner map of `system`,
   * an empty one inserted when the system is absent. Nothing is removed or replaced.
   */
  function SafeAccess(table: SensorTable, system: SystemDescriptor): (r: SensorTable)
    ensures r.Keys == table.Keys + {system}
    ensures forall s :: s in table ==> r[s] == table[s]
    ensures system !in table ==> r[system] == map[]
  {
    if system in table then table else table[system := map[]]
  }

  /**
   * The table after get-or-create of (system, id), where `created` is the
   * record that is allocated when the pair is unseen.
   */
  function Bind(table: SensorTable, system: SystemDescriptor, id: SensorID, created: Sensor): (r: SensorTable)
    ensures Find(table, system, id).Some? ==> Find(r, system, id) == Find(table, system, id)
    ensures Find(table, system, id).None? ==> Find(r, system, id) == Some(created)
    ensures forall s, i :: s != system || i != id ==> Find(r, s, i) == Find(table, s, i)
    ensures r.Keys == table.Keys + {system}
  {
    var t := SafeAccess(table, system);
    if id in t[system] then t else t[system := t[system][id := created]]
  }

  /** Each record's own system and id name the slot that owns it. */
  ghost predicate Labelled(table: SensorTable)
    reads Sensors(table)
  {
    forall system, id | system in table && id in table[system] ::
      table[system][id].system == system && table[system][id].id == id
  }

  /** Distinct slots own distinct records: the table holds unique owners. */
  ghost predicate Owned(table: SensorTable)
  {
    forall s1, i1, s2, i2 |
      s1 in table && i1 in table[s1] && s2 in table && i2 in table[s2] && (s1 != s2 || i1 != i2) ::
      table[s1][i1] != table[s2][i2]
  }

  /** Binding an unseen pair adds exactly the new record; binding a known pair adds none. */
  lemma BindSensors(table: SensorTable, system: SystemDescriptor, id: SensorID, created: Sensor)
    ensures Find(table, system, id).None? ==> Sensors(Bind(table, system, id, created)) == Sensors(table) + {created}
    ensures Find(table, system, id).Some? ==> Sensors(Bind(table, system, id, created)) == Sensors(table)
  {
    var r := Bind(table, system, id, created);
    if Find(table, system, id).None? {
      assert created == r[system][id];
      forall o | o in Sensors(r) ensures o in Sensors(table) + {created} {
        var s, i :| s in r && i in r[s] && r[s][i] == o;
        if s != system || i != id {
          assert Find(r, s, i) == Find(table, s, i);
        }
      }
      forall o | o in Sensors(table) ensures o in Sensors(r) {
        var s, i :| s in table && i in table[s] && table[s][i] == o;
        assert Find(r, s, i) == Find(table, s, i);
      }
    } else {
      assert r == table;
    }
  }

  /** Get-or-create is idempotent: a second bind of the same pair leaves the table as the first left it. */
  lemma BindIdempotent(table: SensorTable, system: SystemDescriptor, id: SensorID, first: Sensor, second: Sensor)
    ensures Bind(Bind(table, system, id, first), system, id, second) == Bind(table, system, id, first)
  {
  }

  /** A fresh record keeps the table's records uniquely owned. */
  lemma BindOwned(table: SensorTable, system: SystemDescriptor, id: SensorID, created: Sensor)
    requires Owned(table)
    requires created !in Sensors(table)
    ensures Owned(Bind(table, system, id, created))
  {
  }
}
