/**
 * The part of the shared key-value bus the vision code writes to: one
 * table whose entries hold arrays of numbers. Writes are last-write-wins
 * and replace the whole array.
 */
module NetworkTables {

  class NetworkTable {
    /** The current value of every entry that has been written. */
    var entries: map<string, seq<real>>

    constructor ()
      ensures entries == map[]
    {
      entries := map[];
    }

    /** `getEntry(key).setDoubleArray(value)`: replaces that entry and
        leaves every other entry as it was. */
    method SetDoubleArray(key: string, value: seq<real>)
      modifies this
      ensures entries == old(entries)[key := value]
    {
      entries := entries[key := value];
    }
  }
}
