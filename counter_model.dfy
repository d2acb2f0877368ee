/**
 * The legacy per-guild counter record (`Counter`) used by the `resetcount`
 * prefix command, and its collection keyed by the unique `guildId`.
 */
module CounterModel {
  import opened Wrappers

  datatype Counter = Counter(
    guildId: string,
    channelId: Option<string>,
    currentNumber: int,
    lastUserId: Option<string>)

  /** `new Counter({ guildId, channelId })`: `currentNumber` 1 and `lastUserId` null by default. */
  function NewCounter(guildId: string, channelId: Option<string>): (c: Counter)
    ensures c.guildId == guildId && c.channelId == channelId
    ensures c.currentNumber == 1 && c.lastUserId.None?
  {
    Counter(guildId, channelId, 1, None)
  }

  /** Both `guildId` and `channelId` are required. */
  predicate Admits(c: Counter) {
    c.guildId != "" && Truthy(c.channelId)
  }

  /** The `counters` collection: one record per guild. */
  class Counters {
    var records: map<string, Counter>

    ghost predicate Valid()
      reads this
    {
      forall g :: g in records ==> records[g].guildId == g && Admits(records[g])
    }

    constructor ()
      ensures Valid() && records == map[]
    {
      records := map[];
    }
  }
}
