/**
 * The per-channel counting record (`Counting`), its defaults, and the
 * collection whose unique index is the pair (guildId, channelId).
 */
module CountingModel {
  import opened Wrappers

  /** One entry of `topCounters`. */
  datatype Tally = Tally(userId: string, count: int)

  datatype Counting = Counting(
    guildId: string,
    channelId: string,
    lastNumber: int,
    lastUserId: Option<string>,
    streak: int,
    topCounters: seq<Tally>)

  /** The unique index `{ guildId: 1, channelId: 1 }`. */
  type CountingKey = (string, string)

  /** `Counting.create({ guildId, channelId })`: every other field takes its default. */
  function NewCounting(guildId: string, channelId: string): (c: Counting)
    ensures c.guildId == guildId && c.channelId == channelId
    ensures c.lastNumber == 0 && c.lastUserId.None? && c.streak == 0 && c.topCounters == []
  {
    Counting(guildId, channelId, 0, None, 0, [])
  }

  /** The schema's required fields are present (Mongoose rejects `""` for a required string). */
  predicate Admits(c: Counting) {
    c.guildId != "" && c.channelId != ""
  }

  /** The `countings` collection: at most one record per key, stored under its own key. */
  class Countings {
    var records: map<CountingKey, Counting>

    ghost predicate Valid()
      reads this
    {
      forall k :: k in records ==> (records[k].guildId, records[k].channelId) == k && Admits(records[k])
    }

    constructor ()
      ensures Valid() && records == map[]
    {
      records := map[];
    }
  }
}
