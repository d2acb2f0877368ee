/**
 * The per-guild settings record (`GuildConfig`), its schema defaults, and the
 * collection that holds one record per guild id.
 */
module GuildConfigModel {
  import opened Wrappers

  /** The four ticket kinds a guild can map to a channel category. */
  datatype TicketCategories = TicketCategories(
    support: Option<string>,
    issues: Option<string>,
    partnership: Option<string>,
    other: Option<string>)

  datatype GuildConfig = GuildConfig(
    guildId: string,
    staffRoleIds: seq<string>,
    ticketCategories: TicketCategories,
    ticketLogChannelId: Option<string>,
    ticketCloseDelaySeconds: int,
    countingChannelIds: seq<string>,
    countingEmoji: string,
    deleteWrongMessages: bool)

  const DefaultCountingEmoji: string := "✅"

  /** `new GuildConfig({ guildId })`: every other field takes its schema default. */
  function NewGuildConfig(guildId: string): (c: GuildConfig)
    ensures c.guildId == guildId
    ensures c.staffRoleIds == [] && c.countingChannelIds == []
    ensures c.ticketCategories == TicketCategories(None, None, None, None)
    ensures c.ticketLogChannelId.None?
    ensures c.ticketCloseDelaySeconds == 5
    ensures c.countingEmoji == DefaultCountingEmoji && c.deleteWrongMessages
  {
    GuildConfig(guildId, [], TicketCategories(None, None, None, None), None, 5, [], DefaultCountingEmoji, true)
  }

  /** `ticketCategories[type]`: the category id stored under one of the four names, else absent. */
  function CategoryFor(cats: TicketCategories, kind: string): (r: Option<string>)
    ensures kind !in {"support", "issues", "partnership", "other"} ==> r.None?
  {
    match kind
    case "support" => cats.support
    case "issues" => cats.issues
    case "partnership" => cats.partnership
    case "other" => cats.other
    case _ => None
  }

  /** `{ ...ticketCategories, [type]: id }` for one of the four names (other names are not in the schema). */
  function WithCategory(cats: TicketCategories, kind: string, id: string): (r: TicketCategories)
    ensures kind in {"support", "issues", "partnership", "other"} ==> CategoryFor(r, kind) == Some(id)
    ensures forall k :: k != kind ==> CategoryFor(r, k) == CategoryFor(cats, k)
  {
    match kind
    case "support" => cats.(support := Some(id))
    case "issues" => cats.(issues := Some(id))
    case "partnership" => cats.(partnership := Some(id))
    case "other" => cats.(other := Some(id))
    case _ => cats
  }

  /** The `guildconfigs` collection; `guildId` is its unique key. */
  class GuildConfigs {
    var records: map<string, GuildConfig>

    ghost predicate Valid()
      reads this
    {
      forall g :: g in records ==> records[g].guildId == g && g != ""
    }

    constructor ()
      ensures Valid() && records == map[]
    {
      records := map[];
    }
  }

  /** An id list without repeats, as the staff-role and counting-channel lists are kept. */
  predicate NoDuplicates(ids: seq<string>) {
    forall i, j :: 0 <= i < j < |ids| ==> ids[i] != ids[j]
  }
}
