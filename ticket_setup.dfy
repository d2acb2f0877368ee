/**
 * The `/ticket-setup` command: maps a ticket type to a channel category,
 * optionally sets the log channel and adds a staff role, creating the guild's
 * configuration when it has none.
 */
module TicketSetup {
  import opened Wrappers
  import opened GuildConfigModel

  /** `if (!ids.includes(roleId)) ids.push(roleId)`. */
  function WithRole(ids: seq<string>, roleId: string): (r: seq<string>)
    ensures roleId in r
    ensures forall x :: x in r <==> x in ids || x == roleId
    ensures r == ids || r == ids + [roleId]
  {
    if roleId in ids then ids else ids + [roleId]
  }

  /** Adding a role never creates a repeat, and adding it again changes nothing. */
  lemma WithRoleProperties(ids: seq<string>, roleId: string)
    ensures NoDuplicates(ids) ==> NoDuplicates(WithRole(ids, roleId))
    ensures WithRole(WithRole(ids, roleId), roleId) == WithRole(ids, roleId)
  {
  }

  /** The configuration after the command; the save fails (and nothing changes) for an empty guild id. */
  function TicketSetupStep(configs: map<string, GuildConfig>, guildId: string, kind: string, categoryId: string,
                           logChannelId: Option<string>, staffRoleId: Option<string>): (r: map<string, GuildConfig>)
    ensures guildId == "" ==> r == configs
    ensures guildId != "" ==>
              && r.Keys == configs.Keys + {guildId}
              && (forall g :: g in configs && g != guildId ==> r[g] == configs[g])
              && var before := if guildId in configs then configs[guildId] else NewGuildConfig(guildId);
                 var after := r[guildId];
                 && after.ticketCategories == WithCategory(before.ticketCategories, kind, categoryId)
                 && after.ticketLogChannelId == (if logChannelId.Some? then logChannelId else before.ticketLogChannelId)
                 && after.staffRoleIds == (if staffRoleId.Some? then WithRole(before.staffRoleIds, staffRoleId.value) else before.staffRoleIds)
                 && after == before.(ticketCategories := after.ticketCategories, ticketLogChannelId := after.ticketLogChannelId,
                                     staffRoleIds := after.staffRoleIds)
  {
    if guildId == "" then configs
    else
      var before := if guildId in configs then configs[guildId] else NewGuildConfig(guildId);
      var after := before.(
        ticketCategories := WithCategory(before.ticketCategories, kind, categoryId),
        ticketLogChannelId := if logChannelId.Some? then logChannelId else before.ticketLogChannelId,
        staffRoleIds := if staffRoleId.Some? then WithRole(before.staffRoleIds, staffRoleId.value) else before.staffRoleIds);
      configs[guildId := after]
  }

  method SetupTickets(configs: GuildConfigs, guildId: string, kind: string, categoryId: string,
                      logChannelId: Option<string>, staffRoleId: Option<string>)
    requires configs.Valid()
    modifies configs
    ensures configs.Valid()
    ensures configs.records == TicketSetupStep(old(configs.records), guildId, kind, categoryId, logChannelId, staffRoleId)
  {
    var config := if guildId in configs.records then configs.records[guildId] else NewGuildConfig(guildId);
    config := config.(ticketCategories := WithCategory(config.ticketCategories, kind, categoryId));
    if logChannelId.Some? {
      config := config.(ticketLogChannelId := logChannelId);
    }
    if staffRoleId.Some? {
      if staffRoleId.value !in config.staffRoleIds {
        config := config.(staffRoleIds := config.staffRoleIds + [staffRoleId.value]);
      }
    }
    if guildId == "" {
      return;
    }
    configs.records := configs.records[guildId := config];
  }

  /** Configuring one type keeps the categories of the other types. */
  lemma SetupKeepsOtherCategories(configs: map<string, GuildConfig>, guildId: string, kind: string, categoryId: string,
                                  logChannelId: Option<string>, staffRoleId: Option<string>, other: string)
    requires guildId in configs && other != kind
    ensures CategoryFor(TicketSetupStep(configs, guildId, kind, categoryId, logChannelId, staffRoleId)[guildId].ticketCategories, other)
            == CategoryFor(configs[guildId].ticketCategories, other)
  {
  }
}
