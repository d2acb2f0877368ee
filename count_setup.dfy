/**
 * The `/count-setup add|remove <channel>` command: edits the guild's list of
 * counting channels and creates or deletes the channel's counting record.
 */
module CountSetup {
  import opened Wrappers
  import opened GuildConfigModel
  import opened CountingModel

  datatype SetupSubcommand = Add | Remove

  datatype SetupReply = AlreadyCounting | AddFailed | Added | NotCounting | Removed

  /** `ids.filter(id => id !== channelId)`. */
  function Without(ids: seq<string>, channelId: string): (r: seq<string>)
    ensures channelId !in r
    ensures |r| <= |ids|
  {
    if ids == [] then []
    else (if ids[0] == channelId then [] else [ids[0]]) + Without(ids[1..], channelId)
  }

  /** Filtering keeps exactly the other channels. */
  lemma {:induction false} WithoutMembers(ids: seq<string>, channelId: string, x: string)
    ensures x in Without(ids, channelId) <==> x in ids && x != channelId
  {
    if ids != [] {
      WithoutMembers(ids[1..], channelId, x);
      assert ids == [ids[0]] + ids[1..];
    }
  }

  /** Removing a channel that is not listed leaves the list as it was. */
  lemma {:induction false} WithoutAbsent(ids: seq<string>, channelId: string)
    requires channelId !in ids
    ensures Without(ids, channelId) == ids
  {
    if ids != [] {
      WithoutAbsent(ids[1..], channelId);
    }
  }

  /** Filtering distributes over concatenation, so the other channels keep their order. */
  lemma {:induction false} WithoutAppend(a: seq<string>, b: seq<string>, channelId: string)
    ensures Without(a + b, channelId) == Without(a, channelId) + Without(b, channelId)
  {
    if a == [] {
      assert a + b == b;
    } else {
      var head := if a[0] == channelId then [] else [a[0]];
      assert (a + b)[0] == a[0] && (a + b)[1..] == a[1..] + b;
      assert Without(a + b, channelId) == head + Without(a[1..] + b, channelId);
      assert Without(a, channelId) == head + Without(a[1..], channelId);
      WithoutAppend(a[1..], b, channelId);
      assert head + (Without(a[1..], channelId) + Without(b, channelId))
          == (head + Without(a[1..], channelId)) + Without(b, channelId);
    }
  }

  lemma {:induction false} WithoutKeepsNoDuplicates(ids: seq<string>, channelId: string)
    requires NoDuplicates(ids)
    ensures NoDuplicates(Without(ids, channelId))
  {
    if ids != [] {
      WithoutKeepsNoDuplicates(ids[1..], channelId);
      var rest := Without(ids[1..], channelId);
      assert ids[0] !in ids[1..];
      WithoutMembers(ids[1..], channelId, ids[0]);
    }
  }

  /** The guild's configuration, or a fresh one with the schema defaults. */
  function ConfigOrNew(configs: map<string, GuildConfig>, guildId: string): (c: GuildConfig)
    ensures guildId in configs ==> c == configs[guildId]
    ensures guildId !in configs ==> c == NewGuildConfig(guildId)
  {
    if guildId in configs then configs[guildId] else NewGuildConfig(guildId)
  }

  /**
   * `add` rejects a listed channel; otherwise it creates the counting record
   * (which fails on the unique index or a missing id, before anything is
   * saved) and saves the configuration with the channel appended. `remove`
   * rejects an unlisted channel; otherwise it drops the channel from the list
   * and deletes its record.
   */
  function SetupStep(configs: map<string, GuildConfig>, countings: map<CountingKey, Counting>, guildId: string,
                     channelId: string, sub: SetupSubcommand): (r: (SetupReply, map<string, GuildConfig>, map<CountingKey, Counting>))
    ensures var ids := ConfigOrNew(configs, guildId).countingChannelIds;
            && (r.0 == AlreadyCounting <==> sub == Add && channelId in ids)
            && (r.0 == NotCounting <==> sub == Remove && channelId !in ids)
            && (r.0 == AddFailed <==>
                  sub == Add && channelId !in ids && ((guildId, channelId) in countings || guildId == "" || channelId == ""))
            && (r.0 == Added <==>
                  sub == Add && channelId !in ids && (guildId, channelId) !in countings && guildId != "" && channelId != "")
            && (r.0 == Removed <==> sub == Remove && channelId in ids)
            && (r.0 == Added ==>
                  && r.1 == configs[guildId := ConfigOrNew(configs, guildId).(countingChannelIds := ids + [channelId])]
                  && r.2 == countings[(guildId, channelId) := NewCounting(guildId, channelId)]
                  && (guildId, channelId) !in countings)
            && (r.0 == Removed ==>
                  && r.1 == configs[guildId := ConfigOrNew(configs, guildId).(countingChannelIds := Without(ids, channelId))]
                  && r.2 == countings - {(guildId, channelId)})
            && (r.0 != Added && r.0 != Removed ==> r.1 == configs && r.2 == countings)
  {
    var config := ConfigOrNew(configs, guildId);
    var key := (guildId, channelId);
    match sub
    case Add =>
      if channelId in config.countingChannelIds then (AlreadyCounting, configs, countings)
      else if key in countings || !Admits(NewCounting(guildId, channelId)) then (AddFailed, configs, countings)
      else (Added, configs[guildId := config.(countingChannelIds := config.countingChannelIds + [channelId])],
            countings[key := NewCounting(guildId, channelId)])
    case Remove =>
      if channelId !in config.countingChannelIds then (NotCounting, configs, countings)
      else (Removed, configs[guildId := config.(countingChannelIds := Without(config.countingChannelIds, channelId))],
            countings - {key})
  }

  method Setup(configs: GuildConfigs, countings: Countings, guildId: string, channelId: string, sub: SetupSubcommand)
    returns (reply: SetupReply)
    requires configs.Valid() && countings.Valid()
    modifies configs, countings
    ensures configs.Valid() && countings.Valid()
    ensures (reply, configs.records, countings.records)
            == SetupStep(old(configs.records), old(countings.records), guildId, channelId, sub)
  {
    var config := if guildId in configs.records then configs.records[guildId] else NewGuildConfig(guildId);
    var key := (guildId, channelId);
    match sub {
      case Add =>
        if channelId in config.countingChannelIds {
          return AlreadyCounting;
        }
        config := config.(countingChannelIds := config.countingChannelIds + [channelId]);
        if key in countings.records || !Admits(NewCounting(guildId, channelId)) {
          return AddFailed;
        }
        countings.records := countings.records[key := NewCounting(guildId, channelId)];
        configs.records := configs.records[guildId := config];
        reply := Added;
      case Remove =>
        if channelId !in config.countingChannelIds {
          return NotCounting;
        }
        config := config.(countingChannelIds := Without(config.countingChannelIds, channelId));
        countings.records := countings.records - {key};
        configs.records := configs.records[guildId := config];
        reply := Removed;
    }
  }

  /** Both subcommands keep the guild's list of counting channels free of repeats. */
  lemma SetupKeepsNoDuplicates(configs: map<string, GuildConfig>, countings: map<CountingKey, Counting>, guildId: string,
                               channelId: string, sub: SetupSubcommand)
    requires NoDuplicates(ConfigOrNew(configs, guildId).countingChannelIds)
    ensures NoDuplicates(ConfigOrNew(SetupStep(configs, countings, guildId, channelId, sub).1, guildId).countingChannelIds)
  {
    var ids := ConfigOrNew(configs, guildId).countingChannelIds;
    var r := SetupStep(configs, countings, guildId, channelId, sub);
    if r.0 == Removed {
      WithoutKeepsNoDuplicates(ids, channelId);
    }
  }

  /** Adding a channel and removing it again restores the list and the counting records. */
  lemma AddThenRemoveRestores(configs: map<string, GuildConfig>, countings: map<CountingKey, Counting>, guildId: string,
                              channelId: string)
    requires SetupStep(configs, countings, guildId, channelId, Add).0 == Added
    ensures var added := SetupStep(configs, countings, guildId, channelId, Add);
            var removed := SetupStep(added.1, added.2, guildId, channelId, Remove);
            && removed.0 == Removed
            && removed.1[guildId].countingChannelIds == ConfigOrNew(configs, guildId).countingChannelIds
            && removed.2 == countings
  {
    var ids := ConfigOrNew(configs, guildId).countingChannelIds;
    WithoutAppend(ids, [channelId], channelId);
    WithoutAbsent(ids, channelId);
    assert Without([channelId], channelId) == [] by {
      assert [channelId][1..] == [];
    }
    assert ids + [] == ids;
  }
}
