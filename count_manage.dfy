/**
 * The `/count reset` and `/count set <number>` commands on the counting
 * record of the channel they are used in.
 */
module CountManage {
  import opened Wrappers
  import opened Text
  import opened GuildConfigModel
  import opened CountingModel
  import CS = CountingService

  datatype Subcommand = Reset | SetTo(number: int)

  datatype ManageReply = NotCountingChannel | CountingDataNotFound | ResetDone | NegativeRejected | SetDone(next: int)

  /**
   * The channel must be a configured counting channel with a record. `reset`
   * clears the number, the last counter and the streak; `set n` (n >= 0)
   * stores n with the admin as last counter and keeps the streak.
   */
  function ManageStep(configs: map<string, GuildConfig>, records: map<CountingKey, Counting>, guildId: string,
                      channelId: string, adminId: string, sub: Subcommand): (r: (ManageReply, map<CountingKey, Counting>))
    ensures r.0 == NotCountingChannel <==> guildId !in configs || channelId !in configs[guildId].countingChannelIds
    ensures r.0 == CountingDataNotFound <==>
              guildId in configs && channelId in configs[guildId].countingChannelIds && (guildId, channelId) !in records
    ensures r.0 == ResetDone ==>
              sub == Reset
              && r.1 == records[(guildId, channelId) := records[(guildId, channelId)].(lastNumber := 0, lastUserId := None, streak := 0)]
    ensures r.0 == NegativeRejected <==> r.0 != NotCountingChannel && r.0 != CountingDataNotFound && sub.SetTo? && sub.number < 0
    ensures r.0.SetDone? ==>
              sub.SetTo? && sub.number >= 0 && r.0.next == sub.number + 1
              && r.1 == records[(guildId, channelId) := records[(guildId, channelId)].(lastNumber := sub.number, lastUserId := Some(adminId))]
    ensures r.0 != ResetDone && !r.0.SetDone? ==> r.1 == records
  {
    var key := (guildId, channelId);
    if guildId !in configs || channelId !in configs[guildId].countingChannelIds then (NotCountingChannel, records)
    else if key !in records then (CountingDataNotFound, records)
    else
      var counting := records[key];
      match sub
      case Reset => (ResetDone, records[key := counting.(lastNumber := 0, lastUserId := None, streak := 0)])
      case SetTo(n) =>
        if n < 0 then (NegativeRejected, records)
        else (SetDone(n + 1), records[key := counting.(lastNumber := n, lastUserId := Some(adminId))])
  }

  method Manage(configs: GuildConfigs, db: Countings, guildId: string, channelId: string, adminId: string, sub: Subcommand)
    returns (reply: ManageReply)
    requires db.Valid()
    modifies db
    ensures db.Valid()
    ensures (reply, db.records) == ManageStep(configs.records, old(db.records), guildId, channelId, adminId, sub)
  {
    if guildId !in configs.records || channelId !in configs.records[guildId].countingChannelIds {
      return NotCountingChannel;
    }
    var key := (guildId, channelId);
    if key !in db.records {
      return CountingDataNotFound;
    }
    var counting := db.records[key];
    match sub {
      case Reset =>
        counting := counting.(lastNumber := 0);
        counting := counting.(lastUserId := None);
        counting := counting.(streak := 0);
        db.records := db.records[key := counting];
        reply := ResetDone;
      case SetTo(n) =>
        if n < 0 {
          return NegativeRejected;
        }
        counting := counting.(lastNumber := n);
        counting := counting.(lastUserId := Some(adminId));
        db.records := db.records[key := counting];
        reply := SetDone(n + 1);
    }
  }

  /** After `reset`, the next accepted message is `1`, from anyone. */
  lemma ResetThenCountOne(configs: map<string, GuildConfig>, records: map<CountingKey, Counting>, guildId: string,
                          channelId: string, adminId: string, msg: CS.ChatMessage)
    requires ManageStep(configs, records, guildId, channelId, adminId, Reset).0 == ResetDone
    requires msg.guildId == guildId && msg.channelId == channelId && !msg.authorIsBot && msg.content == "1"
    ensures var after := ManageStep(configs, records, guildId, channelId, adminId, Reset).1;
            CS.CountingStep(configs, after, msg, CS.Lookup(after, msg)).0 == CS.Counted(1)
  {
    assert IsDigitString("1");
    assert DigitsValue("1") == 1 by {
      assert "1"[..0] == "";
    }
  }

  /**
   * After `set n` by an admin, the next accepted number is n + 1 — but not
   * from that admin, who now counts as the last counter.
   */
  lemma SetThenCountNext(configs: map<string, GuildConfig>, records: map<CountingKey, Counting>, guildId: string,
                         channelId: string, adminId: string, n: nat, msg: CS.ChatMessage)
    requires ManageStep(configs, records, guildId, channelId, adminId, SetTo(n)).0.SetDone?
    requires msg.guildId == guildId && msg.channelId == channelId && !msg.authorIsBot && msg.content == NatToString(n + 1)
    ensures var after := ManageStep(configs, records, guildId, channelId, adminId, SetTo(n)).1;
            CS.CountingStep(configs, after, msg, CS.Lookup(after, msg)).0
            == if msg.authorId == adminId then CS.SameUser else CS.Counted(n + 1)
  {
    NatToStringRoundTrip(n + 1);
  }
}
