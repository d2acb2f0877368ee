/**
 * The legacy `resetcount` prefix command: staff or administrators reset the
 * guild's counter to the configured start number.
 */
module ResetCount {
  import opened Wrappers
  import opened Text
  import opened CounterModel

  /** The environment settings the command reads. */
  datatype ResetEnv = ResetEnv(staffRoleId: Option<string>, countingChannelId: Option<string>, startNumberText: Option<string>)

  /** `parseInt(COUNTING_START_NUMBER || '1', 10)`; absent when the text is not a number. */
  function StartNumber(env: ResetEnv): (r: Option<int>)
    ensures !Truthy(env.startNumberText) ==> r == Some(1)
  {
    var text := if Truthy(env.startNumberText) then env.startNumberText.value else "1";
    assert IsDigitString("1") && DigitsValue("1") == 1 by {
      assert "1"[..0] == "";
    }
    ParseIntOfDigits("1");
    ParseInt(text)
  }

  /** The start number defaults to 1 and otherwise reads a plain decimal setting as its value. */
  lemma StartNumberOfDigits(env: ResetEnv)
    requires env.startNumberText.Some? && IsDigitString(env.startNumberText.value)
    ensures StartNumber(env) == Some(DigitsValue(env.startNumberText.value) as int)
  {
    ParseIntOfDigits(env.startNumberText.value);
  }

  datatype ResetReply = NoPermission | ResetTo(start: int) | ResetFailed

  /**
   * Callers without the staff role and without Administrator are refused.
   * Otherwise the counter (created with the configured counting channel if
   * missing) gets the start number and no last user; the save fails, and
   * nothing changes, when a new counter has no channel or the start number is
   * not a number.
   */
  function ResetStep(counters: map<string, Counter>, env: ResetEnv, guildId: string, memberRoles: set<string>,
                     isAdmin: bool): (r: (ResetReply, map<string, Counter>))
    ensures r.0 == NoPermission <==> !(env.staffRoleId.Some? && env.staffRoleId.value in memberRoles) && !isAdmin
    ensures r.0.ResetTo? ==>
              && StartNumber(env) == Some(r.0.start)
              && r.1.Keys == counters.Keys + {guildId}
              && r.1[guildId].currentNumber == r.0.start && r.1[guildId].lastUserId.None?
              && r.1[guildId].channelId == (if guildId in counters then counters[guildId].channelId else env.countingChannelId)
              && (forall g :: g in counters && g != guildId ==> r.1[g] == counters[g])
    ensures !r.0.ResetTo? ==> r.1 == counters
    ensures var counter := if guildId in counters then counters[guildId] else NewCounter(guildId, env.countingChannelId);
            r.0 == ResetFailed <==>
              ((env.staffRoleId.Some? && env.staffRoleId.value in memberRoles) || isAdmin)
              && (StartNumber(env).None? || counter.guildId == "" || !Truthy(counter.channelId))
    ensures guildId !in counters ==>
              (r.0.ResetTo? <==>
                 ((env.staffRoleId.Some? && env.staffRoleId.value in memberRoles) || isAdmin)
                 && StartNumber(env).Some? && guildId != "" && Truthy(env.countingChannelId))
  {
    if !(env.staffRoleId.Some? && env.staffRoleId.value in memberRoles) && !isAdmin then (NoPermission, counters)
    else
      var counter := if guildId in counters then counters[guildId] else NewCounter(guildId, env.countingChannelId);
      var start := StartNumber(env);
      if start.None? then (ResetFailed, counters)
      else
        var reset := counter.(currentNumber := start.value, lastUserId := None);
        if !Admits(reset) then (ResetFailed, counters) else (ResetTo(start.value), counters[guildId := reset])
  }

  method ResetCounter(db: Counters, env: ResetEnv, guildId: string, memberRoles: set<string>, isAdmin: bool)
    returns (reply: ResetReply)
    requires db.Valid()
    modifies db
    ensures db.Valid()
    ensures (reply, db.records) == ResetStep(old(db.records), env, guildId, memberRoles, isAdmin)
  {
    var hasStaffRole := env.staffRoleId.Some? && env.staffRoleId.value in memberRoles;
    if !hasStaffRole && !isAdmin {
      return NoPermission;
    }
    var counter := if guildId in db.records then db.records[guildId] else NewCounter(guildId, env.countingChannelId);
    var start := StartNumber(env);
    if start.None? {
      return ResetFailed;
    }
    counter := counter.(currentNumber := start.value);
    counter := counter.(lastUserId := None);
    if !Admits(counter) {
      return ResetFailed;
    }
    db.records := db.records[guildId := counter];
    reply := ResetTo(start.value);
  }

  /** With the start number unset, a permitted reset on a configured guild sets the counter to 1. */
  lemma DefaultResetIsOne(counters: map<string, Counter>, env: ResetEnv, guildId: string, memberRoles: set<string>)
    requires guildId in counters && Admits(counters[guildId]) && !Truthy(env.startNumberText)
    ensures ResetStep(counters, env, guildId, memberRoles, true) == (ResetTo(1), counters[guildId := counters[guildId].(currentNumber := 1, lastUserId := None)])
  {
  }
}
