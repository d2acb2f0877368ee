/**
 * The counting game: a message in a configured counting channel must be the
 * next number, posted by someone other than the previous counter. Accepted
 * numbers are committed with a compare-and-set on `lastNumber`, then the
 * author's tally in `topCounters` is raised by one.
 *
 * The state the handler read earlier (`observed`) is a parameter separate
 * from the collection at commit time, so a commit that another handler
 * overtook is part of the model; run one after the other with a fresh read,
 * handlers never lose the race.
 */
module CountingService {
  import opened Wrappers
  import opened Text
  import opened GuildConfigModel
  import opened CountingModel

  datatype ChatMessage = ChatMessage(guildId: string, channelId: string, authorId: string, authorIsBot: bool, content: string)

  datatype Outcome =
    | Ignored
    | InvalidContent
    | NoCountingRecord
    | SameUser
    | WrongNumber(expected: int)
    | LostRace
    | Counted(number: int)

  datatype Effect =
    | DeleteMessage
    | AnnounceWrongNumber(authorId: string, number: int, expected: int)
    | DeleteAnnouncementAfter(millis: nat)
    | React(emoji: string)

  function KeyOf(msg: ChatMessage): CountingKey {
    (msg.guildId, msg.channelId)
  }

  /** The guild has a configuration listing the message's channel as a counting channel. */
  predicate IsCountingChannel(configs: map<string, GuildConfig>, msg: ChatMessage) {
    msg.guildId in configs && msg.channelId in configs[msg.guildId].countingChannelIds
  }

  // ---------------------------------------------------------------------
  // Reaction emoji

  /** The fallback reaction as the handler's source text spells it: the UTF-8 bytes of ✅ decoded as Windows-1252. */
  const AsWrittenFallbackEmoji: string := "\U{00E2}\U{0153}\U{2026}"

  /** `config.countingEmoji || <fallback>` with the fallback as written. */
  function ReactionEmojiAsWritten(cfg: GuildConfig): (r: string)
    ensures cfg.countingEmoji != "" ==> r == cfg.countingEmoji
    ensures cfg.countingEmoji == "" ==> r == AsWrittenFallbackEmoji && r != DefaultCountingEmoji
  {
    if cfg.countingEmoji != "" then cfg.countingEmoji else AsWrittenFallbackEmoji
  }

  /** The configured emoji, falling back to the schema's default ✅. */
  function ReactionEmoji(cfg: GuildConfig): (r: string)
    ensures r != ""
    ensures cfg.countingEmoji != "" ==> r == cfg.countingEmoji
    ensures cfg.countingEmoji == "" ==> r == DefaultCountingEmoji
  {
    if cfg.countingEmoji != "" then cfg.countingEmoji else DefaultCountingEmoji
  }

  /** The two agree except when the configured emoji is empty, where only the corrected one reacts with ✅. */
  lemma FallbackEmojiDiffers(cfg: GuildConfig)
    ensures ReactionEmojiAsWritten(cfg) == ReactionEmoji(cfg) <==> cfg.countingEmoji != ""
  {
  }

  // ---------------------------------------------------------------------
  // Tallies

  /** `topCounters.find(u => u.userId === userId)`: the first entry of the user. */
  function IndexOfUser(ts: seq<Tally>, userId: string): (r: Option<nat>)
    ensures r.Some? ==> r.value < |ts| && ts[r.value].userId == userId
                        && forall j :: 0 <= j < r.value ==> ts[j].userId != userId
    ensures r.None? ==> forall j :: 0 <= j < |ts| ==> ts[j].userId != userId
  {
    if ts == [] then None
    else if ts[0].userId == userId then Some(0)
    else match IndexOfUser(ts[1..], userId)
      case None => None
      case Some(k) => Some(k + 1)
  }

  /** The tallies after one more accepted number by `userId`: its first entry counts one more, or a new entry with 1 is appended. */
  function Bumped(ts: seq<Tally>, userId: string): seq<Tally> {
    match IndexOfUser(ts, userId)
    case None => ts + [Tally(userId, 1)]
    case Some(i) => ts[i := ts[i].(count := ts[i].count + 1)]
  }

  /** The sum of the counts of a user's entries. */
  function CountOf(ts: seq<Tally>, userId: string): int {
    if ts == [] then 0 else (if ts[0].userId == userId then ts[0].count else 0) + CountOf(ts[1..], userId)
  }

  /** The sum of all counts. */
  function Total(ts: seq<Tally>): int {
    if ts == [] then 0 else ts[0].count + Total(ts[1..])
  }

  /** No user has two entries. */
  predicate DistinctUsers(ts: seq<Tally>) {
    forall i, j :: 0 <= i < j < |ts| ==> ts[i].userId != ts[j].userId
  }

  lemma {:induction false} CountOfAppend(a: seq<Tally>, b: seq<Tally>, userId: string)
    ensures CountOf(a + b, userId) == CountOf(a, userId) + CountOf(b, userId)
    ensures Total(a + b) == Total(a) + Total(b)
  {
    if a == [] {
      assert a + b == b;
    } else {
      assert (a + b)[0] == a[0] && (a + b)[1..] == a[1..] + b;
      CountOfAppend(a[1..], b, userId);
    }
  }

  /** `Bumped` raises the user's count by one and no other user's, and the total by one. */
  lemma BumpedCounts(ts: seq<Tally>, userId: string, other: string)
    ensures CountOf(Bumped(ts, userId), other) == CountOf(ts, other) + (if other == userId then 1 else 0)
    ensures Total(Bumped(ts, userId)) == Total(ts) + 1
  {
    var single := [Tally(userId, 1)];
    assert CountOf(single, other) == (if other == userId then 1 else 0) by {
      assert single[1..] == [];
    }
    assert Total(single) == 1 by {
      assert single[1..] == [];
    }
    match IndexOfUser(ts, userId)
    case None =>
      CountOfAppend(ts, single, other);
    case Some(i) =>
      UpdateCounts(ts, i, ts[i].(count := ts[i].count + 1), other);
  }

  /** Replacing one entry changes the counts by the difference between the new and the old entry. */
  lemma {:induction false} UpdateCounts(ts: seq<Tally>, i: nat, t: Tally, other: string)
    requires i < |ts|
    ensures CountOf(ts[i := t], other)
            == CountOf(ts, other) - (if ts[i].userId == other then ts[i].count else 0) + (if t.userId == other then t.count else 0)
    ensures Total(ts[i := t]) == Total(ts) - ts[i].count + t.count
  {
    var u := ts[i := t];
    if i == 0 {
      assert u[0] == t && u[1..] == ts[1..];
    } else {
      assert u[0] == ts[0] && u[1..] == ts[1..][i - 1 := t];
      UpdateCounts(ts[1..], i - 1, t, other);
    }
  }

  /** `Bumped` touches only the user's entry, keeps every other entry in place, and keeps users distinct. */
  lemma BumpedShape(ts: seq<Tally>, userId: string)
    ensures var r := Bumped(ts, userId);
            && |r| == |ts| + (if IndexOfUser(ts, userId).None? then 1 else 0)
            && (forall j :: 0 <= j < |ts| && ts[j].userId != userId ==> r[j] == ts[j])
            && (forall j :: 0 <= j < |r| ==> r[j].userId == (if j < |ts| then ts[j].userId else userId))
            && (DistinctUsers(ts) ==> DistinctUsers(r))
  {
  }

  /** The handler's in-place tally update: find the author's entry and count one more, or push a new one. */
  method BumpTally(ts: seq<Tally>, userId: string) returns (r: seq<Tally>)
    ensures r == Bumped(ts, userId)
  {
    var i := 0;
    while i < |ts| && ts[i].userId != userId
      invariant 0 <= i <= |ts|
      invariant forall j :: 0 <= j < i ==> ts[j].userId != userId
    {
      i := i + 1;
    }
    if i < |ts| {
      r := ts[i := ts[i].(count := ts[i].count + 1)];
    } else {
      r := ts + [Tally(userId, 1)];
    }
  }

  // ---------------------------------------------------------------------
  // The handler

  /** The counting record after `number` by `authorId` is committed. */
  function Committed(c: Counting, number: int, authorId: string): (r: Counting)
    ensures r.guildId == c.guildId && r.channelId == c.channelId
    ensures r.lastNumber == number && r.lastUserId == Some(authorId) && r.streak == c.streak + 1
    ensures r.topCounters == Bumped(c.topCounters, authorId)
    ensures CountOf(r.topCounters, authorId) == CountOf(c.topCounters, authorId) + 1
    ensures Total(r.topCounters) == Total(c.topCounters) + 1
  {
    BumpedCounts(c.topCounters, authorId, authorId);
    c.(lastNumber := number, lastUserId := Some(authorId), streak := c.streak + 1,
       topCounters := Bumped(c.topCounters, authorId))
  }

  /**
   * `handleCountingMessage`. Bot messages and messages outside a counting
   * channel are ignored. The content must be digits only (deleted otherwise
   * when `deleteWrongMessages`); without a counting record nothing happens;
   * the previous counter may not count again; the number must be the
   * observed `lastNumber` plus one. The commit applies only while the stored
   * `lastNumber` still equals the observed one; a lost race deletes the
   * message.
   */
  function CountingStep(configs: map<string, GuildConfig>, records: map<CountingKey, Counting>, msg: ChatMessage,
                        observed: Option<Counting>): (r: (Outcome, map<CountingKey, Counting>, seq<Effect>))
    ensures r.0 == Ignored <==> msg.authorIsBot || !IsCountingChannel(configs, msg)
    ensures r.0 == InvalidContent <==> !msg.authorIsBot && IsCountingChannel(configs, msg) && !IsDigitString(msg.content)
    ensures r.0 == InvalidContent ==> r.2 == (if configs[msg.guildId].deleteWrongMessages then [DeleteMessage] else [])
    ensures r.0 == NoCountingRecord <==>
              !msg.authorIsBot && IsCountingChannel(configs, msg) && IsDigitString(msg.content) && observed.None?
    ensures r.0 == SameUser <==>
              !msg.authorIsBot && IsCountingChannel(configs, msg) && IsDigitString(msg.content)
              && observed.Some? && observed.value.lastUserId == Some(msg.authorId)
    ensures r.0.WrongNumber? <==>
              !msg.authorIsBot && IsCountingChannel(configs, msg) && IsDigitString(msg.content)
              && observed.Some? && observed.value.lastUserId != Some(msg.authorId)
              && DigitsValue(msg.content) != observed.value.lastNumber + 1
    ensures r.0.WrongNumber? ==>
              r.0.expected == observed.value.lastNumber + 1
              && r.2 == (if configs[msg.guildId].deleteWrongMessages then [DeleteMessage] else [])
                        + [AnnounceWrongNumber(msg.authorId, DigitsValue(msg.content), r.0.expected),
                           DeleteAnnouncementAfter(3000)]
    ensures r.0 == LostRace <==>
              !msg.authorIsBot && IsCountingChannel(configs, msg) && IsDigitString(msg.content)
              && observed.Some? && observed.value.lastUserId != Some(msg.authorId)
              && DigitsValue(msg.content) == observed.value.lastNumber + 1
              && (KeyOf(msg) !in records || records[KeyOf(msg)].lastNumber != observed.value.lastNumber)
    ensures r.0 == LostRace ==> r.2 == [DeleteMessage]
    ensures r.0 == SameUser ==> r.2 == (if configs[msg.guildId].deleteWrongMessages then [DeleteMessage] else [])
    ensures r.0 == Ignored || r.0 == NoCountingRecord ==> r.2 == []
    ensures DeleteMessage in r.2 <==>
              r.0 == LostRace
              || ((r.0 == InvalidContent || r.0 == SameUser || r.0.WrongNumber?) && configs[msg.guildId].deleteWrongMessages)
    ensures !r.0.Counted? ==> r.1 == records
    ensures r.0.Counted? ==>
              && observed.Some? && observed.value.lastUserId != Some(msg.authorId)
              && KeyOf(msg) in records && records[KeyOf(msg)].lastNumber == observed.value.lastNumber
              && IsDigitString(msg.content) && r.0.number == DigitsValue(msg.content) == records[KeyOf(msg)].lastNumber + 1
              && r.1 == records[KeyOf(msg) := Committed(records[KeyOf(msg)], r.0.number, msg.authorId)]
              && r.2 == [React(ReactionEmoji(configs[msg.guildId]))]
  {
    if msg.authorIsBot || !IsCountingChannel(configs, msg) then (Ignored, records, [])
    else
      var cfg := configs[msg.guildId];
      var deletion := if cfg.deleteWrongMessages then [DeleteMessage] else [];
      if !IsDigitString(msg.content) then (InvalidContent, records, deletion)
      else
        var number := DigitsValue(msg.content) as int;
        if observed.None? then (NoCountingRecord, records, [])
        else
          var state := observed.value;
          if state.lastUserId == Some(msg.authorId) then (SameUser, records, deletion)
          else if number != state.lastNumber + 1 then
            (WrongNumber(state.lastNumber + 1), records,
             deletion + [AnnounceWrongNumber(msg.authorId, number, state.lastNumber + 1), DeleteAnnouncementAfter(3000)])
          else
            var key := KeyOf(msg);
            if key !in records || records[key].lastNumber != state.lastNumber then (LostRace, records, [DeleteMessage])
            else (Counted(number), records[key := Committed(records[key], number, msg.authorId)],
                  [React(ReactionEmoji(cfg))])
  }

  method HandleCountingMessage(configs: GuildConfigs, db: Countings, msg: ChatMessage, observed: Option<Counting>)
    returns (outcome: Outcome, effects: seq<Effect>)
    requires db.Valid()
    modifies db
    ensures db.Valid()
    ensures (outcome, db.records, effects) == CountingStep(configs.records, old(db.records), msg, observed)
  {
    if msg.authorIsBot {
      return Ignored, [];
    }
    if msg.guildId !in configs.records || msg.channelId !in configs.records[msg.guildId].countingChannelIds {
      return Ignored, [];
    }
    var config := configs.records[msg.guildId];
    if !IsDigitString(msg.content) {
      effects := if config.deleteWrongMessages then [DeleteMessage] else [];
      return InvalidContent, effects;
    }
    var number := DigitsValue(msg.content) as int;
    if observed.None? {
      return NoCountingRecord, [];
    }
    var state := observed.value;
    effects := [];
    if state.lastUserId == Some(msg.authorId) {
      if config.deleteWrongMessages {
        effects := [DeleteMessage];
      }
      return SameUser, effects;
    }
    if number != state.lastNumber + 1 {
      if config.deleteWrongMessages {
        effects := [DeleteMessage];
      }
      effects := effects + [AnnounceWrongNumber(msg.authorId, number, state.lastNumber + 1), DeleteAnnouncementAfter(3000)];
      return WrongNumber(state.lastNumber + 1), effects;
    }
    var key := KeyOf(msg);
    if key !in db.records || db.records[key].lastNumber != state.lastNumber {
      return LostRace, [DeleteMessage];
    }
    var result := db.records[key];
    result := result.(lastNumber := number, lastUserId := Some(msg.authorId), streak := result.streak + 1);
    db.records := db.records[key := result];
    effects := [React(ReactionEmoji(config))];
    var tallies := BumpTally(result.topCounters, msg.authorId);
    db.records := db.records[key := result.(topCounters := tallies)];
    outcome := Counted(number);
    assert db.records == old(db.records)[key := Committed(old(db.records)[key], number, msg.authorId)];
  }

  // ---------------------------------------------------------------------
  // Properties across messages

  /** What a fresh `findOne` returns for the message's channel. */
  function Lookup(records: map<CountingKey, Counting>, msg: ChatMessage): Option<Counting> {
    if KeyOf(msg) in records then Some(records[KeyOf(msg)]) else None
  }

  /** A handler that reads the current record and commits before any other cannot lose the race. */
  lemma FreshReadNeverLosesRace(configs: map<string, GuildConfig>, records: map<CountingKey, Counting>, msg: ChatMessage)
    ensures CountingStep(configs, records, msg, Lookup(records, msg)).0 != LostRace
  {
  }

  /** Two handlers that read the same state: once one commits, the other's commit does not apply. */
  lemma RaceHasOneWinner(configs: map<string, GuildConfig>, records: map<CountingKey, Counting>,
                         first: ChatMessage, second: ChatMessage)
    requires KeyOf(first) == KeyOf(second) && KeyOf(first) in records
    requires CountingStep(configs, records, first, Lookup(records, first)).0.Counted?
    ensures var after := CountingStep(configs, records, first, Lookup(records, first)).1;
            !CountingStep(configs, after, second, Lookup(records, second)).0.Counted?
  {
  }

  /** Whoever counted last cannot count the next number. */
  lemma NoTwoInARow(configs: map<string, GuildConfig>, records: map<CountingKey, Counting>, msg: ChatMessage,
                    next: ChatMessage)
    requires CountingStep(configs, records, msg, Lookup(records, msg)).0.Counted?
    requires KeyOf(next) == KeyOf(msg) && next.authorId == msg.authorId
    ensures var after := CountingStep(configs, records, msg, Lookup(records, msg)).1;
            var again := CountingStep(configs, after, next, Lookup(after, next)).0;
            !again.Counted? && (!next.authorIsBot && IsDigitString(next.content) ==> again == SameUser)
  {
  }

  /** Messages handled one after the other, each reading the record fresh. */
  function Replay(configs: map<string, GuildConfig>, records: map<CountingKey, Counting>, msgs: seq<ChatMessage>)
    : (r: (map<CountingKey, Counting>, seq<Outcome>))
    ensures |r.1| == |msgs|
  {
    if msgs == [] then (records, [])
    else
      var step := CountingStep(configs, records, msgs[0], Lookup(records, msgs[0]));
      var rest := Replay(configs, step.1, msgs[1..]);
      (rest.0, [step.0] + rest.1)
  }

  /** The numbers accepted, in order. */
  function CountedNumbers(outcomes: seq<Outcome>): seq<int> {
    if outcomes == [] then []
    else (if outcomes[0].Counted? then [outcomes[0].number] else []) + CountedNumbers(outcomes[1..])
  }

  /** `start, start + 1, …, start + n - 1`. */
  function Run(start: int, n: nat): (r: seq<int>)
    ensures |r| == n && forall i :: 0 <= i < n ==> r[i] == start + i
    decreases n
  {
    if n == 0 then [] else [start] + Run(start + 1, n - 1)
  }

  /** One freshly read step on a channel with a record: either it counts the next number or it changes nothing. */
  lemma FreshStep(configs: map<string, GuildConfig>, records: map<CountingKey, Counting>, msg: ChatMessage)
    requires KeyOf(msg) in records
    ensures var step := CountingStep(configs, records, msg, Lookup(records, msg));
            && step.0 != LostRace
            && KeyOf(msg) in step.1
            && (step.0.Counted? ==> step.0.number == records[KeyOf(msg)].lastNumber + 1
                                    && step.1[KeyOf(msg)].lastNumber == step.0.number
                                    && step.1[KeyOf(msg)].lastUserId == Some(msg.authorId)
                                    && step.1[KeyOf(msg)].streak == records[KeyOf(msg)].streak + 1)
            && (!step.0.Counted? ==> step.1 == records)
  {
  }

  /**
   * In one channel, the accepted numbers are exactly the next numbers after
   * the starting `lastNumber`, with no gap and no repeat, and `lastNumber`
   * ends at the last accepted one.
   */
  lemma {:induction false} AcceptedNumbersAreConsecutive(configs: map<string, GuildConfig>, records: map<CountingKey, Counting>,
                                                         msgs: seq<ChatMessage>, key: CountingKey)
    requires key in records
    requires forall i :: 0 <= i < |msgs| ==> KeyOf(msgs[i]) == key
    ensures var r := Replay(configs, records, msgs);
            var accepted := CountedNumbers(r.1);
            && key in r.0
            && accepted == Run(records[key].lastNumber + 1, |accepted|)
            && r.0[key].lastNumber == records[key].lastNumber + |accepted|
            && LostRace !in r.1
  {
    if msgs != [] {
      var step := CountingStep(configs, records, msgs[0], Lookup(records, msgs[0]));
      FreshStep(configs, records, msgs[0]);
      AcceptedNumbersAreConsecutive(configs, step.1, msgs[1..], key);
      var rest := Replay(configs, step.1, msgs[1..]);
      assert Replay(configs, records, msgs) == (rest.0, [step.0] + rest.1);
      CountedCons(step.0, rest.1, records[key].lastNumber + 1);
    }
  }

  /** One more outcome in front: a count of the next number extends the run, anything else leaves it. */
  lemma CountedCons(o: Outcome, rest: seq<Outcome>, start: int)
    requires o.Counted? ==> o.number == start
    requires var next := if o.Counted? then start + 1 else start;
             CountedNumbers(rest) == Run(next, |CountedNumbers(rest)|)
    ensures CountedNumbers([o] + rest) == Run(start, |CountedNumbers([o] + rest)|)
    ensures |CountedNumbers([o] + rest)| == |CountedNumbers(rest)| + (if o.Counted? then 1 else 0)
    ensures LostRace in [o] + rest <==> o == LostRace || LostRace in rest
  {
    var outs := [o] + rest;
    assert outs[0] == o && outs[1..] == rest;
    if o.Counted? {
      var k := |CountedNumbers(rest)|;
      assert [start] + Run(start + 1, k) == Run(start, k + 1);
    }
  }
}
