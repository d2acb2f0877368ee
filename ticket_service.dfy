/**
 * The service-layer ticket workflow: create a ticket channel from the guild's
 * stored configuration, claim, close with a transcript, a plain transcript on
 * request, and the creator's send-permission lock toggle.
 *
 * Its records carry a `status` (open/closed), a `type` and a `closedAt`
 * timestamp and are looked up by `(ticketId, guildId)`; they live in their own
 * collection here (see `AsWrittenRecord` for what the shared `Ticket` schema
 * makes of them). Platform calls are returned as effects; the new channel's
 * id, the cached channels, the fetched messages and the clock are inputs.
 */
module TicketService {
  import opened Wrappers
  import opened Text
  import opened GuildConfigModel
  import TicketModel
  import TI = TicketInteractions

  datatype Status = Open | Closed

  datatype ServiceTicket = ServiceTicket(
    ticketId: string,
    guildId: string,
    channelId: string,
    creatorId: string,
    kind: string,
    status: Status,
    claimedBy: Option<string>,
    closedAt: Option<int>,
    createdAt: int)

  /** The required fields are present. */
  predicate Admits(t: ServiceTicket) {
    t.ticketId != "" && t.channelId != "" && t.guildId != "" && t.creatorId != ""
  }

  /** Every record is stored under its own `ticketId`, and `channelId` is unique. */
  ghost predicate Stored(tickets: map<string, ServiceTicket>) {
    && (forall k :: k in tickets ==> tickets[k].ticketId == k && Admits(tickets[k]))
    && (forall k1, k2 :: k1 in tickets && k2 in tickets && tickets[k1].channelId == tickets[k2].channelId ==> k1 == k2)
  }

  class ServiceTickets {
    var records: map<string, ServiceTicket>

    ghost predicate Valid()
      reads this
    {
      Stored(records)
    }

    constructor ()
      ensures Valid() && records == map[]
    {
      records := map[];
    }
  }

  /** `Ticket.findOne({ ticketId, guildId })`. */
  function FindTicket(tickets: map<string, ServiceTicket>, ticketId: string, guildId: string): (r: Option<ServiceTicket>)
    ensures r.Some? <==> ticketId in tickets && tickets[ticketId].guildId == guildId
    ensures r.Some? ==> r.value == tickets[ticketId]
  {
    if ticketId in tickets && tickets[ticketId].guildId == guildId then Some(tickets[ticketId]) else None
  }

  /** A record under a fresh id, on a channel no record uses, keeps the collection's invariant. */
  lemma AddKeepsStored(tickets: map<string, ServiceTicket>, t: ServiceTicket)
    requires Stored(tickets) && t.ticketId !in tickets && Admits(t)
    requires forall k :: k in tickets ==> tickets[k].channelId != t.channelId
    ensures Stored(tickets[t.ticketId := t])
  {
  }

  /** Rewriting a record's mutable fields in place keeps the collection's invariant. */
  lemma UpdateKeepsStored(tickets: map<string, ServiceTicket>, t: ServiceTicket)
    requires Stored(tickets) && t.ticketId in tickets
    requires t.channelId == tickets[t.ticketId].channelId && Admits(t)
    ensures Stored(tickets[t.ticketId := t])
  {
  }

  // ---------------------------------------------------------------------
  // Channel permission overwrites

  datatype Permission = ViewChannel | SendMessages | ReadMessageHistory | ManageChannels

  /** One overwrite entry: the permissions allowed and denied to one user or role. */
  datatype Overwrite = Overwrite(allow: set<Permission>, deny: set<Permission>)

  /** A `SendMessages` value in an overwrite edit: allow it, or deny it. */
  function EditSend(o: Overwrite, allowed: bool): (r: Overwrite)
    ensures (SendMessages in r.allow) == allowed && (SendMessages in r.deny) == !allowed
    ensures forall p :: p != SendMessages ==> (p in r.allow <==> p in o.allow) && (p in r.deny <==> p in o.deny)
    ensures o.allow !! o.deny ==> r.allow !! r.deny
  {
    if allowed then Overwrite(o.allow + {SendMessages}, o.deny - {SendMessages})
    else Overwrite(o.allow - {SendMessages}, o.deny + {SendMessages})
  }

  /** A channel's permission overwrites, by user or role id. */
  class ChannelPermissions {
    var overwrites: map<string, Overwrite>

    ghost predicate Valid()
      reads this
    {
      forall id :: id in overwrites ==> overwrites[id].allow !! overwrites[id].deny
    }

    constructor (initial: map<string, Overwrite>)
      requires forall id :: id in initial ==> initial[id].allow !! initial[id].deny
      ensures Valid() && overwrites == initial
    {
      overwrites := initial;
    }

    /** The user's overwrite explicitly allows sending (`overwrite?.allow.has(SendMessages)`). */
    predicate CanSend(id: string)
      reads this
    {
      id in overwrites && SendMessages in overwrites[id].allow
    }

    /** `permissionOverwrites.edit(id, { SendMessages: allowed })`: creates the entry if absent. */
    method EditSendMessages(id: string, allowed: bool)
      requires Valid()
      modifies this
      ensures Valid()
      ensures overwrites == old(overwrites)[id := EditSend(if id in old(overwrites) then old(overwrites)[id] else Overwrite({}, {}), allowed)]
      ensures CanSend(id) == allowed
    {
      var current := if id in overwrites then overwrites[id] else Overwrite({}, {});
      overwrites := overwrites[id := EditSend(current, allowed)];
    }
  }

  // ---------------------------------------------------------------------
  // Effects

  datatype Effect =
    | CreateChannel(name: string, parentId: string, overwrites: seq<(string, Overwrite)>)
    | PostControls(channelId: string, creatorId: string, mentionRoleId: string, buttonIds: seq<string>)
    | Pin(channelId: string)
    | AnnounceClaim(userId: string)
    | LogClosed(ticketId: string, creatorId: string, claimedBy: Option<string>, closerId: string, transcript: string)
    | DmTranscript(userId: string, ticketId: string, transcript: string)
    | DeleteChannelAfter(millis: int)

  // ---------------------------------------------------------------------
  // Create

  /** `Date.now().toString().slice(-6)`: the last six digits of the clock. */
  function ServiceTicketId(now: nat): (r: string)
    ensures 1 <= |r| <= 6 && IsDigitString(r)
    ensures now >= 100000 ==> |r| == 6
  {
    var r := Last(NatToString(now), 6);
    if now >= 100000 then
      assert Pow10(5) == 100000;
      NatToStringLength(now, 5);
      r
    else r
  }

  /** The ticket id spells the clock reading modulo one million. */
  lemma ServiceTicketIdValue(now: nat)
    ensures DigitsValue(ServiceTicketId(now)) == now % 1000000
  {
    LastDigitsValue(now, 6);
    assert Pow10(6) == 1000000;
  }

  predicate IsChannelNameChar(c: char) {
    'a' <= c <= 'z' || '0' <= c <= '9' || c == '-'
  }

  /** `.replace(/[^a-z0-9-]/g, '')`: every character outside `[a-z0-9-]` is removed. */
  function KeepChannelNameChars(s: string): (r: string)
    ensures |r| <= |s|
    ensures forall i :: 0 <= i < |r| ==> IsChannelNameChar(r[i])
  {
    if s == [] then []
    else (if IsChannelNameChar(s[0]) then [s[0]] else []) + KeepChannelNameChars(s[1..])
  }

  /** Sanitising keeps every allowed character, as often as it occurs, and drops the rest. */
  lemma {:induction false} KeepChannelNameCharsCounts(s: string)
    ensures forall c :: IsChannelNameChar(c) ==> multiset(KeepChannelNameChars(s))[c] == multiset(s)[c]
    ensures forall c :: !IsChannelNameChar(c) ==> multiset(KeepChannelNameChars(s))[c] == 0
  {
    if s != [] {
      KeepChannelNameCharsCounts(s[1..]);
      assert s == [s[0]] + s[1..];
      var head := if IsChannelNameChar(s[0]) then [s[0]] else [];
      assert KeepChannelNameChars(s) == head + KeepChannelNameChars(s[1..]);
      assert multiset(KeepChannelNameChars(s)) == multiset(head) + multiset(KeepChannelNameChars(s[1..]));
      assert multiset(s) == multiset([s[0]]) + multiset(s[1..]);
    }
  }

  lemma {:induction false} KeepChannelNameCharsAppend(a: string, b: string)
    ensures KeepChannelNameChars(a + b) == KeepChannelNameChars(a) + KeepChannelNameChars(b)
  {
    if a == [] {
      assert a + b == b;
    } else {
      assert (a + b)[0] == a[0] && (a + b)[1..] == a[1..] + b;
      KeepChannelNameCharsAppend(a[1..], b);
      var head := if IsChannelNameChar(a[0]) then [a[0]] else [];
      calc {
        KeepChannelNameChars(a + b);
        head + KeepChannelNameChars(a[1..] + b);
        head + (KeepChannelNameChars(a[1..]) + KeepChannelNameChars(b));
        (head + KeepChannelNameChars(a[1..])) + KeepChannelNameChars(b);
      }
    }
  }

  /** A name made only of allowed characters passes through unchanged. */
  lemma {:induction false} KeepChannelNameCharsOfAllowed(s: string)
    requires forall i :: 0 <= i < |s| ==> IsChannelNameChar(s[i])
    ensures KeepChannelNameChars(s) == s
  {
    if s != [] {
      KeepChannelNameCharsOfAllowed(s[1..]);
    }
  }

  /** Sanitising is idempotent. */
  lemma KeepChannelNameCharsIdempotent(s: string)
    ensures KeepChannelNameChars(KeepChannelNameChars(s)) == KeepChannelNameChars(s)
  {
    KeepChannelNameCharsOfAllowed(KeepChannelNameChars(s));
  }

  /** `` `${type}-${username}-${ticketId}`.toLowerCase().replace(/[^a-z0-9-]/g, '') ``. */
  function ChannelName(kind: string, username: string, ticketId: string): (r: string)
    ensures forall i :: 0 <= i < |r| ==> IsChannelNameChar(r[i])
    ensures IsDigitString(ticketId) ==>
              r == KeepChannelNameChars(ToLower(kind)) + "-" + KeepChannelNameChars(ToLower(username)) + "-" + ticketId
  {
    var r := KeepChannelNameChars(ToLower(kind + "-" + username + "-" + ticketId));
    if IsDigitString(ticketId) then
      ChannelNameParts(kind, username, ticketId);
      r
    else r
  }

  lemma ChannelNameParts(kind: string, username: string, ticketId: string)
    requires IsDigitString(ticketId)
    ensures KeepChannelNameChars(ToLower(kind + "-" + username + "-" + ticketId))
            == KeepChannelNameChars(ToLower(kind)) + "-" + KeepChannelNameChars(ToLower(username)) + "-" + ticketId
  {
    KeepLowerAppend(kind + "-" + username + "-", ticketId);
    KeepLowerAppend(kind + "-" + username, "-");
    KeepLowerAppend(kind + "-", username);
    KeepLowerAppend(kind, "-");
    KeepLowerOfAllowed("-");
    KeepLowerOfAllowed(ticketId);
  }

  /** Lower-casing and sanitising work character by character, so they distribute over concatenation. */
  lemma KeepLowerAppend(a: string, b: string)
    ensures KeepChannelNameChars(ToLower(a + b)) == KeepChannelNameChars(ToLower(a)) + KeepChannelNameChars(ToLower(b))
  {
    ToLowerAppend(a, b);
    KeepChannelNameCharsAppend(ToLower(a), ToLower(b));
  }

  lemma KeepLowerOfAllowed(s: string)
    requires forall i :: 0 <= i < |s| ==> IsChannelNameChar(s[i])
    ensures KeepChannelNameChars(ToLower(s)) == s
  {
    assert ToLower(s) == s;
    KeepChannelNameCharsOfAllowed(s);
  }

  /** The digits of the ticket id survive sanitising, so every channel name ends with `-` and its ticket id. */
  lemma ChannelNameEndsWithTicketId(kind: string, username: string, ticketId: string)
    requires IsDigitString(ticketId)
    ensures var name := ChannelName(kind, username, ticketId);
            |name| > |ticketId| && name[|name| - |ticketId| - 1..] == "-" + ticketId
  {
    var name := ChannelName(kind, username, ticketId);
    var head := KeepChannelNameChars(ToLower(kind)) + "-" + KeepChannelNameChars(ToLower(username));
    assert name == head + ("-" + ticketId);
  }

  /** Parts already in lower-case `[a-z0-9]` are joined unchanged. */
  lemma ChannelNameOfPlainParts(kind: string, username: string, ticketId: string)
    requires forall i :: 0 <= i < |kind| ==> IsChannelNameChar(kind[i])
    requires forall i :: 0 <= i < |username| ==> IsChannelNameChar(username[i])
    requires IsDigitString(ticketId)
    ensures ChannelName(kind, username, ticketId) == kind + "-" + username + "-" + ticketId
  {
    var s := kind + "-" + username + "-" + ticketId;
    assert forall i :: 0 <= i < |s| ==> IsChannelNameChar(s[i]);
    assert ToLower(s) == s;
    KeepChannelNameCharsOfAllowed(s);
  }

  const CreatorAllow: set<Permission> := {ViewChannel, SendMessages, ReadMessageHistory}
  const BotAllow: set<Permission> := {ViewChannel, SendMessages, ReadMessageHistory, ManageChannels}

  /** One overwrite per configured staff role, each allowed to view, send and read history. */
  function StaffOverwrites(roleIds: seq<string>): (r: seq<(string, Overwrite)>)
    ensures |r| == |roleIds|
    ensures forall i :: 0 <= i < |r| ==> r[i] == (roleIds[i], Overwrite(CreatorAllow, {}))
  {
    if roleIds == [] then [] else [(roleIds[0], Overwrite(CreatorAllow, {}))] + StaffOverwrites(roleIds[1..])
  }

  /** The channel is hidden from everyone, open to the creator, the bot and the staff roles. */
  function InitialOverwrites(guildId: string, creatorId: string, botId: string, staffRoleIds: seq<string>): (r: seq<(string, Overwrite)>)
    ensures |r| == 3 + |staffRoleIds|
    ensures r[0] == (guildId, Overwrite({}, {ViewChannel}))
    ensures r[1] == (creatorId, Overwrite(CreatorAllow, {})) && SendMessages in r[1].1.allow
    ensures r[2] == (botId, Overwrite(BotAllow, {})) && ManageChannels in r[2].1.allow
    ensures forall i :: 3 <= i < |r| ==> r[i] == (staffRoleIds[i - 3], Overwrite(CreatorAllow, {}))
    ensures forall i :: 1 <= i < |r| ==>
              r[i].1.deny == {} && ViewChannel in r[i].1.allow && SendMessages in r[i].1.allow
  {
    [(guildId, Overwrite({}, {ViewChannel})), (creatorId, Overwrite(CreatorAllow, {})), (botId, Overwrite(BotAllow, {}))]
    + StaffOverwrites(staffRoleIds)
  }

  /** The role mentioned in the welcome message: the first staff role, or the guild's own id. */
  function MentionRole(cfg: GuildConfig, guildId: string): string {
    if |cfg.staffRoleIds| > 0 && cfg.staffRoleIds[0] != "" then cfg.staffRoleIds[0] else guildId
  }

  const ClaimPrefix: string := "ticket_claim_"
  const ClosePrefix: string := "ticket_close_"
  const TranscriptPrefix: string := "ticket_transcript_"
  const LockPrefix: string := "ticket_lock_"

  /** The four control buttons posted in a new ticket channel, each carrying the ticket id. */
  function ServiceButtonIds(ticketId: string): (r: seq<string>)
    ensures |r| == 4
    ensures StartsWith(r[0], ClaimPrefix) && DropPrefix(r[0], ClaimPrefix) == ticketId
    ensures StartsWith(r[1], ClosePrefix) && DropPrefix(r[1], ClosePrefix) == ticketId
    ensures StartsWith(r[2], TranscriptPrefix) && DropPrefix(r[2], TranscriptPrefix) == ticketId
    ensures StartsWith(r[3], LockPrefix) && DropPrefix(r[3], LockPrefix) == ticketId
  {
    var r := [ClaimPrefix + ticketId, ClosePrefix + ticketId, TranscriptPrefix + ticketId, LockPrefix + ticketId];
    assert StartsWith(r[0], ClaimPrefix) && StartsWith(r[1], ClosePrefix);
    assert StartsWith(r[2], TranscriptPrefix) && StartsWith(r[3], LockPrefix);
    r
  }

  datatype CreateReply =
    | ConfigNotFound
    | CategoryNotConfigured(kind: string)
    | CategoryNotFound(categoryId: string)
    | CreateFailed
    | Created(channelId: string, ticketId: string)

  /** Some stored ticket already uses this channel id. */
  predicate ChannelTaken(tickets: map<string, ServiceTicket>, channelId: string) {
    exists k :: k in tickets && tickets[k].channelId == channelId
  }

  /** The channel `createTicket` asks for: the sanitised name, the category and the initial overwrites. */
  function ChannelRequest(cfg: GuildConfig, guildId: string, user: TI.User, botId: string, kind: string,
                          categoryId: string, now: nat): Effect
  {
    CreateChannel(ChannelName(kind, user.username, ServiceTicketId(now)), categoryId,
                  InitialOverwrites(guildId, user.id, botId, cfg.staffRoleIds))
  }

  /**
   * The tail of `createTicket` once the category is known to exist: create
   * the channel, save the record, post the controls and pin them.
   */
  function SaveServiceTicket(cfg: GuildConfig, tickets: map<string, ServiceTicket>, guildId: string, user: TI.User,
                             botId: string, kind: string, categoryId: string, now: nat,
                             newChannel: Option<string>): (r: (CreateReply, map<string, ServiceTicket>, seq<Effect>))
    requires Stored(tickets)
    ensures Stored(r.1)
    ensures r.0 == CreateFailed || r.0.Created?
    ensures r.0.Created? <==>
              && newChannel.Some? && newChannel.value != "" && guildId != "" && user.id != ""
              && ServiceTicketId(now) !in tickets && !ChannelTaken(tickets, newChannel.value)
    ensures r.0 == CreateFailed ==> r.1 == tickets
    ensures r.0 == CreateFailed ==>
              r.2 == (if newChannel.Some? then [ChannelRequest(cfg, guildId, user, botId, kind, categoryId, now)] else [])
    ensures r.0.Created? ==>
              var tid := r.0.ticketId;
              && tid == ServiceTicketId(now) && newChannel == Some(r.0.channelId)
              && tid !in tickets && !ChannelTaken(tickets, r.0.channelId)
              && r.1 == tickets[tid := ServiceTicket(tid, guildId, r.0.channelId, user.id, kind, Open, None, None, now)]
              && |r.2| == 3
              && r.2[0] == ChannelRequest(cfg, guildId, user, botId, kind, categoryId, now)
              && r.2[1] == PostControls(r.0.channelId, user.id, MentionRole(cfg, guildId), ServiceButtonIds(tid))
              && r.2[2] == Pin(r.0.channelId)
  {
    if newChannel.None? then (CreateFailed, tickets, [])
    else
      var tid := ServiceTicketId(now);
      var ch := newChannel.value;
      var created := [ChannelRequest(cfg, guildId, user, botId, kind, categoryId, now)];
      var t := ServiceTicket(tid, guildId, ch, user.id, kind, Open, None, None, now);
      if tid in tickets || ChannelTaken(tickets, ch) || !Admits(t) then (CreateFailed, tickets, created)
      else
        AddKeepsStored(tickets, t);
        (Created(ch, tid), tickets[tid := t],
         created + [PostControls(ch, user.id, MentionRole(cfg, guildId), ServiceButtonIds(tid)), Pin(ch)])
  }

  /**
   * `createTicket(interaction, type)`. The guild's configuration must exist,
   * map the type to a category id, and that category must be a cached
   * channel; otherwise nothing happens. The ticket id is the clock's last six
   * digits. `newChannel` is the created channel's id, absent when creation
   * fails; a save that would break a unique index fails after the channel was
   * created.
   */
  function CreateStep(configs: map<string, GuildConfig>, tickets: map<string, ServiceTicket>, guildId: string,
                      user: TI.User, botId: string, kind: string, cachedChannels: set<string>, now: nat,
                      newChannel: Option<string>): (r: (CreateReply, map<string, ServiceTicket>, seq<Effect>))
    requires Stored(tickets)
    ensures Stored(r.1)
    ensures r.0 == ConfigNotFound <==> guildId !in configs
    ensures r.0.CategoryNotConfigured? <==>
              guildId in configs && !Truthy(CategoryFor(configs[guildId].ticketCategories, kind))
    ensures r.0.CategoryNotFound? <==>
              guildId in configs && Truthy(CategoryFor(configs[guildId].ticketCategories, kind))
              && CategoryFor(configs[guildId].ticketCategories, kind).value !in cachedChannels
    ensures r.0 == ConfigNotFound || r.0.CategoryNotConfigured? || r.0.CategoryNotFound? ==> r.1 == tickets && r.2 == []
    ensures r.0 == CreateFailed || r.0.Created? ==>
              r == SaveServiceTicket(configs[guildId], tickets, guildId, user, botId, kind,
                                     CategoryFor(configs[guildId].ticketCategories, kind).value, now, newChannel)
  {
    if guildId !in configs then (ConfigNotFound, tickets, [])
    else
      var cfg := configs[guildId];
      var category := CategoryFor(cfg.ticketCategories, kind);
      if !Truthy(category) then (CategoryNotConfigured(kind), tickets, [])
      else if category.value !in cachedChannels then (CategoryNotFound(category.value), tickets, [])
      else SaveServiceTicket(cfg, tickets, guildId, user, botId, kind, category.value, now, newChannel)
  }

  /**
   * With a configured, cached category and a created channel whose id and
   * ticket id are unused, the corrected create saves an open ticket that the
   * claim, close and lock buttons find by its id.
   */
  lemma CreatedTicketIsFound(configs: map<string, GuildConfig>, tickets: map<string, ServiceTicket>, guildId: string,
                             user: TI.User, botId: string, kind: string, cachedChannels: set<string>, now: nat,
                             channelId: string)
    requires Stored(tickets)
    requires guildId in configs && Truthy(CategoryFor(configs[guildId].ticketCategories, kind))
    requires CategoryFor(configs[guildId].ticketCategories, kind).value in cachedChannels
    requires channelId != "" && guildId != "" && user.id != ""
    requires ServiceTicketId(now) !in tickets && !ChannelTaken(tickets, channelId)
    ensures var r := CreateStep(configs, tickets, guildId, user, botId, kind, cachedChannels, now, Some(channelId));
            && r.0 == Created(channelId, ServiceTicketId(now))
            && FindTicket(r.1, ServiceTicketId(now), guildId).Some?
            && var t := FindTicket(r.1, ServiceTicketId(now), guildId).value;
               t.channelId == channelId && t.creatorId == user.id && t.status == Open && t.claimedBy.None?
  {
    var tid := ServiceTicketId(now);
    var t := ServiceTicket(tid, guildId, channelId, user.id, kind, Open, None, None, now);
    var r := CreateStep(configs, tickets, guildId, user, botId, kind, cachedChannels, now, Some(channelId));
    assert r.0 == Created(channelId, tid) && r.1 == tickets[tid := t] by {
      var category := CategoryFor(configs[guildId].ticketCategories, kind).value;
      assert r == SaveServiceTicket(configs[guildId], tickets, guildId, user, botId, kind, category, now, Some(channelId));
    }
    assert FindTicket(r.1, tid, guildId) == Some(t);
  }

  method CreateTicket(configs: GuildConfigs, db: ServiceTickets, guildId: string, user: TI.User, botId: string,
                      kind: string, cachedChannels: set<string>, now: nat, newChannel: Option<string>)
    returns (reply: CreateReply, effects: seq<Effect>)
    requires db.Valid()
    modifies db
    ensures db.Valid()
    ensures (reply, db.records, effects)
            == CreateStep(configs.records, old(db.records), guildId, user, botId, kind, cachedChannels, now, newChannel)
  {
    if guildId !in configs.records {
      return ConfigNotFound, [];
    }
    var cfg := configs.records[guildId];
    var categoryId := CategoryFor(cfg.ticketCategories, kind);
    if !Truthy(categoryId) {
      return CategoryNotConfigured(kind), [];
    }
    if categoryId.value !in cachedChannels {
      return CategoryNotFound(categoryId.value), [];
    }
    assert CreateStep(configs.records, db.records, guildId, user, botId, kind, cachedChannels, now, newChannel)
           == SaveServiceTicket(cfg, db.records, guildId, user, botId, kind, categoryId.value, now, newChannel);
    reply, effects := SaveTicketRecord(cfg, db, guildId, user, botId, kind, categoryId.value, now, newChannel);
  }

  /** The channel creation, save, controls and pin of `createTicket`, in place. */
  method SaveTicketRecord(cfg: GuildConfig, db: ServiceTickets, guildId: string, user: TI.User, botId: string,
                          kind: string, categoryId: string, now: nat, newChannel: Option<string>)
    returns (reply: CreateReply, effects: seq<Effect>)
    requires db.Valid()
    modifies db
    ensures db.Valid()
    ensures (reply, db.records, effects)
            == SaveServiceTicket(cfg, old(db.records), guildId, user, botId, kind, categoryId, now, newChannel)
  {
    var ticketId := ServiceTicketId(now);
    if newChannel.None? {
      return CreateFailed, [];
    }
    var channel := newChannel.value;
    effects := [ChannelRequest(cfg, guildId, user, botId, kind, categoryId, now)];
    var ticket := ServiceTicket(ticketId, guildId, channel, user.id, kind, Open, None, None, now);
    SaveServiceTicketBranches(cfg, db.records, guildId, user, botId, kind, categoryId, now, channel);
    if ticketId in db.records || ChannelTaken(db.records, channel) || !Admits(ticket) {
      return CreateFailed, effects;
    }
    AddKeepsStored(db.records, ticket);
    db.records := db.records[ticketId := ticket];
    effects := effects + [PostControls(channel, user.id, MentionRole(cfg, guildId), ServiceButtonIds(ticketId)), Pin(channel)];
    reply := Created(channel, ticketId);
  }

  /** The two outcomes of `SaveServiceTicket` once the channel exists, spelled out for the imperative create. */
  lemma SaveServiceTicketBranches(cfg: GuildConfig, tickets: map<string, ServiceTicket>, guildId: string, user: TI.User,
                                  botId: string, kind: string, categoryId: string, now: nat, channel: string)
    requires Stored(tickets)
    ensures var tid := ServiceTicketId(now);
            var t := ServiceTicket(tid, guildId, channel, user.id, kind, Open, None, None, now);
            var created := [ChannelRequest(cfg, guildId, user, botId, kind, categoryId, now)];
            SaveServiceTicket(cfg, tickets, guildId, user, botId, kind, categoryId, now, Some(channel))
            == if tid in tickets || ChannelTaken(tickets, channel) || !Admits(t) then (CreateFailed, tickets, created)
               else (Created(channel, tid), tickets[tid := t],
                     created + [PostControls(channel, user.id, MentionRole(cfg, guildId), ServiceButtonIds(tid)), Pin(channel)])
  {
  }

  /**
   * What `Ticket.create` builds from the service's fields under the shared
   * `Ticket` schema: `type` and `status` are not declared there and are
   * dropped, and the required `category` is never given.
   */
  function AsWrittenRecord(ticketId: string, guildId: string, channelId: string, creatorId: string,
                           now: int): (r: TicketModel.Ticket)
    ensures r.category == "" && !TicketModel.Admits(r)
    ensures r.ticketId == Some(ticketId) && r.channelId == channelId && r.creatorId == creatorId && !r.closed
  {
    TicketModel.Ticket(Some(ticketId), channelId, guildId, creatorId, None, "", None, None, None, now, false)
  }

  /** Under the shared schema no service-created ticket is ever saved: every channel it creates is left without a record. */
  lemma AsWrittenCreateNeverSaves(ticketId: string, guildId: string, channelId: string, creatorId: string, now: int,
                                  tickets: map<string, TicketModel.Ticket>)
    requires TicketModel.Stored(tickets)
    ensures !TicketModel.Stored(tickets[channelId := TicketModel.PreSave(AsWrittenRecord(ticketId, guildId, channelId, creatorId, now))])
  {
    var t := TicketModel.PreSave(AsWrittenRecord(ticketId, guildId, channelId, creatorId, now));
    assert tickets[channelId := t][channelId] == t;
  }

  // ---------------------------------------------------------------------
  // Claim

  datatype ClaimReply = ClaimNotFound | AlreadyClaimed(claimant: string) | ConfigMissing | StaffOnly | Claimed

  /** A member holding one of the configured staff roles, or an Administrator. */
  predicate IsServiceStaff(cfg: GuildConfig, memberRoles: set<string>, isAdmin: bool) {
    (exists i :: 0 <= i < |cfg.staffRoleIds| && cfg.staffRoleIds[i] in memberRoles) || isAdmin
  }

  /**
   * `claimTicket`: the ticket must exist, must not be claimed, the guild's
   * configuration must exist (reading its staff roles fails otherwise), and
   * the actor must be staff; each failure changes nothing.
   */
  function ClaimStep(tickets: map<string, ServiceTicket>, configs: map<string, GuildConfig>, guildId: string,
                     ticketId: string, actor: string, memberRoles: set<string>, isAdmin: bool): (r: (ClaimReply, map<string, ServiceTicket>, seq<Effect>))
    requires Stored(tickets)
    ensures Stored(r.1)
    ensures r.0 == ClaimNotFound <==> FindTicket(tickets, ticketId, guildId).None?
    ensures r.0.AlreadyClaimed? <==> FindTicket(tickets, ticketId, guildId).Some? && Truthy(tickets[ticketId].claimedBy)
    ensures r.0.AlreadyClaimed? ==> tickets[ticketId].claimedBy == Some(r.0.claimant)
    ensures r.0 == ConfigMissing <==>
              FindTicket(tickets, ticketId, guildId).Some? && !Truthy(tickets[ticketId].claimedBy) && guildId !in configs
    ensures r.0 == StaffOnly <==>
              FindTicket(tickets, ticketId, guildId).Some? && !Truthy(tickets[ticketId].claimedBy) && guildId in configs
              && !IsServiceStaff(configs[guildId], memberRoles, isAdmin)
    ensures r.0 == Claimed ==> r.1 == tickets[ticketId := tickets[ticketId].(claimedBy := Some(actor))] && r.2 == [AnnounceClaim(actor)]
    ensures r.0 != Claimed ==> r.1 == tickets && r.2 == []
  {
    var found := FindTicket(tickets, ticketId, guildId);
    if found.None? then (ClaimNotFound, tickets, [])
    else if Truthy(found.value.claimedBy) then (AlreadyClaimed(found.value.claimedBy.value), tickets, [])
    else if guildId !in configs then (ConfigMissing, tickets, [])
    else if !IsServiceStaff(configs[guildId], memberRoles, isAdmin) then (StaffOnly, tickets, [])
    else
      var t := found.value.(claimedBy := Some(actor));
      UpdateKeepsStored(tickets, t);
      (Claimed, tickets[ticketId := t], [AnnounceClaim(actor)])
  }

  method ClaimTicket(db: ServiceTickets, configs: GuildConfigs, guildId: string, ticketId: string, actor: string,
                     memberRoles: set<string>, isAdmin: bool)
    returns (reply: ClaimReply, effects: seq<Effect>)
    requires db.Valid()
    modifies db
    ensures db.Valid()
    ensures (reply, db.records, effects) == ClaimStep(old(db.records), configs.records, guildId, ticketId, actor, memberRoles, isAdmin)
  {
    var ticket := FindTicket(db.records, ticketId, guildId);
    if ticket.None? {
      return ClaimNotFound, [];
    }
    if Truthy(ticket.value.claimedBy) {
      return AlreadyClaimed(ticket.value.claimedBy.value), [];
    }
    if guildId !in configs.records {
      return ConfigMissing, [];
    }
    var isStaff := IsServiceStaff(configs.records[guildId], memberRoles, isAdmin);
    if !isStaff {
      return StaffOnly, [];
    }
    var claimed := ticket.value.(claimedBy := Some(actor));
    UpdateKeepsStored(db.records, claimed);
    db.records := db.records[ticketId := claimed];
    return Claimed, [AnnounceClaim(actor)];
  }

  /** The first successful claim is final: any later claim is answered with the first claimant and changes nothing. */
  lemma ServiceClaimHappensOnce(tickets: map<string, ServiceTicket>, configs: map<string, GuildConfig>, guildId: string,
                                ticketId: string, first: string, roles: set<string>, admin: bool,
                                second: string, laterRoles: set<string>, laterAdmin: bool)
    requires Stored(tickets) && first != ""
    requires ClaimStep(tickets, configs, guildId, ticketId, first, roles, admin).0 == Claimed
    ensures var after := ClaimStep(tickets, configs, guildId, ticketId, first, roles, admin).1;
            Stored(after) && ClaimStep(after, configs, guildId, ticketId, second, laterRoles, laterAdmin) == (AlreadyClaimed(first), after, [])
  {
  }

  // ---------------------------------------------------------------------
  // Transcripts

  /** The close transcript's line: the message line, a space, then `(Attachment)` when it has attachments. */
  function CloseLine(m: TI.Message): string {
    TI.MessageLine(m) + " " + (if |m.attachmentUrls| > 0 then "(Attachment)" else "")
  }

  function CloseLines(ms: seq<TI.Message>): (r: seq<string>)
    ensures |r| == |ms| && forall i :: 0 <= i < |ms| ==> r[i] == CloseLine(ms[i])
  {
    if ms == [] then [] else [CloseLine(ms[0])] + CloseLines(ms[1..])
  }

  function PlainLines(ms: seq<TI.Message>): (r: seq<string>)
    ensures |r| == |ms| && forall i :: 0 <= i < |ms| ==> r[i] == TI.MessageLine(ms[i])
  {
    if ms == [] then [] else [TI.MessageLine(ms[0])] + PlainLines(ms[1..])
  }

  /** The transcript `closeTicket` attaches: the fetched messages (newest first) in chronological order, one per line. */
  function CloseTranscript(fetched: seq<TI.Message>): string {
    Join(CloseLines(Reverse(fetched)), "\n")
  }

  /** The transcript `generateTranscript` replies with: the same lines without the attachment marker. */
  function PlainTranscript(fetched: seq<TI.Message>): string {
    Join(PlainLines(Reverse(fetched)), "\n")
  }

  /**
   * Split back into lines, both transcripts list the messages oldest first;
   * each close line is the plain line followed by a space and the marker.
   */
  lemma TranscriptLines(fetched: seq<TI.Message>)
    requires |fetched| >= 1
    requires forall i :: 0 <= i < |fetched| ==> '\n' !in CloseLine(fetched[i])
    ensures var plain := Split(PlainTranscript(fetched), '\n');
            var close := Split(CloseTranscript(fetched), '\n');
            && |plain| == |close| == |fetched|
            && (forall i :: 0 <= i < |fetched| ==> plain[i] == TI.MessageLine(fetched[|fetched| - 1 - i]))
            && (forall i :: 0 <= i < |fetched| ==>
                  close[i] == plain[i] + " " + (if |fetched[|fetched| - 1 - i].attachmentUrls| > 0 then "(Attachment)" else ""))
  {
    var sorted := Reverse(fetched);
    forall i | 0 <= i < |fetched|
      ensures '\n' !in TI.MessageLine(sorted[i])
    {
      assert '\n' !in CloseLine(fetched[|fetched| - 1 - i]);
      assert TI.MessageLine(sorted[i]) <= CloseLine(sorted[i]);
    }
    SplitJoin(PlainLines(sorted), '\n');
    SplitJoin(CloseLines(sorted), '\n');
  }

  // ---------------------------------------------------------------------
  // Close

  datatype CloseReply = CloseNotFound | Closing

  /**
   * `closeTicket`: a missing ticket changes nothing. Otherwise the transcript
   * is logged (when the configuration names a cached log channel), sent to
   * the creator (best effort), the record is set closed at `now`, and the
   * channel deletion is scheduled after the configured delay; without a
   * configuration reading that delay fails after the record was saved, and no
   * deletion is scheduled.
   */
  function CloseStep(tickets: map<string, ServiceTicket>, configs: map<string, GuildConfig>, guildId: string,
                     ticketId: string, closerId: string, fetched: seq<TI.Message>, logChannelCached: bool,
                     now: int): (r: (CloseReply, map<string, ServiceTicket>, seq<Effect>))
    requires Stored(tickets)
    ensures Stored(r.1)
    ensures r.0 == CloseNotFound <==> FindTicket(tickets, ticketId, guildId).None?
    ensures r.0 == CloseNotFound ==> r.1 == tickets && r.2 == []
    ensures r.0 == Closing ==>
              && r.1 == tickets[ticketId := tickets[ticketId].(status := Closed, closedAt := Some(now))]
              && DmTranscript(tickets[ticketId].creatorId, ticketId, CloseTranscript(fetched)) in r.2
              && (guildId in configs ==> r.2[|r.2| - 1] == DeleteChannelAfter(configs[guildId].ticketCloseDelaySeconds * 1000))
              && (guildId !in configs ==> forall e :: e in r.2 ==> !e.DeleteChannelAfter?)
    ensures (exists e :: e in r.2 && e.LogClosed?) <==>
              r.0 == Closing && guildId in configs && Truthy(configs[guildId].ticketLogChannelId) && logChannelCached
    ensures r.0 == Closing ==>
              var t := tickets[ticketId];
              var transcript := CloseTranscript(fetched);
              r.2 == (if guildId in configs && Truthy(configs[guildId].ticketLogChannelId) && logChannelCached
                      then [LogClosed(ticketId, t.creatorId, t.claimedBy, closerId, transcript)] else [])
                     + [DmTranscript(t.creatorId, ticketId, transcript)]
                     + (if guildId in configs then [DeleteChannelAfter(configs[guildId].ticketCloseDelaySeconds * 1000)] else [])
  {
    var found := FindTicket(tickets, ticketId, guildId);
    if found.None? then (CloseNotFound, tickets, [])
    else
      var t := found.value;
      var transcript := CloseTranscript(fetched);
      var logged := if guildId in configs && Truthy(configs[guildId].ticketLogChannelId) && logChannelCached
                    then [LogClosed(ticketId, t.creatorId, t.claimedBy, closerId, transcript)] else [];
      var closed := t.(status := Closed, closedAt := Some(now));
      UpdateKeepsStored(tickets, closed);
      var deletion := if guildId in configs then [DeleteChannelAfter(configs[guildId].ticketCloseDelaySeconds * 1000)] else [];
      var effects := logged + [DmTranscript(t.creatorId, ticketId, transcript)] + deletion;
      assert forall e :: e in effects ==> e in logged || e.DmTranscript? || e.DeleteChannelAfter?;
      assert logged != [] ==> effects[0].LogClosed?;
      (Closing, tickets[ticketId := closed], effects)
  }

  method CloseTicket(db: ServiceTickets, configs: GuildConfigs, guildId: string, ticketId: string, closerId: string,
                     fetched: seq<TI.Message>, logChannelCached: bool, now: int)
    returns (reply: CloseReply, effects: seq<Effect>)
    requires db.Valid()
    modifies db
    ensures db.Valid()
    ensures (reply, db.records, effects)
            == CloseStep(old(db.records), configs.records, guildId, ticketId, closerId, fetched, logChannelCached, now)
  {
    var ticket := FindTicket(db.records, ticketId, guildId);
    if ticket.None? {
      return CloseNotFound, [];
    }
    var transcript := CloseTranscript(fetched);
    effects := [];
    if guildId in configs.records && Truthy(configs.records[guildId].ticketLogChannelId) && logChannelCached {
      effects := effects + [LogClosed(ticketId, ticket.value.creatorId, ticket.value.claimedBy, closerId, transcript)];
    }
    effects := effects + [DmTranscript(ticket.value.creatorId, ticketId, transcript)];
    var closed := ticket.value.(status := Closed, closedAt := Some(now));
    UpdateKeepsStored(db.records, closed);
    db.records := db.records[ticketId := closed];
    if guildId in configs.records {
      effects := effects + [DeleteChannelAfter(configs.records[guildId].ticketCloseDelaySeconds * 1000)];
    }
    reply := Closing;
    ghost var step := CloseStep(old(db.records), configs.records, guildId, ticketId, closerId, fetched, logChannelCached, now);
    assert step.1 == db.records && step.2 == effects;
  }

  /** Closing leaves the ticket closed, and closing it again changes only the close time. */
  lemma ServiceCloseIsFinal(tickets: map<string, ServiceTicket>, configs: map<string, GuildConfig>, guildId: string,
                            ticketId: string, closerId: string, fetched: seq<TI.Message>, log: bool, now: int,
                            laterCloser: string, laterFetched: seq<TI.Message>, laterLog: bool, later: int)
    requires Stored(tickets) && FindTicket(tickets, ticketId, guildId).Some?
    ensures var once := CloseStep(tickets, configs, guildId, ticketId, closerId, fetched, log, now).1;
            && Stored(once) && once[ticketId].status == Closed
            && var twice := CloseStep(once, configs, guildId, ticketId, laterCloser, laterFetched, laterLog, later).1;
               twice == once[ticketId := once[ticketId].(closedAt := Some(later))]
  {
  }

  /**
   * What assigning `status` and `closedAt` does to a document of the shared
   * `Ticket` schema: neither path is declared, so the save stores the
   * document as it was.
   */
  function AsWrittenClose(t: TicketModel.Ticket, now: int): (r: TicketModel.Ticket)
    ensures r.closed == t.closed
  {
    t
  }

  /** Under the shared schema a ticket closed by the service stays open, so the one-open-ticket rule still counts it. */
  lemma AsWrittenCloseLeavesTicketOpen(tickets: map<string, TicketModel.Ticket>, c: string, now: int)
    requires c in tickets && !tickets[c].closed
    ensures c in TicketModel.OpenTicketsOf(tickets[c := AsWrittenClose(tickets[c], now)], tickets[c].guildId, tickets[c].creatorId)
  {
  }

  // ---------------------------------------------------------------------
  // Lock toggle

  datatype LockReply = LockNotFound | Locked | Unlocked

  /**
   * `toggleLock`: flips the creator's send permission on the ticket channel.
   * An absent overwrite, or one that does not explicitly allow sending, counts
   * as locked, so the toggle unlocks.
   */
  method ToggleLock(db: ServiceTickets, perms: ChannelPermissions, guildId: string, ticketId: string)
    returns (reply: LockReply)
    requires perms.Valid()
    modifies perms
    ensures perms.Valid()
    ensures FindTicket(db.records, ticketId, guildId).None? ==> reply == LockNotFound && perms.overwrites == old(perms.overwrites)
    ensures FindTicket(db.records, ticketId, guildId).Some? ==>
              var creator := db.records[ticketId].creatorId;
              && reply == (if old(perms.CanSend(creator)) then Locked else Unlocked)
              && perms.CanSend(creator) == !old(perms.CanSend(creator))
              && creator in perms.overwrites
              && perms.overwrites[creator]
                 == EditSend(if creator in old(perms.overwrites) then old(perms.overwrites)[creator] else Overwrite({}, {}),
                             !old(perms.CanSend(creator)))
              && (forall id :: id != creator ==> (id in perms.overwrites <==> id in old(perms.overwrites)))
              && (forall id :: id != creator && id in perms.overwrites ==> perms.overwrites[id] == old(perms.overwrites[id]))
  {
    var ticket := FindTicket(db.records, ticketId, guildId);
    if ticket.None? {
      return LockNotFound;
    }
    var creator := ticket.value.creatorId;
    var canSend := creator in perms.overwrites && SendMessages in perms.overwrites[creator].allow;
    if canSend {
      perms.EditSendMessages(creator, false);
      reply := Locked;
    } else {
      perms.EditSendMessages(creator, true);
      reply := Unlocked;
    }
  }

  /** Toggling twice restores the creator's ability to send; the rest of the creator's overwrite is kept throughout. */
  lemma ToggleTwiceRestoresSend(o: Overwrite)
    ensures var once := EditSend(o, SendMessages !in o.allow);
            var twice := EditSend(once, SendMessages !in once.allow);
            && (SendMessages in twice.allow <==> SendMessages in o.allow)
            && (forall p :: p != SendMessages ==> (p in twice.allow <==> p in o.allow) && (p in twice.deny <==> p in o.deny))
  {
  }
}
