/**
 * The interaction handler of the ticket workflow: button presses (open the
 * reason form, claim, close, rate) and the submitted reason form (create).
 *
 * Ticket documents are values read from and written back to the `Tickets`
 * collection; every handler is a method proved equal to a step function, and
 * the lifecycle properties are lemmas about the step functions. Platform
 * calls (channel creation, posts, direct messages, permission edits, the
 * deferred channel deletion) are returned as a list of effects; what the
 * platform answers (the new channel's id, which channels exist, the fetched
 * messages, the clock) comes in as parameters.
 */
module TicketInteractions {
  import opened Wrappers
  import opened Text
  import opened TicketModel

  /** The environment settings the handler reads. */
  datatype EnvConfig = EnvConfig(
    staffRoleId: Option<string>,
    logChannelId: Option<string>,
    categorySupport: Option<string>,
    categoryTechnical: Option<string>,
    categoryPartnership: Option<string>,
    categoryOther: Option<string>)

  datatype User = User(id: string, tag: string, username: string, discriminator: string)

  /** A fetched channel message: ISO creation time, author tag, text and attachment URLs. */
  datatype Message = Message(createdAtIso: string, authorTag: string, content: string, attachmentUrls: seq<string>)

  datatype Effect =
    | ShowReasonForm(modalId: string)
    | AnnounceClaim(claimerId: string)
    | CreateChannel(name: string, parentId: string, ownerId: string)
    | LogCreated(channelId: string, userId: string, kind: string, reason: string)
    | LogClosed(channelName: string, transcript: string)
    | LogRated(channelId: string, creatorId: string, score: int)
    | PostTicketControls(channelId: string, buttonIds: seq<string>)
    | DmCreator(userId: string, transcript: string, rateButtonIds: seq<string>)
    | DenySend(userId: string)
    | DeleteChannelAfter(millis: nat)

  /** `member?.roles.cache.has(STAFF_ROLE_ID)`; `roles` is absent when there is no guild member. */
  predicate IsStaff(env: EnvConfig, roles: Option<set<string>>) {
    roles.Some? && env.staffRoleId.Some? && env.staffRoleId.value in roles.value
  }

  // ---------------------------------------------------------------------
  // Component ids

  const CreateButtonPrefix: string := "create_ticket_"
  const ModalPrefix: string := "ticket_modal_"
  const ClaimButtonId: string := "ticket_claim"
  const CloseButtonId: string := "ticket_close"
  const RatePrefix: string := "ticket_rate_"

  /** The handler a pressed button's id selects, in the order the handler tests them. */
  datatype Route = OpenForm(kind: string) | ClaimRoute | CloseRoute | RateRoute | NoRoute

  function RouteOf(customId: string): (r: Route)
    ensures r.OpenForm? <==> StartsWith(customId, CreateButtonPrefix)
    ensures r.OpenForm? ==> customId == CreateButtonPrefix + r.kind
    ensures r == ClaimRoute <==> customId == ClaimButtonId
    ensures r == CloseRoute <==> customId == CloseButtonId
    ensures r == RateRoute <==> StartsWith(customId, RatePrefix)
    ensures r == NoRoute <==>
              !StartsWith(customId, CreateButtonPrefix) && !StartsWith(customId, RatePrefix)
              && customId != ClaimButtonId && customId != CloseButtonId
  {
    assert !StartsWith(ClaimButtonId, CreateButtonPrefix) && !StartsWith(CloseButtonId, CreateButtonPrefix);
    assert ClaimButtonId[7] != RatePrefix[7] && CloseButtonId[7] != RatePrefix[7];
    assert StartsWith(customId, RatePrefix) ==> !StartsWith(customId, CreateButtonPrefix) by {
      if StartsWith(customId, RatePrefix) {
        assert customId[0] == RatePrefix[0] != CreateButtonPrefix[0];
      }
    }
    if StartsWith(customId, CreateButtonPrefix) then OpenForm(DropPrefix(customId, CreateButtonPrefix))
    else if customId == ClaimButtonId then ClaimRoute
    else if customId == CloseButtonId then CloseRoute
    else if StartsWith(customId, RatePrefix) then RateRoute
    else NoRoute
  }

  /** The reason form opened for a ticket kind carries the kind in its id. */
  function ModalId(kind: string): string {
    ModalPrefix + kind
  }

  /** `customId.replace('ticket_modal_', '')` behind the `startsWith` test; absent for other forms. */
  function ModalKind(modalId: string): (r: Option<string>)
    ensures r.Some? <==> StartsWith(modalId, ModalPrefix)
  {
    if StartsWith(modalId, ModalPrefix) then Some(DropPrefix(modalId, ModalPrefix)) else None
  }

  /** The kind named by a create button reaches the form-submit handler unchanged. */
  lemma CreateButtonRoundTrip(kind: string)
    ensures RouteOf(CreateButtonPrefix + kind) == OpenForm(kind)
    ensures ModalKind(ModalId(kind)) == Some(kind)
  {
    assert StartsWith(CreateButtonPrefix + kind, CreateButtonPrefix);
    assert StartsWith(ModalId(kind), ModalPrefix);
  }

  /** `ticket_rate_<score>_<channelId>`. */
  function RateButtonId(score: nat, channelId: string): string {
    RatePrefix + NatToString(score) + "_" + channelId
  }

  /** The five rating buttons sent to the creator of a closed ticket. */
  function RateButtonIds(channelId: string): (r: seq<string>)
    ensures |r| == 5 && forall i :: 0 <= i < 5 ==> r[i] == RateButtonId(i + 1, channelId)
  {
    [RateButtonId(1, channelId), RateButtonId(2, channelId), RateButtonId(3, channelId),
     RateButtonId(4, channelId), RateButtonId(5, channelId)]
  }

  /** `parts = customId.split('_')`, then `parseInt(parts[2], 10)` and `parts[3]`. */
  function ParseRateButtonId(customId: string): (Option<int>, Option<string>) {
    var parts := Split(customId, '_');
    (if |parts| > 2 then ParseInt(parts[2]) else None, if |parts| > 3 then Some(parts[3]) else None)
  }

  /** A rating id built by the close handler is routed to the rating handler and parses back to its score and channel. */
  lemma RateButtonIdRoundTrip(score: nat, channelId: string)
    requires '_' !in channelId
    ensures RouteOf(RateButtonId(score, channelId)) == RateRoute
    ensures ParseRateButtonId(RateButtonId(score, channelId)) == (Some(score as int), Some(channelId))
  {
    RateButtonIdRoutes(score, channelId);
    RateButtonIdParts(score, channelId);
    ParseIntOfDigits(NatToString(score));
    NatToStringRoundTrip(score);
  }

  lemma RateButtonIdRoutes(score: nat, channelId: string)
    ensures RouteOf(RateButtonId(score, channelId)) == RateRoute
  {
    var digits := NatToString(score);
    var id := RateButtonId(score, channelId);
    assert id == RatePrefix + (digits + "_" + channelId);
    assert StartsWith(id, RatePrefix);
    assert !StartsWith(id, CreateButtonPrefix) by { assert id[0] != CreateButtonPrefix[0]; }
    assert id != ClaimButtonId && id != CloseButtonId by {
      assert |id| > |ClaimButtonId| && |id| > |CloseButtonId|;
    }
  }

  /** A rating id splits at `_` into `ticket`, `rate`, the score's digits and the channel id. */
  lemma RateButtonIdParts(score: nat, channelId: string)
    requires '_' !in channelId
    ensures Split(RateButtonId(score, channelId), '_') == ["ticket", "rate", NatToString(score), channelId]
  {
    var digits := NatToString(score);
    var id := RateButtonId(score, channelId);
    var parts := ["ticket", "rate", digits, channelId];
    assert Join(parts[3..], "_") == channelId;
    assert Join(parts[2..], "_") == digits + "_" + channelId;
    assert Join(parts[1..], "_") == "rate" + "_" + (digits + "_" + channelId);
    assert Join(parts, "_") == "ticket" + "_" + ("rate" + "_" + (digits + "_" + channelId));
    assert Join(parts, "_") == id;
    assert '_' !in digits by {
      assert forall i :: 0 <= i < |digits| ==> digits[i] != '_';
    }
    SplitJoin(parts, '_');
  }

  // ---------------------------------------------------------------------
  // Transcript

  function MessageLine(m: Message): string {
    "[" + m.createdAtIso + "] " + m.authorTag + ": " + m.content
  }

  function AttachmentsLine(m: Message): string {
    "[Attachments]: " + Join(m.attachmentUrls, ", ")
  }

  /** A message's line, then an attachments line exactly when it has attachments. */
  function MessageLines(m: Message): (r: seq<string>)
    ensures |r| == (if |m.attachmentUrls| > 0 then 2 else 1)
    ensures r[0] == MessageLine(m)
    ensures |r| == 2 ==> r[1] == AttachmentsLine(m)
  {
    [MessageLine(m)] + (if |m.attachmentUrls| > 0 then [AttachmentsLine(m)] else [])
  }

  /** The transcript body: the lines of each message in the given order. */
  function BodyLines(ms: seq<Message>): seq<string> {
    if ms == [] then [] else MessageLines(ms[0]) + BodyLines(ms[1..])
  }

  function TitleLine(channelName: string): string {
    "TRANSCRIPT for " + channelName
  }

  function CategoryLine(ticket: Option<Ticket>): string {
    "Category: " + (if ticket.Some? then ticket.value.category else "Unknown")
  }

  function ReasonLine(ticket: Option<Ticket>): string {
    "Reason: " + (if ticket.Some? && Truthy(ticket.value.reason) then ticket.value.reason.value else "Not provided")
  }

  function ClosedByLine(closer: User): string {
    "Closed by: " + closer.tag + " (" + closer.id + ")"
  }

  function DateLine(nowIso: string): string {
    "Date: " + nowIso
  }

  /** The header: channel, category, reason, closer, close date, then an empty line. */
  function HeaderLines(channelName: string, ticket: Option<Ticket>, closer: User, nowIso: string): (r: seq<string>)
    ensures |r| == 6 && r[5] == ""
  {
    [TitleLine(channelName), CategoryLine(ticket), ReasonLine(ticket), ClosedByLine(closer), DateLine(nowIso), ""]
  }

  /** The closing transcript: header, then the fetched messages (newest first) in chronological order. */
  function Transcript(channelName: string, ticket: Option<Ticket>, closer: User, nowIso: string,
                      fetched: seq<Message>): string
  {
    Unlines(HeaderLines(channelName, ticket, closer, nowIso) + BodyLines(Reverse(fetched)))
  }

  lemma {:induction false} BodyLinesAppend(a: seq<Message>, b: seq<Message>)
    ensures BodyLines(a + b) == BodyLines(a) + BodyLines(b)
  {
    if a == [] {
      assert a + b == b;
    } else {
      assert (a + b)[1..] == a[1..] + b;
      BodyLinesAppend(a[1..], b);
    }
  }

  lemma HeaderText(channelName: string, ticket: Option<Ticket>, closer: User, nowIso: string)
    ensures Unlines(HeaderLines(channelName, ticket, closer, nowIso))
            == TitleLine(channelName) + "\n" + CategoryLine(ticket) + "\n" + ReasonLine(ticket) + "\n"
               + ClosedByLine(closer) + "\n" + DateLine(nowIso) + "\n\n"
  {
    var t, c, r, b, d := TitleLine(channelName), CategoryLine(ticket), ReasonLine(ticket), ClosedByLine(closer), DateLine(nowIso);
    var u1 := t + "\n";
    UnlinesSnoc([], t);
    assert [] + [t] == [t] && "" + t + "\n" == u1;
    var u2 := u1 + c + "\n";
    UnlinesSnoc([t], c);
    assert [t] + [c] == [t, c];
    var u3 := u2 + r + "\n";
    UnlinesSnoc([t, c], r);
    assert [t, c] + [r] == [t, c, r];
    var u4 := u3 + b + "\n";
    UnlinesSnoc([t, c, r], b);
    assert [t, c, r] + [b] == [t, c, r, b];
    var u5 := u4 + d + "\n";
    UnlinesSnoc([t, c, r, b], d);
    assert [t, c, r, b] + [d] == [t, c, r, b, d];
    UnlinesSnoc([t, c, r, b, d], "");
    assert [t, c, r, b, d] + [""] == [t, c, r, b, d, ""];
    assert u5 + "" + "\n" == u4 + d + "\n\n";
  }

  /** One pass of the loop: appending a message's lines to the text of the lines before it. */
  lemma AppendMessageLines(header: seq<string>, sorted: seq<Message>, i: nat, text: string)
    requires i < |sorted| && text == Unlines(header + BodyLines(sorted[..i]))
    ensures (if |sorted[i].attachmentUrls| > 0
             then text + MessageLine(sorted[i]) + "\n" + AttachmentsLine(sorted[i]) + "\n"
             else text + MessageLine(sorted[i]) + "\n")
            == Unlines(header + BodyLines(sorted[..i + 1]))
  {
    var m := sorted[i];
    var lines := header + BodyLines(sorted[..i]);
    UnlinesSnoc(lines, MessageLine(m));
    if |m.attachmentUrls| > 0 {
      UnlinesSnoc(lines + [MessageLine(m)], AttachmentsLine(m));
      assert lines + [MessageLine(m)] + [AttachmentsLine(m)] == lines + MessageLines(m);
    } else {
      assert MessageLines(m) == [MessageLine(m)];
    }
    assert sorted[..i + 1] == sorted[..i] + [m];
    BodyLinesAppend(sorted[..i], [m]);
    assert BodyLines([m]) == MessageLines(m);
    assert header + BodyLines(sorted[..i + 1]) == lines + MessageLines(m);
  }

  /** The `transcriptText +=` statements and the `forEach` loop over the reversed fetch. */
  method BuildTranscript(channelName: string, ticket: Option<Ticket>, closer: User, nowIso: string,
                         fetched: seq<Message>) returns (text: string)
    ensures text == Transcript(channelName, ticket, closer, nowIso, fetched)
  {
    ghost var header := HeaderLines(channelName, ticket, closer, nowIso);
    text := TitleLine(channelName) + "\n";
    text := text + CategoryLine(ticket) + "\n";
    text := text + ReasonLine(ticket) + "\n";
    text := text + ClosedByLine(closer) + "\n";
    text := text + DateLine(nowIso) + "\n\n";
    HeaderText(channelName, ticket, closer, nowIso);
    var sorted := Reverse(fetched);
    var i := 0;
    assert header + BodyLines(sorted[..0]) == header;
    while i < |sorted|
      invariant 0 <= i <= |sorted|
      invariant text == Unlines(header + BodyLines(sorted[..i]))
    {
      var m := sorted[i];
      AppendMessageLines(header, sorted, i, text);
      text := text + MessageLine(m) + "\n";
      if |m.attachmentUrls| > 0 {
        text := text + AttachmentsLine(m) + "\n";
      }
      i := i + 1;
    }
    assert sorted[..i] == sorted;
  }

  /** Without attachments the body has one line per fetched message, oldest first. */
  lemma {:induction false} BodyIsChronological(fetched: seq<Message>)
    requires forall m :: m in fetched ==> m.attachmentUrls == []
    ensures |BodyLines(Reverse(fetched))| == |fetched|
    ensures forall i :: 0 <= i < |fetched| ==> BodyLines(Reverse(fetched))[i] == MessageLine(fetched[|fetched| - 1 - i])
  {
    if fetched != [] {
      var rest := fetched[1..];
      assert forall m :: m in rest ==> m in fetched;
      BodyIsChronological(rest);
      assert Reverse(fetched) == Reverse(rest) + [fetched[0]];
      BodyLinesAppend(Reverse(rest), [fetched[0]]);
      assert BodyLines([fetched[0]]) == [MessageLine(fetched[0])];
    }
  }

  /** When no field holds a newline, the transcript is exactly its header lines and body lines, each ended by a newline. */
  lemma TranscriptLines(channelName: string, ticket: Option<Ticket>, closer: User, nowIso: string, fetched: seq<Message>)
    requires forall l :: l in HeaderLines(channelName, ticket, closer, nowIso) + BodyLines(Reverse(fetched)) ==> '\n' !in l
    ensures Split(Transcript(channelName, ticket, closer, nowIso, fetched), '\n')
            == HeaderLines(channelName, ticket, closer, nowIso) + BodyLines(Reverse(fetched)) + [""]
  {
    var lines := HeaderLines(channelName, ticket, closer, nowIso) + BodyLines(Reverse(fetched));
    assert forall i :: 0 <= i < |lines| ==> lines[i] in lines;
    SplitUnlines(lines);
  }

  // ---------------------------------------------------------------------
  // Claim button

  datatype ClaimReply = StaffOnlyClaim | ClaimTicketNotFound | AlreadyClaimed(claimant: string) | Claimed

  /** Pressing Claim: staff check, then lookup by channel, then the already-claimed guard. */
  function ClaimStep(tickets: map<string, Ticket>, env: EnvConfig, roles: Option<set<string>>,
                     channelId: string, actor: string): (r: (ClaimReply, map<string, Ticket>, seq<Effect>))
    requires Stored(tickets)
    ensures r.0 == StaffOnlyClaim <==> !IsStaff(env, roles)
    ensures r.0 == ClaimTicketNotFound <==> IsStaff(env, roles) && channelId !in tickets
    ensures r.0.AlreadyClaimed? ==> channelId in tickets && tickets[channelId].claimedBy == Some(r.0.claimant)
                                    && r.0.claimant != ""
    ensures r.0 == Claimed <==> IsStaff(env, roles) && channelId in tickets && !Truthy(tickets[channelId].claimedBy)
    ensures r.0 == Claimed ==> r.1 == tickets[channelId := tickets[channelId].(claimedBy := Some(actor))]
                               && r.2 == [AnnounceClaim(actor)]
    ensures r.0 != Claimed ==> r.1 == tickets && r.2 == []
  {
    if !IsStaff(env, roles) then (StaffOnlyClaim, tickets, [])
    else if channelId !in tickets then (ClaimTicketNotFound, tickets, [])
    else if Truthy(tickets[channelId].claimedBy) then (AlreadyClaimed(tickets[channelId].claimedBy.value), tickets, [])
    else (Claimed, tickets[channelId := PreSave(tickets[channelId].(claimedBy := Some(actor)))], [AnnounceClaim(actor)])
  }

  method Claim(db: Tickets, env: EnvConfig, roles: Option<set<string>>, channelId: string, actor: string)
    returns (reply: ClaimReply, effects: seq<Effect>)
    requires db.Valid()
    modifies db
    ensures db.Valid()
    ensures (reply, db.records, effects) == ClaimStep(old(db.records), env, roles, channelId, actor)
  {
    if !IsStaff(env, roles) {
      return StaffOnlyClaim, [];
    }
    if channelId !in db.records {
      return ClaimTicketNotFound, [];
    }
    var ticket := db.records[channelId];
    if Truthy(ticket.claimedBy) {
      return AlreadyClaimed(ticket.claimedBy.value), [];
    }
    ticket := ticket.(claimedBy := Some(actor));
    UpdateKeepsInvariants(db.records, channelId, PreSave(ticket));
    db.records := db.records[channelId := PreSave(ticket)];
    return Claimed, [AnnounceClaim(actor)];
  }

  /** Once a staff member has claimed a ticket, no later claim succeeds or overwrites the claimant. */
  lemma ClaimHappensOnce(tickets: map<string, Ticket>, env: EnvConfig, roles: Option<set<string>>,
                         later: Option<set<string>>, channelId: string, first: string, second: string)
    requires Stored(tickets) && first != ""
    requires ClaimStep(tickets, env, roles, channelId, first).0 == Claimed
    ensures var after := ClaimStep(tickets, env, roles, channelId, first).1;
            Stored(after) &&
            var again := ClaimStep(after, env, later, channelId, second);
            again.0 != Claimed && again.1 == after && after[channelId].claimedBy == Some(first) &&
            (IsStaff(env, later) ==> again.0 == AlreadyClaimed(first))
  {
  }

  // ---------------------------------------------------------------------
  // Close button

  datatype CloseReply = StaffOnlyClose | TicketClosed

  /**
   * Pressing Close: after the staff check the channel is transcribed and the
   * record (if any) marked closed; the transcript goes to the log channel and
   * with the five rating buttons to the creator, whose send permission is
   * revoked, and the channel is deleted 5000 ms later.
   */
  function CloseStep(tickets: map<string, Ticket>, env: EnvConfig, roles: Option<set<string>>,
                     channelId: string, channelName: string, closer: User, nowIso: string,
                     fetched: seq<Message>, logChannelCached: bool): (r: (CloseReply, map<string, Ticket>, seq<Effect>))
    requires Stored(tickets)
    ensures !IsStaff(env, roles) ==> r == (StaffOnlyClose, tickets, [])
    ensures IsStaff(env, roles) ==> r.0 == TicketClosed && |r.2| > 0 && r.2[|r.2| - 1] == DeleteChannelAfter(5000)
    ensures IsStaff(env, roles) && channelId in tickets ==> r.1 == tickets[channelId := tickets[channelId].(closed := true)]
    ensures channelId !in tickets ==> r.1 == tickets
    ensures IsStaff(env, roles) && channelId in tickets ==>
              DmCreator(tickets[channelId].creatorId, Transcript(channelName, Some(tickets[channelId]), closer, nowIso, fetched),
                        RateButtonIds(channelId)) in r.2
    ensures (exists e :: e in r.2 && e.LogClosed?) <==> IsStaff(env, roles) && logChannelCached
    ensures (exists e :: e in r.2 && e.DenySend?) <==> IsStaff(env, roles) && channelId in tickets
    ensures IsStaff(env, roles) ==>
              var ticket := if channelId in tickets then Some(tickets[channelId]) else None;
              var transcript := Transcript(channelName, ticket, closer, nowIso, fetched);
              r.2 == (if logChannelCached then [LogClosed(channelName, transcript)] else [])
                     + (if channelId in tickets
                        then [DmCreator(tickets[channelId].creatorId, transcript, RateButtonIds(channelId)),
                              DenySend(tickets[channelId].creatorId)]
                        else [])
                     + [DeleteChannelAfter(5000)]
  {
    if !IsStaff(env, roles) then (StaffOnlyClose, tickets, [])
    else
      var ticket := if channelId in tickets then Some(tickets[channelId]) else None;
      var transcript := Transcript(channelName, ticket, closer, nowIso, fetched);
      var logged := if logChannelCached then [LogClosed(channelName, transcript)] else [];
      var told := if ticket.Some? && ticket.value.creatorId != ""
                  then [DmCreator(ticket.value.creatorId, transcript, RateButtonIds(channelId)), DenySend(ticket.value.creatorId)]
                  else [];
      var after := if ticket.Some? then tickets[channelId := PreSave(ticket.value.(closed := true))] else tickets;
      CloseEffectKinds(logged, told);
      (TicketClosed, after, logged + told + [DeleteChannelAfter(5000)])
  }

  /** Which kinds of effect a close produces: a log entry exactly when one was logged, a send denial exactly when the creator was told. */
  lemma CloseEffectKinds(logged: seq<Effect>, told: seq<Effect>)
    requires logged == [] || (|logged| == 1 && logged[0].LogClosed?)
    requires told == [] || (|told| == 2 && told[0].DmCreator? && told[1].DenySend?)
    ensures var effects := logged + told + [DeleteChannelAfter(5000)];
            && ((exists e :: e in effects && e.LogClosed?) <==> logged != [])
            && ((exists e :: e in effects && e.DenySend?) <==> told != [])
  {
    var effects := logged + told + [DeleteChannelAfter(5000)];
    assert forall e :: e in effects ==> e in logged || e in told || e == DeleteChannelAfter(5000);
    if logged != [] {
      assert effects[0] == logged[0];
    }
    if told != [] {
      assert effects[|logged| + 1] == told[1];
    }
  }

  method Close(db: Tickets, env: EnvConfig, roles: Option<set<string>>, channelId: string, channelName: string,
               closer: User, nowIso: string, fetched: seq<Message>, logChannelCached: bool)
    returns (reply: CloseReply, effects: seq<Effect>)
    requires db.Valid()
    modifies db
    ensures db.Valid()
    ensures (reply, db.records, effects)
            == CloseStep(old(db.records), env, roles, channelId, channelName, closer, nowIso, fetched, logChannelCached)
  {
    if !IsStaff(env, roles) {
      return StaffOnlyClose, [];
    }
    var ticket: Option<Ticket> := if channelId in db.records then Some(db.records[channelId]) else None;
    var transcript := BuildTranscript(channelName, ticket, closer, nowIso, fetched);
    ghost var logged := if logChannelCached then [LogClosed(channelName, transcript)] else [];
    ghost var after := if ticket.Some? then db.records[channelId := PreSave(ticket.value.(closed := true))] else db.records;
    ghost var told := if ticket.Some? && ticket.value.creatorId != ""
                      then [DmCreator(ticket.value.creatorId, transcript, RateButtonIds(channelId)), DenySend(ticket.value.creatorId)]
                      else [];
    ghost var step := CloseStep(db.records, env, roles, channelId, channelName, closer, nowIso, fetched, logChannelCached);
    assert step == (TicketClosed, after, logged + told + [DeleteChannelAfter(5000)]);
    effects := [];
    if logChannelCached {
      effects := effects + [LogClosed(channelName, transcript)];
    }
    assert effects == logged;
    if ticket.Some? && ticket.value.creatorId != "" {
      effects := effects + [DmCreator(ticket.value.creatorId, transcript, RateButtonIds(channelId))];
    }
    if ticket.Some? {
      var closed := ticket.value.(closed := true);
      UpdateKeepsInvariants(db.records, channelId, PreSave(closed));
      db.records := db.records[channelId := PreSave(closed)];
    }
    assert db.records == after;
    if ticket.Some? && ticket.value.creatorId != "" {
      effects := effects + [DenySend(ticket.value.creatorId)];
    }
    assert effects == logged + told;
    effects := effects + [DeleteChannelAfter(5000)];
    reply := TicketClosed;
  }

  /** Closing twice leaves the records as closing once does. */
  lemma CloseIsIdempotent(tickets: map<string, Ticket>, env: EnvConfig, roles: Option<set<string>>,
                          channelId: string, channelName: string, closer: User, nowIso: string,
                          fetched: seq<Message>, logChannelCached: bool)
    requires Stored(tickets)
    ensures var once := CloseStep(tickets, env, roles, channelId, channelName, closer, nowIso, fetched, logChannelCached).1;
            Stored(once) &&
            CloseStep(once, env, roles, channelId, channelName, closer, nowIso, fetched, logChannelCached).1 == once
  {
  }

  // ---------------------------------------------------------------------
  // Rating buttons

  datatype RateReply = InvalidRating | RatingTicketNotFound | CreatorOnlyRating | AlreadyRated(rating: int) | Rated(score: int)

  predicate IsValidScore(score: Option<int>) {
    score.Some? && 1 <= score.value <= 5
  }

  /**
   * Pressing a rating button: the score must parse to 1..5, the ticket must
   * exist, only its creator may rate, and only while no rating is stored.
   */
  function RateStep(tickets: map<string, Ticket>, customId: string, raterId: string, now: int,
                    logChannelCached: bool): (r: (RateReply, map<string, Ticket>, seq<Effect>))
    requires Stored(tickets)
    ensures var (score, ch) := ParseRateButtonId(customId);
            && (r.0 == InvalidRating <==> !IsValidScore(score))
            && (r.0 == RatingTicketNotFound <==> IsValidScore(score) && (ch.None? || ch.value !in tickets))
            && (r.0 == CreatorOnlyRating <==>
                  IsValidScore(score) && ch.Some? && ch.value in tickets && tickets[ch.value].creatorId != raterId)
            && (r.0.AlreadyRated? <==>
                  IsValidScore(score) && ch.Some? && ch.value in tickets && tickets[ch.value].creatorId == raterId
                  && tickets[ch.value].rating.Some?)
            && (r.0.AlreadyRated? ==> tickets[ch.value].rating == Some(r.0.rating))
            && (r.0.Rated? ==> score == Some(r.0.score) && 1 <= r.0.score <= 5 && ch.Some? && ch.value in tickets
                               && tickets[ch.value].creatorId == raterId && tickets[ch.value].rating.None?
                               && r.1 == tickets[ch.value := tickets[ch.value].(rating := Some(r.0.score), ratedAt := Some(now))]
                               && r.2 == (if logChannelCached then [LogRated(ch.value, tickets[ch.value].creatorId, r.0.score)] else []))
            && (!r.0.Rated? ==> r.1 == tickets && r.2 == [])
  {
    var (score, ch) := ParseRateButtonId(customId);
    if !IsValidScore(score) then (InvalidRating, tickets, [])
    else if ch.None? || ch.value !in tickets then (RatingTicketNotFound, tickets, [])
    else
      var ticket := tickets[ch.value];
      if raterId != ticket.creatorId then (CreatorOnlyRating, tickets, [])
      else if ticket.rating.Some? then (AlreadyRated(ticket.rating.value), tickets, [])
      else
        var rated := PreSave(ticket.(rating := Some(score.value), ratedAt := Some(now)));
        (Rated(score.value), tickets[ch.value := rated],
         if logChannelCached then [LogRated(ch.value, ticket.creatorId, score.value)] else [])
  }

  method Rate(db: Tickets, customId: string, raterId: string, now: int, logChannelCached: bool)
    returns (reply: RateReply, effects: seq<Effect>)
    requires db.Valid()
    modifies db
    ensures db.Valid()
    ensures (reply, db.records, effects) == RateStep(old(db.records), customId, raterId, now, logChannelCached)
  {
    var parts := Split(customId, '_');
    var score := if |parts| > 2 then ParseInt(parts[2]) else None;
    var ticketChannelId := if |parts| > 3 then Some(parts[3]) else None;
    if score.None? || score.value < 1 || score.value > 5 {
      return InvalidRating, [];
    }
    if ticketChannelId.None? || ticketChannelId.value !in db.records {
      return RatingTicketNotFound, [];
    }
    var ticket := db.records[ticketChannelId.value];
    if raterId != ticket.creatorId {
      return CreatorOnlyRating, [];
    }
    if ticket.rating.Some? {
      return AlreadyRated(ticket.rating.value), [];
    }
    ticket := ticket.(rating := Some(score.value));
    ticket := ticket.(ratedAt := Some(now));
    UpdateKeepsInvariants(db.records, ticketChannelId.value, PreSave(ticket));
    db.records := db.records[ticketChannelId.value := PreSave(ticket)];
    effects := if logChannelCached then [LogRated(ticketChannelId.value, ticket.creatorId, score.value)] else [];
    reply := Rated(score.value);
  }

  /** A rating is stored once: every later press is refused, leaves the record alone, and the creator is told the first score. */
  lemma RatingHappensOnce(tickets: map<string, Ticket>, customId: string, raterId: string, now: int, log: bool,
                          laterId: string, laterRater: string, laterNow: int, laterLog: bool)
    requires Stored(tickets)
    requires RateStep(tickets, customId, raterId, now, log).0.Rated?
    requires ParseRateButtonId(laterId).1 == ParseRateButtonId(customId).1
    ensures var first := RateStep(tickets, customId, raterId, now, log);
            Stored(first.1) &&
            var again := RateStep(first.1, laterId, laterRater, laterNow, laterLog);
            !again.0.Rated? && again.1 == first.1 &&
            (laterRater == raterId && IsValidScore(ParseRateButtonId(laterId).0) ==> again.0 == AlreadyRated(first.0.score))
  {
  }

  /** The creator pressing the button for score n (1..5) on an unrated ticket stores exactly n. */
  lemma RatingButtonStoresScore(tickets: map<string, Ticket>, score: nat, channelId: string, now: int, log: bool)
    requires Stored(tickets) && 1 <= score <= 5 && '_' !in channelId
    requires channelId in tickets && tickets[channelId].rating.None?
    ensures var r := RateStep(tickets, RateButtonId(score, channelId), tickets[channelId].creatorId, now, log);
            r.0 == Rated(score) && r.1[channelId].rating == Some(score as int)
  {
    RateButtonIdRoundTrip(score, channelId);
  }

  // ---------------------------------------------------------------------
  // Reason form submitted: create the ticket

  datatype CreateReply = FormIgnored | CategoryNotConfigured | AlreadyOpen(channelId: string) | CreateFailed | Created(channelId: string)

  /** The four kinds the form handler accepts; any other kind is ignored. */
  predicate IsTicketKind(kind: string) {
    kind in {"support", "technical", "partnership", "other"}
  }

  /** The category id configured for a kind. */
  function EnvCategory(env: EnvConfig, kind: string): (r: Option<string>)
    ensures !IsTicketKind(kind) ==> r.None?
  {
    match kind
    case "support" => env.categorySupport
    case "technical" => env.categoryTechnical
    case "partnership" => env.categoryPartnership
    case "other" => env.categoryOther
    case _ => None
  }

  /** `<kind>-<username>-<discriminator, or the last four characters of the user id>`. */
  function TicketChannelName(kind: string, user: User): string {
    kind + "-" + user.username + "-" + (if user.discriminator != "" then user.discriminator else Last(user.id, 4))
  }

  /** The user's open ticket whose channel no longer exists is marked closed; otherwise nothing changes. */
  ghost function CloseStale(tickets: map<string, Ticket>, guildId: string, creatorId: string,
                            liveChannels: set<string>): (r: map<string, Ticket>)
    requires Stored(tickets) && OneOpenPerCreator(tickets)
    requires var open := OpenTicketOf(tickets, guildId, creatorId); open.None? || open.value !in liveChannels
    ensures Stored(r) && OneOpenPerCreator(r)
    ensures r.Keys == tickets.Keys
    ensures OpenTicketsOf(r, guildId, creatorId) == {}
    ensures forall c :: c in OpenTicketsOf(tickets, guildId, creatorId) ==> r[c] == tickets[c].(closed := true)
    ensures forall c :: c in tickets && c !in OpenTicketsOf(tickets, guildId, creatorId) ==> r[c] == tickets[c]
  {
    var open := OpenTicketOf(tickets, guildId, creatorId);
    if open.None? then tickets
    else
      var stale := PreSave(tickets[open.value].(closed := true));
      UpdateKeepsInvariants(tickets, open.value, stale);
      tickets[open.value := stale]
  }

  /**
   * The tail of the form handler once no live open ticket stands in the way:
   * create the channel, save the record, post the controls, log.
   */
  ghost function SaveNewTicket(cleared: map<string, Ticket>, kind: string, category: string, guildId: string,
                               user: User, reason: string, newChannel: Option<string>, now: int,
                               logChannelCached: bool): (r: (CreateReply, map<string, Ticket>, seq<Effect>))
    requires Stored(cleared) && OneOpenPerCreator(cleared) && OpenTicketsOf(cleared, guildId, user.id) == {}
    ensures Stored(r.1) && OneOpenPerCreator(r.1)
    ensures r.0 == CreateFailed || r.0.Created?
    ensures r.0 == CreateFailed ==> r.1 == cleared
    ensures r.0.Created? <==>
              newChannel.Some? && newChannel.value !in cleared
              && Admits(PreSave(NewTicket(newChannel.value, guildId, user.id, kind, reason, now)))
    ensures r.0 == CreateFailed ==>
              r.2 == (if newChannel.Some? then [CreateChannel(TicketChannelName(kind, user), category, user.id)] else [])
    ensures r.0.Created? ==>
              |r.2| >= 2 && r.2[2..] == (if logChannelCached then [LogCreated(r.0.channelId, user.id, kind, reason)] else [])
    ensures r.0.Created? ==>
              var ch := r.0.channelId;
              newChannel == Some(ch) && ch !in cleared
              && r.1 == cleared[ch := PreSave(NewTicket(ch, guildId, user.id, kind, reason, now))]
              && OpenTicketsOf(r.1, guildId, user.id) == {ch}
              && |r.2| >= 2
              && r.2[0] == CreateChannel(TicketChannelName(kind, user), category, user.id)
              && r.2[1] == PostTicketControls(ch, [ClaimButtonId, CloseButtonId])
  {
    if newChannel.None? then (CreateFailed, cleared, [])
    else
      var ch := newChannel.value;
      var created := [CreateChannel(TicketChannelName(kind, user), category, user.id)];
      var ticket := PreSave(NewTicket(ch, guildId, user.id, kind, reason, now));
      if ch in cleared || !Admits(ticket) then (CreateFailed, cleared, created)
      else
        AddKeepsInvariants(cleared, ticket);
        var after := cleared[ch := ticket];
        assert OpenTicketsOf(after, guildId, user.id) == {ch} by {
          assert forall c :: c in cleared && c in OpenTicketsOf(cleared, guildId, user.id) ==> false;
        }
        (Created(ch), after,
         created + [PostTicketControls(ch, [ClaimButtonId, CloseButtonId])]
         + (if logChannelCached then [LogCreated(ch, user.id, kind, reason)] else []))
  }

  /**
   * Submitting the reason form. Forms of other ids or kinds are ignored; a
   * kind without a configured category is refused; a user whose open ticket
   * in this guild still has its channel is pointed at it, and an open ticket
   * whose channel is gone is closed first. Then the channel is created
   * (`newChannel` is its id, absent when creation fails), the record saved,
   * the claim/close controls posted and the creation logged.
   */
  ghost function CreateStep(tickets: map<string, Ticket>, env: EnvConfig, modalId: string, guildId: string,
                            user: User, reason: string, liveChannels: set<string>, newChannel: Option<string>,
                            now: int, logChannelCached: bool): (r: (CreateReply, map<string, Ticket>, seq<Effect>))
    requires Stored(tickets) && OneOpenPerCreator(tickets)
    ensures Stored(r.1) && OneOpenPerCreator(r.1)
    ensures r.0 == FormIgnored <==> ModalKind(modalId).None? || !IsTicketKind(ModalKind(modalId).value)
    ensures r.0 == CategoryNotConfigured <==>
              ModalKind(modalId).Some? && IsTicketKind(ModalKind(modalId).value) && !Truthy(EnvCategory(env, ModalKind(modalId).value))
    ensures r.0.AlreadyOpen? <==>
              ModalKind(modalId).Some? && Truthy(EnvCategory(env, ModalKind(modalId).value))
              && exists c :: c in OpenTicketsOf(tickets, guildId, user.id) && c in liveChannels
    ensures r.0.AlreadyOpen? ==> r.0.channelId in OpenTicketsOf(tickets, guildId, user.id)
    ensures r.0 == FormIgnored || r.0 == CategoryNotConfigured || r.0.AlreadyOpen? ==> r.1 == tickets && r.2 == []
    ensures r.0 == CreateFailed || r.0.Created? ==>
              r == SaveNewTicket(CloseStale(tickets, guildId, user.id, liveChannels), ModalKind(modalId).value,
                                 EnvCategory(env, ModalKind(modalId).value).value, guildId, user, reason, newChannel, now,
                                 logChannelCached)
  {
    var kind := ModalKind(modalId);
    if kind.None? || !IsTicketKind(kind.value) then (FormIgnored, tickets, [])
    else
      var category := EnvCategory(env, kind.value);
      if !Truthy(category) then (CategoryNotConfigured, tickets, [])
      else
        var open := OpenTicketOf(tickets, guildId, user.id);
        if open.Some? && open.value in liveChannels then (AlreadyOpen(open.value), tickets, [])
        else
          SaveNewTicket(CloseStale(tickets, guildId, user.id, liveChannels), kind.value, category.value,
                        guildId, user, reason, newChannel, now, logChannelCached)
  }

  method CreateFromForm(db: Tickets, env: EnvConfig, modalId: string, guildId: string, user: User, reason: string,
                        liveChannels: set<string>, newChannel: Option<string>, now: int, logChannelCached: bool)
    returns (reply: CreateReply, effects: seq<Effect>)
    requires db.Valid()
    modifies db
    ensures db.Valid()
    ensures (reply, db.records, effects)
            == CreateStep(old(db.records), env, modalId, guildId, user, reason, liveChannels, newChannel, now, logChannelCached)
  {
    ghost var before := db.records;
    ghost var step := CreateStep(before, env, modalId, guildId, user, reason, liveChannels, newChannel, now, logChannelCached);
    if !StartsWith(modalId, ModalPrefix) {
      assert step == (FormIgnored, before, []);
      return FormIgnored, [];
    }
    var kind := DropPrefix(modalId, ModalPrefix);
    assert ModalKind(modalId) == Some(kind);
    var category := EnvCategory(env, kind);
    if !IsTicketKind(kind) {
      assert step == (FormIgnored, before, []);
      return FormIgnored, [];
    }
    if !Truthy(category) {
      assert step == (CategoryNotConfigured, before, []);
      return CategoryNotConfigured, [];
    }
    var live := CloseStaleTicket(db, guildId, user.id, liveChannels);
    if live.Some? {
      assert step == (AlreadyOpen(live.value), before, []);
      return AlreadyOpen(live.value), [];
    }
    ghost var closed := db.records;
    assert step == SaveNewTicket(closed, kind, category.value, guildId, user, reason, newChannel, now, logChannelCached);
    reply, effects := SaveTicket(db, kind, category.value, guildId, user, reason, newChannel, now, logChannelCached);
  }

  /**
   * `Ticket.findOne({ guildId, creatorId, closed: false })`: answers the open
   * ticket when its channel is live; marks it closed when its channel is gone.
   */
  method CloseStaleTicket(db: Tickets, guildId: string, creatorId: string, liveChannels: set<string>)
    returns (live: Option<string>)
    requires db.Valid()
    modifies db
    ensures db.Valid()
    ensures var open := OpenTicketOf(old(db.records), guildId, creatorId);
            if open.Some? && open.value in liveChannels then live == open && db.records == old(db.records)
            else live.None? && db.records == CloseStale(old(db.records), guildId, creatorId, liveChannels)
  {
    if exists c :: c in db.records && db.records[c].guildId == guildId && db.records[c].creatorId == creatorId
                   && !db.records[c].closed {
      var existing :| existing in db.records && db.records[existing].guildId == guildId
                      && db.records[existing].creatorId == creatorId && !db.records[existing].closed;
      assert existing in OpenTicketsOf(db.records, guildId, creatorId);
      if existing in liveChannels {
        return Some(existing);
      }
      var stale := db.records[existing].(closed := true);
      UpdateKeepsInvariants(db.records, existing, PreSave(stale));
      db.records := db.records[existing := PreSave(stale)];
    } else {
      assert OpenTicketsOf(db.records, guildId, creatorId) == {};
    }
    live := None;
  }

  method SaveTicket(db: Tickets, kind: string, category: string, guildId: string, user: User, reason: string,
                    newChannel: Option<string>, now: int, logChannelCached: bool)
    returns (reply: CreateReply, effects: seq<Effect>)
    requires db.Valid() && OpenTicketsOf(db.records, guildId, user.id) == {}
    modifies db
    ensures db.Valid()
    ensures (reply, db.records, effects)
            == SaveNewTicket(old(db.records), kind, category, guildId, user, reason, newChannel, now, logChannelCached)
  {
    if newChannel.None? {
      return CreateFailed, [];
    }
    var ch := newChannel.value;
    effects := [CreateChannel(TicketChannelName(kind, user), category, user.id)];
    var ticket := NewTicket(ch, guildId, user.id, kind, reason, now);
    if ch in db.records || !Admits(PreSave(ticket)) {
      return CreateFailed, effects;
    }
    AddKeepsInvariants(db.records, PreSave(ticket));
    db.records := db.records[ch := PreSave(ticket)];
    effects := effects + [PostTicketControls(ch, [ClaimButtonId, CloseButtonId])];
    if logChannelCached {
      effects := effects + [LogCreated(ch, user.id, kind, reason)];
    }
    reply := Created(ch);
    ghost var step := SaveNewTicket(old(db.records), kind, category, guildId, user, reason, newChannel, now, logChannelCached);
    assert step.1 == db.records;
    assert step.2 == effects;
  }

  /** While a user's ticket channel exists, a second form submission of a configured kind is answered with that channel. */
  lemma OneOpenTicketPerUser(tickets: map<string, Ticket>, env: EnvConfig, modalId: string, guildId: string,
                             user: User, reason: string, liveChannels: set<string>, newChannel: Option<string>,
                             now: int, log: bool, laterId: string, laterReason: string, laterChannel: Option<string>,
                             laterNow: int, laterLog: bool)
    requires Stored(tickets) && OneOpenPerCreator(tickets)
    requires CreateStep(tickets, env, modalId, guildId, user, reason, liveChannels, newChannel, now, log).0.Created?
    requires newChannel.Some? && newChannel.value in liveChannels
    requires ModalKind(laterId).Some? && IsTicketKind(ModalKind(laterId).value) && Truthy(EnvCategory(env, ModalKind(laterId).value))
    ensures var first := CreateStep(tickets, env, modalId, guildId, user, reason, liveChannels, newChannel, now, log);
            var again := CreateStep(first.1, env, laterId, guildId, user, laterReason, liveChannels, laterChannel, laterNow, laterLog);
            again == (AlreadyOpen(newChannel.value), first.1, [])
  {
    var first := CreateStep(tickets, env, modalId, guildId, user, reason, liveChannels, newChannel, now, log);
    assert newChannel.value in OpenTicketsOf(first.1, guildId, user.id);
  }

  /** Once staff close a user's ticket, that user's next submission is not turned away as a duplicate. */
  lemma CloseAllowsNewTicket(tickets: map<string, Ticket>, env: EnvConfig, roles: Option<set<string>>,
                             channelId: string, channelName: string, closer: User, nowIso: string,
                             fetched: seq<Message>, logChannelCached: bool,
                             modalId: string, user: User, reason: string, liveChannels: set<string>,
                             newChannel: Option<string>, now: int, log: bool)
    requires Stored(tickets) && OneOpenPerCreator(tickets) && IsStaff(env, roles)
    requires channelId in tickets && tickets[channelId].creatorId == user.id
    requires OpenTicketsOf(tickets, tickets[channelId].guildId, user.id) <= {channelId}
    ensures var closed := CloseStep(tickets, env, roles, channelId, channelName, closer, nowIso, fetched, logChannelCached).1;
            Stored(closed) && OneOpenPerCreator(closed) &&
            !CreateStep(closed, env, modalId, tickets[channelId].guildId, user, reason, liveChannels, newChannel, now, log).0.AlreadyOpen?
  {
    var g := tickets[channelId].guildId;
    var closed := CloseStep(tickets, env, roles, channelId, channelName, closer, nowIso, fetched, logChannelCached).1;
    UpdateKeepsInvariants(tickets, channelId, closed[channelId]);
    assert forall c :: c in closed && c in OpenTicketsOf(closed, g, user.id) ==> c in OpenTicketsOf(tickets, g, user.id);
    assert OpenTicketsOf(closed, g, user.id) == {};
  }
}
