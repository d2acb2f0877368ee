# Zeakhosting support bot — verified model

This project is a Dafny model of the decision logic of a Discord support bot.
It covers four parts:

- **Tickets.** The bot has two ticket workflows. In the first, buttons open a
  reason form, and staff then claim, close and (after closing) the creator
  rates the ticket. In the second, a ticket service creates, claims, closes
  and locks tickets through per-ticket button ids. The model includes the
  transcript text both workflows build, and the `ticket-setup` command that
  configures categories, log channel and staff roles.
- **Counting channels.** The handler accepts the next number in a channel,
  rejects a repeat by the same user, and commits with a compare-and-set on
  `lastNumber`. It then updates a per-user tally. The model also covers the
  `count` (`reset` / `set`), `count-setup` (`add` / `remove`) and legacy
  `resetcount` commands.
- **Prefix commands.** The `messageCreate` tokeniser, and the `say` command,
  which neutralises `@everyone` / `@here`.
- **`mcstatus`.** The missing-address guard and the player-list text.

The MongoDB collections (`Ticket`, `Counting`, `GuildConfig`, `Counter`) are
classes holding a `map` keyed by each schema's unique index. Their documents
are datatypes with the schema defaults and validators.

Each handler is a method that changes its collection in place and returns a
reply and a list of platform effects. Examples of effects are "create
channel", "send log", "DM transcript" and "delete channel after N ms". Each
method is proved equal to a pure `…Step` function. The properties are
proved about those functions: either as their `ensures`, or as lemmas that
chain several calls. Examples:

- a claim or a rating happens once;
- close is idempotent;
- one open ticket per user, while the handlers run one at a time;
- a second counter never wins a compare-and-set race;
- accepted numbers are consecutive;
- add followed by remove restores the configuration;
- button ids and typed commands parse back to what was encoded.

Platform inputs are parameters:

- the clock value;
- the id of a newly created channel;
- whether a channel is live or cached;
- the fetched messages;
- the member's roles and Administrator flag.

## Model

| member | source | states |
|---|---|---|
| GuildConfigModel.NewGuildConfig | src/models/GuildConfig.js:3-18 | a new configuration has no staff roles, no categories, no log channel, a 5-second close delay, no counting channels, the ✅ emoji and deletes wrong messages |
| GuildConfigModel.CategoryFor | src/models/GuildConfig.js:6-11 | only `support`, `issues`, `partnership` and `other` are category keys; any other kind has no category |
| GuildConfigModel.WithCategory | src/commands/ticket-setup.js:55-57 | setting one kind's category makes that kind map to the new id and leaves every other kind's category unchanged |
| TicketModel.NewTicket | src/models/Ticket.js:4-66 | a new ticket has the given channel, guild, creator, category and reason, and is unclaimed, unrated and open |
| TicketModel.PreSave | src/models/Ticket.js:69-74 | the save hook copies a non-empty `channelId` into an empty `ticketId` and otherwise changes nothing |
| TicketModel.PreSaveIdempotent | src/models/Ticket.js:69-74 | running the hook a second time changes nothing |
| TicketModel.PreSaveFillsTicketId | src/models/Ticket.js:69-74 | a document that passes validation has a non-empty `ticketId` after the hook and still passes validation |
| TicketModel.OpenTicketOf | src/events/interactionCreate.js:299-303 | `findOne({guildId, creatorId, closed: false})` finds nothing exactly when the user has no open ticket in the guild, and otherwise finds that user's only open ticket |
| TicketModel.UpdateKeepsInvariants | src/models/Ticket.js:11-15 | rewriting a stored ticket under the same key, without reopening it, keeps channel-keyed storage and at most one open ticket per creator |
| TicketModel.AddKeepsInvariants | src/models/Ticket.js:11-15 | inserting a ticket under a fresh channel id for a creator with no open ticket keeps both invariants |
| CountingModel.NewCounting | src/models/Counting.js:3-13 | a new counting record starts at 0, with no last user, streak 0 and no tallies |
| CounterModel.NewCounter | src/models/Counter.js:3-8 | a new counter starts at 1 with no last user |
| TicketInteractions.RouteOf | src/events/interactionCreate.js:28-203 | an id opens the reason form exactly when it starts with `create_ticket_` (the rest is the kind), claims exactly when it is `ticket_claim`, closes exactly when it is `ticket_close`, rates exactly when it starts with `ticket_rate_`, and is ignored exactly when none of these holds |
| TicketInteractions.IsStaff | src/events/interactionCreate.js:51 | a member is staff exactly when there is a guild member, the staff role is configured and the member holds it; every staff-only handler checks it |
| TicketInteractions.ModalKind | src/events/interactionCreate.js:276-278 | a form is handled exactly when its id starts with `ticket_modal_` |
| TicketInteractions.CreateButtonRoundTrip | src/events/interactionCreate.js:28-32 | `create_ticket_<kind>` routes to the form for `<kind>`, and the form id `ticket_modal_<kind>` gives `<kind>` back |
| TicketInteractions.RateButtonIds | src/events/interactionCreate.js:137-158 | the five rating buttons carry the scores 1 to 5, in order, and the ticket's channel id |
| TicketInteractions.RateButtonIdParts | src/events/interactionCreate.js:203-207 | a rating id splits at `_` into `ticket`, `rate`, the score's digits and the channel id |
| TicketInteractions.ParseRateButtonId | src/events/interactionCreate.js:205-207 | the score is the third `_`-separated piece parsed as a decimal integer and the channel the fourth, each absent when the id has too few pieces; `RateButtonIdRoundTrip` proves it inverts the built ids |
| TicketInteractions.RateButtonIdRoundTrip | src/events/interactionCreate.js:203-207 | a rating id built at close time (channel id without `_`) routes to the rating handler and splits back into its score and channel id |
| TicketInteractions.MessageLines | src/events/interactionCreate.js:100-105 | each message gives its line, then an attachments line exactly when it has attachments |
| TicketInteractions.HeaderLines | src/events/interactionCreate.js:91-95 | the transcript header is six lines, the last one empty |
| TicketInteractions.HeaderText | src/events/interactionCreate.js:91-95 | the header text is title, category, reason, closer and date, each ending in a newline, then a blank line |
| TicketInteractions.BuildTranscript | src/events/interactionCreate.js:91-105 | the `+=` loop over the reversed messages produces exactly the transcript text |
| TicketInteractions.BodyIsChronological | src/events/interactionCreate.js:97-98 | with no attachments, the body has one line per fetched message, oldest first (the fetch order reversed) |
| TicketInteractions.TranscriptLines | src/events/interactionCreate.js:91-105 | splitting the transcript at newlines gives the header lines, the message lines and one empty tail |
| TicketInteractions.Transcript | src/events/interactionCreate.js:91-105 | the closing transcript is the six header lines followed by one line (or two, with attachments) per message, oldest first; `BuildTranscript`, `HeaderText` and `TranscriptLines` prove its shape |
| TicketInteractions.ClaimStep | src/events/interactionCreate.js:50-79 | non-staff are refused; otherwise a missing ticket is reported; otherwise an existing claimant is named; otherwise the ticket records the claimant, the claim is announced and nothing else changes |
| TicketInteractions.Claim | src/events/interactionCreate.js:50-79 | the in-place claim keeps the collection invariants and has the reply, new records and effects of `ClaimStep` |
| TicketInteractions.ClaimHappensOnce | src/events/interactionCreate.js:61-66 | after a successful claim, a second claim changes nothing, and a staff member is told the first claimant |
| TicketInteractions.CloseStep | src/events/interactionCreate.js:82-200 | non-staff are refused and nothing changes; otherwise the ticket (if stored) is marked closed and the effects are, in order: the log entry exactly when the log channel is cached, the transcript DM with the five rating buttons and the send denial exactly when the ticket is stored, and the channel deletion after 5000 ms |
| TicketInteractions.Close | src/events/interactionCreate.js:82-200 | the in-place close keeps the invariants and matches `CloseStep` |
| TicketInteractions.CloseIsIdempotent | src/events/interactionCreate.js:180-183 | closing an already-closed ticket again leaves the records as they were |
| TicketInteractions.RateStep | src/events/interactionCreate.js:203-265 | a score outside 1..5 or one that does not parse is invalid; a missing ticket, a rater who is not the creator, and an existing rating are each refused exactly under their condition, with nothing changed; otherwise the score and rating time are stored and the rating log entry is sent exactly when the log channel is cached |
| TicketInteractions.Rate | src/events/interactionCreate.js:203-265 | the in-place rating keeps the invariants and matches `RateStep` |
| TicketInteractions.RatingHappensOnce | src/events/interactionCreate.js:233-239 | after a stored rating, no later press on that ticket changes it, and the creator is shown the stored score |
| TicketInteractions.RatingButtonStoresScore | src/events/interactionCreate.js:203-243 | when the creator presses the button for score n on an unrated ticket, the ticket stores n |
| TicketInteractions.EnvCategory | src/events/interactionCreate.js:280-287 | only `support`, `technical`, `partnership` and `other` have a configured category |
| TicketInteractions.TicketChannelName | src/events/interactionCreate.js:318 | the channel is named kind, `-`, username, `-`, then the discriminator, or the last four characters of the user id when the discriminator is empty |
| TicketInteractions.CloseStale | src/events/interactionCreate.js:305-316 | a user's open ticket whose channel is gone becomes the same record with `closed` set; the user then has no open ticket and no other ticket changes |
| TicketInteractions.SaveNewTicket | src/events/interactionCreate.js:318-419 | the ticket is saved exactly when a channel was created under an unused id and the record validates; it is then the user's only open ticket, and the effects are the channel creation, the claim and close buttons, and the creation log exactly when the log channel is cached; otherwise nothing is stored and only the channel creation (if any) is emitted |
| TicketInteractions.CreateStep | src/events/interactionCreate.js:273-427 | unknown forms are ignored, an unset category is reported, a live open ticket is returned instead of a new one, and otherwise the stale ticket is closed and the new one saved; one open ticket per user is kept when submissions are handled one at a time |
| TicketInteractions.CreateFromForm | src/events/interactionCreate.js:273-427 | the in-place form submission keeps the invariants and matches `CreateStep` |
| TicketInteractions.CloseStaleTicket | src/events/interactionCreate.js:299-316 | a live open ticket is returned untouched; otherwise the stale one is closed |
| TicketInteractions.SaveTicket | src/events/interactionCreate.js:318-419 | the in-place save keeps the invariants and matches `SaveNewTicket` |
| TicketInteractions.OneOpenTicketPerUser | src/events/interactionCreate.js:298-311 | after a ticket is created (its channel live), any further valid submission by the same user is answered with that ticket and changes nothing |
| TicketInteractions.CloseAllowsNewTicket | src/events/interactionCreate.js:299-316 | once staff have closed the user's ticket, the user has no open ticket and a new form can create one |
| TicketService.FindTicket | src/services/ticketService.js:112 | `findOne({ticketId, guildId})` finds the record exactly when the id is stored in that guild |
| TicketService.UpdateKeepsStored | src/services/ticketService.js:124-125 | rewriting a record under its id and channel keeps ids and channels unique |
| TicketService.EditSend | src/services/ticketService.js:229-232 | editing `SendMessages` allows or denies exactly that permission and leaves every other one as it was |
| TicketService.ChannelPermissions.EditSendMessages | src/services/ticketService.js:229-232 | the member's overwrite is updated in place and `CanSend` becomes the requested value |
| TicketService.ServiceTicketId | src/services/ticketService.js:40 | the ticket id is one to six decimal digits, exactly six once the clock reaches 100000 |
| TicketService.ServiceTicketIdValue | src/services/ticketService.js:40 | the ticket id spells the clock reading modulo 10^6 |
| TicketService.KeepChannelNameChars | src/services/ticketService.js:41 | only `a-z`, `0-9` and `-` remain, and the result is no longer than the input |
| TicketService.KeepChannelNameCharsCounts | src/services/ticketService.js:41 | every allowed character is kept as often as it occurs, and every other character is removed |
| TicketService.KeepChannelNameCharsAppend | src/services/ticketService.js:41 | the filter works character by character: filtering a concatenation concatenates the filtered parts |
| TicketService.KeepChannelNameCharsIdempotent | src/services/ticketService.js:41 | filtering twice equals filtering once |
| TicketService.ChannelName | src/services/ticketService.js:40-41 | the channel name contains only allowed characters, and for a digit ticket id it is the filtered lower-case kind, `-`, the filtered lower-case user name, `-` and the ticket id |
| TicketService.ChannelNameParts | src/services/ticketService.js:41 | lower-casing and filtering the whole template equals doing so part by part, with both `-` separators and the digit ticket id kept |
| TicketService.ChannelNameEndsWithTicketId | src/services/ticketService.js:40-41 | the channel name ends with `-` and the ticket id |
| TicketService.ChannelNameOfPlainParts | src/services/ticketService.js:41 | a kind and user name already made of allowed characters pass through unchanged |
| TicketService.StaffOverwrites | src/services/ticketService.js:44-47 | each staff role, in order, is allowed to view, send and read history |
| TicketService.InitialOverwrites | src/services/ticketService.js:54-68 | the guild (everyone) is denied view; then the creator, the bot (which also may manage the channel) and each staff role in order are allowed to view, send and read history, with nothing denied |
| TicketService.ServiceButtonIds | src/services/ticketService.js:89-95 | the claim, close, transcript and lock ids each drop their prefix back to the ticket id |
| TicketService.MentionRole | src/services/ticketService.js:97 | the welcome message mentions the first staff role, or the guild id when no first staff role is set |
| TicketService.SaveServiceTicket | src/services/ticketService.js:71-100 | the ticket is saved exactly when the channel was created, the guild, user and channel ids are non-empty, the ticket id is unused and no stored ticket has that channel. It is then stored as an open, unclaimed ticket, and the effects are the channel creation, the controls and the pin. Otherwise nothing is stored, and the only effect is the channel creation, if there was one |
| TicketService.CreateStep | src/services/ticketService.js:17-106 | a missing configuration, an unset category and an uncached category are each reported with nothing changed; otherwise the ticket is saved as `SaveServiceTicket` says |
| TicketService.CreatedTicketIsFound | src/services/ticketService.js:72-79 | with the category set up and a fresh channel and ticket id, the corrected create saves an open, unclaimed ticket of that user on that channel, and the claim, close and lock lookup by ticket id finds it |
| TicketService.CreateTicket | src/services/ticketService.js:17-106 | the in-place creation keeps the invariant and matches `CreateStep` |
| TicketService.SaveTicketRecord | src/services/ticketService.js:71-100 | the in-place channel creation, save, controls and pin keep the invariant and match `SaveServiceTicket` |
| TicketService.AsWrittenRecord | src/services/ticketService.js:72-79 | the document as written has an empty category and fails the schema's validation |
| TicketService.AsWrittenCreateNeverSaves | src/services/ticketService.js:72-79 | storing the as-written document would break the schema invariant, so the create as written never saves a ticket |
| TicketService.ClaimStep | src/services/ticketService.js:111-129 | a missing ticket, an existing claimant, a missing configuration and a non-staff member are each refused with nothing changed; otherwise the claimant is stored and announced |
| TicketService.IsServiceStaff | src/services/ticketService.js:121 | a member is staff exactly when it holds one of the configured staff roles or is an Administrator |
| TicketService.ClaimTicket | src/services/ticketService.js:111-129 | the in-place claim keeps the invariant and matches `ClaimStep` |
| TicketService.ServiceClaimHappensOnce | src/services/ticketService.js:115-117 | after a successful claim, a later claim is answered with the first claimant and changes nothing |
| TicketService.CloseLines | src/services/ticketService.js:162-164 | one close-transcript line per message, in the given order |
| TicketService.CloseTranscript | src/services/ticketService.js:162-164 | the close transcript is the fetched messages in chronological order, one line each, joined by newlines; `TranscriptLines` proves it splits back into those lines |
| TicketService.PlainTranscript | src/services/ticketService.js:209-213 | the transcript button's text is the same chronological lines in plain form; `TranscriptLines` proves it splits back into them |
| TicketService.PlainLines | src/services/ticketService.js:211-213 | one plain transcript line per message, in the given order |
| TicketService.TranscriptLines | src/services/ticketService.js:209-213 | both transcripts split back into one line per message, oldest first |
| TicketService.CloseStep | src/services/ticketService.js:134-206 | a missing ticket is reported with nothing changed; otherwise the ticket is marked closed at the clock time and the effects are, in order: the log entry exactly when the configuration exists, names a log channel and that channel is cached; the transcript DM to the creator; and the deletion after the configured delay exactly when a configuration exists |
| TicketService.CloseTicket | src/services/ticketService.js:134-206 | the in-place close keeps the invariant and matches `CloseStep` |
| TicketService.ServiceCloseIsFinal | src/services/ticketService.js:197-200 | closing again leaves the ticket closed |
| TicketService.AsWrittenClose | src/services/ticketService.js:197-200 | the close as written leaves the schema's `closed` flag as it was |
| TicketService.AsWrittenCloseLeavesTicketOpen | src/services/ticketService.js:197-200 | after the close as written, the ticket still counts as its creator's open ticket |
| TicketService.ToggleLock | src/services/ticketService.js:221-235 | a missing ticket changes nothing; otherwise the creator's overwrite (or an empty one) is edited to allow sending exactly when it did not before, the reply says which, and every other overwrite is kept |
| TicketService.ToggleTwiceRestoresSend | src/services/ticketService.js:225-234 | toggling twice restores the creator's send permission |
| CountingService.ReactionEmojiAsWritten | src/services/countingService.js:85 | a configured emoji is used as is; the fallback reaction as written is not ✅ |
| CountingService.ReactionEmoji | src/services/countingService.js:85 | a configured emoji is used as is; otherwise the reaction is ✅; it is never empty |
| CountingService.FallbackEmojiDiffers | src/services/countingService.js:85 | the as-written and corrected reactions agree exactly when the guild set its own emoji |
| CountingService.IndexOfUser | src/services/countingService.js:89 | `find` returns the first entry for the user, or none when there is none |
| CountingService.BumpedCounts | src/services/countingService.js:89-94 | the author's count goes up by one, every other user's count is unchanged, and the total goes up by one |
| CountingService.UpdateCounts | src/services/countingService.js:91 | replacing one tally entry changes a user's count and the total by the difference between the new and the old entry |
| CountingService.BumpedShape | src/services/countingService.js:89-94 | only the author's entry changes, or one entry is appended; distinct users stay distinct |
| CountingService.BumpTally | src/services/countingService.js:89-94 | the search loop and the increment or push produce `Bumped` |
| CountingService.Committed | src/services/countingService.js:65-94 | the commit keeps guild and channel, sets the number and the author as last user, adds one to the streak, and raises the author's tally and the tally total by one |
| CountingService.CountingStep | src/services/countingService.js:9-95 | each outcome holds exactly under its guard: bots and non-counting channels are ignored; non-digit content is invalid; no record does nothing; the observed last user posting again is rejected; any other number than the observed one plus one is wrong; a right number loses the race exactly when the stored number no longer equals the observed one. The message is deleted exactly on a lost race or, when configured, on invalid content, the same user or a wrong number; a wrong number also announces the expected number and deletes that announcement after 3000 ms; only a counted number changes the records |
| CountingService.HandleCountingMessage | src/services/countingService.js:9-95 | the in-place handler keeps the invariant and matches `CountingStep` |
| CountingService.FreshReadNeverLosesRace | src/services/countingService.js:65-82 | when the read and the commit see the same state, the compare-and-set never fails |
| CountingService.RaceHasOneWinner | src/services/countingService.js:65-82 | of two messages that read the same state, only the first to commit is counted |
| CountingService.NoTwoInARow | src/services/countingService.js:40-45 | right after a user's number is accepted, that user's next message in the channel is rejected |
| CountingService.FreshStep | src/services/countingService.js:34-82 | with a fresh read, a message either is counted (as the stored number plus one, becoming the new number, with the author as last user and the streak one higher) or changes nothing, and never loses the race |
| CountingService.AcceptedNumbersAreConsecutive | src/services/countingService.js:40-76 | in any sequence of messages to one channel, the accepted numbers are consecutive, starting from the stored number plus one |
| CountManage.ManageStep | src/commands/count-manage.js:21-49 | outside a counting channel, or without counting data, nothing changes; `reset` sets 0, no last user and streak 0; `set` refuses negative numbers and otherwise stores the number with the admin as last user |
| CountManage.Manage | src/commands/count-manage.js:21-49 | the in-place command keeps the invariant and matches `ManageStep` |
| CountManage.ResetThenCountOne | src/commands/count-manage.js:33-38 | after a reset, the next accepted number is 1 |
| CountManage.SetThenCountNext | src/commands/count-manage.js:40-47 | after `set n`, the admin cannot post next and anyone else's `n+1` is accepted |
| CountSetup.Without | src/commands/count-setup.js:45 | the filtered list no longer holds the channel and is no longer than the input |
| CountSetup.WithoutMembers | src/commands/count-setup.js:45 | an id is in the filtered list exactly when it was in the input and is not the removed channel |
| CountSetup.WithoutKeepsNoDuplicates | src/commands/count-setup.js:45 | filtering keeps a list free of duplicates |
| CountSetup.ConfigOrNew | src/commands/count-setup.js:26-27 | the stored configuration, or a new default one |
| CountSetup.SetupStep | src/commands/count-setup.js:22-52 | `add` refuses exactly a listed channel, fails exactly when an existing record or an empty id blocks the new record (nothing saved), and otherwise appends the channel and creates its record; `remove` refuses exactly an unlisted channel and otherwise filters it out and deletes its record |
| CountSetup.Setup | src/commands/count-setup.js:22-52 | the in-place command keeps both invariants and matches `SetupStep` |
| CountSetup.SetupKeepsNoDuplicates | src/commands/count-setup.js:29-33 | the counting-channel list never gains a duplicate |
| CountSetup.AddThenRemoveRestores | src/commands/count-setup.js:29-50 | adding a channel and removing it again restores the channel list and the counting records |
| TicketSetup.WithRole | src/commands/ticket-setup.js:60-64 | the role is appended only when it is missing |
| TicketSetup.WithRoleProperties | src/commands/ticket-setup.js:60-64 | adding a role keeps the list free of duplicates, and adding it twice equals adding it once |
| TicketSetup.TicketSetupStep | src/commands/ticket-setup.js:39-66 | the guild's configuration (created if missing) gets the kind's category, the log channel when given and the staff role when given; every other field and guild is unchanged |
| TicketSetup.SetupTickets | src/commands/ticket-setup.js:39-66 | the in-place command keeps the invariant and matches `TicketSetupStep` |
| TicketSetup.SetupKeepsOtherCategories | src/commands/ticket-setup.js:55-57 | configuring one kind leaves every other kind's category as it was |
| ResetCount.StartNumber | src/utils/config.js:27 | an unset or empty setting gives 1 |
| ResetCount.StartNumberOfDigits | src/utils/config.js:27 | a decimal setting gives its value |
| ResetCount.ResetStep | src/commands/resetcount.js:8-36 | callers with neither the staff role nor Administrator are refused; for the others the reset fails with nothing changed exactly when the start number does not parse or the counter (created if missing) lacks a guild or channel id; otherwise the counter gets the start number and no last user, and nothing else changes |
| ResetCount.ResetCounter | src/commands/resetcount.js:8-36 | the in-place command keeps the invariant and matches `ResetStep` |
| ResetCount.DefaultResetIsOne | src/commands/resetcount.js:27-29 | without a configured start number, an administrator's reset sets the counter to 1 |
| Say.Clean | src/commands/say.js:20 | the global replacement scans left to right and puts a zero-width space after the `@` of each `@everyone` and `@here`; the lemmas below prove what it guarantees |
| Say.CleanHasNoMention | src/commands/say.js:20 | after the replacement, no `@everyone` or `@here` remains anywhere in the text |
| Say.CleanLength | src/commands/say.js:20 | the output is longer than the input by exactly the number of replaced matches |
| Say.CleanFixesExactlyMentionFree | src/commands/say.js:20 | the text is unchanged exactly when it contains no mass mention |
| Say.CleanOnlyInsertsZwsp | src/commands/say.js:20 | removing the zero-width spaces from input and output gives the same text, so every other character is kept in order |
| Say.RestoreClean | src/commands/say.js:20 | on text without zero-width spaces, the replacement can be undone |
| Say.SayText | src/commands/say.js:12-20 | the repeated text is the arguments joined by single spaces, with no mass mention left |
| Say.SayStep | src/commands/say.js:5-31 | non-administrators and an empty joined text get no effect. Otherwise the command message is deleted and the sanitised arguments are sent: the text has no mass mention, equals the arguments joined by single spaces once zero-width spaces are removed, and is one character longer per mention |
| Say.SayIsReversible | src/commands/say.js:12-27 | the sent text gives back exactly what the administrator typed |
| Say.SayRepeatsPlainText | src/commands/say.js:12-20 | arguments without a mass mention are sent word for word |
| MessageCreate.Prefix | src/events/messageCreate.js:4 | the prefix is never empty, and an unset or empty setting gives `!` |
| MessageCreate.SplitRuns | src/events/messageCreate.js:12 | `split(/ +/)` gives at least one piece, and no piece contains a space |
| MessageCreate.SplitRunsJoin | src/events/messageCreate.js:12 | words without spaces joined by single spaces split back into those words |
| MessageCreate.SplitRunsGap | src/events/messageCreate.js:12 | a run of one or more spaces after a word separates it from the rest exactly as one space does |
| MessageCreate.SplitRunsJoinRuns | src/events/messageCreate.js:12 | words without spaces, separated by runs of any lengths, split back into those words |
| MessageCreate.SplitRunsOfTrimmed | src/events/messageCreate.js:12 | text that does not end with a space has no empty piece after the first, and none at all when it also does not start with a space |
| MessageCreate.ParseCommand | src/events/messageCreate.js:10-13 | bot messages, direct messages and text without the prefix are not commands; otherwise the name has no upper-case letters and no argument contains a space |
| MessageCreate.Dispatch | src/events/messageCreate.js:16-20 | a command is executed exactly when the parsed name is registered, and with the parsed arguments |
| MessageCreate.ParseCommandRoundTrip | src/events/messageCreate.js:10-13 | the prefix, a lower-case name and arguments joined by single spaces parse back to that name and those arguments |
| MessageCreate.ParseCommandOfSpacedWords | src/events/messageCreate.js:10-13 | for any name and arguments without white space, any leading and trailing spaces and any runs of spaces between them, the command parses to the lower-cased name and exactly those arguments |
| MessageCreate.ParseCommandExample | src/events/messageCreate.js:10-13 | `!Say  a`, with two spaces, runs `say` with the single argument `a` |
| McStatus.StartCommand | src/commands/mcstatus.js:21-22 | a missing or empty address is answered before any query; otherwise that exact address is queried |
| McStatus.PlayerLines | src/commands/mcstatus.js:88 | one `• **name**` line per sampled player, in order |
| McStatus.PlayerList | src/commands/mcstatus.js:83-96 | the player-list text: the joined sample lines, plus the count of the rest when more players are online; otherwise the hidden-names or the no-players text; `PlayerDescription`, `SampleLines` and `FixedTexts` prove its cases |
| McStatus.PlayerDescription | src/commands/mcstatus.js:83-96 | the `let` / `+=` construction gives the player-list text |
| McStatus.SampleLines | src/commands/mcstatus.js:86-93 | a non-empty sample shows one line per player, in order; when more players are online than sampled, an empty line and the count line follow |
| McStatus.MoreLineCounts | src/commands/mcstatus.js:92 | the count line reads back as the number of online players the sample left out |
| McStatus.FixedTexts | src/commands/mcstatus.js:83-96 | the "hiding their names" text appears exactly when there is no sample but players are online; "No players online." appears exactly when there is no sample and nobody is online |

## Left out

Left out of the model:

- **Platform calls.** discord.js calls are not run. They appear as emitted effects, or their results are parameters:
  - channel creation, send, pin, react, DM and delete;
  - permission edits (except the lock overwrite, which is modelled);
  - message fetch and user fetch.
- **Failures.** Every platform call is assumed to succeed, except where noted:
  - A failed DM to the ticket creator is caught in both workflows (src/events/interactionCreate.js:134-177, src/services/ticketService.js:189-195), so the rest of the handler runs. The model emits the DM effect either way.
  - In `ticketService` close, a failed log send is caught (src/services/ticketService.js:171-186), and a failed message fetch gives an empty message list.
  - In the button workflow, the close-log send (src/events/interactionCreate.js:129) and the rating-log send (src/events/interactionCreate.js:258) are outside any `try`. A failure there ends the handler. After a failed close log, the DM, the `closed` flag, the send denial and the deletion do not happen. After a failed rating log, the rating is already saved but the thanks reply is not sent. The model does not represent these aborted runs.
  - In ticket creation, the welcome and log sends (src/events/interactionCreate.js:392, 413) are inside the `try`. A failure there gives the error reply after the ticket was already saved. The model does not represent this either.
- **Platform state.** The clock, ISO dates and new channel ids are inputs. So are the channel cache lookups and the member's roles and Administrator flag.
- **Timers.** `setTimeout` is a "delete after N ms" effect. The wait itself is not modelled, and neither is the channel already being gone when the timer fires.
- **Embeds.** Embed titles, colours, footers and other cosmetic text are left out. Transcript and reply texts that carry information are modelled.
- **Concurrency.** The counting compare-and-set is modelled sequentially. The earlier `findOne` result is the parameter `observed`; the records at commit time are the collection. Two handlers interleaving are two calls with the same `observed`. Two races are not modelled:
  - CreateStep: ticket creation runs each submission to completion before the next. In the source, the open-ticket lookup (src/events/interactionCreate.js:299-303) and the save of the new ticket (src/events/interactionCreate.js:365) are separated by awaited writes: the stale-ticket save and the channel creation. No unique index backs the rule. Two submissions handled at the same time, such as a double click, can both pass the lookup and both store an open ticket. So `OneOpenTicketPerUser` holds only for handlers that run one at a time.
  - Committed: the tally update is a separate write (`result.save()`, src/services/countingService.js:89-95) after the compare-and-set. `Committed` folds both writes into one step. Another accepted count can commit between the two writes. The model does not represent that interleaving or what it does to the tally.
- **Counting quirks.** These are modelled as written, not as an ideal:
  - there is no lazy creation of a missing counting record;
  - a wrong number does not reset the streak;
  - `0012` is accepted where `12` is expected.
- **Number precision.**
  - JavaScript numbers above 2^53 are not modelled: integers are unbounded.
  - `toLowerCase` and `trim` follow JavaScript's ASCII and white-space tables. Non-ASCII case mappings are not modelled.
- **Ticket duration.** The `Duration` field in the close log (floating-point minutes) is not modelled.
- **`ticketService` close reply.** Whether the interaction was already deferred only changes how the "Closing ticket…" message is sent, so it is not modelled.
- **`ticketService` button routing.** The handler that parses `ticket_claim_<id>` and the other per-ticket button ids is not part of this model. Only the ids' construction and their prefix round trip are proved.
- **Ticket id collision.** Two tickets created within the same 10^6 ms window can get the same `ticketId`. The model reports this as a failed create; the unique index would reject the second ticket.
- **`ticketService` record.** The record is modelled as its own collection (`ServiceTicket`), keyed by `ticketId` with a unique `channelId`. It holds the fields the service writes (`type`, `status`, `closedAt`). What happens to those writes against the shared `Ticket` schema is recorded under Findings.
- **Close guards.**
  - The button workflow's close does not check that the ticket is still open. A second close sends the DM and log again, and `CloseIsIdempotent` states only that the records do not change.
  - Rating does not check that the ticket is closed.
- **`mcstatus`.** The server query, the favicon decoding, the embed fields and the 15-minute collector are left out. Sample entries are names; a missing `name` is not modelled.
- **Source that is not here.** `src/utils/logger.js` and the command loader behind `client.commands` are not part of this model. The registered command names are a parameter of `Dispatch`.
- TicketInteractions.CloseIsIdempotent: states that a second close leaves the records unchanged, not that no effects repeat, because the source sends the DM and log again.
- MessageCreate.ParseCommandRoundTrip: stated for arguments without white space, because `trim()` and `split(/ +/)` cannot give back arguments that have leading, trailing or repeated spaces. `ParseCommandOfSpacedWords` covers padding and gaps made of spaces only. Tabs and other white space that `trim()` removes around the command are not covered by a lemma.

## Findings

| source | as written | input that shows it | evidently intended | confidence | as-written member | corrected member |
|---|---|---|---|---|---|---|
| src/services/ticketService.js:72-79 | `Ticket.create` omits the schema's required `category`; `type` and `status` are not schema fields and are dropped | any successful channel creation: validation fails after the channel was created, so no ticket record is saved | save a ticket record that claim, close and lock can find | not executed | TicketService.AsWrittenCreateNeverSaves | TicketService.CreateStep |
| src/services/ticketService.js:197-200 | `status` and `closedAt` are not schema fields, so the close writes nothing the schema keeps; `closed` stays `false` | closing any stored ticket: it still counts as its creator's open ticket | the ticket is stored as closed | not executed | TicketService.AsWrittenCloseLeavesTicketOpen | TicketService.CloseStep |
| src/services/countingService.js:85 | the fallback emoji is the literal `âœ…`, the UTF-8 bytes of ✅ read as Windows-1252 | a guild whose `countingEmoji` is the empty string: the bot reacts with `âœ…`, which is not ✅ | react with ✅, the schema default (src/models/GuildConfig.js:16) | not executed | CountingService.FallbackEmojiDiffers | CountingService.ReactionEmoji |
