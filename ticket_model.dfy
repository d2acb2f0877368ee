/**
 * The ticket record of the button/modal workflow (`Ticket`): its fields and
 * defaults, the schema's validators (required fields, rating bounds), the
 * pre-save hook that fills `ticketId`, and the collection keyed by the unique
 * `channelId`.
 */
module TicketModel {
  import opened Wrappers

  datatype Ticket = Ticket(
    ticketId: Option<string>,
    channelId: string,
    guildId: string,
    creatorId: string,
    claimedBy: Option<string>,
    category: string,
    reason: Option<string>,
    rating: Option<int>,
    ratedAt: Option<int>,
    createdAt: int,
    closed: bool)

  /** `new Ticket({ channelId, guildId, creatorId, category, reason })` at clock value `now`. */
  function NewTicket(channelId: string, guildId: string, creatorId: string, category: string,
                     reason: string, now: int): (t: Ticket)
    ensures t.channelId == channelId && t.guildId == guildId && t.creatorId == creatorId
    ensures t.category == category && t.reason == Some(reason) && t.createdAt == now
    ensures t.ticketId.None? && t.claimedBy.None? && t.rating.None? && t.ratedAt.None? && !t.closed
  {
    Ticket(None, channelId, guildId, creatorId, None, category, Some(reason), None, None, now, false)
  }

  /** The schema's `min: 1, max: 5` on `rating`, which may also stay `null`. */
  predicate RatingInRange(rating: Option<int>) {
    rating.None? || 1 <= rating.value <= 5
  }

  /** The record passes the schema's validators (Mongoose rejects `""` for a required string). */
  predicate Admits(t: Ticket) {
    t.channelId != "" && t.guildId != "" && t.creatorId != "" && t.category != ""
    && RatingInRange(t.rating)
  }

  /** The `pre('save')` hook: an empty `ticketId` takes the value of a non-empty `channelId`. */
  function PreSave(t: Ticket): (r: Ticket)
    ensures !Truthy(t.ticketId) && t.channelId != "" ==> r.ticketId == Some(t.channelId)
    ensures Truthy(t.ticketId) || t.channelId == "" ==> r.ticketId == t.ticketId
    ensures r == t.(ticketId := r.ticketId)
  {
    if !Truthy(t.ticketId) && t.channelId != "" then t.(ticketId := Some(t.channelId)) else t
  }

  /** Saving twice runs the hook twice; the second run changes nothing. */
  lemma PreSaveIdempotent(t: Ticket)
    ensures PreSave(PreSave(t)) == PreSave(t)
  {
  }

  /** A document that passes validation has a non-empty `ticketId` once the hook has run. */
  lemma PreSaveFillsTicketId(t: Ticket)
    requires Admits(t)
    ensures Truthy(PreSave(t).ticketId)
    ensures Admits(PreSave(t))
  {
  }

  /** A saved ticket is stored under its own channel id, which is also its `ticketId`. */
  ghost predicate Stored(tickets: map<string, Ticket>) {
    forall c :: c in tickets ==> tickets[c].channelId == c && tickets[c].ticketId == Some(c) && Admits(tickets[c])
  }

  /** The open tickets (`closed: false`) of one user in one guild. */
  ghost function OpenTicketsOf(tickets: map<string, Ticket>, guildId: string, creatorId: string): set<string> {
    set c | c in tickets && tickets[c].guildId == guildId && tickets[c].creatorId == creatorId && !tickets[c].closed
  }

  /** The single open ticket of one user in one guild, if there is one (`findOne({ guildId, creatorId, closed: false })`). */
  ghost function OpenTicketOf(tickets: map<string, Ticket>, guildId: string, creatorId: string): (r: Option<string>)
    requires OneOpenPerCreator(tickets)
    ensures r.None? <==> OpenTicketsOf(tickets, guildId, creatorId) == {}
    ensures r.Some? ==> OpenTicketsOf(tickets, guildId, creatorId) == {r.value}
  {
    var open := OpenTicketsOf(tickets, guildId, creatorId);
    if open == {} then None else var c :| c in open; Some(c)
  }

  /** At most one open ticket per (guild, creator). */
  ghost predicate OneOpenPerCreator(tickets: map<string, Ticket>) {
    forall c1, c2 :: c1 in tickets && c2 in tickets && !tickets[c1].closed && !tickets[c2].closed
      && tickets[c1].guildId == tickets[c2].guildId && tickets[c1].creatorId == tickets[c2].creatorId
      ==> c1 == c2
  }

  /** Rewriting a stored ticket in place (same key, guild and creator; never reopening it) keeps both invariants. */
  lemma UpdateKeepsInvariants(tickets: map<string, Ticket>, c: string, t: Ticket)
    requires Stored(tickets) && OneOpenPerCreator(tickets) && c in tickets
    requires t.channelId == c && t.ticketId == Some(c) && Admits(t)
    requires t.guildId == tickets[c].guildId && t.creatorId == tickets[c].creatorId
    requires !t.closed ==> !tickets[c].closed
    ensures Stored(tickets[c := t]) && OneOpenPerCreator(tickets[c := t])
  {
  }

  /** Inserting a new ticket keeps both invariants when its creator has no other open ticket in its guild. */
  lemma AddKeepsInvariants(tickets: map<string, Ticket>, t: Ticket)
    requires Stored(tickets) && OneOpenPerCreator(tickets)
    requires t.channelId !in tickets && t.ticketId == Some(t.channelId) && Admits(t)
    requires OpenTicketsOf(tickets, t.guildId, t.creatorId) == {}
    ensures Stored(tickets[t.channelId := t]) && OneOpenPerCreator(tickets[t.channelId := t])
  {
    assert forall c :: c in tickets && c in OpenTicketsOf(tickets, t.guildId, t.creatorId) ==> false;
  }

  /** The `tickets` collection; `channelId` (and through the hook `ticketId`) is the unique key. */
  class Tickets {
    var records: map<string, Ticket>

    ghost predicate Valid()
      reads this
    {
      Stored(records) && OneOpenPerCreator(records)
    }

    constructor ()
      ensures Valid() && records == map[]
    {
      records := map[];
    }
  }
}
