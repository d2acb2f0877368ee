/**
 * The `mcstatus` command's two pure pieces: the guard that answers a missing
 * server address before any query is made, and the text of the ephemeral
 * player list built from the `players` part of a status reply.
 */
module McStatus {
  import opened Wrappers
  import opened Text

  // ---------------------------------------------------------------------
  // The address guard

  datatype Start =
    | AskForIp          // "Please provide a server IP!", ephemeral; no query is made
    | Query(ip: string) // `deferReply()` and `status(ip)`

  /** `interaction.options.getString('ip')` is checked for truthiness first. */
  function StartCommand(ip: Option<string>): (r: Start)
    ensures r.AskForIp? <==> !Truthy(ip)
    ensures r.Query? ==> ip == Some(r.ip) && r.ip != ""
  {
    if !Truthy(ip) then AskForIp else Query(ip.value)
  }

  // ---------------------------------------------------------------------
  // The player list

  /** `result.players`: the online count and the optional sample of player names. */
  datatype Players = Players(online: int, sample: Option<seq<string>>)

  const NoPlayers: string := "No players online."
  const HiddenPlayers: string := "Players are online, but the server " + "is hiding their names (Query disabled)."

  /** One sampled player, `• **name**`. */
  function PlayerLine(name: string): string {
    "• **" + name + "**"
  }

  function PlayerLines(names: seq<string>): (lines: seq<string>)
    ensures |lines| == |names|
    ensures forall i :: 0 <= i < |names| ==> lines[i] == PlayerLine(names[i])
  {
    if names == [] then [] else [PlayerLine(names[0])] + PlayerLines(names[1..])
  }

  /** The line that counts the players the sample left out. */
  function MoreLine(hidden: nat): string {
    "*...and " + NatToString(hidden) + " more.*"
  }

  /** The sample is present and holds at least one player. */
  predicate HasSample(p: Players) {
    p.sample.Some? && |p.sample.value| > 0
  }

  /** The description the player-list button shows, as one expression. */
  function PlayerList(p: Players): string {
    if HasSample(p) then
      var names := p.sample.value;
      var listed := Join(PlayerLines(names), "\n");
      if p.online > |names| then listed + "\n\n" + MoreLine(p.online - |names|) else listed
    else if p.online > 0 then HiddenPlayers
    else NoPlayers
  }

  /**
   * The collector's `playerDescription`: set to the no-player text, then
   * overwritten by the joined sample (and extended with the count of the
   * rest) or by the hidden-names text.
   */
  method PlayerDescription(p: Players) returns (d: string)
    ensures d == PlayerList(p)
  {
    d := NoPlayers;
    if p.sample.Some? && |p.sample.value| > 0 {
      d := Join(PlayerLines(p.sample.value), "\n");
      if p.online > |p.sample.value| {
        d := d + "\n\n" + MoreLine(p.online - |p.sample.value|);
      }
    } else if p.online > 0 {
      d := HiddenPlayers;
    }
  }

  // ---------------------------------------------------------------------
  // Facts about the player list

  /** Player names without line breaks give player lines without line breaks. */
  lemma PlayerLinesHaveNoBreak(names: seq<string>)
    requires forall i :: 0 <= i < |names| ==> '\n' !in names[i]
    ensures forall i :: 0 <= i < |names| ==> '\n' !in PlayerLines(names)[i]
  {
    forall i | 0 <= i < |names|
      ensures '\n' !in PlayerLines(names)[i]
    {
      assert PlayerLines(names)[i] == "• **" + names[i] + "**";
    }
  }

  /**
   * A non-empty sample shows one `• **name**` line per sampled player, in the
   * sample's order; when more players are online than sampled, an empty line
   * and the count of the others follow.
   */
  lemma SampleLines(p: Players)
    requires HasSample(p)
    requires forall i :: 0 <= i < |p.sample.value| ==> '\n' !in p.sample.value[i]
    ensures p.online <= |p.sample.value| ==> Split(PlayerList(p), '\n') == PlayerLines(p.sample.value)
    ensures p.online > |p.sample.value| ==>
      Split(PlayerList(p), '\n') == PlayerLines(p.sample.value) + ["", MoreLine(p.online - |p.sample.value|)]
  {
    var names := p.sample.value;
    var lines := PlayerLines(names);
    PlayerLinesHaveNoBreak(names);
    SplitJoin(lines, '\n');
    if p.online > |names| {
      var more := MoreLine(p.online - |names|);
      assert '\n' !in more by {
        var digits := NatToString(p.online - |names|);
        assert forall i :: 0 <= i < |digits| ==> IsDigit(digits[i]);
        assert more == "*...and " + digits + " more.*";
      }
      JoinSnoc(lines, "", "\n");
      JoinSnoc(lines + [""], more, "\n");
      assert lines + ["", more] == (lines + [""]) + [more];
      assert Join(lines, "\n") + "\n" + "" + "\n" + more == Join(lines, "\n") + "\n\n" + more;
      var all := lines + ["", more];
      assert forall i :: 0 <= i < |all| ==> '\n' !in all[i] by {
        forall i | 0 <= i < |all| ensures '\n' !in all[i] {
          if i < |lines| { assert all[i] == lines[i]; }
        }
      }
      SplitJoin(all, '\n');
    }
  }

  /** The count in the last line reads back as the number of online players the sample left out. */
  lemma MoreLineCounts(hidden: nat)
    ensures var line := MoreLine(hidden);
      line == "*...and " + NatToString(hidden) + " more.*" && DigitsValue(line[8..|line| - 7]) == hidden
  {
    var line := MoreLine(hidden);
    assert line[8..|line| - 7] == NatToString(hidden);
    NatToStringRoundTrip(hidden);
  }

  /** Without a usable sample the text says whether anybody is online, and a sample never produces either fixed text. */
  lemma FixedTexts(p: Players)
    ensures PlayerList(p) == HiddenPlayers <==> !HasSample(p) && p.online > 0
    ensures PlayerList(p) == NoPlayers <==> !HasSample(p) && p.online <= 0
  {
    if HasSample(p) {
      var names := p.sample.value;
      var lines := PlayerLines(names);
      JoinEnds(lines, "\n");
      var listed := Join(lines, "\n");
      assert lines[0] == "• **" + names[0] + "**";
      assert listed[0] == listed[..|lines[0]|][0] == '•';
      var d := PlayerList(p);
      if p.online > |names| {
        var tail := "\n\n" + MoreLine(p.online - |names|);
        assert d == listed + tail;
        assert (listed + tail)[0] == listed[0];
      } else {
        assert d == listed;
      }
      assert HiddenPlayers[0] == 'P' && NoPlayers[0] == 'N';
    }
  }
}
