/** Concrete cases of the bridge: settings loaded from an environment, and
    messages that are forwarded, dropped, or forwarded and then fail. */
module Scenarios {
  import opened Wrappers
  import opened JsText
  import opened BridgeConfig
  import opened Admission
  import opened Payload
  import opened Delivery

  const Now: string := "2024-05-01T12:00:00.000Z"

  /** Settings with the guild allowlist "G1", no channel allowlist and the
      default prefix. */
  function GuildG1Settings(): (s: Settings)
    ensures s.allowedGuildId == "G1" && s.allowedChannelIds == [] && s.commandPrefix == "!cme"
  {
    var env := Environment(Some("token"), Some("https://hooks.example/cme"), Some("G1"), None, None);
    LoadSettings(env).value
  }

  function UserMessage(content: string, guild: Option<Guild>): InboundMessage {
    InboundMessage("m1", content, Author("u1", false, "alice", "0001", "alice#0001"),
                   guild, "c1", Some("general"), 1714564800000)
  }

  /** `ALLOWED_CHANNEL_IDS="123, 456"` lists the channels "123" and "456":
      the space after the comma is trimmed away. */
  lemma SpacedChannelListTrimmed()
    ensures ChannelAllowlist(Some("123, 456")) == ["123", "456"]
  {
    SpacedChannelList("123, 456");
  }

  /** The same case with the value as a parameter, so that the proof goes
      through the general lemmas instead of evaluating the literal. */
  lemma SpacedChannelList(raw: string)
    requires raw == "123, 456"
    ensures ChannelAllowlist(Some(raw)) == ["123", "456"]
  {
    var ps := ["123", " 456"];
    SpacedChannelJoin(ps);
    SpacedChannelCommaFree(ps);
    SpacedChannelTrimmedPieces(ps);
    ChannelAllowlistOfPieces(ps);
  }

  lemma SpacedChannelJoin(ps: seq<string>)
    requires ps == ["123", " 456"]
    ensures Join(ps, ',') == "123, 456"
  {
    assert ps == ["123"] + [" 456"];
    JoinCons("123", [" 456"], ',');
  }

  lemma SpacedChannelCommaFree(ps: seq<string>)
    requires ps == ["123", " 456"]
    ensures forall i :: 0 <= i < |ps| ==> ',' !in ps[i]
  {
  }

  lemma SpacedChannelTrimmedPieces(ps: seq<string>)
    requires ps == ["123", " 456"]
    ensures seq(|ps|, i requires 0 <= i < |ps| => Trim(ps[i])) == ["123", "456"]
  {
    var t := seq(|ps|, i requires 0 <= i < |ps| => Trim(ps[i]));
    BareIdTrimmed(ps[0]);
    PaddedIdTrimmed(ps[1]);
    assert t[0] == "123" && t[1] == "456";
  }

  lemma BareIdTrimmed(x: string)
    requires x == "123"
    ensures Trim(x) == "123"
  {
    assert Trimmed(x) by { assert x[0] == '1' && x[|x| - 1] == '3'; }
    TrimKeepsTrimmed(x);
  }

  lemma PaddedIdTrimmed(x: string)
    requires x == " 456"
    ensures Trim(x) == "456"
  {
    var w, t := " ", "456";
    assert AllWhitespace(w) by { assert w[0] == ' '; }
    assert Trimmed(t) by { assert t[0] == '4' && t[|t| - 1] == '6'; }
    assert x == w + t + "";
    TrimRemovesPadding(w, t, "");
  }

  /** A message from the allowed guild with the prefix is forwarded with its
      content unchanged. */
  lemma AllowedGuildForwarded()
    ensures ShouldForward(UserMessage("!cme hello", Some(Guild("G1", "Home"))), GuildG1Settings())
    ensures BuildEvent(UserMessage("!cme hello", Some(Guild("G1", "Home"))), Now).content == "!cme hello"
  {
    var m := UserMessage("!cme hello", Some(Guild("G1", "Home")));
    var s := GuildG1Settings();
    LowerCasePrefix();
    PlainCommandParts();
    assert GuildAllowed(m, s) && ChannelAllowed(m, s);
    CommandForwarded(m, s, "", "!cme", " hello", "");
  }

  lemma LowerCasePrefix()
    ensures ToLower("!cme") == "!cme"
  {
    var low := ToLower("!cme");
    assert low[0] == '!' && low[1] == 'c' && low[2] == 'm' && low[3] == 'e';
  }

  lemma PlainCommandParts()
    ensures "!cme hello" == "" + "!cme" + " hello" + ""
    ensures AllWhitespace("") && Trimmed("!cme" + " hello")
  {
    assert "!cme" + " hello" == "!cme hello";
  }

  /** The same message from another guild is dropped. */
  lemma OtherGuildDropped()
    ensures Admit(UserMessage("!cme hello", Some(Guild("G2", "Away"))), GuildG1Settings()) == Drop(GuildNotAllowed)
  {
  }

  /** A direct message never matches a guild allowlist. */
  lemma DirectMessageDropped()
    ensures Admit(UserMessage("!cme hello", None), GuildG1Settings()) == Drop(GuildNotAllowed)
  {
    var m := UserMessage("!cme hello", None);
    assert m.GuildId() == None;
    assert !GuildAllowed(m, GuildG1Settings());
  }

  /** Leading whitespace and upper case do not stop the prefix from matching. */
  lemma PaddedUpperCasePrefixForwarded()
    ensures ShouldForward(UserMessage("  !CME do thing", Some(Guild("G1", "Home"))), GuildG1Settings())
  {
    var m := UserMessage("  !CME do thing", Some(Guild("G1", "Home")));
    var s := GuildG1Settings();
    UpperCasePrefix();
    PaddedCommandParts();
    assert GuildAllowed(m, s) && ChannelAllowed(m, s);
    CommandForwarded(m, s, "  ", "!CME", " do thing", "");
  }

  lemma UpperCasePrefix()
    ensures ToLower("!CME") == "!cme"
  {
    var low := ToLower("!CME");
    assert low[0] == '!' && low[1] == 'c' && low[2] == 'm' && low[3] == 'e';
  }

  lemma PaddedCommandParts()
    ensures "  !CME do thing" == "  " + "!CME" + " do thing" + ""
    ensures AllWhitespace("  ") && AllWhitespace("") && Trimmed("!CME" + " do thing")
  {
    assert "!CME" + " do thing" == "!CME do thing";
  }

  /** The webhook answers 500: one post, then exactly one failure reaction;
      the handler still completes with a failed outcome. */
  method ServerErrorReacts() returns (trace: seq<Action>, outcome: Outcome)
    ensures outcome == Failed(Responded(500), false)
    ensures PostCount(trace) == 1 && ReactionCount(trace) == 1
    ensures trace[1] == React("m1", FailureEmoji)
  {
    var m := UserMessage("!cme hello", Some(Guild("G1", "Home")));
    AllowedGuildForwarded();
    trace, outcome := HandleMessage(m, GuildG1Settings(), Now, Responded(500), false);
  }

  /** The post times out: the outcome records the timeout and the reaction
      is attempted just as for an error status. */
  method TimeoutReacts() returns (trace: seq<Action>, outcome: Outcome)
    ensures outcome == Failed(NoResponse(Timeout), true)
    ensures PostCount(trace) == 1 && ReactionCount(trace) == 1
    ensures trace[1] == React("m1", FailureEmoji)
  {
    var m := UserMessage("!cme hello", Some(Guild("G1", "Home")));
    AllowedGuildForwarded();
    trace, outcome := HandleMessage(m, GuildG1Settings(), Now, NoResponse(Timeout), true);
  }
}
