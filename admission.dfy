/** The admission filter of the `messageCreate` handler: four checks, each an
    early return, that decide whether a message is forwarded at all. */
module Admission {
  import opened Wrappers
  import opened JsText
  import opened BridgeConfig

  datatype Author = Author(id: string, bot: bool, username: string, discriminator: string, tag: string)

  datatype Guild = Guild(id: string, name: string)

  /** A message as the gateway hands it to the handler. */
  datatype InboundMessage = InboundMessage(
    id: string,
    content: string,
    author: Author,
    guild: Option<Guild>,         // None for a direct message
    channelId: string,
    channelName: Option<string>,  // None for a channel without a name
    createdTimestamp: int)
  {
    /** `message.guildId`: the guild's id, or null for a direct message. */
    function GuildId(): Option<string> {
      if guild.Some? then Some(guild.value.id) else None
    }
  }

  /** Which early return dropped the message. */
  datatype DropReason = FromBot | GuildNotAllowed | ChannelNotAllowed | NoCommandPrefix

  datatype Verdict = Forward | Drop(reason: DropReason)

  /** The guild allowlist admits the message: it is empty, or names the
      message's guild. */
  predicate GuildAllowed(m: InboundMessage, s: Settings) {
    s.allowedGuildId == "" || m.GuildId() == Some(s.allowedGuildId)
  }

  /** The channel allowlist admits the message: it is empty, or lists the
      message's channel. */
  predicate ChannelAllowed(m: InboundMessage, s: Settings) {
    s.allowedChannelIds == [] || m.channelId in s.allowedChannelIds
  }

  /** The content, trimmed and lower-cased, starts with the prefix. */
  predicate HasCommandPrefix(content: string, prefix: string) {
    StartsWith(ToLower(Trim(content)), prefix)
  }

  /** The four checks in the handler's order; the first that fails names the
      drop. A message is forwarded exactly when it passes all four, so their
      order decides only the reason given for a drop. */
  function Admit(m: InboundMessage, s: Settings): (v: Verdict)
    ensures v == Forward <==>
      !m.author.bot && GuildAllowed(m, s) && ChannelAllowed(m, s)
      && HasCommandPrefix(m.content, s.commandPrefix)
    ensures v == Drop(FromBot) <==> m.author.bot
    ensures v == Drop(GuildNotAllowed) <==> !m.author.bot && !GuildAllowed(m, s)
    ensures v == Drop(ChannelNotAllowed) <==>
      !m.author.bot && GuildAllowed(m, s) && !ChannelAllowed(m, s)
    ensures v == Drop(NoCommandPrefix) <==>
      !m.author.bot && GuildAllowed(m, s) && ChannelAllowed(m, s)
      && !HasCommandPrefix(m.content, s.commandPrefix)
  {
    if m.author.bot then Drop(FromBot)
    else if s.allowedGuildId != "" && m.GuildId() != Some(s.allowedGuildId) then Drop(GuildNotAllowed)
    else if |s.allowedChannelIds| > 0 && m.channelId !in s.allowedChannelIds then Drop(ChannelNotAllowed)
    else if !StartsWith(ToLower(Trim(m.content)), s.commandPrefix) then Drop(NoCommandPrefix)
    else Forward
  }

  predicate ShouldForward(m: InboundMessage, s: Settings) {
    Admit(m, s) == Forward
  }

  /** A bot's message is never forwarded, whatever else it holds. */
  lemma BotNeverForwarded(m: InboundMessage, s: Settings)
    requires m.author.bot
    ensures !ShouldForward(m, s)
    ensures Admit(m, s) == Drop(FromBot)
  {
  }

  /** A non-empty guild allowlist drops every message from another guild, and
      every direct message. */
  lemma GuildAllowlistEnforced(m: InboundMessage, s: Settings)
    requires s.allowedGuildId != ""
    requires m.guild.None? || m.guild.value.id != s.allowedGuildId
    ensures !ShouldForward(m, s)
  {
  }

  /** An empty guild allowlist restricts nothing: the message's guild, or its
      absence, never changes the decision. */
  lemma EmptyGuildAllowlistUnrestricted(m: InboundMessage, s: Settings, g: Option<Guild>)
    requires s.allowedGuildId == ""
    ensures ShouldForward(m.(guild := g), s) == ShouldForward(m, s)
  {
  }

  /** A non-empty channel allowlist drops every message from an unlisted
      channel. */
  lemma ChannelAllowlistEnforced(m: InboundMessage, s: Settings)
    requires s.allowedChannelIds != []
    requires m.channelId !in s.allowedChannelIds
    ensures !ShouldForward(m, s)
  {
  }

  /** An empty channel allowlist restricts nothing: the channel never changes
      the decision. */
  lemma EmptyChannelAllowlistUnrestricted(m: InboundMessage, s: Settings, c: string)
    requires s.allowedChannelIds == []
    ensures ShouldForward(m.(channelId := c), s) == ShouldForward(m, s)
  {
  }

  /** The prefix test can be read with either order of `trim` and
      `toLowerCase`: it asks whether `trim(lower(content))` starts with the
      prefix. */
  lemma PrefixTestOnNormalisedContent(m: InboundMessage, s: Settings)
    ensures ShouldForward(m, s) <==>
      !m.author.bot && GuildAllowed(m, s) && ChannelAllowed(m, s)
      && StartsWith(Trim(ToLower(m.content)), s.commandPrefix)
  {
    TrimCommutesWithLower(m.content);
  }

  /** Whitespace around the content and the letter case of the content never
      change the outcome of the prefix test. */
  lemma PrefixTestIgnoresPaddingAndCase(content: string, w1: string, c: string, w2: string, prefix: string)
    requires AllWhitespace(w1) && AllWhitespace(w2)
    requires ToLower(c) == ToLower(content)
    ensures HasCommandPrefix(w1 + c + w2, prefix) == HasCommandPrefix(content, prefix)
  {
    calc {
      ToLower(Trim(w1 + c + w2));
      { TrimIgnoresPadding(w1, c, w2); }
      ToLower(Trim(c));
      { TrimCommutesWithLower(c); }
      Trim(ToLower(c));
      Trim(ToLower(content));
      { TrimCommutesWithLower(content); }
      ToLower(Trim(content));
    }
  }

  /** A command written as the prefix, in any letter case, followed by
      anything, and padded with whitespace, passes the prefix test. */
  lemma CommandPassesPrefixTest(w1: string, command: string, rest: string, w2: string)
    requires AllWhitespace(w1) && AllWhitespace(w2)
    requires Trimmed(command + rest)
    ensures HasCommandPrefix(w1 + command + rest + w2, ToLower(command))
  {
    var t := command + rest;
    Regroup(w1, command, rest, w2);
    LowerStartsWithLower(command, rest);
    TrimRemovesPadding(w1, t, w2);
    PrefixOfTrim(w1 + command + rest + w2, t, ToLower(command));
  }

  /** The prefix test reads the content only through its trim. */
  lemma PrefixOfTrim(content: string, t: string, prefix: string)
    requires Trim(content) == t && StartsWith(ToLower(t), prefix)
    ensures HasCommandPrefix(content, prefix)
  {
  }

  /** A user's message from an allowed guild and channel whose content is
      the configured prefix, in any letter case, followed by anything and
      padded with whitespace, is forwarded. */
  lemma CommandForwarded(m: InboundMessage, s: Settings, w1: string, command: string, rest: string, w2: string)
    requires !m.author.bot && GuildAllowed(m, s) && ChannelAllowed(m, s)
    requires m.content == w1 + command + rest + w2
    requires AllWhitespace(w1) && AllWhitespace(w2) && Trimmed(command + rest)
    requires ToLower(command) == s.commandPrefix
    ensures ShouldForward(m, s)
  {
    CommandPassesPrefixTest(w1, command, rest, w2);
  }

  /** Whitespace around the content and the letter case of the content never
      change whether a message is forwarded. */
  lemma DecisionIgnoresPaddingAndCase(m: InboundMessage, s: Settings, w1: string, c: string, w2: string)
    requires AllWhitespace(w1) && AllWhitespace(w2)
    requires ToLower(c) == ToLower(m.content)
    ensures ShouldForward(m.(content := w1 + c + w2), s) == ShouldForward(m, s)
  {
    PrefixTestIgnoresPaddingAndCase(m.content, w1, c, w2, s.commandPrefix);
    ForwardIff(m, s);
    ForwardWithContent(m, s, w1 + c + w2);
  }

  /** Replacing the content leaves the first three checks as they were. */
  lemma ForwardWithContent(m: InboundMessage, s: Settings, content: string)
    ensures ShouldForward(m.(content := content), s) <==>
      !m.author.bot && GuildAllowed(m, s) && ChannelAllowed(m, s)
      && HasCommandPrefix(content, s.commandPrefix)
  {
    ForwardIff(m.(content := content), s);
  }

  /** The filter's verdict as one condition on the message. */
  lemma ForwardIff(m: InboundMessage, s: Settings)
    ensures ShouldForward(m, s) <==>
      !m.author.bot && GuildAllowed(m, s) && ChannelAllowed(m, s)
      && HasCommandPrefix(m.content, s.commandPrefix)
  {
  }

  /** The letter case the prefix is configured in never matters: two
      configured prefixes that agree up to case admit the same content. */
  lemma ConfiguredPrefixCaseInsensitive(content: string, a: string, b: string)
    requires a != "" && b != "" && ToLower(a) == ToLower(b)
    ensures HasCommandPrefix(content, CommandPrefix(Some(a)))
        == HasCommandPrefix(content, CommandPrefix(Some(b)))
  {
  }

  /** A channel allowlist variable holding only whitespace restricts the
      bridge to the channel id "", which drops every message from a real
      channel. */
  lemma BlankChannelAllowlistDropsAll(m: InboundMessage, s: Settings, raw: string)
    requires raw != [] && AllWhitespace(raw)
    requires s.allowedChannelIds == ChannelAllowlist(Some(raw))
    requires m.channelId != ""
    ensures !ShouldForward(m, s)
  {
    BlankChannelAllowlist(raw);
  }
}
