/** The payload the handler posts for an admitted message: the raw content,
    the author's identity, the guild (null for a direct message), the channel
    (named "DM" when it has no name), the message's id and creation time, and
    the time of forwarding. */
module Payload {
  import opened Wrappers
  import opened JsText
  import opened BridgeConfig
  import opened Admission

  datatype AuthorInfo = AuthorInfo(id: string, username: string, discriminator: string, tag: string)

  datatype GuildInfo = GuildInfo(id: string, name: string)

  datatype ChannelInfo = ChannelInfo(id: string, name: string)

  datatype MessageInfo = MessageInfo(id: string, timestamp: int)

  /** The JSON body sent to the webhook; `guild` is null (`None`) for a
      direct message, `timestamp` is the ISO-8601 time of forwarding. */
  datatype OutboundEvent = OutboundEvent(
    content: string,
    author: AuthorInfo,
    guild: Option<GuildInfo>,
    channel: ChannelInfo,
    message: MessageInfo,
    timestamp: string)

  const DmChannelName: string := "DM"

  /** `message.channel.name || 'DM'`: never empty; "DM" exactly when the name
      is missing, empty or itself "DM"; otherwise the name unchanged. */
  function ChannelName(name: Option<string>): (n: string)
    ensures n != ""
    ensures n == DmChannelName <==> !Truthy(name) || name.value == DmChannelName
    ensures n != DmChannelName ==> name == Some(n)
  {
    OrDefault(name, DmChannelName)
  }

  /** The payload literal; `now` stands for `new Date().toISOString()`. */
  function BuildEvent(m: InboundMessage, now: string): (e: OutboundEvent)
    ensures e.guild.None? <==> m.guild.None?
    ensures m.guild.Some? ==> e.guild == Some(GuildInfo(m.guild.value.id, m.guild.value.name))
    ensures e.channel.name != ""
    ensures e.timestamp == now
  {
    OutboundEvent(
      m.content,
      AuthorInfo(m.author.id, m.author.username, m.author.discriminator, m.author.tag),
      if m.guild.Some? then Some(GuildInfo(m.guild.value.id, m.guild.value.name)) else None,
      ChannelInfo(m.channelId, ChannelName(m.channelName)),
      MessageInfo(m.id, m.createdTimestamp),
      now)
  }

  /** Two messages the payload cannot tell apart: they agree on every field
      except the author's bot flag, and their channel names fall back to the
      same value. */
  predicate Indistinguishable(m1: InboundMessage, m2: InboundMessage) {
    m1.id == m2.id && m1.content == m2.content
    && m1.author.id == m2.author.id && m1.author.username == m2.author.username
    && m1.author.discriminator == m2.author.discriminator && m1.author.tag == m2.author.tag
    && m1.guild == m2.guild && m1.channelId == m2.channelId
    && ChannelName(m1.channelName) == ChannelName(m2.channelName)
    && m1.createdTimestamp == m2.createdTimestamp
  }

  /** The payload loses nothing but the bot flag and the difference between a
      missing, empty or "DM" channel name: two messages give the same payload
      at the same moment exactly when they are indistinguishable. */
  lemma PayloadDeterminesMessage(m1: InboundMessage, m2: InboundMessage, now: string)
    ensures BuildEvent(m1, now) == BuildEvent(m2, now) <==> Indistinguishable(m1, m2)
  {
    if BuildEvent(m1, now) == BuildEvent(m2, now) {
      assert m1.guild == m2.guild by {
        if m1.guild.Some? {
          assert BuildEvent(m1, now).guild.value == BuildEvent(m2, now).guild.value;
        }
      }
    }
  }

  /** Building the payload twice for the same message gives records that
      differ at most in the forwarding time. */
  lemma PayloadDependsOnClockOnlyInTimestamp(m: InboundMessage, now1: string, now2: string)
    ensures BuildEvent(m, now1).(timestamp := now2) == BuildEvent(m, now2)
    ensures BuildEvent(m, now1) == BuildEvent(m, now2) <==> now1 == now2
  {
  }

  /** The payload carries the message's raw content, not the trimmed,
      lower-cased text the filter looked at, its creation time and its
      author's identity unchanged. */
  lemma PayloadCarriesRawFields(m: InboundMessage, now: string)
    ensures BuildEvent(m, now).content == m.content
    ensures BuildEvent(m, now).message == MessageInfo(m.id, m.createdTimestamp)
    ensures BuildEvent(m, now).author == AuthorInfo(m.author.id, m.author.username, m.author.discriminator, m.author.tag)
  {
  }

  /** The channel is named "DM" exactly when its own name is missing, empty or
      "DM". */
  lemma ChannelNameFallback(m: InboundMessage, now: string)
    ensures BuildEvent(m, now).channel.id == m.channelId
    ensures BuildEvent(m, now).channel.name == DmChannelName
        <==> m.channelName.None? || m.channelName.value in {"", DmChannelName}
    ensures m.channelName.Some? && m.channelName.value !in {"", DmChannelName}
        ==> BuildEvent(m, now).channel.name == m.channelName.value
  {
  }
}
