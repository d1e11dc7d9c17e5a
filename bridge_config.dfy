/** The bridge's settings, derived once at startup from environment strings:
    the bot token and webhook URL (both required), the guild allowlist, the
    comma-separated channel allowlist and the command prefix. */
module BridgeConfig {
  import opened Wrappers
  import opened JsText

  /** The environment variables the bridge reads; `None` is an unset variable. */
  datatype Environment = Environment(
    discordBotToken: Option<string>,
    n8nWebhookUrl: Option<string>,
    allowedGuildId: Option<string>,
    allowedChannelIds: Option<string>,
    commandPrefix: Option<string>)

  /** The settings every message handler reads; never changed after startup. */
  datatype Settings = Settings(
    botToken: string,
    webhookUrl: string,
    allowedGuildId: string,          // "" restricts nothing
    allowedChannelIds: seq<string>,  // [] restricts nothing
    commandPrefix: string)           // already lower-cased

  /** A required variable is unset or empty; the process exits with status 1. */
  datatype ConfigError = MissingBotToken | MissingWebhookUrl

  const DefaultCommandPrefix: string := "!cme"

  /** `ALLOWED_GUILD_ID || ''`. */
  function GuildAllowlist(raw: Option<string>): (g: string)
    ensures g == "" <==> !Truthy(raw)
    ensures g != "" ==> raw == Some(g)
  {
    OrDefault(raw, "")
  }

  /** `ALLOWED_CHANNEL_IDS ? ALLOWED_CHANNEL_IDS.split(',').map(id => id.trim()) : []`:
      empty exactly when the variable is unset or empty; every entry is trimmed
      and free of commas. */
  function ChannelAllowlist(raw: Option<string>): (ids: seq<string>)
    ensures ids == [] <==> !Truthy(raw)
    ensures forall i :: 0 <= i < |ids| ==> Trimmed(ids[i]) && ',' !in ids[i]
  {
    if Truthy(raw) then
      var parts := Split(raw.value, ',');
      var ids := seq(|parts|, i requires 0 <= i < |parts| => Trim(parts[i]));
      SplitPiecesOmitSeparator(raw.value, ',');
      assert forall i :: 0 <= i < |ids| ==> ',' !in ids[i] by {
        forall i | 0 <= i < |ids| ensures ',' !in ids[i] {
          TrimAddsNothing(parts[i], ',');
        }
      }
      ids
    else []
  }

  /** `(COMMAND_PREFIX || '!cme').toLowerCase()`: never empty, already in lower
      case, and the default exactly when the variable is unset or empty. */
  function CommandPrefix(raw: Option<string>): (p: string)
    ensures p != ""
    ensures ToLower(p) == p
    ensures !Truthy(raw) ==> p == DefaultCommandPrefix
    ensures Truthy(raw) ==> |p| == |raw.value| && p == ToLower(raw.value)
  {
    var p := ToLower(OrDefault(raw, DefaultCommandPrefix));
    ToLowerIdempotent(OrDefault(raw, DefaultCommandPrefix));
    p
  }

  /** Startup: derive the settings, then refuse a missing token (checked
      first) or a missing webhook URL. */
  function LoadSettings(env: Environment): (r: Result<Settings, ConfigError>)
    ensures r.Ok? <==> Truthy(env.discordBotToken) && Truthy(env.n8nWebhookUrl)
    ensures !Truthy(env.discordBotToken) ==> r == Err(MissingBotToken)
    ensures Truthy(env.discordBotToken) && !Truthy(env.n8nWebhookUrl) ==> r == Err(MissingWebhookUrl)
    ensures r.Ok? ==> r.value == Settings(env.discordBotToken.value, env.n8nWebhookUrl.value,
                                          GuildAllowlist(env.allowedGuildId),
                                          ChannelAllowlist(env.allowedChannelIds),
                                          CommandPrefix(env.commandPrefix))
  {
    var settings := Settings(
      OrDefault(env.discordBotToken, ""),
      OrDefault(env.n8nWebhookUrl, ""),
      GuildAllowlist(env.allowedGuildId),
      ChannelAllowlist(env.allowedChannelIds),
      CommandPrefix(env.commandPrefix));
    if !Truthy(env.discordBotToken) then Err(MissingBotToken)
    else if !Truthy(env.n8nWebhookUrl) then Err(MissingWebhookUrl)
    else Ok(settings)
  }

  /** The allowlist is exactly the trimmed comma-separated pieces of the
      variable: for any comma-free pieces whose join is non-empty, reading
      their join gives each piece trimmed. */
  lemma ChannelAllowlistOfPieces(ps: seq<string>)
    requires |ps| >= 1
    requires forall i :: 0 <= i < |ps| ==> ',' !in ps[i]
    requires Join(ps, ',') != ""
    ensures ChannelAllowlist(Some(Join(ps, ','))) == seq(|ps|, i requires 0 <= i < |ps| => Trim(ps[i]))
  {
    SplitJoin(ps, ',');
  }

  /** Writing the allowlist as a comma-joined list of trimmed, comma-free ids
      gives back exactly those ids. */
  lemma ChannelAllowlistRoundTrip(ids: seq<string>)
    requires |ids| >= 1
    requires forall i :: 0 <= i < |ids| ==> Trimmed(ids[i]) && ',' !in ids[i]
    requires Join(ids, ',') != ""
    ensures ChannelAllowlist(Some(Join(ids, ','))) == ids
  {
    ChannelAllowlistOfPieces(ids);
    TrimEach(ids);
  }

  lemma TrimEach(ids: seq<string>)
    requires forall i :: 0 <= i < |ids| ==> Trimmed(ids[i])
    ensures seq(|ids|, i requires 0 <= i < |ids| => Trim(ids[i])) == ids
  {
    forall i | 0 <= i < |ids| ensures Trim(ids[i]) == ids[i] {
      TrimKeepsTrimmed(ids[i]);
    }
  }

  /** Whitespace around any of the ids does not change the allowlist: two
      variables whose comma-separated pieces trim to the same ids give the
      same allowlist. */
  lemma ChannelAllowlistIgnoresPadding(ps: seq<string>, qs: seq<string>)
    requires |ps| == |qs| >= 1
    requires forall i :: 0 <= i < |ps| ==> ',' !in ps[i] && ',' !in qs[i]
    requires forall i :: 0 <= i < |ps| ==> Trim(ps[i]) == Trim(qs[i])
    requires Join(ps, ',') != "" && Join(qs, ',') != ""
    ensures ChannelAllowlist(Some(Join(ps, ','))) == ChannelAllowlist(Some(Join(qs, ',')))
  {
    ChannelAllowlistOfPieces(ps);
    ChannelAllowlistOfPieces(qs);
  }

  /** In particular, whitespace around one id, anywhere in the list, is
      dropped. */
  lemma ChannelAllowlistDropsPaddingAt(ids: seq<string>, k: nat, w1: string, w2: string)
    requires 1 <= |ids| && k < |ids|
    requires forall i :: 0 <= i < |ids| ==> Trimmed(ids[i]) && ',' !in ids[i]
    requires Join(ids, ',') != ""
    requires AllWhitespace(w1) && AllWhitespace(w2)
    ensures ChannelAllowlist(Some(Join(ids[k := w1 + ids[k] + w2], ','))) == ids
  {
    var padded := ids[k := w1 + ids[k] + w2];
    assert ',' !in w1 && ',' !in w2 by {
      assert !IsWhitespace(',');
    }
    assert ',' !in w1 + ids[k] + w2;
    JoinEmptyIff(ids, ',');
    JoinEmptyIff(padded, ',');
    ChannelAllowlistOfPieces(padded);
    TrimRemovesPadding(w1, ids[k], w2);
    forall i | 0 <= i < |ids| ensures Trim(padded[i]) == ids[i] {
      if i != k {
        TrimKeepsTrimmed(ids[i]);
      }
    }
  }

  /** A variable holding only whitespace is truthy, so it yields the
      non-empty list `[""]` rather than "unrestricted". */
  lemma BlankChannelAllowlist(raw: string)
    requires raw != [] && AllWhitespace(raw)
    ensures ChannelAllowlist(Some(raw)) == [""]
  {
    SplitGluesHead(raw, "", ',');
    assert raw + "" == raw;
    TrimEmptyIffBlank(raw);
  }
}
