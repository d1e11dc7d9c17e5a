# Discord → n8n bridge: admission and forwarding

This project models the core of the Discord bridge in `discord-bridge/index.js`, a bot that forwards selected Discord messages to an n8n webhook. It covers four parts:

- **Settings.** At startup the bridge derives its settings from environment strings:
  - a guild allowlist, where the empty string means "every guild";
  - a comma-separated channel allowlist, whose entries are trimmed and where an empty list means "every channel";
  - a command prefix, defaulting to `!cme` and lower-cased once.

  A missing bot token or webhook URL ends startup. The model returns this as an error value instead of exiting.
- **Admission.** Every message passes through four checks, each an early return, in this order:
  1. bot author;
  2. guild allowlist;
  3. channel allowlist;
  4. case-insensitive command prefix on the trimmed content.
- **Payload.** An admitted message becomes an outbound record:
  - the raw content;
  - the author's identity;
  - the guild, or null for a direct message;
  - the channel, whose name falls back to `DM`;
  - the message's id and creation time;
  - the time of forwarding.
- **Delivery.** The record is posted as JSON with a 10-second timeout. If the post fails for any reason, the handler tries exactly once to react to the original message with ❌. A failure of that reaction is swallowed.

## Modules

| file | module | contents |
|---|---|---|
| `wrappers.dfy` | `Wrappers` | `Option` and `Result` |
| `js_text.dfy` | `JsText` | the JavaScript string operations the bridge uses, with their laws |
| `bridge_config.dfy` | `BridgeConfig` | environment, settings, startup validation |
| `admission.dfy` | `Admission` | inbound messages and the four checks |
| `payload.dfy` | `Payload` | the outbound record |
| `delivery.dfy` | `Delivery` | the handler as a method returning its action trace and outcome |
| `scenarios.dfy` | `Scenarios` | concrete cases |

## Modelling decisions

- **Trim.** `trim` removes every code point ECMAScript counts as WhiteSpace or LineTerminator. That is TAB, LF, VT, FF, CR, SPACE, NBSP, U+1680, U+2000–U+200A, LS, PS, U+202F, U+205F, U+3000 and ZWNBSP.
- **toLowerCase.** `toLowerCase` is modelled by the ASCII case map (see "Left out").
- **Falsy values.** `x || d` and the `?:` test treat a missing variable and the empty string as falsy (`JsText.Truthy`).
- **Guild.** A message carries one optional guild, and `message.guildId` is derived from it.
- **Post result.** The result of the post is an input: either an HTTP status or no response, meaning a timeout or a network error. The HTTP client counts a post as successful exactly when the status is 2xx. This is the client library's default; it is not stated in the bridge's own code.
- **Failed reaction.** Whether the reaction succeeds is also an input. A failed reaction shows up only in the outcome.
- **Order of the prefix test.** The code trims first and lower-cases second. `JsText.TrimCommutesWithLower` shows the order does not matter: `Admission.PrefixTestOnNormalisedContent` restates the test the other way round.
- **Blank channel allowlist.** A channel allowlist variable made only of whitespace is truthy. It is split into one blank entry, which trims to `""`, so it yields `[""]` rather than `[]` and then drops every message from a real channel (`Admission.BlankChannelAllowlistDropsAll`). The model follows the code here.
- **Empty channel name.** Because of `||`, an empty channel name is also replaced by `DM`, not only a missing one.

## Model

| member | source | states |
|---|---|---|
| JsText.TrimStart | discord-bridge/index.js:68 | the result is a suffix of the input and does not start with whitespace |
| JsText.TrimEnd | discord-bridge/index.js:68 | the result is a prefix of the input and does not end with whitespace |
| JsText.Trim | discord-bridge/index.js:68 | `trim` leaves no whitespace at either end |
| JsText.TrimStartDropsWhitespace | discord-bridge/index.js:68 | everything dropped from the front is whitespace |
| JsText.TrimEndDropsWhitespace | discord-bridge/index.js:68 | everything dropped from the back is whitespace |
| JsText.TrimEmptyIffBlank | discord-bridge/index.js:9 | trimming gives "" exactly when the string is all whitespace |
| JsText.TrimAddsNothing | discord-bridge/index.js:9 | trimming never introduces a character, e.g. a comma, that was not there |
| JsText.TrimIgnoresPadding | discord-bridge/index.js:68 | whitespace added at either end does not change the trimmed string |
| JsText.TrimKeepsTrimmed | discord-bridge/index.js:9 | a string without whitespace at its ends is its own trim |
| JsText.TrimRemovesPadding | discord-bridge/index.js:68 | trimming a padded trimmed string gives that string back |
| JsText.TrimIdempotent | discord-bridge/index.js:68 | trimming twice is trimming once |
| JsText.LowerChar | discord-bridge/index.js:69 | `A`–`Z` map to `a`–`z`; every other code point is unchanged |
| JsText.ToLower | discord-bridge/index.js:11 | same length, each code point lower-cased on its own |
| JsText.ToLowerIdempotent | discord-bridge/index.js:11 | lower-casing twice is lower-casing once |
| JsText.LowerStartsWithLower | discord-bridge/index.js:69 | lower-casing preserves a prefix relation |
| JsText.TrimCommutesWithLower | discord-bridge/index.js:68-69 | trimming then lower-casing equals lower-casing then trimming |
| JsText.IsWhitespace | discord-bridge/index.js:68 | the code points `trim` removes: ECMAScript's WhiteSpace and LineTerminator sets, listed above |
| JsText.StartsWith | discord-bridge/index.js:69 | `s` begins with `prefix`: its first code points, as many as `prefix` has, are `prefix` |
| JsText.Truthy | discord-bridge/index.js:7-22 | a possibly-missing string is truthy exactly when it is present and non-empty |
| JsText.OrDefault | discord-bridge/index.js:7 | the or-default of `v` and `d` is `d` exactly when `v` is falsy or equals `d`; otherwise it is `v` |
| JsText.Split | discord-bridge/index.js:9 | `split` always yields at least one piece |
| JsText.SplitPiecesOmitSeparator | discord-bridge/index.js:9 | no piece of a split contains the separator |
| JsText.JoinSplit | discord-bridge/index.js:9 | joining the pieces of a split gives the original string |
| JsText.SplitJoin | discord-bridge/index.js:9 | splitting a join of separator-free pieces gives those pieces |
| JsText.SplitFirstPiece | discord-bridge/index.js:9 | a separator-free head before the first comma is the first piece |
| BridgeConfig.GuildAllowlist | discord-bridge/index.js:7 | the guild allowlist is "" exactly when the variable is unset or empty, else the variable's value |
| BridgeConfig.ChannelAllowlist | discord-bridge/index.js:8-10 | the channel allowlist is empty exactly when the variable is unset or empty; every entry is trimmed and comma-free |
| BridgeConfig.ChannelAllowlistOfPieces | discord-bridge/index.js:8-10 | a set variable yields exactly its comma-separated pieces, each trimmed, in order |
| BridgeConfig.ChannelAllowlistRoundTrip | discord-bridge/index.js:8-10 | a comma-joined list of trimmed comma-free ids reads back as those ids |
| BridgeConfig.ChannelAllowlistIgnoresPadding | discord-bridge/index.js:9 | two variables whose pieces trim to the same ids give the same allowlist |
| BridgeConfig.ChannelAllowlistDropsPaddingAt | discord-bridge/index.js:9 | whitespace around any one id, at any position, is dropped from the allowlist |
| BridgeConfig.BlankChannelAllowlist | discord-bridge/index.js:8-10 | a whitespace-only variable yields `[""]`, not `[]` |
| BridgeConfig.CommandPrefix | discord-bridge/index.js:11 | the prefix is non-empty and lower case; it is `!cme` when the variable is unset or empty, else the variable lower-cased |
| BridgeConfig.LoadSettings | discord-bridge/index.js:5-22 | settings load exactly when token and URL are both set; a missing token is reported first, then a missing URL; loaded settings hold the derived allowlists and prefix |
| Admission.GuildAllowed | discord-bridge/index.js:58 | the guild check passes when the guild allowlist is empty or equals the message's guild id |
| Admission.ChannelAllowed | discord-bridge/index.js:63 | the channel check passes when the channel allowlist is empty or lists the message's channel |
| Admission.HasCommandPrefix | discord-bridge/index.js:68-69 | the prefix check passes when the trimmed, lower-cased content starts with the prefix |
| Admission.ShouldForward | discord-bridge/index.js:55-71 | a message is forwarded when the filter's verdict is to forward it |
| Admission.Admit | discord-bridge/index.js:55-71 | a message is forwarded exactly when all four checks pass; each drop reason holds exactly when its check is the first to fail |
| Admission.BotNeverForwarded | discord-bridge/index.js:55 | a bot's message is dropped as a bot's, whatever else it holds |
| Admission.GuildAllowlistEnforced | discord-bridge/index.js:58-60 | with a guild allowlist, messages from other guilds and direct messages are dropped |
| Admission.EmptyGuildAllowlistUnrestricted | discord-bridge/index.js:58 | with no guild allowlist, the guild never changes the decision |
| Admission.ChannelAllowlistEnforced | discord-bridge/index.js:63-65 | with a channel allowlist, messages from unlisted channels are dropped |
| Admission.EmptyChannelAllowlistUnrestricted | discord-bridge/index.js:63 | with no channel allowlist, the channel never changes the decision |
| Admission.PrefixTestOnNormalisedContent | discord-bridge/index.js:68-69 | forwarding depends on whether `trim(lower(content))` starts with the prefix |
| Admission.PrefixTestIgnoresPaddingAndCase | discord-bridge/index.js:68-69 | padding and letter case of the content never change the prefix test |
| Admission.CommandPassesPrefixTest | discord-bridge/index.js:68-69 | the prefix in any case, followed by anything and padded, passes the prefix test |
| Admission.CommandForwarded | discord-bridge/index.js:55-71 | a user's such message in an allowed guild and channel is forwarded |
| Admission.DecisionIgnoresPaddingAndCase | discord-bridge/index.js:55-71 | padding and letter case of the content never change whether a message is forwarded |
| Admission.ConfiguredPrefixCaseInsensitive | discord-bridge/index.js:11 | two configured prefixes that differ only in letter case admit exactly the same content |
| Admission.BlankChannelAllowlistDropsAll | discord-bridge/index.js:63 | a whitespace-only channel variable drops every message from a channel with a real id |
| Payload.ChannelName | discord-bridge/index.js:88 | the channel name is never empty; it is `DM` exactly when the name is missing, empty or `DM`, else the name |
| Payload.BuildEvent | discord-bridge/index.js:74-95 | `guild` is null exactly for a direct message and otherwise the guild's id and name; the channel name is non-empty; `timestamp` is the forwarding time |
| Payload.PayloadDeterminesMessage | discord-bridge/index.js:74-95 | two messages give the same payload exactly when they agree on every copied field and on the channel name after fallback |
| Payload.PayloadDependsOnClockOnlyInTimestamp | discord-bridge/index.js:94 | payloads built at two moments differ only in `timestamp` |
| Payload.PayloadCarriesRawFields | discord-bridge/index.js:75-93 | every payload carries the message's raw content, its creation time and its author unchanged |
| Payload.ChannelNameFallback | discord-bridge/index.js:86-89 | the channel's id is copied; its name is `DM` exactly when missing, empty or `DM`, else copied |
| Delivery.PostSucceeded | discord-bridge/index.js:101 | a post succeeds exactly when it got a response with status 200–299 |
| Delivery.ForwardAction | discord-bridge/index.js:101-106 | the post of an admitted message: to the webhook URL, with its payload, the JSON content type and a 10 000 ms timeout |
| Delivery.PostCount | discord-bridge/index.js:101 | the count of posts in a trace is zero exactly when it holds none |
| Delivery.ReactionCount | discord-bridge/index.js:119 | the count of reactions in a trace is zero exactly when it holds none |
| Delivery.HandleMessage | discord-bridge/index.js:53-123 | a dropped message issues nothing; an admitted one is posted exactly once with its payload, JSON type and 10 s timeout; success ends there; any failure adds exactly one ❌ reaction on the original message, with no retry |
| Scenarios.GuildG1Settings | discord-bridge/index.js:7-11 | an environment with guild `G1` loads that allowlist, no channel allowlist and the `!cme` prefix |
| Scenarios.SpacedChannelListTrimmed | discord-bridge/index.js:8-10 | the variable `123, 456` lists the channels `123` and `456` |
| Scenarios.AllowedGuildForwarded | discord-bridge/index.js:55-75 | `!cme hello` from guild `G1` is forwarded with its content unchanged |
| Scenarios.OtherGuildDropped | discord-bridge/index.js:58-60 | the same message from guild `G2` is dropped by the guild check |
| Scenarios.DirectMessageDropped | discord-bridge/index.js:58-60 | a direct message is dropped by the guild check |
| Scenarios.PaddedUpperCasePrefixForwarded | discord-bridge/index.js:68-69 | `  !CME do thing` is forwarded |
| Scenarios.ServerErrorReacts | discord-bridge/index.js:100-123 | a 500 answer gives one post, one ❌ reaction and a failed outcome |
| Scenarios.TimeoutReacts | discord-bridge/index.js:100-123 | a timeout gives one post, one ❌ reaction and a failed outcome |

## Left out

- The discord.js client is not modelled (lines 25-50, 127-129, 136-137). That covers its construction and intents, the `ready` logging, event registration, the `error` listener and `login`. A message is an input record.
- The HTTP post is not performed (lines 101-106). Its URL, JSON content type and 10-second timeout are kept in the `PostJson` action, and its result is an input. The 2xx success rule is the client library's default.
- `new Date().toISOString()` (line 94) is the `now` parameter.
- Console output is not modelled, including lines 97, 108-115 and 121. It has no effect on behaviour.
- `process.exit(1)` on a missing token or URL is modelled as an `Err` result. The exit status itself is not modelled.
- The `unhandledRejection` handler (lines 131-133) is not modelled.
- Concurrency between handler invocations is not modelled. The handlers share no mutable state.
- JsText.ToLower: implements only the ASCII case map, not Unicode's full `toLowerCase`. Non-ASCII upper-case letters, such as `É`, are kept unchanged.
- Guild ids: `guildId` is derived from the guild object. A message whose guild id is known while the guild object is not cached is not modelled.
