# TwitchBot session state, in Dafny

A model of the stateful core of `twitch_bot.js`, the bridge between Twitch chat and a
bot's own logic. The file declares `class TwitchBot` twice, and this model keeps the two
declarations apart:

- module `Credentials` holds the first declaration. It stores the refresh token, the
  client id and secret, and the current chat credential `oauth_token`.
  `refreshAccessToken` runs the OAuth 2.0 refresh-token grant (section 6 of RFC 6749).
  The client credentials go in the form body, as section 2.3.1 of RFC 6749 allows. When
  a token comes back, it replaces `oauth_token` as `"oauth:" + token`.
- module `Chat` holds the second declaration. It keeps the ordered channel list. Its
  `addChannel` appends a channel and asks the chat transport to join it, but only if the
  channel is new. Its `sayTTS` turns text into an MP3 file at one fixed path, gated by
  the `enable_tts` setting.
- module `Channels` holds the pure rule for `addChannel`, and `Speech` holds the pure
  rule for `sayTTS`. The class methods are proved to follow these rules.
- module `Wrappers` holds `Option`.

The network and the filesystem are inputs to the model:

- the token endpoint's answer is a `RefreshResponse`: either the request or the JSON
  decoding threw, or a body arrived with or without an `access_token` string;
- the speech model's answer is an optional audio payload, and the file write is a
  success flag;
- the file store is a map from path to bytes;
- the join requests sent to the chat transport are a log of channel names.

Strictly, the two `export class TwitchBot` declarations make the file fail to load as
an ES module: no declaration is allowed to override the other. The model therefore gives
each one its own module and does not merge them. The refresh-capable class hands its
token to no chat client, so a renewal does not reach the chat connection. The model keeps
that separation too.

`refreshAccessToken` returns nothing and reports failure only by logging. The model
follows that: the method has no result, and its contract says the method always
completes.

## Model

| member | source | states |
|---|---|---|
| `Credentials.RefreshRequestBody` | twitch_bot.js:21-25 | the body has exactly the fields grant_type, refresh_token, client_id and client_secret, in that order; grant_type is "refresh_token" and the other three carry the given values |
| `Credentials.TwitchBot.RequestBody` | twitch_bot.js:21-25 | the body the bot posts carries its own stored refresh token, client id and client secret |
| `Credentials.IssuedToken` | twitch_bot.js:33 | a response issues a token exactly when it was received and its `access_token` is present and non-empty (truthy); the issued token is that `access_token` itself, and it is never empty |
| `Credentials.Refreshed` | twitch_bot.js:33-41 | with no issued token (request failure, no field, or an empty field) the credential is unchanged; a received non-empty `access_token` t makes it exactly "oauth:" + t, and stripping "oauth:" gives back t |
| `Credentials.RefreshKeepsScheme` | twitch_bot.js:33-41 | a credential in "oauth:" form keeps that form across any refresh outcome |
| `Credentials.AfterRefreshesKeepsLatest` | twitch_bot.js:45-47 | after any run of timer-driven refreshes, the credential is "oauth:" plus the most recently issued token, or the initial credential if none was issued |
| `Credentials.TwitchBot.constructor` | twitch_bot.js:8-16 | stores the channels, client id, client secret, refresh token, access token and TTS flag it is given; the bot name and speech API key are taken and never stored |
| `Credentials.TwitchBot.RefreshAccessToken` | twitch_bot.js:19-42 | always completes; only oauthToken may change; when the response carries a non-empty `access_token` t it becomes "oauth:" + t, and otherwise (failure, no field, empty field) it stays as it was |
| `Credentials.TwitchBot.StartTokenRefresh` | twitch_bot.js:45-48 | performs one immediate refresh, with the same effect as RefreshAccessToken |
| `Channels.AddChannelTo` | twitch_bot.js:69-76 | the channel is a member afterwards; the state is unchanged exactly when it already was a member; otherwise the channel is appended to the list and exactly one join for it is appended to the join log |
| `Channels.AddChannelIdempotent` | twitch_bot.js:69-76 | adding the same channel twice gives the same list and join log as adding it once |
| `Channels.AddChannelKeepsEntries` | twitch_bot.js:71-74 | existing entries keep their positions, earlier joins are kept, and a list without duplicates stays without duplicates |
| `Channels.AddChannelsGrows` | twitch_bot.js:69-76 | every run of additions keeps the list equal to the start list followed by the join log, with no channel joined twice and no start-list channel joined; the joins are the earlier ones plus the requested names that were not in the start list |
| `Channels.JoinedOncePerNewChannel` | twitch_bot.js:69-76 | from any start list (duplicates allowed), any run of additions issues exactly one join per distinct new channel and none for channels already present; the list becomes the start list followed by the joined channels |
| `Channels.DistinctStartStaysDistinct` | twitch_bot.js:71-74 | a start list without duplicates has none after any run of additions |
| `Channels.JoinsInFirstRequestOrder` | twitch_bot.js:71-74 | the join log equals the requested names that are neither in the start list nor requested earlier, in the order they were requested |
| `Channels.AlphaThenBeta` | twitch_bot.js:69-76 | starting from ["alpha"], adding "alpha" and then "beta" gives ["alpha", "beta"] with a single join for "beta" |
| `Chat.TwitchBot.constructor` | twitch_bot.js:52-67 | stores the channel list and TTS flag; no join has been requested yet |
| `Chat.TwitchBot.AddChannel` | twitch_bot.js:69-76 | a channel already in the list changes nothing and issues no join; a new one is appended and exactly one join for it is logged; the list keeps having no duplicates; the new state is AddChannelTo of the old one |
| `Speech.Synthesize` | twitch_bot.js:129-154 | a speech request (model tts-1, voice alloy, the given text) is sent exactly when enable_tts is the string "true"; a path is returned exactly when the flag is on and both synthesis and write succeed; that path is always ./public/file.mp3 and holds the audio; when no path is returned, the files are untouched |
| `Speech.LastWriterWins` | twitch_bot.js:146-150 | two successful calls return the same path, and that file then holds the second call's audio |
| `Chat.TwitchBot.SayTts` | twitch_bot.js:129-154 | applies Synthesize to the bot's own `enable_tts`: returns a path exactly when that flag is the string "true" and synthesis and write succeed; the path is ./public/file.mp3 and the store then maps it to the audio; on a disabled flag or any failure, there is no path and the store is unchanged |

## Left out

- The chat transport (`tmi.client`) and its configuration: reconnect, TLS, identity and
  initial channels (twitch_bot.js:54-64). A join request is only recorded in a log.
- `connect`, `disconnect`, `say`, `whisper`, `ban`, `unban`, `clear`, `color` and
  `commercial` (twitch_bot.js:78-102, 116-127, 156-232). Each one forwards to the chat
  library and logs a failure, and has no state or logic of its own.
- `onMessage`, `onConnected` and `onDisconnected` (twitch_bot.js:104-114). They only
  register callbacks with the chat library.
- The four-hour `setInterval` in `startTokenRefresh` (twitch_bot.js:47). Timing is not
  modelled; successive timer ticks are modelled as a sequence of refresh outcomes
  (`AfterRefreshes`).
- The call to `refreshAccessToken` is not awaited, so its update lands later, at an
  unknown time. The model applies the update when the method returns.
- The HTTP POST, JSON decoding and form serialisation (twitch_bot.js:27-32). They are
  replaced by the `RefreshResponse` input and the list of form fields.
- Credentials.IssuedToken: an `access_token` that is a non-string truthy JSON value (a
  number, object or `true`) is not modelled, because the JSON body is abstracted as an
  optional string.
- The OpenAI speech call, the `Buffer` conversion and `fsPromises.writeFile`
  (twitch_bot.js:136-147). They are replaced by an optional payload and a write-success
  flag.
- Speech.Synthesize: a failed write leaves the modelled file store unchanged. A partial
  write is not modelled.
- Console logging.
- Aliasing of the channel array (twitch_bot.js:9, 53, 63). The same array object is the
  caller's constructor argument and is also handed to the chat client. The model assumes
  only `addChannel` writes the list. If the caller, or the chat library while it connects,
  rewrote entries in place (for example into a `#name` form), a later
  `addChannel("alpha")` would miss the match and join again. The chat library is not part
  of this model, so whether it does this is not settled here. `AddChannelTo`,
  `JoinedOncePerNewChannel` and `AlphaThenBeta` hold only under this assumption.
- Concurrent calls that interleave, such as two `sayTTS` calls or a refresh racing a
  reader.
