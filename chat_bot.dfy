/**
 * The chat-capable `TwitchBot` (the second of the two declarations in twitch_bot.js):
 * its channel list, the join requests it hands to the chat transport, and its
 * text-to-speech entry point.
 */
module Chat {
  import opened Wrappers
  import opened Channels
  import opened Speech

  class TwitchBot {
    /** The channels the session is joined to, in insertion order. */
    var channels: seq<string>
    /** Every `join` the bot has asked the chat transport to perform, oldest first. */
    var joinRequests: seq<string>
    var enableTts: FlagValue

    /** The channel list and join log as one value. */
    function State(): ChannelState
      reads this
    {
      ChannelState(channels, joinRequests)
    }

    /**
     * `botUsername`, `oauthToken` and `openaiApiKey` configure the chat transport and
     * the speech client, which are not part of this model.
     */
    constructor (botUsername: string, oauthToken: string, channels: seq<string>, openaiApiKey: string,
                 enableTts: FlagValue)
      ensures this.channels == channels && joinRequests == [] && this.enableTts == enableTts
    {
      this.channels := channels;
      joinRequests := [];
      this.enableTts := enableTts;
    }

    /** Joins `channel` unless it is already in the list. */
    method AddChannel(channel: string)
      modifies this`channels, this`joinRequests
      ensures State() == AddChannelTo(old(State()), channel)
      ensures old(channel in channels) ==> channels == old(channels) && joinRequests == old(joinRequests)
      ensures old(channel !in channels) ==>
                channels == old(channels) + [channel] && joinRequests == old(joinRequests) + [channel]
      ensures old(NoDuplicates(channels)) ==> NoDuplicates(channels)
    {
      if channel !in channels {
        channels := channels + [channel];
        joinRequests := joinRequests + [channel];
      }
    }

    /**
     * Speaks `text`: nothing happens unless `enable_tts` is the string "true"; then the
     * speech request is sent and, if it and the file write succeed, the fixed file path
     * is returned with the file holding the audio. Any failure yields no path.
     */
    method SayTts(text: string, audio: Option<Audio>, writeOk: bool, files: map<string, Audio>)
      returns (path: Option<string>, written: map<string, Audio>)
      ensures path.Some? <==> enableTts == Text("true") && audio.Some? && writeOk
      ensures path.Some? ==> path.value == "./public/file.mp3" && written == files[path.value := audio.value]
      ensures path.None? ==> written == files
      ensures (path, written) == (Synthesize(enableTts, text, audio, writeOk, files).path,
                                  Synthesize(enableTts, text, audio, writeOk, files).files)
    {
      var run := Synthesize(enableTts, text, audio, writeOk, files);
      path, written := run.path, run.files;
    }
  }
}
