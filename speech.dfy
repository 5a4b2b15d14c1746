/**
 * The text-to-speech path of `sayTTS`: the `enable_tts` gate, the one speech request
 * it sends, and the single fixed file slot the audio is written to.
 */
module Speech {
  import opened Wrappers

  type Audio = seq<bv8>

  /** The only flag value that enables synthesis, compared with strict inequality. */
  const EnabledFlag: string := "true"
  const SpeechModel: string := "tts-1"
  const SpeechVoice: string := "alloy"
  /** The one file every successful call overwrites and returns. */
  const FilePath: string := "./public/file.mp3"

  /**
   * The configuration value `enable_tts`: a string, a boolean, or absent. Only the
   * string "true" passes the gate; the boolean `true` does not.
   */
  datatype FlagValue = Text(text: string) | Boolean(truth: bool) | Undefined

  predicate TtsEnabled(flag: FlagValue)
  {
    flag == Text(EnabledFlag)
  }

  /** The request sent to the hosted speech model. */
  datatype SpeechRequest = SpeechRequest(model: string, voice: string, input: string)

  /** What one call did: the request it sent (if any), the files afterwards and the path it returned. */
  datatype TtsRun = TtsRun(request: Option<SpeechRequest>, files: map<string, Audio>, path: Option<string>)

  /**
   * One `sayTTS(text)`. `audio` is the payload the speech request produced, None when
   * the request or reading its body failed; `writeOk` says whether writing the file
   * succeeded; `files` is the file store before the call.
   */
  function Synthesize(flag: FlagValue, text: string, audio: Option<Audio>, writeOk: bool,
                      files: map<string, Audio>): (run: TtsRun)
    ensures run.request.Some? <==> TtsEnabled(flag)
    ensures run.request.Some? ==> run.request.value == SpeechRequest(SpeechModel, SpeechVoice, text)
    ensures run.path.Some? <==> TtsEnabled(flag) && audio.Some? && writeOk
    ensures run.path.Some? ==> run.path.value == FilePath && run.files == files[FilePath := audio.value]
    ensures run.path.None? ==> run.files == files
  {
    if !TtsEnabled(flag) then TtsRun(None, files, None)
    else
      var request := Some(SpeechRequest(SpeechModel, SpeechVoice, text));
      match audio
      case None => TtsRun(request, files, None)
      case Some(payload) =>
        if writeOk then TtsRun(request, files[FilePath := payload], Some(FilePath))
        else TtsRun(request, files, None)
  }

  /**
   * Two successful calls in a row return the same path, and the file there holds the
   * second call's audio: the last writer wins.
   */
  lemma LastWriterWins(flag: FlagValue, first: string, second: string, a1: Audio, a2: Audio,
                       files: map<string, Audio>)
    requires TtsEnabled(flag)
    ensures var run1 := Synthesize(flag, first, Some(a1), true, files);
            var run2 := Synthesize(flag, second, Some(a2), true, run1.files);
            run1.path == run2.path == Some(FilePath) && run2.files[FilePath] == a2
  {
  }
}
