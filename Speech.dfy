/**
 * `generateSpeech` (services/geminiService.ts) around its remote call: the
 * missing-key check, the request it issues, the selection of the audio part
 * in the reply, the base64 decoding, the binary-string-to-bytes loop, the
 * WAV wrapping, and the messages its errors carry.
 *
 * The remote model is a parameter: a function from the request to either a
 * reply or a rejection. The returned object URL is left out; the model
 * returns the WAV bytes that go into the Blob.
 */
module Speech {
  import opened Wrappers
  import opened Bytes
  import Base64
  import Prompt
  import Wav

  /** The model identifier every request names. */
  const ModelName: string := "gemini-2.5-flash-preview-tts"

  /** The parameter defaults of `generateSpeech`. */
  const DefaultVoice: string := "Kore"
  const DefaultAccent: string := "Hinglish"

  const MissingKeyMessage: string := "API Key is missing."
  const NoAudioMessage: string := "Gemini returned no audio."
  const FallbackMessage: string := "Failed to generate audio."

  datatype Modality = Audio

  /** What `generateContent` is called with: model, prompt, response modalities and prebuilt voice. */
  datatype Request = Request(model: string, prompt: string, responseModalities: seq<Modality>, voiceName: string)

  // The reply, every level optional as the optional chaining in the source reads it.
  datatype InlineData = InlineData(mimeType: Option<string>, data: Option<string>)
  datatype Part = Part(text: Option<string>, inlineData: Option<InlineData>)
  datatype Content = Content(parts: Option<seq<Part>>)
  datatype Candidate = Candidate(content: Option<Content>)
  datatype Response = Response(candidates: Option<seq<Candidate>>)

  /** How the awaited call settles: with a reply, or rejected with an error message (possibly empty). */
  datatype RemoteOutcome = Replied(response: Response) | Rejected(message: string)

  /** The failures `generateSpeech` reports. */
  datatype SpeechError =
    | MissingApiKey            // thrown before anything else
    | NoAudio                  // the reply has no usable audio part
    | InvalidBase64            // `atob` threw: the payload is not base64
    | RemoteFailure(message: string)  // the call itself was rejected

  /**
   * The message of the error `generateSpeech` throws. Errors raised inside
   * its `try` are rethrown as `new Error(error.message || "Failed to generate
   * audio.")`; the missing-key error is thrown before the `try`.
   */
  function ErrorMessage(e: SpeechError): (m: string)
    requires !e.InvalidBase64?
    ensures m != ""
    ensures e.RemoteFailure? && e.message != "" ==> m == e.message
  {
    match e
    case MissingApiKey => MissingKeyMessage
    case NoAudio => NoAudioMessage
    case RemoteFailure(message) => if message == "" then FallbackMessage else message
  }

  /** The request `generateSpeech` issues for these arguments. */
  function BuildRequest(userText: string, voiceName: string, accent: string): (req: Request)
    ensures req.model == ModelName && req.responseModalities == [Audio] && req.voiceName == voiceName
    ensures req.prompt == Prompt.Compose(userText, voiceName, accent)
  {
    Request(ModelName, Prompt.Compose(userText, voiceName, accent), [Audio], voiceName)
  }

  /**
   * Called with its defaults (voice "Kore", accent "Hinglish"),
   * `generateSpeech` asks for the prebuilt voice "Kore" with the Hinglish
   * sentence as the whole style instruction.
   */
  lemma DefaultArguments(userText: string)
    ensures var req := BuildRequest(userText, DefaultVoice, DefaultAccent);
      && req.voiceName == "Kore"
      && req.prompt == Prompt.FullPrompt(Prompt.HinglishStyle, userText)
  {
    assert Prompt.ParseAccent(DefaultAccent) == Some(Prompt.Hinglish);
    assert Prompt.VoiceSuffix(DefaultVoice) == "";
  }

  /** The request issued, if any: none when the key is empty (`!API_KEY`). */
  function IssuedRequest(apiKey: string, userText: string, voiceName: string, accent: string): (r: Option<Request>)
  {
    if apiKey == "" then None else Some(BuildRequest(userText, voiceName, accent))
  }

  /** `parts.find(part => part.inlineData)`: the first part that carries inline data. */
  function FirstAudioPart(parts: seq<Part>): (r: Option<nat>)
    ensures r.Some? ==> r.value < |parts| && parts[r.value].inlineData.Some?
    ensures r.Some? ==> forall j :: 0 <= j < r.value ==> parts[j].inlineData.None?
    ensures r.None? ==> forall j :: 0 <= j < |parts| ==> parts[j].inlineData.None?
  {
    if parts == [] then None
    else if parts[0].inlineData.Some? then Some(0)
    else match FirstAudioPart(parts[1..])
      case None => None
      case Some(k) => Some(k + 1)
  }

  /** Inline data whose `data` is absent or empty: falsy in `!audioPart.inlineData.data`. */
  predicate MissingData(d: InlineData) {
    d.data.None? || d.data.value == ""
  }

  /** The parts of the first candidate, if the reply has a first candidate with content and parts. */
  function FirstCandidateParts(response: Response): Option<seq<Part>>
  {
    match response.candidates
    case Some(cs) =>
      if |cs| > 0 && cs[0].content.Some? then cs[0].content.value.parts else None
    case None => None
  }

  /**
   * The base64 payload `generateSpeech` decodes: the data of the first part
   * with inline data, provided it is present and non-empty.
   */
  function AudioPayload(response: Response): (r: Option<string>)
    ensures r.Some? ==> r.value != ""
  {
    match FirstCandidateParts(response)
    case None => None
    case Some(parts) =>
      match FirstAudioPart(parts)
      case None => None
      case Some(k) =>
        var d := parts[k].inlineData.value;
        if MissingData(d) then None else d.data
  }

  /** What `generateSpeech` makes of the reply: the WAV bytes or the failure. */
  function HandleReply(response: Response): (r: Result<seq<byte>, SpeechError>)
    ensures r.Err? ==> r.error == NoAudio || r.error == InvalidBase64
  {
    match AudioPayload(response)
    case None => Err(NoAudio)
    case Some(payload) =>
      match Base64.Atob(payload)
      case None => Err(InvalidBase64)
      case Some(binaryString) =>
        Ok(Wav.Container(CodeUnitBytes(binaryString), Wav.DefaultSampleRate, Wav.DefaultChannels, Wav.DefaultBitDepth))
  }

  /** The outcome of `generateSpeech(userText, voiceName, accent)` with key `apiKey` against the remote model `remote`. */
  function SpeechOutcome(apiKey: string, userText: string, voiceName: string, accent: string,
                         remote: Request -> RemoteOutcome): (r: Result<seq<byte>, SpeechError>)
    ensures r.Ok? ==> apiKey != "" && |r.value| >= Wav.HeaderSize
  {
    match IssuedRequest(apiKey, userText, voiceName, accent)
    case None => Err(MissingApiKey)
    case Some(req) =>
      match remote(req)
      case Rejected(message) => Err(RemoteFailure(message))
      case Replied(response) => HandleReply(response)
  }

  /** The loop that turns `atob`'s binary string into a Uint8Array, `bytes[i] = charCodeAt(i)`. */
  method BinaryStringToBytes(binaryString: string) returns (bytes: array<byte>)
    ensures fresh(bytes)
    ensures bytes[..] == CodeUnitBytes(binaryString)
  {
    var len := |binaryString|;
    bytes := new byte[len](_ => 0);
    for i := 0 to len
      invariant bytes[..i] == CodeUnitBytes(binaryString)[..i]
    {
      bytes[i] := ToByte(binaryString[i] as int);
    }
  }

  /** `generateSpeech`, step by step, returning the bytes it wraps into the Blob. */
  method GenerateSpeech(apiKey: string, userText: string, voiceName: string, accent: string,
                        remote: Request -> RemoteOutcome)
    returns (r: Result<seq<byte>, SpeechError>)
    ensures r == SpeechOutcome(apiKey, userText, voiceName, accent, remote)
  {
    if apiKey == "" {
      return Err(MissingApiKey);
    }
    var styleInstruction := Prompt.StyleInstruction(accent, voiceName);
    var fullPrompt := Prompt.FullPrompt(styleInstruction, userText);
    var outcome := remote(Request(ModelName, fullPrompt, [Audio], voiceName));
    if outcome.Rejected? {
      return Err(RemoteFailure(outcome.message));
    }
    r := ProcessReply(outcome.response);
  }

  /** The second half of `generateSpeech`: from the reply to the WAV bytes, step by step. */
  method ProcessReply(response: Response) returns (r: Result<seq<byte>, SpeechError>)
    ensures r == HandleReply(response)
  {
    var base64Audio := AudioPayload(response);
    if base64Audio.None? {
      return Err(NoAudio);
    }
    var binaryString := Base64.Atob(base64Audio.value);
    if binaryString.None? {
      return Err(InvalidBase64);
    }
    var bytes := BinaryStringToBytes(binaryString.value);
    var wavBytes := Wav.PcmToWav(bytes, Wav.DefaultSampleRate, Wav.DefaultChannels, Wav.DefaultBitDepth);
    return Ok(wavBytes[..]);
  }

  /** An empty key fails with "API Key is missing." whatever the remote model would do: no request is made. */
  lemma MissingKeyBeforeRequest(userText: string, voiceName: string, accent: string,
                                remote1: Request -> RemoteOutcome, remote2: Request -> RemoteOutcome)
    ensures IssuedRequest("", userText, voiceName, accent) == None
    ensures SpeechOutcome("", userText, voiceName, accent, remote1) == Err(MissingApiKey)
    ensures SpeechOutcome("", userText, voiceName, accent, remote1) == SpeechOutcome("", userText, voiceName, accent, remote2)
    ensures ErrorMessage(MissingApiKey) == "API Key is missing."
  {
  }

  /** With a key, exactly one request is issued and the outcome depends on the remote only through its answer to it. */
  lemma OneRequestWithKey(apiKey: string, userText: string, voiceName: string, accent: string,
                          remote1: Request -> RemoteOutcome, remote2: Request -> RemoteOutcome)
    requires apiKey != ""
    ensures IssuedRequest(apiKey, userText, voiceName, accent) == Some(BuildRequest(userText, voiceName, accent))
    ensures remote1(BuildRequest(userText, voiceName, accent)) == remote2(BuildRequest(userText, voiceName, accent))
      ==> SpeechOutcome(apiKey, userText, voiceName, accent, remote1) == SpeechOutcome(apiKey, userText, voiceName, accent, remote2)
  {
  }

  /**
   * The payload is missing exactly when there is no first candidate with
   * parts, no part carries inline data, or the first part that does has
   * absent or empty data; the data of any later part is never consulted.
   */
  lemma AudioPayloadCases(response: Response)
    ensures AudioPayload(response).None? <==>
      || FirstCandidateParts(response).None?
      || (var parts := FirstCandidateParts(response).value;
          || (forall j :: 0 <= j < |parts| ==> parts[j].inlineData.None?)
          || (exists k :: 0 <= k < |parts| && parts[k].inlineData.Some?
                && (forall j :: 0 <= j < k ==> parts[j].inlineData.None?)
                && MissingData(parts[k].inlineData.value)))
  {
    match FirstCandidateParts(response)
    case None =>
    case Some(parts) =>
      match FirstAudioPart(parts)
      case None =>
      case Some(k) =>
        if MissingData(parts[k].inlineData.value) {
          assert parts[k].inlineData.Some? && (forall j :: 0 <= j < k ==> parts[j].inlineData.None?);
        }
  }

  /** A later part's data does not rescue a first audio part without data. */
  lemma LaterAudioIgnored(response: Response, k: nat)
    requires FirstCandidateParts(response).Some?
    requires var parts := FirstCandidateParts(response).value;
      && k < |parts| && parts[k].inlineData.Some?
      && (forall j :: 0 <= j < k ==> parts[j].inlineData.None?)
      && MissingData(parts[k].inlineData.value)
    ensures HandleReply(response) == Err(NoAudio)
    ensures ErrorMessage(NoAudio) == "Gemini returned no audio."
  {
    AudioPayloadCases(response);
  }

  /** A rejected call surfaces its own message, or "Failed to generate audio." when it has none. */
  lemma RejectionMessage(apiKey: string, userText: string, voiceName: string, accent: string,
                         remote: Request -> RemoteOutcome)
    requires apiKey != ""
    requires remote(BuildRequest(userText, voiceName, accent)).Rejected?
    ensures var m := remote(BuildRequest(userText, voiceName, accent)).message;
      && SpeechOutcome(apiKey, userText, voiceName, accent, remote) == Err(RemoteFailure(m))
      && ErrorMessage(RemoteFailure(m)) == (if m == "" then "Failed to generate audio." else m)
  {
  }

  /**
   * Success: the WAV bytes are the 24 kHz mono 16-bit container of the
   * decoded payload, one byte per code unit of `atob`'s binary string, each
   * equal to that code unit.
   */
  lemma SuccessShape(response: Response)
    requires HandleReply(response).Ok?
    ensures AudioPayload(response).Some? && Base64.Atob(AudioPayload(response).value).Some?
    ensures var bin := Base64.Atob(AudioPayload(response).value).value;
      var pcm := CodeUnitBytes(bin);
      && |pcm| == |bin|
      && (forall i :: 0 <= i < |bin| ==> pcm[i] == bin[i] as int)
      && HandleReply(response).value == Wav.Container(pcm, Wav.DefaultSampleRate, Wav.DefaultChannels, Wav.DefaultBitDepth)
  {
    match AudioPayload(response)
    case Some(payload) =>
      match Base64.Atob(payload)
      case Some(bin) =>
        assert HandleReply(response) == Ok(Wav.Container(CodeUnitBytes(bin), Wav.DefaultSampleRate, Wav.DefaultChannels, Wav.DefaultBitDepth));
        BinaryStringOfCodeUnitBytes(bin);
  }

  /** A reply whose first audio part carries the base64 encoding of non-empty PCM bytes yields the WAV container of exactly those bytes. */
  lemma EncodedReplyRoundTrip(response: Response, pcm: seq<byte>)
    requires pcm != []
    requires AudioPayload(response) == Some(Base64.Encode(pcm))
    ensures HandleReply(response) == Ok(Wav.Container(pcm, Wav.DefaultSampleRate, Wav.DefaultChannels, Wav.DefaultBitDepth))
  {
    Base64.AtobEncode(pcm);
    CodeUnitBytesOfBinaryString(pcm);
  }

  /**
   * A reply carrying the four PCM bytes 00 01 02 03 (base64 "AAECAw==")
   * becomes a 48-byte WAV file that starts with "RIFF" and ends with those bytes.
   */
  lemma FourByteReply()
    ensures var part := Part(None, Some(InlineData(Some("audio/L16;codec=pcm;rate=24000"), Some("AAECAw=="))));
      var response := Response(Some([Candidate(Some(Content(Some([part]))))]));
      && HandleReply(response).Ok?
      && |HandleReply(response).value| == 48
      && HandleReply(response).value[0..4] == [0x52, 0x49, 0x46, 0x46]
      && HandleReply(response).value[44..] == [0x00, 0x01, 0x02, 0x03]
  {
    var part := Part(None, Some(InlineData(Some("audio/L16;codec=pcm;rate=24000"), Some("AAECAw=="))));
    var response := Response(Some([Candidate(Some(Content(Some([part]))))]));
    var pcm: seq<byte> := [0x00, 0x01, 0x02, 0x03];
    assert AudioPayload(response) == Some("AAECAw==");
    Base64.EncodeFourBytes();
    EncodedReplyRoundTrip(response, pcm);
    Wav.ContainerTags(pcm, Wav.DefaultSampleRate, Wav.DefaultChannels, Wav.DefaultBitDepth);
    Wav.TagBytes();
  }
}
