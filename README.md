# Speech-request pipeline of the Gemini text-to-speech front end, in Dafny

This project models the core of `services/geminiService.ts`: the function
`generateSpeech` and the WAV encoder it uses. It covers the whole path of one
synthesis call:

- the missing-key check;
- the prompt composer: an accent sentence, a tonal suffix for two voices, and
  the "System Instruction / Text to Speak" layout;
- the single request sent to the remote model;
- the choice of the first reply part that carries inline data;
- the `atob` base64 decoding;
- the loop that turns the decoded binary string into bytes;
- `pcmToWav`, which puts the canonical 44-byte RIFF/WAVE header (with
  little-endian fields) in front of the PCM;
- the messages of the errors it throws.

Modules:

- `Wrappers`: the `Option` and `Result` datatypes.
- `Bytes`: ECMAScript's ToUint8 (`ToByte`, `%` by 2^8), and the reductions modulo 2^16 and 2^32 inside `LE16` and `LE32`; the
  little-endian encoders `LE16` and `LE32` and their readers; and the
  correspondence between binary strings and bytes.
- `Wav`: the pure specification of the container (`Header`, `Container`) and the
  lemmas that give each field at its byte offset. It also has a reader, `Parse`, which is
  proved to invert the encoder in both directions. Last come the imperative encoder
  `PcmToWav` and the DataView setters and `Uint8Array.set` it calls, written over
  `array<byte>` and proved equal to the specification.
- `Base64`: `Atob`, the WHATWG "forgiving-base64 decode" over the alphabet in
  section 4 of RFC 4648, together with the padded encoder `Encode` that the
  decoder is proved to invert (`Atob(Encode(b))` is the binary string of b).
- `Prompt`: `AccentType`, the style sentences, the voice suffixes, the full
  prompt, and a splitter that recovers the style instruction and the user's
  text from a prompt.
- `Speech`: the reply datatypes (candidates, then content, then parts, then optional inline
  data, then optional data); the audio-part selection; the byte-decoding loop
  `BinaryStringToBytes`; the whole call as the function `SpeechOutcome` and as the
  method `GenerateSpeech` proved equal to it; and the end-to-end lemmas.

Facts about the code that the model keeps:

- The code has no table that maps voices to model voices; the chosen voice name is sent unchanged.
- The code has no persona that replaces the accent sentence; both voice overrides ("Puck" and "Charon") append to it.
- The key is a module-level constant, not a per-call credential; the model takes its value as the parameter `apiKey`.
- The code never revokes the object URL it returns.

## Model

| member | source | states |
|---|---|---|
| Bytes.ReadLE16OfLE16 | services/geminiService.ts:35-40 | reading back the two bytes `setUint16(o, v, true)` writes gives v modulo 2^16 |
| Bytes.ReadLE32OfLE32 | services/geminiService.ts:29 | reading back the four bytes `setUint32(o, v, true)` writes gives v modulo 2^32 |
| Bytes.LE16OfReadLE16 | services/geminiService.ts:35-40 | every two bytes are the 16-bit little-endian encoding of the value they read as |
| Bytes.LE32OfReadLE32 | services/geminiService.ts:34-44 | every four bytes are the 32-bit little-endian encoding of the value they read as |
| Bytes.ToByte | services/geminiService.ts:132-133 | ToUint8: the stored byte is congruent to the value modulo 2^8 (and lies in 0..255 by its type) |
| Bytes.LE16 | services/geminiService.ts:35-40 | the bytes `setUint16(o, v, true)` writes: exactly two; ReadLE16OfLE16 and LE16OfReadLE16 give their meaning (low byte first, value v mod 2^16) |
| Bytes.LE32 | services/geminiService.ts:29-44 | the bytes `setUint32(o, v, true)` writes: exactly four; ReadLE32OfLE32 and LE32OfReadLE32 give their meaning (low byte first, value v mod 2^32) |
| Bytes.CodeUnitBytes | services/geminiService.ts:132-133 | one byte per code unit (same length); CodeUnitBytesOfBinaryString and BinaryStringOfCodeUnitBytes give its meaning on binary strings |
| Bytes.CodeUnitBytesOfBinaryString | services/geminiService.ts:131-134 | storing the code units of the binary string of bytes b gives back b, and that string has only code units below 256 |
| Bytes.BinaryStringOfCodeUnitBytes | services/geminiService.ts:131-134 | for a binary string, the stored bytes are its code units unchanged (ToUint8 alters nothing) |
| Wav.ByteRate | services/geminiService.ts:38 | the byte rate times 8 is sampleRate * numChannels * bitDepth, and it equals sampleRate times the block align |
| Wav.BlockAlign | services/geminiService.ts:39 | the block align times 8 is numChannels * bitDepth, the bits of one sample frame |
| Wav.RiffDescriptor | services/geminiService.ts:27-30 | the RIFF descriptor is 12 bytes; ContainerChunks and ContainerLengthFields place it and give its size field |
| Wav.FmtChunk | services/geminiService.ts:32-40 | the "fmt " chunk is 24 bytes; FmtChunkLayout and FmtChunkFields give every field |
| Wav.DataChunkHeader | services/geminiService.ts:42-44 | the data chunk header is 8 bytes; ContainerTags and ContainerLengthFields give its tag and length field |
| Wav.Header | services/geminiService.ts:22-44 | the header is 44 bytes; HeaderLayout gives all thirteen fields at their offsets |
| Wav.Container | services/geminiService.ts:47-49 | the output is 44 + \|pcm\| bytes long and its bytes from 44 on are the PCM input in order |
| Wav.TagBytes | services/geminiService.ts:11-15 | `writeString` writes "RIFF", "WAVE", "fmt " and "data" as their ASCII bytes |
| Wav.ContainerTags | services/geminiService.ts:28-43 | "RIFF" sits at offset 0, "WAVE" at 8, "fmt " at 12 and "data" at 36 |
| Wav.ContainerChunks | services/geminiService.ts:27-44 | the RIFF descriptor occupies bytes 0-11, the "fmt " chunk bytes 12-35 and the data chunk header bytes 36-43 |
| Wav.HeaderLayout | services/geminiService.ts:27-44 | each of the thirteen header fields occupies its fixed offset and width in the header |
| Wav.ContainerLengthFields | services/geminiService.ts:24-44 | the u32 at offset 4 is (\|pcm\| + 36) mod 2^32 and the u32 at offset 40 is \|pcm\| mod 2^32 |
| Wav.FmtChunkLayout | services/geminiService.ts:33-40 | the "fmt " chunk holds, in order, the tag, LE32(16), LE16(1), and the LE16/LE32 encodings of channels, rate, byte rate, block align and bit depth at offsets 4, 8, 10, 12, 16, 20 and 22 |
| Wav.FmtChunkFields | services/geminiService.ts:33-40 | the "fmt " chunk holds 16, 1, the channel count, the sample rate, the byte rate, the block align and the bit depth, each reduced to its width |
| Wav.ContainerFormatFields | services/geminiService.ts:34-40 | at offsets 16, 20, 22, 24, 28, 32 and 34 the container holds 16, 1, numChannels, sampleRate, sampleRate*numChannels*bitDepth/8, numChannels*bitDepth/8 and bitDepth, each reduced to its width |
| Wav.DeclaredLengths | services/geminiService.ts:22-49 | when \|pcm\| + 36 < 2^32, the declared RIFF size + 8 and the declared data length + 44 both equal the total length |
| Wav.DefaultFormatFields | services/geminiService.ts:21-40 | with the defaults (24000, 1, 16) the header declares 1 channel, 24000 Hz, byte rate 48000, block align 2 and 16 bits |
| Wav.Parse | services/geminiService.ts:21-52 | a reader of the canonical layout returns the bytes after the 44-byte header as the payload |
| Wav.ParseContainer | services/geminiService.ts:21-52 | reading back the container recovers exactly the format and the PCM bytes whenever the fields fit their widths |
| Wav.ContainerOfParse | services/geminiService.ts:21-52 | every byte sequence the reader accepts is exactly the output of `pcmToWav` for the format and payload it reports |
| Wav.SetUint8 | services/geminiService.ts:13 | `setUint8` replaces one byte with ToUint8 of the value and leaves every other byte unchanged |
| Wav.SetUint16 | services/geminiService.ts:35-40 | `setUint16(o, v, true)` replaces bytes o and o+1 with LE16(v) and leaves the rest unchanged |
| Wav.SetUint32 | services/geminiService.ts:29 | `setUint32(o, v, true)` replaces bytes o to o+3 with LE32(v) and leaves the rest unchanged |
| Wav.WriteString | services/geminiService.ts:11-15 | `writeString` overwrites bytes offset to offset+\|s\|-1 with the code units of s and leaves the rest unchanged |
| Wav.CopyInto | services/geminiService.ts:47-49 | `Uint8Array.set(source, offset)` overwrites the target from offset on with source and leaves the rest unchanged |
| Wav.PcmToWav | services/geminiService.ts:21-52 | the imperative encoder returns a fresh buffer equal to the specified container of its input |
| Base64.StripWhitespace | services/geminiService.ts:129 | `atob`'s first step leaves no ASCII whitespace and never lengthens the input; StripWhitespaceAppend and StripWhitespaceOne prove it keeps every other character, in order |
| Base64.StripWhitespaceAppend | services/geminiService.ts:129 | `atob`'s first step distributes over concatenation, so it works character by character and keeps the order of what it keeps |
| Base64.StripWhitespaceOne | services/geminiService.ts:129 | one character is dropped exactly when it is ASCII whitespace and kept unchanged otherwise |
| Base64.AtobIgnoresWhitespace | services/geminiService.ts:129 | inserting an ASCII whitespace character anywhere in the input does not change what `atob` returns or whether it fails |
| Base64.SextetsOf | services/geminiService.ts:129 | the alphabet values of the characters; it fails exactly when some character is outside the alphabet |
| Base64.AlphabetRoundTrip | services/geminiService.ts:129 | each of the 64 values has a character that maps back to it; that character is neither '=' nor whitespace |
| Base64.AlphabetOfSextet | services/geminiService.ts:129 | every alphabet character is the character of its own value |
| Base64.DecodeSextets | services/geminiService.ts:129 | n sextets (n mod 4 not 1) decode to 3(n div 4) bytes plus 0, 1 or 2 for a final partial group |
| Base64.StripPadding | services/geminiService.ts:129 | `atob`'s padding step keeps a prefix of its input, drops at most two characters, drops only '=' characters, and drops any only when the length is a multiple of four; StripPaddingOfEncode shows it removes exactly an encoding's padding |
| Base64.Atob | services/geminiService.ts:129 | when `atob` succeeds, its result is a binary string (every code unit below 256) |
| Base64.DecodeEncodeSextets | services/geminiService.ts:129 | decoding the sextets of an encoding gives back the bytes |
| Base64.SextetsOfChars | services/geminiService.ts:129 | mapping alphabet characters back to values inverts the encoder's character mapping |
| Base64.StripPaddingOfEncode | services/geminiService.ts:129 | `atob`'s padding step removes exactly the '=' padding of an encoding |
| Base64.AtobEncode | services/geminiService.ts:126-129 | `atob` of the base64 encoding of bytes b is the binary string of b |
| Prompt.ParseAccent | services/geminiService.ts:54 | an accent string is recognised as an `AccentType` only if it is that accent's name |
| Prompt.ParseAccentName | services/geminiService.ts:54 | each of the five accent names is recognised as its own accent |
| Prompt.StyleInstructionShape | services/geminiService.ts:68-95 | the switch leaves exactly the accent's sentence, or "Speak clearly and naturally." for an unknown accent, so the style begins with it; "Puck" and "Charon" append their suffix; any other voice leaves the sentence unchanged |
| Prompt.AccentStylesDistinct | services/geminiService.ts:70-88 | the five accent sentences differ from each other and from the neutral one |
| Prompt.StyleInstructionSingleLine | services/geminiService.ts:68-95 | no style instruction the code can build contains a line break |
| Prompt.AccentName | services/geminiService.ts:54 | the string each `AccentType` member stands for; no ensures of its own: ParseAccent and ParseAccentName prove the names are exactly the strings recognised as accents |
| Prompt.AccentStyle | services/geminiService.ts:70-85 | the sentence of each accent case; no ensures of its own: AccentStylesDistinct proves the five differ from each other and from the default, StyleInstructionShape places it in the style |
| Prompt.BaseStyle | services/geminiService.ts:68-88 | the sentence the `switch` leaves in `styleInstruction`; no ensures of its own: StyleInstructionShape proves it equals the accent's sentence for a known accent and "Speak clearly and naturally." otherwise |
| Prompt.VoiceSuffix | services/geminiService.ts:90-95 | the sentence "Puck" or "Charon" appends; no ensures of its own: StyleInstructionShape proves any other voice appends nothing |
| Prompt.StyleInstruction | services/geminiService.ts:68-95 | `styleInstruction` after the switch and the voice override; no ensures of its own: StyleInstructionShape gives its shape and StyleInstructionSingleLine proves it holds no line break |
| Prompt.Compose | services/geminiService.ts:68-97 | `fullPrompt` for the call's arguments; no ensures of its own: ComposeShape proves its prefix, its suffix and that it splits back into style and text |
| Prompt.FullPrompt | services/geminiService.ts:97 | the prompt's length is the labels' lengths plus those of the style and the user text |
| Prompt.SplitPrompt | services/geminiService.ts:97 | whatever the splitter returns reassembles into the prompt it was given |
| Prompt.SplitFullPrompt | services/geminiService.ts:97 | from a prompt with a single-line style the splitter recovers the style and the user text exactly, even when the text contains the labels |
| Prompt.ComposeShape | services/geminiService.ts:68-97 | the prompt starts with "System Instruction: ", has the style instruction right after it, ends with the user text verbatim, and splits back into both |
| Prompt.ComposeAmericanHello | services/geminiService.ts:77-97 | for text "Hello", voice "Kore" and accent "American", the prompt contains the General American sentence and ends with "Hello" |
| Speech.ErrorMessage | services/geminiService.ts:144-146 | a rethrown error keeps its message if it has one and otherwise says "Failed to generate audio."; no message is empty |
| Speech.BuildRequest | services/geminiService.ts:100-117 | the request names "gemini-2.5-flash-preview-tts", the composed prompt, the audio modality and the chosen voice |
| Speech.DefaultArguments | services/geminiService.ts:62-97 | with the default voice and accent, the request asks for voice "Kore" with exactly the Hinglish sentence as style |
| Speech.FirstAudioPart | services/geminiService.ts:120 | the selected part is the first part that carries inline data; none is selected only if no part carries any |
| Speech.AudioPayload | services/geminiService.ts:119-124 | a payload that is selected is never empty |
| Speech.HandleReply | services/geminiService.ts:119-137 | handling a reply fails only with "no audio" or with an invalid base64 payload |
| Speech.IssuedRequest | services/geminiService.ts:63-117 | the request the call issues, if any; no ensures of its own: MissingKeyBeforeRequest proves none is issued with an empty key, OneRequestWithKey that BuildRequest's request is issued otherwise |
| Speech.FirstCandidateParts | services/geminiService.ts:119-120 | `response.candidates?.[0]?.content?.parts`; no ensures of its own: AudioPayloadCases proves how its absence leads to "no audio" |
| Speech.MissingData | services/geminiService.ts:122 | inline data whose `data` is absent or empty, the falsy case of `!audioPart.inlineData.data`; no ensures of its own: AudioPayloadCases and LaterAudioIgnored use it |
| Speech.SpeechOutcome | services/geminiService.ts:62-148 | the outcome of one call; a success needs a non-empty key and is at least a 44-byte WAV header long; MissingKeyBeforeRequest, OneRequestWithKey, RejectionMessage and SuccessShape prove its cases |
| Speech.BinaryStringToBytes | services/geminiService.ts:130-134 | the loop returns a fresh array holding ToUint8 of each code unit of the binary string, in order |
| Speech.ProcessReply | services/geminiService.ts:119-137 | the step-by-step handling of a reply (audio-part selection, `atob`, the byte loop, `pcmToWav`) returns exactly what `HandleReply` specifies |
| Speech.GenerateSpeech | services/geminiService.ts:62-148 | the step-by-step call returns exactly the outcome `SpeechOutcome` specifies |
| Speech.MissingKeyBeforeRequest | services/geminiService.ts:63-65 | an empty key issues no request and fails with "API Key is missing.", whatever the remote would answer |
| Speech.OneRequestWithKey | services/geminiService.ts:99-117 | with a key, exactly the composed request is issued, and the outcome depends on the remote only through its answer to that request |
| Speech.AudioPayloadCases | services/geminiService.ts:119-124 | no payload exactly when there is no first candidate with parts, no part has inline data, or the first part that has it has absent or empty data |
| Speech.LaterAudioIgnored | services/geminiService.ts:119-124 | if the first part with inline data has no data, the result is "Gemini returned no audio." even when a later part has data |
| Speech.RejectionMessage | services/geminiService.ts:144-146 | a rejected call fails with the remote's message, or "Failed to generate audio." when that message is empty |
| Speech.SuccessShape | services/geminiService.ts:126-137 | on success the output is the 24 kHz mono 16-bit container of the decoded bytes, one per code unit and equal to it |
| Speech.EncodedReplyRoundTrip | services/geminiService.ts:126-137 | a reply whose audio data is the base64 encoding of non-empty PCM yields the container of exactly that PCM |
| Speech.FourByteReply | services/geminiService.ts:119-137 | a reply with the base64 data "AAECAw==" yields 48 bytes that start with "RIFF" and end with 00 01 02 03 |

## Left out

- The network call `ai.models.generateContent` and the `GoogleGenAI` client are not modelled. The remote model is a function parameter from the request to a reply or a rejection. Timeouts, retries and concurrent calls are not modelled.
- `Blob`, `URL.createObjectURL` and `console.error` are not modelled. The model returns the WAV bytes that the Blob would hold, and the object URL is opaque.
- `process.env` is not modelled. The module-level `API_KEY` (services/geminiService.ts:3) becomes the parameter `apiKey`, which holds its value.
- Speech.ErrorMessage: does not give the text of the exception `atob` throws on a malformed payload, because the browser defines that text. It is non-empty, so the catch block passes it on unchanged.
- Default parameter values are constants, not Dafny defaults. `Speech.DefaultVoice` and `Speech.DefaultAccent` stand for the defaults of `generateSpeech`, and `Wav.DefaultSampleRate`, `Wav.DefaultChannels` and `Wav.DefaultBitDepth` for those of `pcmToWav`. The caller in App.tsx always passes all three arguments.
- `pcmToWav` requires `bitDepth % 8 == 0`. The model does not compute a non-integer `bitDepth / 8` in floating point. Non-integer, NaN or infinite numbers for the sample rate or channel count are not modelled either. Integer field values, including negative and oversized ones, are reduced by the same ToUint16/ToUint32 rule as DataView.
- Wav.ByteRate and Wav.BlockAlign: multiply exactly, while JavaScript computes `sampleRate * numChannels * (bitDepth / 8)` in IEEE doubles and rounds a product above 2^53 before ToUint32 reduces it. For such arguments the model's header field can differ from the browser's. An example is sampleRate = 2^52 + 1, numChannels = 3 and bitDepth = 8: the model stores 3 at offset 28, and the browser stores 4. `generateSpeech` only passes 24000, 1 and 16, where every product is exact.
- JavaScript strings are sequences of UTF-16 code units, but Dafny strings are sequences of Unicode scalar values. The two agree on every string whose code units are set by this code. That covers the ASCII tags and `atob`'s binary string, whose characters are all below 256. The user's text is only concatenated.
- The DataView setters need their bytes to lie inside the 44-byte buffer. The model makes that a precondition instead of modelling the RangeError. Every call in `pcmToWav` writes at a fixed offset inside the buffer.
- The `mimeType` of the inline data is carried in the reply datatype but never inspected, as in the source.
- The UI files are not part of this model: App.tsx, components/CyberDropdown.tsx, components/AudioPlayer.tsx, components/ApiKeyModal.tsx, vite.config.ts and vite-env.d.ts. They contain no pipeline logic. The non-empty text check at App.tsx:15 belongs to the caller.
