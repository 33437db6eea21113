/**
 * The prompt composer of `generateSpeech` (services/geminiService.ts):
 * the accent selects a fixed style sentence (a neutral one for an accent
 * name outside `AccentType`), the voices "Puck" and "Charon" append a tonal
 * sentence, and the request text is "System Instruction: <style>" followed
 * by a blank line and "Text to Speak: <user text>".
 */
module Prompt {
  import opened Wrappers

  /** `AccentType`: the five accents the UI offers. */
  datatype AccentType = Indian | Hinglish | American | British | Cybernetic

  /** The string value of each accent, as the union type spells it. */
  function AccentName(a: AccentType): string
  {
    match a
    case Indian => "Indian"
    case Hinglish => "Hinglish"
    case American => "American"
    case British => "British"
    case Cybernetic => "Cybernetic"
  }

  /** Which accent, if any, an accent string names (the cases of the `switch`). */
  function ParseAccent(s: string): (r: Option<AccentType>)
    ensures r.Some? ==> AccentName(r.value) == s
  {
    if s == "Hinglish" then Some(Hinglish)
    else if s == "Indian" then Some(Indian)
    else if s == "American" then Some(American)
    else if s == "British" then Some(British)
    else if s == "Cybernetic" then Some(Cybernetic)
    else None
  }

  /** Each accent's name is recognised as that accent, so names and accents correspond one to one. */
  lemma ParseAccentName(a: AccentType)
    ensures ParseAccent(AccentName(a)) == Some(a)
  {
    match a
    case Indian =>
      assert AccentName(a) != "Hinglish";
    case Hinglish =>
    case American =>
      assert AccentName(a) != "Hinglish" && AccentName(a) != "Indian";
    case British =>
      assert AccentName(a) != "Hinglish" && AccentName(a) != "Indian" && AccentName(a) != "American";
    case Cybernetic =>
      assert AccentName(a) != "Hinglish" && AccentName(a) != "Indian" && AccentName(a) != "American";
      assert AccentName(a) != "British";
  }

  // The sentences of services/geminiService.ts, each written as a
  // concatenation of pieces of at most 40 characters: the verifier inspects
  // the characters of a long literal only piece by piece. The three longest
  // are split once more into a head and a tail, checked separately.

  const HinglishStyle: string := HinglishStyleHead + HinglishStyleTail
  const HinglishStyleHead: string :=
    "Speak with a casual, trendy Indian"
    + " accent. Mix Hindi and English"
  const HinglishStyleTail: string :=
    " intonations naturally (Hinglish). Use a"
    + " youthful, conversational tone."
  const IndianStyle: string :=
    "Speak with a professional, clear, and"
    + " formal Indian English accent."
    + " Articulate words precisely."
  const AmericanStyle: string :=
    "Speak with a standard General American"
    + " accent. Keep the tone neutral and"
    + " broadcast-quality."
  const BritishStyle: string := BritishStyleHead + BritishStyleTail
  const BritishStyleHead: string :=
    "Speak with a Received Pronunciation (RP)"
  const BritishStyleTail: string :=
    " British English accent. Keep the tone"
    + " sophisticated and polished."
  const CyberneticStyle: string := CyberneticStyleHead + CyberneticStyleTail
  const CyberneticStyleHead: string :=
    "Speak with a flat, slightly robotic, and"
    + " futuristic cadence."
  const CyberneticStyleTail: string :=
    " Minimize emotional"
    + " range to sound like an AI assistant."
  /** The `default` branch of the accent switch. */
  const NeutralStyle: string := "Speak clearly and naturally."

  const PuckSuffix: string :=
    " Maintain an energetic, higher-pitched,"
    + " and enthusiastic tone."
  const CharonSuffix: string :=
    " Maintain a deep, gravelly, and serious"
    + " tone."

  const SystemLabel: string := "System Instruction: "
  const TextLabel: string := "\n\nText to Speak: "

  /** The fixed style sentence of each accent. */
  function AccentStyle(a: AccentType): string
  {
    match a
    case Hinglish => HinglishStyle
    case Indian => IndianStyle
    case American => AmericanStyle
    case British => BritishStyle
    case Cybernetic => CyberneticStyle
  }

  /** The style sentence the `switch` picks for an accent string. */
  function BaseStyle(accent: string): string
  {
    match ParseAccent(accent)
    case Some(a) => AccentStyle(a)
    case None => NeutralStyle
  }

  /** The tonal sentence a voice appends: one for "Puck", one for "Charon", none for any other voice. */
  function VoiceSuffix(voiceName: string): string
  {
    if voiceName == "Puck" then PuckSuffix
    else if voiceName == "Charon" then CharonSuffix
    else ""
  }

  /** `styleInstruction` once the switch and the voice override have run. */
  function StyleInstruction(accent: string, voiceName: string): string
  {
    BaseStyle(accent) + VoiceSuffix(voiceName)
  }

  /** `fullPrompt`: the style instruction and the user's text, separated by a blank line. */
  function FullPrompt(styleInstruction: string, userText: string): (p: string)
    ensures |p| == |SystemLabel| + |styleInstruction| + |TextLabel| + |userText|
  {
    SystemLabel + styleInstruction + TextLabel + userText
  }

  /** The prompt `generateSpeech` sends for these arguments. */
  function Compose(userText: string, voiceName: string, accent: string): string
  {
    FullPrompt(StyleInstruction(accent, voiceName), userText)
  }

  /**
   * The switch leaves exactly the accent's sentence (the neutral one for an
   * unknown accent), so the style instruction starts with it; "Puck" and
   * "Charon" append their own sentence and every other voice leaves the
   * accent sentence unchanged.
   */
  lemma StyleInstructionShape(accent: string, voiceName: string)
    ensures ParseAccent(accent).Some? ==> BaseStyle(accent) == AccentStyle(ParseAccent(accent).value)
    ensures ParseAccent(accent).None? ==> BaseStyle(accent) == NeutralStyle
    ensures var style := StyleInstruction(accent, voiceName);
      && (ParseAccent(accent).Some? ==> style[..|AccentStyle(ParseAccent(accent).value)|] == AccentStyle(ParseAccent(accent).value))
      && (ParseAccent(accent).None? ==> style[..|NeutralStyle|] == NeutralStyle)
      && (voiceName == "Puck" ==> style == BaseStyle(accent) + PuckSuffix)
      && (voiceName == "Charon" ==> style == BaseStyle(accent) + CharonSuffix)
      && (voiceName != "Puck" && voiceName != "Charon" ==> style == BaseStyle(accent))
  {
  }

  /** The five accent sentences are pairwise different, so the instruction names the accent chosen. */
  lemma AccentStylesDistinct(a: AccentType, b: AccentType)
    requires a != b
    ensures AccentStyle(a) != AccentStyle(b)
    ensures AccentStyle(a) != NeutralStyle
  {
    // The six sentences have six different lengths.
    assert |HinglishStyle| == 135 && |IndianStyle| == 95 && |AmericanStyle| == 91;
    assert |BritishStyle| == 106 && |CyberneticStyle| == 116 && |NeutralStyle| == 28;
  }

  /** No style sentence or voice suffix contains a line break. */
  predicate NoLineBreak(s: string) {
    forall i :: 0 <= i < |s| ==> s[i] != '\n'
  }

  /** A concatenation of single lines is a single line. */
  lemma NoLineBreakAppend(a: string, b: string)
    requires NoLineBreak(a) && NoLineBreak(b)
    ensures NoLineBreak(a + b)
  {
    forall i | 0 <= i < |a + b|
      ensures (a + b)[i] != '\n'
    {
      if i >= |a| {
        assert (a + b)[i] == b[i - |a|];
      }
    }
  }

  // One small lemma per sentence keeps each check of a literal's characters cheap.
  lemma HinglishStyleHeadSingleLine() ensures NoLineBreak(HinglishStyleHead) {}
  lemma HinglishStyleTailSingleLine() ensures NoLineBreak(HinglishStyleTail) {}
  lemma IndianStyleSingleLine() ensures NoLineBreak(IndianStyle) {}
  lemma AmericanStyleSingleLine() ensures NoLineBreak(AmericanStyle) {}
  lemma BritishStyleHeadSingleLine() ensures NoLineBreak(BritishStyleHead) {}
  lemma BritishStyleTailSingleLine() ensures NoLineBreak(BritishStyleTail) {}
  lemma CyberneticStyleHeadSingleLine() ensures NoLineBreak(CyberneticStyleHead) {}
  lemma CyberneticStyleTailSingleLine() ensures NoLineBreak(CyberneticStyleTail) {}
  lemma NeutralStyleSingleLine() ensures NoLineBreak(NeutralStyle) {}
  lemma PuckSuffixSingleLine() ensures NoLineBreak(PuckSuffix) {}
  lemma CharonSuffixSingleLine() ensures NoLineBreak(CharonSuffix) {}

  /** Each accent sentence is a single line. */
  lemma AccentStyleSingleLine(a: AccentType)
    ensures NoLineBreak(AccentStyle(a))
  {
    match a
    case Hinglish =>
      HinglishStyleHeadSingleLine();
      HinglishStyleTailSingleLine();
      NoLineBreakAppend(HinglishStyleHead, HinglishStyleTail);
    case Indian => IndianStyleSingleLine();
    case American => AmericanStyleSingleLine();
    case British =>
      BritishStyleHeadSingleLine();
      BritishStyleTailSingleLine();
      NoLineBreakAppend(BritishStyleHead, BritishStyleTail);
    case Cybernetic =>
      CyberneticStyleHeadSingleLine();
      CyberneticStyleTailSingleLine();
      NoLineBreakAppend(CyberneticStyleHead, CyberneticStyleTail);
  }

  /** Every sentence the accent switch can pick, the neutral one included, is a single line. */
  lemma BaseStyleSingleLine(accent: string)
    ensures NoLineBreak(BaseStyle(accent))
  {
    if ParseAccent(accent).Some? {
      AccentStyleSingleLine(ParseAccent(accent).value);
    } else {
      NeutralStyleSingleLine();
    }
  }

  /** Every voice suffix is a single line. */
  lemma VoiceSuffixSingleLine(voiceName: string)
    ensures NoLineBreak(VoiceSuffix(voiceName))
  {
    PuckSuffixSingleLine();
    CharonSuffixSingleLine();
  }

  /** Every style instruction `generateSpeech` can build is a single line. */
  lemma StyleInstructionSingleLine(accent: string, voiceName: string)
    ensures NoLineBreak(StyleInstruction(accent, voiceName))
  {
    BaseStyleSingleLine(accent);
    VoiceSuffixSingleLine(voiceName);
    NoLineBreakAppend(BaseStyle(accent), VoiceSuffix(voiceName));
  }

  /** Index of the first line break in s, or |s| if there is none. */
  function FirstLineBreak(s: string): (k: nat)
    ensures k <= |s|
    ensures NoLineBreak(s[..k])
    ensures k < |s| ==> s[k] == '\n'
  {
    if s == [] then 0
    else if s[0] == '\n' then 0
    else
      var k := 1 + FirstLineBreak(s[1..]);
      assert forall i :: 1 <= i < k ==> s[..k][i] == s[1..][..k - 1][i - 1];
      k
  }

  /**
   * The reading the remote model is expected to make of a prompt: the style
   * instruction is the first line after "System Instruction: ", and the text
   * to speak is everything after the "Text to Speak: " label that follows it.
   */
  function SplitPrompt(p: string): (r: Option<(string, string)>)
    ensures r.Some? ==> FullPrompt(r.value.0, r.value.1) == p
  {
    if |p| < |SystemLabel| || p[..|SystemLabel|] != SystemLabel then None
    else
      var rest := p[|SystemLabel|..];
      var k := FirstLineBreak(rest);
      if |rest| - k < |TextLabel| || rest[k..k + |TextLabel|] != TextLabel then None
      else
        var style, text := rest[..k], rest[k + |TextLabel|..];
        Split3(rest, k, k + |TextLabel|);
        Split3(p, |SystemLabel|, |SystemLabel|);
        Some((style, text))
  }

  /** A string is its three slices at i and j, joined. */
  lemma Split3(s: string, i: nat, j: nat)
    requires i <= j <= |s|
    ensures s == s[..i] + s[i..j] + s[j..]
  {
  }

  /**
   * A single-line style instruction and any user text, even text that itself
   * contains the labels, are recovered exactly from the prompt.
   */
  lemma SplitFullPrompt(style: string, userText: string)
    requires NoLineBreak(style)
    ensures SplitPrompt(FullPrompt(style, userText)) == Some((style, userText))
  {
    var p := FullPrompt(style, userText);
    assert p[..|SystemLabel|] == SystemLabel;
    var rest := p[|SystemLabel|..];
    assert rest == style + TextLabel + userText;
    assert rest[..|style|] == style;
    assert rest[|style|] == TextLabel[0] == '\n';
    FirstLineBreakAt(rest, |style|);
    assert rest[|style|..|style| + |TextLabel|] == TextLabel;
    assert rest[|style| + |TextLabel|..] == userText;
  }

  /** The first line break of a string whose first k characters hold none and whose k-th is one is at k. */
  lemma {:induction false} FirstLineBreakAt(s: string, k: nat)
    requires k < |s| && NoLineBreak(s[..k]) && s[k] == '\n'
    ensures FirstLineBreak(s) == k
  {
    if k > 0 {
      assert s[0] == s[..k][0];
      assert s[1..][..k - 1] == s[..k][1..];
      FirstLineBreakAt(s[1..], k - 1);
    }
  }

  /**
   * The composed prompt starts with "System Instruction: ", carries the style
   * instruction right after it, and ends with the user's text verbatim; the
   * two parts can be told apart again.
   */
  lemma ComposeShape(userText: string, voiceName: string, accent: string)
    ensures var p, style := Compose(userText, voiceName, accent), StyleInstruction(accent, voiceName);
      && p[..|SystemLabel|] == SystemLabel
      && p[|SystemLabel|..|SystemLabel| + |style|] == style
      && p[|p| - |userText|..] == userText
      && SplitPrompt(p) == Some((style, userText))
  {
    StyleInstructionSingleLine(accent, voiceName);
    SplitFullPrompt(StyleInstruction(accent, voiceName), userText);
  }

  /** The scenario of an American accent, voice "Kore" and the text "Hello". */
  lemma ComposeAmericanHello()
    ensures var p := Compose("Hello", "Kore", "American");
      && p[|SystemLabel|..|SystemLabel| + |AmericanStyle|] == AmericanStyle
      && p[|p| - 5..] == "Hello"
  {
    assert ParseAccent("American") == Some(American);
    assert VoiceSuffix("Kore") == "";
    assert StyleInstruction("American", "Kore") == AmericanStyle + "";
    assert AmericanStyle + "" == AmericanStyle;
    ComposeShape("Hello", "Kore", "American");
  }
}
