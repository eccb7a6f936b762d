/** The pest detection card: the severity badge, the spoken treatment, which
    of the pest list and the placeholder is shown, and the image upload. */
module PestDetection {
  import opened Text
  import opened Types

  datatype PestReport = PestReport(name: string, confidence: int, severity: string,
                                   treatment: seq<string>, prevention: seq<string>)

  /** Badge colour for a severity string; unknown strings are gray. */
  function SeverityTone(severity: string): (r: Tone)
    ensures r != Gray <==> ParseSeverity(severity).Some?
    ensures ParseSeverity(severity) == Some(Low) ==> r == Green
    ensures ParseSeverity(severity) == Some(Medium) ==> r == Yellow
    ensures ParseSeverity(severity) == Some(High) ==> r == Red
  {
    match severity
    case "low" => Green
    case "medium" => Yellow
    case "high" => Red
    case _ => Gray
  }

  /** Distinct severities get distinct colours. */
  lemma SeverityToneInjective(a: Severity, b: Severity)
    ensures SeverityTone(SeverityCode(a)) == SeverityTone(SeverityCode(b)) <==> a == b
  {
    CodesRoundTrip();
  }

  /** The badge text: the severity upper-cased. */
  function BadgeText(severity: string): (r: string)
    ensures |r| == |severity|
    ensures forall i :: 0 <= i < |r| ==> !IsAsciiLower(r[i])
    ensures ToLower(r) == ToLower(severity)
  {
    var r := ToUpper(severity);
    assert forall i :: 0 <= i < |r| ==> LowerChar(r[i]) == LowerChar(severity[i]);
    r
  }

  lemma BadgeTexts()
    ensures BadgeText("low") == "LOW"
    ensures BadgeText("medium") == "MEDIUM"
    ensures BadgeText("high") == "HIGH"
  {
  }

  /** The pest list shows when not analysing and there are pests. */
  predicate ListVisible(analyzing: bool, pests: seq<PestReport>)
  {
    !analyzing && |pests| > 0
  }

  /** The "upload a crop image" placeholder shows when not analysing and
      there are no pests. */
  predicate PlaceholderVisible(analyzing: bool, pests: seq<PestReport>)
  {
    |pests| == 0 && !analyzing
  }

  /** Never both; when not analysing, exactly one of the two. */
  lemma ListXorPlaceholder(analyzing: bool, pests: seq<PestReport>)
    ensures !(ListVisible(analyzing, pests) && PlaceholderVisible(analyzing, pests))
    ensures !analyzing ==> ListVisible(analyzing, pests) || PlaceholderVisible(analyzing, pests)
    ensures analyzing ==> !ListVisible(analyzing, pests) && !PlaceholderVisible(analyzing, pests)
  {
  }

  /* ---------------- upload and analysis ---------------- */

  /** The uploaded image as a data URL, and whether analysis is running. */
  datatype UploadState = UploadState(image: Option<string>, analyzing: bool)

  const InitialUpload: UploadState := UploadState(None, false)

  /** `FileChosen` carries whether the change event held a file; `ImageRead`
      is the reader's load callback; `AnalysisDone` is the end of the
      simulated analysis delay. */
  datatype UploadEvent =
    | FileChosen(hasFile: bool)
    | ImageRead(dataUrl: string)
    | AnalysisDone
    | SpeakPressed(treatment: seq<string>, synthesisAvailable: bool)

  datatype UploadEffect = ReadFile | Speak(text: string)

  datatype UploadStep = UploadStep(state: UploadState, effects: seq<UploadEffect>)

  function UploadStepOf(s: UploadState, e: UploadEvent): (r: UploadStep)
    ensures e.FileChosen? ==> r.state == s
    ensures e.FileChosen? ==> r.effects == if e.hasFile then [ReadFile] else []
    ensures e.ImageRead? ==> r.state.image == Some(e.dataUrl) && r.state.analyzing
    ensures e.AnalysisDone? ==> !r.state.analyzing && r.state.image == s.image
    ensures e.SpeakPressed? ==> r.state == s
    ensures e.SpeakPressed? ==>
              r.effects == if e.synthesisAvailable then [Speak(SpokenText(e.treatment))] else []
    ensures e.ImageRead? || e.AnalysisDone? ==> r.effects == []
    ensures forall k :: 0 <= k < |r.effects| && r.effects[k].Speak? ==>
              e.SpeakPressed? && r.effects[k].text == SpokenText(e.treatment)
  {
    match e
    case FileChosen(hasFile) => UploadStep(s, if hasFile then [ReadFile] else [])
    case ImageRead(dataUrl) => UploadStep(UploadState(Some(dataUrl), true), [])
    case AnalysisDone => UploadStep(s.(analyzing := false), [])
    case SpeakPressed(treatment, synth) =>
      UploadStep(s, if synth then [Speak(SpokenText(treatment))] else [])
  }

  /** Once an image has been read it stays shown: later events may replace
      it, never remove it. */
  lemma ImageKept(s: UploadState, e: UploadEvent)
    requires s.image.Some?
    ensures UploadStepOf(s, e).state.image.Some?
  {
  }
}
