/** The voice assistant card: the keyword interpreter that turns a command
    into one of four fixed Hindi replies, and the listening machine driven
    by the speech-recognition callbacks and the card's buttons. The browser
    speech services are represented only by whether they are available. */
module VoiceAssistant {
  import opened Text

  /** What a command is about; `Help` is the fallback reply. */
  datatype Intent = WeatherIntent | CropIntent | PriceIntent | Help

  const WeatherReply: string := "आज का मौसम साफ है, तापमान 28°C है। कल बारिश की संभावना है।"
  const CropReply: string := "इस मौसम में आपके लिए धान और मक्का की फसल सबसे अच्छी है।"
  const PriceReply: string := "आज गेहूं का भाव ₹2,100 प्रति क्विंटल है। कल से दाम बढ़ने की संभावना है।"
  const HelpReply: string := "मैं आपकी मदद कर सकता हूँ। मौसम, फसल, या बाज़ार भाव के बारे में पूछें।"

  /** The one canned reply of each intent. */
  function ReplyFor(i: Intent): string
  {
    match i
    case WeatherIntent => WeatherReply
    case CropIntent => CropReply
    case PriceIntent => PriceReply
    case Help => HelpReply
  }

  /** A keyword group: the Latin keyword is looked for in the lower-cased
      command, the Devanagari keyword in the command as spoken. */
  datatype KeywordGroup = KeywordGroup(intent: Intent, latin: string, devanagari: string)

  /** The groups in the order the interpreter tries them. */
  const Groups: seq<KeywordGroup> := [
    KeywordGroup(WeatherIntent, "weather", "मौसम"),
    KeywordGroup(CropIntent, "crop", "फसल"),
    KeywordGroup(PriceIntent, "price", "भाव")
  ]

  predicate GroupMatches(g: KeywordGroup, command: string)
  {
    Includes(ToLower(command), g.latin) || Includes(command, g.devanagari)
  }

  /** Reference reading of the interpreter: the intent of the first group in
      the table that matches, and `Help` when none does. */
  function FirstMatch(groups: seq<KeywordGroup>, command: string): (r: Intent)
    ensures r == Help || exists k :: 0 <= k < |groups| && groups[k].intent == r
  {
    if |groups| == 0 then Help
    else if GroupMatches(groups[0], command) then groups[0].intent
    else
      var r := FirstMatch(groups[1..], command);
      assert r != Help ==> exists k :: 0 <= k < |groups[1..]| && groups[1..][k].intent == r;
      r
  }

  /** The interpreter's if / else-if chain: weather, then crop, then price,
      else help. */
  function Classify(command: string): Intent
  {
    var lowered := ToLower(command);
    if Includes(lowered, "weather") || Includes(command, "मौसम") then WeatherIntent
    else if Includes(lowered, "crop") || Includes(command, "फसल") then CropIntent
    else if Includes(lowered, "price") || Includes(command, "भाव") then PriceIntent
    else Help
  }

  /** The chain tries the groups of the table in table order. */
  lemma ClassifyIsFirstMatch(command: string)
    ensures Classify(command) == FirstMatch(Groups, command)
  {
    var g := Groups;
    assert g[1..][1..][1..] == [];
    assert FirstMatch(g[1..][1..], command)
        == if GroupMatches(g[2], command) then PriceIntent else Help;
    assert FirstMatch(g[1..], command)
        == if GroupMatches(g[1], command) then CropIntent else FirstMatch(g[1..][1..], command);
  }

  /** The reply the interpreter produces for a command. */
  function Interpret(command: string): (r: string)
    ensures r in {WeatherReply, CropReply, PriceReply, HelpReply}
    ensures r == ReplyFor(FirstMatch(Groups, command))
  {
    ClassifyIsFirstMatch(command);
    ReplyFor(Classify(command))
  }

  /** The four replies are distinct, so the reply tells which intent won. */
  lemma RepliesDistinct(i: Intent, j: Intent)
    ensures ReplyFor(i) == ReplyFor(j) <==> i == j
  {
    if i != j {
      assert ReplyFor(i)[..5] != ReplyFor(j)[..5] || |ReplyFor(i)| != |ReplyFor(j)|;
    }
  }

  /** A weather keyword wins over everything else in the same command. */
  lemma WeatherFirst(command: string)
    requires Includes(ToLower(command), "weather") || Includes(command, "मौसम")
    ensures Interpret(command) == WeatherReply
  {
  }

  /** A crop keyword wins over a price keyword when no weather keyword is
      present; a price keyword alone gives the price reply. */
  lemma CropBeforePrice(command: string)
    requires !(Includes(ToLower(command), "weather") || Includes(command, "मौसम"))
    ensures (Includes(ToLower(command), "crop") || Includes(command, "फसल"))
            ==> Interpret(command) == CropReply
    ensures !(Includes(ToLower(command), "crop") || Includes(command, "फसल"))
            && (Includes(ToLower(command), "price") || Includes(command, "भाव"))
            ==> Interpret(command) == PriceReply
  {
  }

  /** A command matching no keyword of any group gets the help reply, and
      only such a command does. */
  lemma HelpIffNoKeyword(command: string)
    ensures Interpret(command) == HelpReply
            <==> forall k :: 0 <= k < |Groups| ==> !GroupMatches(Groups[k], command)
  {
    RepliesDistinct(Classify(command), Help);
    if Interpret(command) != HelpReply {
      var c := Classify(command);
      if c == WeatherIntent { assert GroupMatches(Groups[0], command); }
      else if c == CropIntent { assert GroupMatches(Groups[1], command); }
      else { assert GroupMatches(Groups[2], command); }
    }
  }

  /** Commands that differ only in ASCII letter case get the same reply: the
      Latin keywords are compared lower-cased, and the Devanagari keywords
      contain no ASCII letter. */
  lemma CaseInsensitive(a: string, b: string)
    requires SameIgnoringCase(a, b)
    ensures Classify(a) == Classify(b)
    ensures Interpret(a) == Interpret(b)
  {
    CaseFreeKeywords();
    IncludesCaseFreeKeyword(a, b, "मौसम");
    IncludesCaseFreeKeyword(a, b, "फसल");
    IncludesCaseFreeKeyword(a, b, "भाव");
  }

  lemma CaseFreeKeywords()
    ensures forall j :: 0 <= j < |"मौसम"| ==> !IsAsciiUpper("मौसम"[j]) && !IsAsciiLower("मौसम"[j])
    ensures forall j :: 0 <= j < |"फसल"| ==> !IsAsciiUpper("फसल"[j]) && !IsAsciiLower("फसल"[j])
    ensures forall j :: 0 <= j < |"भाव"| ==> !IsAsciiUpper("भाव"[j]) && !IsAsciiLower("भाव"[j])
  {
  }

  /* ---------------- quick-command buttons ---------------- */

  /** The four quick-command buttons under the microphone. */
  datatype QuickButton = WeatherButton | CropButton | PriceButton | SoilButton

  /** The command each button hands to the interpreter. */
  function ButtonCommand(b: QuickButton): string
  {
    match b
    case WeatherButton => "weather"
    case CropButton => "crop"
    case PriceButton => "price"
    case SoilButton => "soil"
  }

  /** The weather button gives the same reply as the spoken word "मौसम". */
  lemma WeatherButtonReply()
    ensures Interpret(ButtonCommand(WeatherButton)) == WeatherReply == Interpret("मौसम")
  {
    assert ToLower("weather") == "weather";
    assert Includes("weather", "weather");
    assert Includes("मौसम", "मौसम");
  }

  /** The crop button gives the same reply as the spoken word "फसल". */
  lemma CropButtonReply()
    ensures Interpret(ButtonCommand(CropButton)) == CropReply == Interpret("फसल")
  {
    assert ToLower("crop") == "crop";
    MissingFirstChar("crop", "weather");
    MissingFirstChar("crop", "मौसम");
    assert Includes("crop", "crop");
    assert ToLower("फसल") == "फसल";
    MissingFirstChar("फसल", "weather");
    MissingFirstChar("फसल", "मौसम");
    assert Includes("फसल", "फसल");
  }

  /** The price button gives the same reply as the spoken word "भाव". */
  lemma PriceButtonReply()
    ensures Interpret(ButtonCommand(PriceButton)) == PriceReply == Interpret("भाव")
  {
    assert ToLower("price") == "price";
    MissingFirstChar("price", "weather");
    MissingFirstChar("price", "मौसम");
    assert !Includes("price", "crop") by {
      assert "price"[..4][0] != "crop"[0];
      assert "rice"[..4][0] != "crop"[0];
      assert !Includes("ice", "crop");
    }
    MissingFirstChar("price", "फसल");
    assert Includes("price", "price");
    assert ToLower("भाव") == "भाव";
    MissingFirstChar("भाव", "weather");
    MissingFirstChar("भाव", "मौसम");
    MissingFirstChar("भाव", "crop");
    MissingFirstChar("भाव", "फसल");
    assert Includes("भाव", "भाव");
  }

  /** The soil button has no branch of its own: it gets the help reply. */
  lemma SoilButtonReply()
    ensures Interpret(ButtonCommand(SoilButton)) == HelpReply
  {
    assert ToLower("soil") == "soil";
    MissingFirstChar("soil", "weather");
    MissingFirstChar("soil", "मौसम");
    MissingFirstChar("soil", "crop");
    MissingFirstChar("soil", "फसल");
    MissingFirstChar("soil", "price");
    MissingFirstChar("soil", "भाव");
  }

  /* ---------------- listening machine ---------------- */

  /** The card's state: whether a recognition session is open, the last
      recognised text, and the last reply. */
  datatype VoiceState = VoiceState(listening: bool, transcript: string, response: string)

  const InitialVoice: VoiceState := VoiceState(false, "", "")

  /** Button presses and recognition callbacks. Service availability is
      carried by the event that needs it. `Ended` interprets `command`,
      which the model leaves arbitrary: the handler reads the transcript
      captured when the session was set up. */
  datatype VoiceEvent =
    | MicPressed(recognitionAvailable: bool)
    | Started
    | Result(text: string)
    | Ended(command: string, synthesisAvailable: bool)
    | Quick(button: QuickButton, synthesisAvailable: bool)
    | ReplayPressed(synthesisAvailable: bool)

  /** What the card asks of the browser. */
  datatype VoiceEffect = StartRecognition | Alert | Speak(text: string)

  datatype VoiceStep = VoiceStep(state: VoiceState, effects: seq<VoiceEffect>)

  /** Interpreting a command: store the reply and hand it to synthesis. */
  function Process(s: VoiceState, command: string, synthesisAvailable: bool): (r: VoiceStep)
    ensures r.state.response == Interpret(command)
    ensures r.state.listening == s.listening && r.state.transcript == s.transcript
    ensures r.effects == if synthesisAvailable then [Speak(r.state.response)] else []
  {
    var reply := Interpret(command);
    VoiceStep(s.(response := reply), if synthesisAvailable then [Speak(reply)] else [])
  }

  /** One event of the card. */
  function Step(s: VoiceState, e: VoiceEvent): (r: VoiceStep)
    // the microphone button is disabled while listening
    ensures e.MicPressed? && s.listening ==> r.state == s && r.effects == []
    // without a recognition service only an alert is raised
    ensures e.MicPressed? && !e.recognitionAvailable ==> r.state == s && StartRecognition !in r.effects
    ensures e.MicPressed? && !s.listening ==>
              r.state == s && r.effects == if e.recognitionAvailable then [StartRecognition] else [Alert]
    ensures e.Started? ==> r.state == s.(listening := true) && r.effects == []
    ensures e.Result? ==> r.state == s.(transcript := e.text) && r.effects == []
    // the end callback and the quick buttons speak the reply they store
    ensures e.Ended? ==> r.state == s.(listening := false, response := Interpret(e.command))
                         && r.effects == if e.synthesisAvailable then [Speak(Interpret(e.command))] else []
    ensures e.Quick? ==> r.state == s.(response := Interpret(ButtonCommand(e.button)))
                         && r.effects == if e.synthesisAvailable then [Speak(r.state.response)] else []
    // replay repeats the stored reply, once there is one
    ensures e.ReplayPressed? ==> r.state == s
                                 && r.effects == if s.response != "" && e.synthesisAvailable then [Speak(s.response)] else []
    // whatever is spoken is the stored reply
    ensures forall k :: 0 <= k < |r.effects| && r.effects[k].Speak? ==> r.effects[k].text == r.state.response
  {
    match e
    case MicPressed(available) =>
      if s.listening then VoiceStep(s, [])
      else if available then VoiceStep(s, [StartRecognition])
      else VoiceStep(s, [Alert])
    case Started => VoiceStep(s.(listening := true), [])
    case Result(text) => VoiceStep(s.(transcript := text), [])
    case Ended(command, synth) => Process(s.(listening := false), command, synth)
    case Quick(button, synth) => Process(s, ButtonCommand(button), synth)
    case ReplayPressed(synth) =>
      // the replay button is only shown once there is a reply
      if s.response != "" && synth then VoiceStep(s, [Speak(s.response)]) else VoiceStep(s, [])
  }

  /** The stored reply is empty or one of the four canned replies. */
  predicate ResponseValid(s: VoiceState)
  {
    s.response in {"", WeatherReply, CropReply, PriceReply, HelpReply}
  }

  function Run(s: VoiceState, events: seq<VoiceEvent>): VoiceState
    decreases |events|
  {
    if |events| == 0 then s else Run(Step(s, events[0]).state, events[1..])
  }

  /** Every reachable state holds a valid reply. */
  lemma {:induction false} RunKeepsResponseValid(s: VoiceState, events: seq<VoiceEvent>)
    requires ResponseValid(s)
    ensures ResponseValid(Run(s, events))
    decreases |events|
  {
    if |events| > 0 {
      RunKeepsResponseValid(Step(s, events[0]).state, events[1..]);
    }
  }

  /** The card as first rendered holds no reply, and every state reachable
      from it holds a valid one. */
  lemma ReachableVoiceValid(events: seq<VoiceEvent>)
    ensures ResponseValid(InitialVoice)
    ensures ResponseValid(Run(InitialVoice, events))
  {
    RunKeepsResponseValid(InitialVoice, events);
  }

  /** Only the end-of-session callback leaves the listening state, and while
      listening no second recognition session is requested. */
  lemma ListeningExclusive(s: VoiceState, e: VoiceEvent)
    requires s.listening
    ensures StartRecognition !in Step(s, e).effects
    ensures !Step(s, e).state.listening <==> e.Ended?
  {
  }

  /** Without a recognition service the microphone never changes state,
      however often it is pressed. */
  lemma {:induction false} UnsupportedKeepsState(s: VoiceState, n: nat)
    ensures Run(s, seq(n, _ => MicPressed(false))) == s
    decreases n
  {
    if n > 0 {
      var events := seq(n, _ => MicPressed(false));
      assert events[1..] == seq(n - 1, _ => MicPressed(false));
      UnsupportedKeepsState(s, n - 1);
    }
  }
}
