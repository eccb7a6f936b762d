# EcoSower dashboard logic in Dafny

EcoSower is a farmer's advisory dashboard. It has cards for weather, crop
advice, soil health, market prices and pest detection, plus a voice
assistant and a feedback modal. All of its data is mock data. This project
models the small, deterministic logic inside those cards. Each piece is a
pure function, or an event-driven state machine whose events return the new
state and the calls made to the outside world:

- `VoiceAssistant` (voice.dfy): the keyword interpreter. It tries weather,
  then crop, then price; Latin keywords are matched against the lower-cased
  command and Devanagari keywords against the raw command. Each branch gives
  one of four fixed Hindi replies. Around it sits the listening machine,
  driven by the microphone button, the recognition callbacks, the
  quick-command buttons and the replay button.
- `FeedbackModal` (feedback.dfy): the feedback form. It holds a star rating
  (0 to 5), a yes/no/unset "helpful" answer, a comment and a submitted flag.
  It has the submit guard, the disabled condition, the trimmed-or-absent
  comment, the reset after the confirmation delay and the star fill.
- `Dashboard` (dashboard.dfy): the modal controller (`isOpen` exactly when a
  subject is set) and the per-card subjects. It builds the logged record
  from the current subject and the form's submission. A page model wires
  the form and the location picker into the dashboard.
- `LocationSelector` (locations.dfy): the case-insensitive search over the
  27 districts, the "no locations found" note, the current-location entry,
  and select-then-close.
- `WeatherCard` (weather.dfy): the rain-before-cloud icon classifier and the
  forecast strip of at most three days with its day captions.
- `PestDetection` (pests.dfy): the severity colours, the badge text, the
  spoken treatment, whether the pest list or the placeholder is shown, and
  the image upload.
- `MarketPrices` (market.dfy): the trend icon and trend colour, and one row
  per price.
- `SoilHealth` (soil.dfy): the relative-deviation colour bands, the spoken
  recommendations and the upload-panel toggle.
- `Text` (text.dfy) holds the string operations the cards use: ASCII case
  mapping, `includes`, JavaScript `trim`, and `join`. `Types` (types.dfy)
  holds the closed enumerations of the shared type declarations and their
  string literals.

Browser services are inputs, not code. Whether speech recognition or speech
synthesis exists is a boolean carried by the event that needs it. Calls to
`speak`, `start`, `onSubmit`, `onClose` and `onLocationSelect` are effect
values returned by the step functions. Each `setTimeout` is an explicit
"delay elapsed" event, and each clock reading is a string parameter.

Notes on the code:

- The voice interpreter has no soil intent. The "soil" quick button falls
  through to the help reply.
- The listening flag is set by the recognition service's start callback,
  not by the button press.
- The logged feedback record has no `id` field, although the shared
  `Feedback` type declares one.

## Model

| member | source | states |
|---|---|---|
| Text.IncludesIff | VoiceAssistant.tsx:45-49 | the left-to-right scan that models `includes` is true exactly when the keyword occurs at some index of the text |
| Text.IncludesCaseFreeKeyword | VoiceAssistant.tsx:45-49 | a keyword with no ASCII letters is found in a text exactly when it is found in any text that differs only in ASCII letter case |
| Text.ToLowerIdempotent | LocationSelector.tsx:53 | lowering keeps the length, leaves no capital letter, and lowering twice equals lowering once |
| Text.Trim | FeedbackModal.tsx:23 | `trim` gives "" exactly for an all-whitespace text; otherwise it gives a slice of the input that neither starts nor ends with whitespace, and only whitespace lies outside that slice |
| Text.TrimIdempotent | FeedbackModal.tsx:23 | trimming a trimmed text changes nothing |
| Text.JoinAppend | SoilHealth.tsx:23 | joining two non-empty lists equals joining each and putting one separator between them |
| Text.JoinLength | PestDetection.tsx:40 | the joined text's length is the items' total length plus one separator per gap |
| Text.JoinEnds | PestDetection.tsx:40 | the joined text starts with the first item and ends with the last |
| Text.SpokenText | PestDetection.tsx:39-40 | the spoken text of no sentences is ""; otherwise it starts with the first sentence, and its length is the sentences' total plus two per ". " gap |
| Text.SpokenTextAppend | SoilHealth.tsx:23 | the spoken text of two lists appended is their two spoken texts joined by ". " |
| Types.CodesRoundTrip | index.ts:62-83 | every trend, severity, feedback-subject and language literal reads back as the value it was written from, so the literals are distinct |
| VoiceAssistant.ClassifyIsFirstMatch | VoiceAssistant.tsx:45-53 | the if/else chain picks the first keyword group in table order (weather, crop, price) that matches, and help when none does |
| VoiceAssistant.Interpret | VoiceAssistant.tsx:41-55 | the reply is always one of the four fixed replies: the reply of the first keyword group in table order (weather, crop, price) that the command matches, or help when none does |
| VoiceAssistant.RepliesDistinct | VoiceAssistant.tsx:46-52 | two intents get the same reply only if they are the same intent |
| VoiceAssistant.WeatherFirst | VoiceAssistant.tsx:45-46 | a command containing "weather" in any case, or "मौसम", gets the weather reply whatever else it contains |
| VoiceAssistant.CropBeforePrice | VoiceAssistant.tsx:47-50 | without a weather keyword, a crop keyword beats a price keyword; a price keyword alone gives the price reply |
| VoiceAssistant.HelpIffNoKeyword | VoiceAssistant.tsx:51-52 | the help reply is given exactly when no keyword of any group matches |
| VoiceAssistant.CaseInsensitive | VoiceAssistant.tsx:45-49 | commands that differ only in ASCII letter case get the same intent and reply |
| VoiceAssistant.WeatherButtonReply | VoiceAssistant.tsx:121-126 | the weather quick button gets the weather reply, the same as the spoken word "मौसम" |
| VoiceAssistant.CropButtonReply | VoiceAssistant.tsx:127-132 | the crop quick button gets the crop reply, the same as the spoken word "फसल" |
| VoiceAssistant.PriceButtonReply | VoiceAssistant.tsx:133-138 | the price quick button gets the price reply, the same as the spoken word "भाव" |
| VoiceAssistant.SoilButtonReply | VoiceAssistant.tsx:139-144 | the soil quick button has no branch of its own and gets the help reply |
| VoiceAssistant.Process | VoiceAssistant.tsx:55-62 | interpreting stores the reply and passes that same text to synthesis only when synthesis exists |
| VoiceAssistant.Step | VoiceAssistant.tsx:11-144 | the mic does nothing while listening; otherwise it requests a session, or only alerts when recognition is missing; start sets listening; a result stores the recognised text and nothing else; end clears listening, stores the interpreted reply and speaks it when synthesis exists; a quick button stores and speaks its reply the same way; replay speaks the stored reply, once there is one, and changes nothing |
| VoiceAssistant.RunKeepsResponseValid | VoiceAssistant.tsx:43-55 | from a state whose stored reply is empty or one of the four fixed replies, every reachable state's reply is too |
| VoiceAssistant.ReachableVoiceValid | VoiceAssistant.tsx:7-9 | the card as first rendered holds a valid (empty) reply, and so does every state reachable from it |
| VoiceAssistant.ListeningExclusive | VoiceAssistant.tsx:20-33 | while listening, no event requests a second session, and only the end callback leaves the listening state |
| VoiceAssistant.UnsupportedKeepsState | VoiceAssistant.tsx:36-37 | without a recognition service, any number of mic presses leaves the state unchanged |
| FeedbackModal.DisabledIffRefused | FeedbackModal.tsx:125-127 | with a rating of 0 to 5, the submit button is disabled exactly when the submit guard refuses |
| FeedbackModal.SubmittedComment | FeedbackModal.tsx:23 | the comment is absent exactly when it is all whitespace; otherwise it is the trimmed comment: the slice of the comment with no whitespace at either end and only whitespace outside it |
| FeedbackModal.Step | FeedbackModal.tsx:21-125 | a yes/no press sets only the answer, a star press only the rating, typing only the comment, and none of them calls out; a refused submit changes nothing and calls nothing; an accepted one marks the form submitted and emits the current rating, answer and trimmed comment; the delay resets to the initial state and closes; X only closes; only submit ever emits |
| FeedbackModal.StepKeepsRatingValid | FeedbackModal.tsx:94-97 | every event keeps the rating between 0 and 5, and every emitted rating is 1 to 5 and equals the form's rating and answer |
| FeedbackModal.RunKeepsRatingValid | FeedbackModal.tsx:21-33 | every state reachable from a form with a rating between 0 and 5 keeps one |
| FeedbackModal.ReachableFormsValid | FeedbackModal.tsx:14-17 | the form as first rendered has a rating between 0 and 5, and so does every form reachable from it |
| FeedbackModal.ResetRestoresInitial | FeedbackModal.tsx:25-31 | after the delay the form equals its initial state, whatever came before, and an immediate submit is refused |
| FeedbackModal.BlankCommentIsAbsent | FeedbackModal.tsx:23 | rating 4, helpful yes and comment "  " submit with no comment |
| FeedbackModal.FilledCountIsRating | FeedbackModal.tsx:94-102 | the number of stars drawn filled equals the rating |
| Dashboard.OpenFeedback | Dashboard.tsx:102-104 | opening shows the modal with the given subject and keeps "open exactly when a subject is set" |
| Dashboard.CloseFeedback | Dashboard.tsx:106-108 | closing hides the modal, clears the subject and keeps the invariant |
| Dashboard.CardSubjectBijective | Dashboard.tsx:128-146 | each card's feedback button has its own subject, and every subject belongs to exactly one card |
| Dashboard.RecordOf | Dashboard.tsx:93-99 | the logged record is the modal's current subject, the submission's fields unchanged, and the submission time |
| Dashboard.ApplyFormEffects | Dashboard.tsx:149-154 | a close request among the form's calls closes the modal and clears its subject, and without one the modal is unchanged; exactly one record is logged per submission, in order, each carrying that submission's fields and the current subject; the modal invariant is kept |
| Dashboard.PageStepOf | Dashboard.tsx:93-154 | a card's feedback button opens the modal on its subject and keeps the form; form controls do nothing while the modal is closed, and otherwise the form takes its own step; only X and the end of the confirmation delay close the modal, and every other form control leaves it, and so its subject, as it was; an accepted submit in the open modal logs exactly one record of the open subject, the form's rating, answer and trimmed comment and the clock reading, and nothing else logs; no page event changes the weather data |
| Dashboard.PageStepKeepsInvariant | Dashboard.tsx:93-108 | every page event keeps the modal invariant and a valid rating; every logged record names the open subject, a 1-5 rating, the form's answer and the trimmed comment |
| Dashboard.RunKeepsInvariant | Dashboard.tsx:93-115 | from any page with the modal invariant and a valid rating, every reachable page keeps both, and the weather data never changes |
| Dashboard.ReachableFromFirstRender | Dashboard.tsx:14-17 | the first render (closed, no subject, empty form) satisfies the invariant, and so does every page reachable from it, with the weather data unchanged |
| Dashboard.DelayClosesAndResets | Dashboard.tsx:149-154 | when the confirmation delay ends, the modal is closed with no subject and the form is back to its initial state |
| Dashboard.FormSurvivesReopen | FeedbackModal.tsx:54-59 | closing with X only closes the modal; the rating, answer and comment survive, and reopening for any card shows them again |
| Dashboard.PickedLocationLeavesPage | Dashboard.tsx:110-115 | a picked location reaches the page as exactly that location, and handling it changes nothing |
| LocationSelector.Filter | LocationSelector.tsx:52-54 | a location is in the result exactly when it is in the list and its lower-cased name contains the lower-cased term |
| LocationSelector.FilterIsSubsequence | LocationSelector.tsx:52-54 | the result keeps the list's order: it is the list with some entries left out |
| LocationSelector.FilterLocations | LocationSelector.tsx:52-54 | the loop over the fixed list gives exactly the filtered list, with the same membership condition |
| LocationSelector.EmptyTermKeepsAll | LocationSelector.tsx:52-54 | an empty search term keeps every location, in order |
| LocationSelector.EmptyTermListsAll | LocationSelector.tsx:22-50 | with no search term all 27 districts are listed |
| LocationSelector.CaseOfTermIrrelevant | LocationSelector.tsx:53 | search terms that differ only in letter case give the same result |
| LocationSelector.NoMatchesNoteIffEmptyResult | LocationSelector.tsx:111 | the "no locations found" note shows exactly when the search result is empty; its non-empty-term guard never matters, since an empty term lists every district |
| LocationSelector.Offered | LocationSelector.tsx:87-108 | the current location is always the first entry offered, whatever the term, followed by the search result |
| LocationSelector.PickerStepOf | LocationSelector.tsx:56-71 | picking reports exactly the picked location and hides the picker; no other event reports anything; only typing changes the search text; the location button shows the picker, X hides it, and typing leaves it as it was |
| LocationSelector.PickOffered | LocationSelector.tsx:88-108 | picking the k-th offered entry reports that entry; entry 0 is the current location, and later entries are in the district list |
| WeatherCard.IconFor | WeatherCard.tsx:17-21 | the rain icon exactly when "rain" occurs; the cloud icon exactly when "cloud" occurs and "rain" does not; otherwise the sun |
| WeatherCard.RainBeforeCloud | WeatherCard.tsx:18-19 | a description containing both "rain" and "cloud" gets the rain icon |
| WeatherCard.SunExamples | WeatherCard.tsx:17-20 | "", "Rain", "Cloudy" and "sunny" all get the sun, because matching is case-sensitive |
| WeatherCard.ForecastTiles | WeatherCard.tsx:60-66 | at most the first three days are shown, in order, each with its own icon and temperatures, captioned today, tomorrow, then by weekday |
| WeatherCard.SameClassifier | WeatherCard.tsx:35-65 | a forecast day with the current description gets the icon the header draws for that description |
| PestDetection.SeverityTone | PestDetection.tsx:30-37 | low is green, medium yellow, high red, and exactly the other strings are gray |
| PestDetection.SeverityToneInjective | PestDetection.tsx:32-34 | distinct severities get distinct colours |
| PestDetection.BadgeText | PestDetection.tsx:91 | the badge text has the severity's length and letters, with no lower-case letter left |
| PestDetection.BadgeTexts | PestDetection.tsx:91 | the three severities are shown as LOW, MEDIUM and HIGH |
| PestDetection.ListXorPlaceholder | PestDetection.tsx:83-134 | the pest list and the upload placeholder are never shown together; when not analysing, exactly one of them is shown |
| PestDetection.UploadStepOf | PestDetection.tsx:16-42 | a change event with a file requests exactly one read and one without a file does nothing; a read image is shown and analysis starts; the delay ends analysis and keeps the image; the speak button speaks the joined treatment once when synthesis exists and does nothing otherwise; no other event speaks |
| PestDetection.ImageKept | PestDetection.tsx:20-22 | once an image is shown, no event removes it |
| MarketPrices.TrendIconFor | MarketPrices.tsx:14-20 | "up" gets the rising icon, "down" the falling icon, and every other string the flat icon |
| MarketPrices.TrendTone | MarketPrices.tsx:22-28 | "up" is green, "down" red, and every other string gray |
| MarketPrices.IconMatchesTone | MarketPrices.tsx:14-28 | the icon and the colour always agree: rising with green, falling with red, flat with gray |
| MarketPrices.StableIsFlat | MarketPrices.tsx:18-26 | the stable trend is drawn flat and gray |
| MarketPrices.PriceRows | MarketPrices.tsx:41-60 | one row per price entry, in input order, each showing that entry's crop, price, trend icon and colour |
| SoilHealth.HealthTone | SoilHealth.tsx:15-20 | green when the reading is within 10% of the optimum, yellow from 10% up to 30%, red from 30% |
| SoilHealth.FartherIsNoBetter | SoilHealth.tsx:15-20 | a reading further from the optimum never gets a better band |
| SoilHealth.SymmetricBands | SoilHealth.tsx:16 | readings equally far above and below the optimum share a band, and the optimum itself is green |
| SoilHealth.ReadingTones | SoilHealth.tsx:38-66 | the four tiles are coloured pH against 6.5, N against 50, P against 25 and K against 150: green within a tenth of the optimum, red from three tenths, never gray |
| SoilHealth.OptimaAllGreen | SoilHealth.tsx:41-62 | a report whose readings sit at the four optima shows four green tiles |
| SoilHealth.SpeakRecommendations | SoilHealth.tsx:22-29 | the speak button makes one synthesis call when synthesis exists and none otherwise, and it speaks the joined recommendations |
| SoilHealth.ToggleUpload | SoilHealth.tsx:88 | the upload button always flips the panel's visibility |
| SoilHealth.ToggleTwiceRestores | SoilHealth.tsx:88 | pressing the upload button twice restores the panel's visibility |

## Left out

- Translation: the `t()` lookup and `setLanguage` are left out. The language context module is not part of this model, so there are no tables and no missing-key behaviour to state. The header and app shell are only composition and are not modelled.
- Speech services are not modelled beyond an "available" flag. Recognition configuration (locale, interim results) and synthesis locale are not modelled.
- VoiceAssistant.Step: the command interpreted at the end of a session is an arbitrary input. The handler reads a transcript captured when the session was set up, so the model makes no claim linking it to the recognised text.
- PestDetection.UploadStepOf accepts the speak button during analysis and with no pests, although the source draws that button only inside the pest list (PestDetection.tsx:83, 101-106). This is harmless: the event cannot arise then, and it changes no state.
- LocationSelector.PickerStepOf accepts typing and picking while the picker is hidden, although the source renders nothing then (LocationSelector.tsx:56). This is harmless: those events cannot arise, and typing while hidden only sets the search text.
- Strings are sequences of Unicode scalar values, not JavaScript's UTF-16 code units. This cannot change a match or a trim, because every keyword and every whitespace character lies in the Basic Multilingual Plane.
- VoiceAssistant.Step: the flag that disables the microphone is set by the start callback. A second press before that callback fires is not excluded; the model only shows that no press requests a session while listening.
- FileReader, data URLs and the analysis timer: reading a file is the `ReadFile` effect, and its result arrives as the `ImageRead` event.
- Timers: every `setTimeout` is an explicit event. Time and pending-timer bookkeeping are not modelled.
- `Date` parsing and `toLocaleString`/`toLocaleDateString` formatting are left out. Weekday captions carry the raw date string, and timestamps are opaque strings.
- `console.log`, `alert` and all JSX/CSS are left out. Colours and icons are enumerations.
- The mock data literals are left out. They are constants without behaviour.
- The crop advisory card is left out. It only renders.
- SoilHealth.HealthTone: computes on exact reals, not IEEE doubles. Results can differ from the browser's at exactly 10% or 30%.
- Text.ToLower lowers ASCII letters only, not full Unicode case mapping. The district names and Latin keywords are ASCII, and Devanagari has no case.
- LocationSelector.Filter: a search term written with the Kelvin sign (U+212A) is not matched as "k", which JavaScript's lowering would do. JavaScript also lowers "İ" (U+0130) to "i" followed by the combining dot U+0307, which the model leaves unchanged. This cannot change a result: a search term holding it then holds U+0307, which no district name does, and in a voice command only a keyword ending in "i" could match up to the dot, which none of "weather", "crop" and "price" does. The voice keywords contain no "k", so the interpreter is unaffected.
- PestDetection.BadgeText upper-cases ASCII letters only. The three severities are ASCII; other strings may differ from `toUpperCase` (for example, "ß" becomes "SS" in JavaScript).
- The user type, the forecast's precipitation and the `icon` fields of the current weather and of each forecast day are left out; the card never reads those icons, since it picks the icon from the description. Numbers that are only displayed are narrowed from JavaScript's `number` to `int`: the weather's temperature and humidity, the forecast minimum and maximum, `MarketPrice.price` and `PestReport.confidence`. This is harmless, since no logic computes with them; the soil readings, which are compared, are exact reals. Also left out is the first, two-value declaration of `Language`, which clashes with the three-value one; the model uses `en`, `hi` and `pa`.
- FeedbackModal.Step accepts form events while `submitted` holds, including a second submit and X, although the thank-you screen renders none of those controls (FeedbackModal.tsx:35-47), so the source cannot produce them. The page model drops form events while the modal is closed, except the delay.
