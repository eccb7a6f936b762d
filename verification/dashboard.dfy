/** The dashboard: which card's feedback the modal is collecting, the log
    record built from a submission, and the wiring of the feedback form and
    the location picker into the page. */
module Dashboard {
  import opened Types
  import opened FeedbackModal
  import WeatherCard
  import LocationSelector

  /** The modal's visibility and the subject it collects feedback for. */
  datatype ModalState = ModalState(isOpen: bool, subject: Option<Subject>)

  const InitialModal: ModalState := ModalState(false, None)

  /** Open exactly when a subject is set. */
  predicate ModalInvariant(m: ModalState)
  {
    m.isOpen <==> m.subject.Some?
  }

  function OpenFeedback(k: Subject): (r: ModalState)
    ensures r.isOpen && r.subject == Some(k)
    ensures ModalInvariant(r)
  {
    ModalState(true, Some(k))
  }

  function CloseFeedback(): (r: ModalState)
    ensures !r.isOpen && r.subject.None?
    ensures ModalInvariant(r)
  {
    ModalState(false, None)
  }

  /** The cards carrying a feedback button. */
  datatype Card = WeatherCardButton | CropCardButton | SoilCardButton | MarketCardButton | PestCardButton

  /** The subject each card's feedback button opens the modal with. */
  function CardSubject(c: Card): Subject
  {
    match c
    case WeatherCardButton => WeatherSubject
    case CropCardButton => CropSubject
    case SoilCardButton => SoilSubject
    case MarketCardButton => MarketSubject
    case PestCardButton => PestSubject
  }

  /** The card whose button asks for feedback on a subject. */
  function SubjectCard(k: Subject): Card
  {
    match k
    case WeatherSubject => WeatherCardButton
    case CropSubject => CropCardButton
    case SoilSubject => SoilCardButton
    case MarketSubject => MarketCardButton
    case PestSubject => PestCardButton
  }

  /** Each card has its own subject and every subject has a card. */
  lemma CardSubjectBijective(c: Card, k: Subject)
    ensures SubjectCard(CardSubject(c)) == c
    ensures CardSubject(SubjectCard(k)) == k
  {
  }

  /** The logged feedback: the modal's subject, the submission's fields and
      the time of submission. */
  datatype FeedbackRecord = FeedbackRecord(subject: Option<Subject>, rating: int, helpful: bool,
                                           comment: Option<string>, timestamp: string)

  function RecordOf(m: ModalState, f: Submission, timestamp: string): (r: FeedbackRecord)
    ensures r.subject == m.subject && r.timestamp == timestamp
    ensures Submission(r.rating, r.helpful, r.comment) == f
  {
    FeedbackRecord(m.subject, f.rating, f.helpful, f.comment, timestamp)
  }

  /* ---------------- the page ---------------- */

  datatype Page = Page(modal: ModalState, form: FormState, weather: WeatherCard.Weather)

  /** Page events. A form event carries the clock reading used if it leads
      to a submission. */
  datatype PageEvent =
    | FeedbackPressed(card: Card)
    | FormInput(e: FormEvent, now: string)
    | LocationChanged(location: string)

  datatype PageStep = PageStep(page: Page, log: seq<FeedbackRecord>)

  /** The submissions among the form's calls, in order. */
  function Submissions(effects: seq<FormEffect>): seq<Submission>
    decreases |effects|
  {
    if |effects| == 0 then []
    else (if effects[0].Submitted? then [effects[0].feedback] else []) + Submissions(effects[1..])
  }

  /** Whether the form asked to be closed. */
  predicate AsksToClose(effects: seq<FormEffect>)
  {
    exists k :: 0 <= k < |effects| && effects[k].Close?
  }

  /** Apply the calls the form makes: a submission is logged against the
      current subject, a close request closes the modal. */
  function ApplyFormEffects(m: ModalState, effects: seq<FormEffect>, now: string)
    : (r: (ModalState, seq<FeedbackRecord>))
    ensures AsksToClose(effects) ==> r.0 == CloseFeedback()
    ensures !AsksToClose(effects) ==> r.0 == m
    ensures |r.1| == |Submissions(effects)| <= |effects|
    ensures forall k :: 0 <= k < |r.1| ==> r.1[k] == RecordOf(m, Submissions(effects)[k], now)
    ensures ModalInvariant(m) ==> ModalInvariant(r.0)
    decreases |effects|
  {
    if |effects| == 0 then (m, [])
    else
      // every handler of one event sees the state of the same render
      var rest := ApplyFormEffects(m, effects[1..], now);
      assert AsksToClose(effects) <==> effects[0].Close? || AsksToClose(effects[1..]) by {
        if AsksToClose(effects[1..]) {
          var k :| 0 <= k < |effects[1..]| && effects[1..][k].Close?;
          assert effects[k + 1].Close?;
        }
        if AsksToClose(effects) && !effects[0].Close? {
          var k :| 0 <= k < |effects| && effects[k].Close?;
          assert effects[1..][k - 1].Close?;
        }
      }
      match effects[0]
      case Close => (CloseFeedback(), rest.1)
      case Submitted(f) => (rest.0, [RecordOf(m, f, now)] + rest.1)
  }

  function PageStepOf(p: Page, e: PageEvent): (r: PageStep)
    ensures r.page.weather == p.weather
    ensures e.FeedbackPressed? ==> r.page.modal == OpenFeedback(CardSubject(e.card)) && r.log == []
    ensures e.FeedbackPressed? ==> r.page.form == p.form
    // a closed modal renders no form, so its controls do nothing
    ensures e.FormInput? && !p.modal.isOpen && !e.e.DelayElapsed? ==> r == PageStep(p, [])
    ensures e.FormInput? && (p.modal.isOpen || e.e.DelayElapsed?) ==>
              r.page.form == FeedbackModal.Step(p.form, e.e).state
    // only X and the timer's close callback touch the modal
    ensures e.FormInput? && (p.modal.isOpen || e.e.DelayElapsed?) ==>
              r.page.modal == (if e.e.ClosePressed? || e.e.DelayElapsed? then CloseFeedback() else p.modal)
    // an accepted submit logs exactly one record, and nothing else logs
    ensures e.FormInput? && p.modal.isOpen && e.e.SubmitPressed? && CanSubmit(p.form) ==>
              r.log == [RecordOf(p.modal, Submission(p.form.rating, p.form.helpful.value,
                                                     SubmittedComment(p.form.comment)), e.now)]
    ensures !(e.FormInput? && e.e.SubmitPressed? && CanSubmit(p.form)) ==> r.log == []
  {
    match e
    case FeedbackPressed(card) => PageStep(p.(modal := OpenFeedback(CardSubject(card))), [])
    case FormInput(fe, now) =>
      // the form is rendered only while the modal is open; its timer
      // callback fires whether or not it is
      if !p.modal.isOpen && !fe.DelayElapsed? then PageStep(p, [])
      else
        var fs := FeedbackModal.Step(p.form, fe);
        var applied := ApplyFormEffects(p.modal, fs.effects, now);
        PageStep(Page(applied.0, fs.state, p.weather), applied.1)
    case LocationChanged(_) =>
      // the handler only logs the new location
      PageStep(p, [])
  }

  /** What every reachable page satisfies. */
  predicate PageInvariant(p: Page)
  {
    ModalInvariant(p.modal) && RatingValid(p.form)
  }

  /** Every page event keeps the invariant, and every record logged names
      the card whose modal is open, a star rating, and the form's answer. */
  lemma PageStepKeepsInvariant(p: Page, e: PageEvent)
    requires PageInvariant(p)
    ensures PageInvariant(PageStepOf(p, e).page)
    ensures forall k :: 0 <= k < |PageStepOf(p, e).log| ==>
              var rec := PageStepOf(p, e).log[k];
              rec.subject.Some? && rec.subject == p.modal.subject
              && 1 <= rec.rating <= 5 && rec.rating == p.form.rating
              && Some(rec.helpful) == p.form.helpful
              && rec.comment == SubmittedComment(p.form.comment)
  {
    if e.FormInput? && (p.modal.isOpen || e.e.DelayElapsed?) {
      var fs := FeedbackModal.Step(p.form, e.e);
      StepKeepsRatingValid(p.form, e.e);
      var applied := ApplyFormEffects(p.modal, fs.effects, e.now);
      if e.e.SubmitPressed? && CanSubmit(p.form) {
        assert fs.effects == [Submitted(Submission(p.form.rating, p.form.helpful.value, SubmittedComment(p.form.comment)))];
        assert fs.effects[1..] == [];
        assert applied.1 == [RecordOf(p.modal, fs.effects[0].feedback, e.now)];
      } else {
        assert applied.1 == [];
      }
    }
  }

  /** The page as first rendered: the modal closed with no subject and the
      form empty. */
  function InitialPage(w: WeatherCard.Weather): Page
  {
    Page(InitialModal, InitialForm, w)
  }

  function RunPage(p: Page, events: seq<PageEvent>): Page
    decreases |events|
  {
    if |events| == 0 then p else RunPage(PageStepOf(p, events[0]).page, events[1..])
  }

  /** The invariant holds on every page reachable from the first render. */
  lemma {:induction false} RunKeepsInvariant(p: Page, events: seq<PageEvent>)
    requires PageInvariant(p)
    ensures PageInvariant(RunPage(p, events))
    ensures RunPage(p, events).weather == p.weather
    decreases |events|
  {
    if |events| > 0 {
      PageStepKeepsInvariant(p, events[0]);
      RunKeepsInvariant(PageStepOf(p, events[0]).page, events[1..]);
    }
  }

  /** The first render satisfies the invariant, so every page reachable
      from it does, and the weather data it was rendered with stays. */
  lemma ReachableFromFirstRender(w: WeatherCard.Weather, events: seq<PageEvent>)
    ensures PageInvariant(InitialPage(w))
    ensures PageInvariant(RunPage(InitialPage(w), events))
    ensures RunPage(InitialPage(w), events).weather == w
  {
    RunKeepsInvariant(InitialPage(w), events);
  }

  /** After a submission's confirmation delay the modal is closed and the
      form is back at its start. */
  lemma DelayClosesAndResets(p: Page, now: string)
    ensures PageStepOf(p, FormInput(DelayElapsed, now)).page.modal == InitialModal
    ensures PageStepOf(p, FormInput(DelayElapsed, now)).page.form == InitialForm
    ensures PageStepOf(p, FormInput(DelayElapsed, now)).log == []
  {
    var fs := FeedbackModal.Step(p.form, DelayElapsed);
    assert fs.effects == [Close];
    assert fs.effects[1..] == [];
  }

  /** The form keeps its fields when the modal is closed with X: reopening
      it, even for another card, shows the answers entered before. */
  lemma FormSurvivesReopen(p: Page, now: string, card: Card)
    requires p.modal.isOpen
    ensures var closed := PageStepOf(p, FormInput(ClosePressed, now)).page;
            !closed.modal.isOpen && closed.form == p.form
            && PageStepOf(closed, FeedbackPressed(card)).page.form == p.form
  {
    var fs := FeedbackModal.Step(p.form, ClosePressed);
    assert fs.effects[1..] == [];
  }

  /** A location picked in the weather card's picker reaches the page as a
      location change, which leaves the page as it was. */
  lemma PickedLocationLeavesPage(p: Page, s: LocationSelector.PickerState, location: string)
    ensures var r := LocationSelector.PickerStepOf(s, LocationSelector.Picked(location));
            r.effects == [LocationSelector.Chosen(location)]
            && PageStepOf(p, LocationChanged(r.effects[0].location)) == PageStep(p, [])
  {
  }
}
