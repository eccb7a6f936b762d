/** The feedback modal's form: a star rating, a yes/no "was this helpful",
    an optional comment, and the submit guard. The confirmation delay after
    a submit is an explicit `DelayElapsed` event. */
module FeedbackModal {
  import opened Text
  import opened Types

  /** The five star buttons. */
  type Star = s: int | 1 <= s <= 5 witness 1

  const Stars: seq<Star> := [1, 2, 3, 4, 5]

  /** Form state: `rating` 0 means no star chosen, `helpful` None means
      neither answer chosen, `submitted` shows the thank-you screen. */
  datatype FormState = FormState(rating: int, helpful: Option<bool>, comment: string, submitted: bool)

  const InitialForm: FormState := FormState(0, None, "", false)

  /** What the form hands to its `onSubmit` callback. */
  datatype Submission = Submission(rating: int, helpful: bool, comment: Option<string>)

  datatype FormEvent =
    | HelpfulPressed(yes: bool)
    | StarPressed(star: Star)
    | CommentEdited(text: string)
    | SubmitPressed
    | DelayElapsed
    | ClosePressed

  /** Calls the form makes to its owner. */
  datatype FormEffect = Submitted(feedback: Submission) | Close

  datatype FormStep = FormStep(state: FormState, effects: seq<FormEffect>)

  /** The condition `handleSubmit` checks before submitting. */
  predicate CanSubmit(s: FormState)
  {
    s.rating > 0 && s.helpful.Some?
  }

  /** The condition that disables the submit button. */
  predicate SubmitDisabled(s: FormState)
  {
    s.rating == 0 || s.helpful.None?
  }

  predicate RatingValid(s: FormState)
  {
    0 <= s.rating <= 5
  }

  /** With a rating that is 0 or a star, the button is disabled exactly
      when the handler would refuse to submit. */
  lemma DisabledIffRefused(s: FormState)
    requires RatingValid(s)
    ensures SubmitDisabled(s) <==> !CanSubmit(s)
  {
  }

  /** The comment that is submitted: the trimmed text, or absent when
      trimming leaves nothing (`comment.trim() || undefined`). */
  function SubmittedComment(comment: string): (r: Option<string>)
    ensures r.None? <==> IsBlank(comment)
    ensures r.Some? ==> r.value != [] && !IsJsWhitespace(r.value[0])
                        && !IsJsWhitespace(r.value[|r.value| - 1])
    ensures r.Some? ==> exists lo :: OccursAt(comment, r.value, lo)
                                     && IsBlank(comment[..lo]) && IsBlank(comment[lo + |r.value|..])
  {
    var t := Trim(comment);
    if t == [] then None else Some(t)
  }

  /** One event of the form. */
  function Step(s: FormState, e: FormEvent): (r: FormStep)
    ensures e.SubmitPressed? && !CanSubmit(s) ==> r.state == s && r.effects == []
    ensures e.SubmitPressed? && CanSubmit(s) ==>
              r.state == s.(submitted := true)
              && r.effects == [Submitted(Submission(s.rating, s.helpful.value, SubmittedComment(s.comment)))]
    ensures e.DelayElapsed? ==> r.state == InitialForm && r.effects == [Close]
    ensures e.ClosePressed? ==> r.state == s && r.effects == [Close]
    ensures !e.SubmitPressed? ==> forall k :: 0 <= k < |r.effects| ==> !r.effects[k].Submitted?
    ensures e.HelpfulPressed? ==> r.state == s.(helpful := Some(e.yes)) && r.effects == []
    ensures e.StarPressed? ==> r.state == s.(rating := e.star) && r.effects == []
    ensures e.CommentEdited? ==> r.state == s.(comment := e.text) && r.effects == []
  {
    match e
    case HelpfulPressed(yes) => FormStep(s.(helpful := Some(yes)), [])
    case StarPressed(star) => FormStep(s.(rating := star), [])
    case CommentEdited(text) => FormStep(s.(comment := text), [])
    case SubmitPressed =>
      if s.rating > 0 && s.helpful.Some? then
        var feedback := Submission(s.rating, s.helpful.value, SubmittedComment(s.comment));
        FormStep(s.(submitted := true), [Submitted(feedback)])
      else FormStep(s, [])
    case DelayElapsed =>
      // the timer callback closes the modal, then clears every field
      FormStep(FormState(0, None, "", false), [Close])
    case ClosePressed => FormStep(s, [Close])
  }

  /** Every step keeps the rating at 0 or a star value, and every submission
      made from such a state carries a star rating and the current answer. */
  lemma StepKeepsRatingValid(s: FormState, e: FormEvent)
    requires RatingValid(s)
    ensures RatingValid(Step(s, e).state)
    ensures forall k :: 0 <= k < |Step(s, e).effects| && Step(s, e).effects[k].Submitted? ==>
              var f := Step(s, e).effects[k].feedback;
              1 <= f.rating <= 5 && f.rating == s.rating && Some(f.helpful) == s.helpful
  {
  }

  function Run(s: FormState, events: seq<FormEvent>): FormState
    decreases |events|
  {
    if |events| == 0 then s else Run(Step(s, events[0]).state, events[1..])
  }

  /** Every state reachable from a form with a valid rating keeps one. */
  lemma {:induction false} RunKeepsRatingValid(s: FormState, events: seq<FormEvent>)
    requires RatingValid(s)
    ensures RatingValid(Run(s, events))
    decreases |events|
  {
    if |events| > 0 {
      StepKeepsRatingValid(s, events[0]);
      RunKeepsRatingValid(Step(s, events[0]).state, events[1..]);
    }
  }

  /** The form as first rendered has a valid rating, and so has every form
      reachable from it. */
  lemma ReachableFormsValid(events: seq<FormEvent>)
    ensures RatingValid(InitialForm)
    ensures RatingValid(Run(InitialForm, events))
  {
    RunKeepsRatingValid(InitialForm, events);
  }

  /** Once the confirmation delay has passed, the form is back in its
      initial state whatever happened before, and submitting again is
      refused until a star and an answer are chosen afresh. */
  lemma ResetRestoresInitial(s: FormState)
    ensures Step(s, DelayElapsed).state == InitialForm
    ensures !CanSubmit(Step(s, DelayElapsed).state)
    ensures Step(Step(s, DelayElapsed).state, SubmitPressed).effects == []
  {
  }

  /** A comment of blanks is submitted as absent, not as blanks. */
  lemma BlankCommentIsAbsent()
    ensures Step(FormState(4, Some(true), "  ", false), SubmitPressed).effects
            == [Submitted(Submission(4, true, None))]
  {
    assert IsBlank("  ");
  }

  /** Star `star` is drawn filled when it is at most the rating. */
  predicate StarFilled(star: Star, rating: int)
  {
    star <= rating
  }

  function CountFilled(stars: seq<Star>, rating: int): (n: nat)
    ensures n <= |stars|
  {
    if |stars| == 0 then 0
    else (if StarFilled(stars[0], rating) then 1 else 0) + CountFilled(stars[1..], rating)
  }

  /** The number of filled stars is the rating. */
  lemma FilledCountIsRating(s: FormState)
    requires RatingValid(s)
    ensures CountFilled(Stars, s.rating) == s.rating
  {
    var r := s.rating;
    assert Stars[1..] == [2, 3, 4, 5];
    assert Stars[1..][1..] == [3, 4, 5];
    assert Stars[1..][1..][1..] == [4, 5];
    assert Stars[1..][1..][1..][1..] == [5];
    assert CountFilled([5], r) == if 5 <= r then 1 else 0;
    assert CountFilled([4, 5], r) == (if 4 <= r then 1 else 0) + CountFilled([5], r);
    assert CountFilled([3, 4, 5], r) == (if 3 <= r then 1 else 0) + CountFilled([4, 5], r);
    assert CountFilled([2, 3, 4, 5], r) == (if 2 <= r then 1 else 0) + CountFilled([3, 4, 5], r);
  }
}
