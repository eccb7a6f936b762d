/** The location picker of the weather card: a case-insensitive search over
    a fixed list of agricultural districts, the "current location" entry,
    and select-then-close. The picker's visibility belongs to the weather
    card and its search text to the picker, so both live in one state. */
module LocationSelector {
  import opened Text

  /** The districts offered, in display order. */
  const AllLocations: seq<string> := [
    "Ludhiana, Punjab",
    "Karnal, Haryana",
    "Hisar, Haryana",
    "Sirsa, Haryana",
    "Amritsar, Punjab",
    "Bathinda, Punjab",
    "Moga, Punjab",
    "Sangrur, Punjab",
    "Panipat, Haryana",
    "Rohtak, Haryana",
    "Sonipat, Haryana",
    "Kaithal, Haryana",
    "Kurukshetra, Haryana",
    "Yamunanagar, Haryana",
    "Ambala, Haryana",
    "Patiala, Punjab",
    "Faridkot, Punjab",
    "Firozpur, Punjab",
    "Gurdaspur, Punjab",
    "Hoshiarpur, Punjab",
    "Jalandhar, Punjab",
    "Kapurthala, Punjab",
    "Mansa, Punjab",
    "Muktsar, Punjab",
    "Nawanshahr, Punjab",
    "Rupnagar, Punjab",
    "Tarn Taran, Punjab"
  ]

  /** A location passes when its lower-cased name contains the lower-cased
      search term. */
  predicate Matches(location: string, term: string)
  {
    Includes(ToLower(location), ToLower(term))
  }

  /** The search result: the passing locations, in list order. */
  function Filter(list: seq<string>, term: string): (r: seq<string>)
    ensures |r| <= |list|
    ensures forall x :: x in r <==> x in list && Matches(x, term)
  {
    if |list| == 0 then []
    else (if Matches(list[0], term) then [list[0]] else []) + Filter(list[1..], term)
  }

  /** `a` is `b` with some items left out and the rest kept in order. */
  predicate IsSubsequence<T(==)>(a: seq<T>, b: seq<T>)
    decreases |b|
  {
    if |a| == 0 then true
    else if |b| == 0 then false
    else if a[0] == b[0] then IsSubsequence(a[1..], b[1..])
    else IsSubsequence(a, b[1..])
  }

  /** The result keeps the list's order. */
  lemma {:induction false} FilterIsSubsequence(list: seq<string>, term: string)
    ensures IsSubsequence(Filter(list, term), list)
    decreases |list|
  {
    if |list| > 0 {
      FilterIsSubsequence(list[1..], term);
      var rest := Filter(list[1..], term);
      if Matches(list[0], term) {
        assert Filter(list, term) == [list[0]] + rest;
        assert ([list[0]] + rest)[1..] == rest;
      } else {
        assert Filter(list, term) == rest;
        SubsequenceSkip(rest, list);
      }
    }
  }

  /** Dropping the head of the longer sequence may be undone. */
  lemma {:induction false} SubsequenceSkip<T>(a: seq<T>, b: seq<T>)
    requires |b| > 0
    requires IsSubsequence(a, b[1..])
    ensures IsSubsequence(a, b)
    decreases |b|, 0
  {
    if |a| > 0 && a[0] == b[0] {
      // both a[1..] and a sit inside b[1..]; shrinking a keeps that
      SubsequenceTail(a, b[1..]);
    }
  }

  /** Removing the first item keeps a subsequence a subsequence. */
  lemma {:induction false} SubsequenceTail<T>(a: seq<T>, b: seq<T>)
    requires |a| > 0
    requires IsSubsequence(a, b)
    ensures IsSubsequence(a[1..], b)
    decreases |b|, 1
  {
    if a[0] == b[0] {
      if |a[1..]| > 0 {
        SubsequenceSkip(a[1..], b);
      }
    } else {
      SubsequenceTail(a, b[1..]);
      if |a[1..]| > 0 {
        SubsequenceSkip(a[1..], b);
      }
    }
  }

  /** Filtering one more item onto the end of the list. */
  lemma {:induction false} FilterSnoc(list: seq<string>, x: string, term: string)
    ensures Filter(list + [x], term)
            == Filter(list, term) + (if Matches(x, term) then [x] else [])
    decreases |list|
  {
    if |list| == 0 {
      assert [] + [x] == [x];
      assert [x][1..] == [];
    } else {
      assert (list + [x])[1..] == list[1..] + [x];
      FilterSnoc(list[1..], x, term);
    }
  }

  /** An empty search term keeps every location. */
  lemma {:induction false} EmptyTermKeepsAll(list: seq<string>)
    ensures Filter(list, "") == list
    decreases |list|
  {
    if |list| > 0 {
      assert Includes(ToLower(list[0]), ToLower(""));
      EmptyTermKeepsAll(list[1..]);
    }
  }

  /** With no search term all 27 districts are listed. */
  lemma EmptyTermListsAll()
    ensures |Filter(AllLocations, "")| == 27
  {
    EmptyTermKeepsAll(AllLocations);
  }

  /** Search terms that differ only in letter case list the same places. */
  lemma {:induction false} CaseOfTermIrrelevant(list: seq<string>, a: string, b: string)
    requires SameIgnoringCase(a, b)
    ensures Filter(list, a) == Filter(list, b)
    decreases |list|
  {
    if |list| > 0 {
      CaseOfTermIrrelevant(list[1..], a, b);
    }
  }

  /** The filter as a loop over the list, as `Array.prototype.filter` runs. */
  method FilterLocations(term: string) returns (r: seq<string>)
    ensures r == Filter(AllLocations, term)
    ensures forall x :: x in r <==> x in AllLocations && Matches(x, term)
  {
    r := [];
    var i := 0;
    while i < |AllLocations|
      invariant 0 <= i <= |AllLocations|
      invariant r == Filter(AllLocations[..i], term)
    {
      var location := AllLocations[i];
      FilterSnoc(AllLocations[..i], location, term);
      assert AllLocations[..i + 1] == AllLocations[..i] + [location];
      if Matches(location, term) {
        r := r + [location];
      }
      i := i + 1;
    }
    assert AllLocations[..i] == AllLocations;
  }

  /** The "no locations found" note shows when nothing matched a term that
      is not empty. */
  predicate NoMatchesNote(term: string)
  {
    |Filter(AllLocations, term)| == 0 && term != ""
  }

  /** The note shows exactly when the search finds nothing: the guard on a
      non-empty term adds nothing, since an empty term lists every place. */
  lemma NoMatchesNoteIffEmptyResult(term: string)
    ensures NoMatchesNote(term) <==> |Filter(AllLocations, term)| == 0
  {
    if term == "" { EmptyTermListsAll(); }
  }

  /** The entries offered: the current location first, whatever the search
      term, then the search result. */
  function Offered(current: string, term: string): (r: seq<string>)
    ensures |r| >= 1 && r[0] == current
    ensures r[1..] == Filter(AllLocations, term)
  {
    [current] + Filter(AllLocations, term)
  }

  /* ---------------- picker state ---------------- */

  /** `open` is the weather card's flag, `term` the picker's search text;
      the picker stays mounted while hidden, so the text survives a close. */
  datatype PickerState = PickerState(open: bool, term: string)

  const InitialPicker: PickerState := PickerState(false, "")

  datatype PickerEvent =
    | LocationButtonPressed
    | TermEdited(text: string)
    | Picked(location: string)
    | ClosePressed

  /** `Chosen` is the call of the selection callback. */
  datatype PickerEffect = Chosen(location: string)

  datatype PickerStep = PickerStep(state: PickerState, effects: seq<PickerEffect>)

  function PickerStepOf(s: PickerState, e: PickerEvent): (r: PickerStep)
    ensures e.Picked? ==> r.effects == [Chosen(e.location)] && !r.state.open
    ensures !e.Picked? ==> r.effects == []
    ensures r.state.term == (if e.TermEdited? then e.text else s.term)
    ensures r.state.open == (if e.LocationButtonPressed? then true else if e.TermEdited? then s.open else false)
  {
    match e
    case LocationButtonPressed => PickerStep(s.(open := true), [])
    case TermEdited(text) => PickerStep(s.(term := text), [])
    case Picked(location) =>
      // the selection callback first, then the close callback
      PickerStep(s.(open := false), [Chosen(location)])
    case ClosePressed => PickerStep(s.(open := false), [])
  }

  /** Picking any offered entry reports exactly that entry and hides the
      picker; the current location can be picked whatever was typed. */
  lemma PickOffered(s: PickerState, current: string, k: int)
    requires 0 <= k < |Offered(current, s.term)|
    ensures var r := PickerStepOf(s, Picked(Offered(current, s.term)[k]));
            !r.state.open && r.effects == [Chosen(Offered(current, s.term)[k])]
            && (k == 0 ==> r.effects == [Chosen(current)])
            && (k > 0 ==> Offered(current, s.term)[k] in AllLocations)
  {
    if k > 0 {
      assert Offered(current, s.term)[k] == Filter(AllLocations, s.term)[k - 1];
    }
  }
}
