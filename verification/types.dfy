/** The closed enumerations of the shared type declarations, each with the
    string literal it is written as in the source, and the optional value
    used for `T | null` and `T | undefined`. */
module Types {

  datatype Option<+T> = None | Some(value: T)

  /** Market price trend: `'up' | 'down' | 'stable'`. */
  datatype Trend = Up | Down | Stable

  /** Pest severity: `'low' | 'medium' | 'high'`. */
  datatype Severity = Low | Medium | High

  /** Feedback subject: `'crop' | 'soil' | 'pest' | 'weather' | 'market'`. */
  datatype Subject = CropSubject | SoilSubject | PestSubject | WeatherSubject | MarketSubject

  /** The colour family a badge, figure or icon is drawn in. */
  datatype Tone = Green | Yellow | Red | Gray

  /** Interface language: `'en' | 'hi' | 'pa'`. */
  datatype Language = En | Hi | Pa

  function TrendCode(t: Trend): string
  {
    match t
    case Up => "up"
    case Down => "down"
    case Stable => "stable"
  }

  function SeverityCode(s: Severity): string
  {
    match s
    case Low => "low"
    case Medium => "medium"
    case High => "high"
  }

  function SubjectCode(s: Subject): string
  {
    match s
    case CropSubject => "crop"
    case SoilSubject => "soil"
    case PestSubject => "pest"
    case WeatherSubject => "weather"
    case MarketSubject => "market"
  }

  function LanguageCode(l: Language): string
  {
    match l
    case En => "en"
    case Hi => "hi"
    case Pa => "pa"
  }

  /** Reads a trend literal; any other string is not a trend. */
  function ParseTrend(s: string): (r: Option<Trend>)
    ensures r.Some? ==> TrendCode(r.value) == s
    ensures r.None? ==> forall t :: TrendCode(t) != s
  {
    if s == "up" then Some(Up)
    else if s == "down" then Some(Down)
    else if s == "stable" then Some(Stable)
    else None
  }

  function ParseSeverity(s: string): (r: Option<Severity>)
    ensures r.Some? ==> SeverityCode(r.value) == s
    ensures r.None? ==> forall v :: SeverityCode(v) != s
  {
    if s == "low" then Some(Low)
    else if s == "medium" then Some(Medium)
    else if s == "high" then Some(High)
    else None
  }

  function ParseSubject(s: string): (r: Option<Subject>)
    ensures r.Some? ==> SubjectCode(r.value) == s
    ensures r.None? ==> forall v :: SubjectCode(v) != s
  {
    if s == "crop" then Some(CropSubject)
    else if s == "soil" then Some(SoilSubject)
    else if s == "pest" then Some(PestSubject)
    else if s == "weather" then Some(WeatherSubject)
    else if s == "market" then Some(MarketSubject)
    else None
  }

  function ParseLanguage(s: string): (r: Option<Language>)
    ensures r.Some? ==> LanguageCode(r.value) == s
    ensures r.None? ==> forall v :: LanguageCode(v) != s
  {
    if s == "en" then Some(En)
    else if s == "hi" then Some(Hi)
    else if s == "pa" then Some(Pa)
    else None
  }

  /** Every literal reads back as the value it was written from, so the
      literals of each enumeration are pairwise distinct. */
  lemma CodesRoundTrip()
    ensures forall t :: ParseTrend(TrendCode(t)) == Some(t)
    ensures forall v :: ParseSeverity(SeverityCode(v)) == Some(v)
    ensures forall v :: ParseSubject(SubjectCode(v)) == Some(v)
    ensures forall v :: ParseLanguage(LanguageCode(v)) == Some(v)
  {
    forall t: Trend ensures ParseTrend(TrendCode(t)) == Some(t) {
      match t
      case Up =>
      case Down => assert TrendCode(t) != "up";
      case Stable => assert TrendCode(t) != "up" && TrendCode(t) != "down";
    }
    forall v: Severity ensures ParseSeverity(SeverityCode(v)) == Some(v) {
      match v
      case Low =>
      case Medium => assert SeverityCode(v) != "low";
      case High => assert SeverityCode(v) != "low" && SeverityCode(v) != "medium";
    }
    forall v: Subject ensures ParseSubject(SubjectCode(v)) == Some(v) {
      var c := SubjectCode(v);
      assert c == "crop" || c[0] != 'c';
      assert c == "soil" || c[0] != 's';
      assert c == "pest" || c[0] != 'p';
      assert c == "weather" || c[0] != 'w';
    }
    forall v: Language ensures ParseLanguage(LanguageCode(v)) == Some(v) {
      var c := LanguageCode(v);
      assert c == "en" || c[0] != 'e';
      assert c == "hi" || c[0] != 'h';
    }
  }
}
