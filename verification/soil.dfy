/** The soil health card: the colour band of a reading against its optimum,
    the spoken recommendations, and the upload panel toggle. Readings are
    modelled as exact reals. */
module SoilHealth {
  import opened Text
  import opened Types

  /** The optimum each reading is compared with. */
  const PhOptimal: real := 6.5
  const NitrogenOptimal: real := 50.0
  const PhosphorusOptimal: real := 25.0
  const PotassiumOptimal: real := 150.0

  function Abs(x: real): real { if x < 0.0 then -x else x }

  /** Relative distance of a reading from its optimum. */
  function Deviation(value: real, optimal: real): (d: real)
    requires optimal > 0.0
    ensures d >= 0.0
  {
    Abs(value - optimal) / optimal
  }

  /** The colour band: within 10% green, within 30% yellow, else red. */
  function HealthTone(value: real, optimal: real): (r: Tone)
    requires optimal > 0.0
    ensures r == Green <==> Abs(value - optimal) < optimal / 10.0
    ensures r == Yellow <==> optimal / 10.0 <= Abs(value - optimal) < 3.0 * optimal / 10.0
    ensures r == Red <==> Abs(value - optimal) >= 3.0 * optimal / 10.0
  {
    var diff := Deviation(value, optimal);
    DeviationScaled(value, optimal, 0.1);
    DeviationScaled(value, optimal, 0.3);
    if diff < 0.1 then Green
    else if diff < 0.3 then Yellow
    else Red
  }

  /** Comparing the relative deviation with a bound is comparing the absolute
      deviation with that share of the optimum. */
  lemma DeviationScaled(value: real, optimal: real, bound: real)
    requires optimal > 0.0
    ensures Deviation(value, optimal) < bound <==> Abs(value - optimal) < bound * optimal
  {
    var a := Abs(value - optimal);
    assert Deviation(value, optimal) * optimal == a;
  }

  function Rank(t: Tone): nat
  {
    match t
    case Green => 0
    case Yellow => 1
    case Red => 2
    case Gray => 3
  }

  /** The band never improves as a reading moves further from its optimum. */
  lemma FartherIsNoBetter(v1: real, v2: real, optimal: real)
    requires optimal > 0.0
    requires Abs(v1 - optimal) <= Abs(v2 - optimal)
    ensures Rank(HealthTone(v1, optimal)) <= Rank(HealthTone(v2, optimal))
  {
  }

  /** Readings the same distance above and below the optimum share a band,
      and the optimum itself is green. */
  lemma SymmetricBands(optimal: real, d: real)
    requires optimal > 0.0
    ensures HealthTone(optimal + d, optimal) == HealthTone(optimal - d, optimal)
    ensures HealthTone(optimal, optimal) == Green
  {
  }

  /** The card's soil report. Organic matter is carried but never coloured. */
  datatype SoilData = SoilData(ph: real, nitrogen: real, phosphorus: real, potassium: real,
                               organicMatter: real, recommendations: seq<string>)

  /** The colours of the four tiles: pH, N, P and K, each against its own
      optimum. A tile is green within a tenth of its optimum and red from
      three tenths on. */
  function ReadingTones(d: SoilData): (r: seq<Tone>)
    ensures |r| == 4
    ensures forall i :: 0 <= i < 4 ==> r[i] != Gray
    ensures r[0] == Green <==> Abs(d.ph - 6.5) < 0.65
    ensures r[0] == Red <==> Abs(d.ph - 6.5) >= 1.95
    ensures r[1] == Green <==> Abs(d.nitrogen - 50.0) < 5.0
    ensures r[1] == Red <==> Abs(d.nitrogen - 50.0) >= 15.0
    ensures r[2] == Green <==> Abs(d.phosphorus - 25.0) < 2.5
    ensures r[2] == Red <==> Abs(d.phosphorus - 25.0) >= 7.5
    ensures r[3] == Green <==> Abs(d.potassium - 150.0) < 15.0
    ensures r[3] == Red <==> Abs(d.potassium - 150.0) >= 45.0
  {
    [HealthTone(d.ph, PhOptimal), HealthTone(d.nitrogen, NitrogenOptimal),
     HealthTone(d.phosphorus, PhosphorusOptimal), HealthTone(d.potassium, PotassiumOptimal)]
  }

  /** A report at every optimum shows four green tiles, whatever its organic
      matter and recommendations. */
  lemma OptimaAllGreen(organicMatter: real, recommendations: seq<string>)
    ensures ReadingTones(SoilData(PhOptimal, NitrogenOptimal, PhosphorusOptimal, PotassiumOptimal,
                                  organicMatter, recommendations)) == [Green, Green, Green, Green]
  {
  }

  /** The speak button reads the recommendations out as one text. */
  datatype SoilEffect = Speak(text: string)

  function SpeakRecommendations(recommendations: seq<string>, synthesisAvailable: bool)
    : (r: seq<SoilEffect>)
    ensures |r| <= 1
    ensures |r| == 1 <==> synthesisAvailable
    ensures |r| == 1 ==> r[0].text == SpokenText(recommendations)
  {
    if synthesisAvailable then [Speak(SpokenText(recommendations))] else []
  }

  /** The upload panel button flips the panel; pressing twice restores it. */
  function ToggleUpload(shown: bool): (r: bool)
    ensures r != shown
  {
    !shown
  }

  lemma ToggleTwiceRestores(shown: bool)
    ensures ToggleUpload(ToggleUpload(shown)) == shown
  {
  }
}
