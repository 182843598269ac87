/** The physics analysis panel (components/AnalysisPanel.tsx): the Fresnel number of
    the current parameters selects a regime, an explanation and a colour class, and
    the regime's label is split at its first parenthesis into a header and a
    subtitle. */
module AnalysisPanel {
  import opened Types
  import Physics

  /** The CSS class of the regime badge. Yellow is only the initial value. */
  datatype ColorClass = Yellow | Green | Cyan | Red
  {
    function Name(): string
    {
      match this
      case Yellow => "text-yellow-400"
      case Green => "text-green-400"
      case Cyan => "text-cyan-400"
      case Red => "text-red-400"
    }
  }

  /** Which of the panel's three explanatory paragraphs is shown (NoText: the
      initial empty string). */
  datatype Explanation = NoText | ParallelRays | GeometricShadow | NearFieldDip

  /** What the panel derives from the Fresnel number. */
  datatype Analysis = Analysis(regime: Regime, explanation: Explanation, colorClass: ColorClass)

  /** The values the panel's locals hold before the if-chain runs. */
  const Initial: Analysis := Analysis(Transition, NoText, Yellow)

  /** The if-chain on F. Its middle branch reports the Fresnel regime as well, so
      the transition regime is never produced. */
  function Classify(f: real): (a: Analysis)
    ensures a.regime != Transition
    ensures a.regime == Fraunhofer <==> f < 0.1
    ensures a.regime == Fresnel <==> f >= 0.1
    ensures a.colorClass == Green <==> f < 0.1
    ensures a.colorClass == Red <==> f > 10.0
    ensures a.colorClass == Cyan <==> 0.1 <= f <= 10.0
    ensures a.regime != Initial.regime && a.explanation != Initial.explanation && a.colorClass != Initial.colorClass
  {
    if f < 0.1 then Analysis(Fraunhofer, ParallelRays, Green)
    else if f > 10.0 then Analysis(Fresnel, GeometricShadow, Red)
    else Analysis(Fresnel, NearFieldDip, Cyan)
  }

  /** Both boundary values 0.1 and 10 fall in the middle (cyan) branch. */
  lemma BoundariesAreCyan()
    ensures Classify(0.1) == Analysis(Fresnel, NearFieldDip, Cyan)
    ensures Classify(10.0) == Analysis(Fresnel, NearFieldDip, Cyan)
  {
  }

  /** The colour class is monotone in F: green, then cyan, then red as F grows. */
  lemma ClassifyMonotone(f1: real, f2: real)
    requires f1 <= f2
    ensures Classify(f2).colorClass == Green ==> Classify(f1).colorClass == Green
    ensures Classify(f1).colorClass == Red ==> Classify(f2).colorClass == Red
    ensures Classify(f1).colorClass == Cyan ==> Classify(f2).colorClass != Green
    ensures Classify(f2).colorClass == Cyan ==> Classify(f1).colorClass != Red
  {
  }

  /** The panel for a parameter set: classify its Fresnel number. */
  function Analyze(p: DiffractionParams): Analysis
    requires p.wavelength > 0.0 && p.distance > 0.0
  {
    Classify(Physics.CalculateFresnelNumber(p.wavelength, p.slitWidth, p.distance))
  }

  /** The application's starting parameters give F = 8/55, the near-field case. */
  lemma DefaultIsNearField()
    ensures Analyze(DefaultParams) == Analysis(Fresnel, NearFieldDip, Cyan)
  {
    Physics.DefaultFresnelNumber();
  }

  /** Moving the screen away never moves the badge up from green towards red. */
  lemma FartherScreenNeverRaisesClass(p: DiffractionParams, z: real)
    requires p.wavelength > 0.0 && p.slitWidth > 0.0 && p.distance > 0.0 && z > p.distance
    ensures Analyze(p).colorClass == Green ==> Analyze(p.(distance := z)).colorClass == Green
    ensures Analyze(p.(distance := z)).colorClass == Red ==> Analyze(p).colorClass == Red
  {
    Physics.FresnelNumberDecreasingInDistance(p.wavelength, p.slitWidth, p.distance, z);
    ClassifyMonotone(Physics.CalculateFresnelNumber(p.wavelength, p.slitWidth, z),
                     Physics.CalculateFresnelNumber(p.wavelength, p.slitWidth, p.distance));
  }

  /** Each of the three badge colours is reachable with the sliders. */
  lemma EveryClassReachable()
    ensures InSliderRange(DiffractionParams(700.0, 50.0, 2.0))
    ensures Analyze(DiffractionParams(700.0, 50.0, 2.0)).colorClass == Green
    ensures InSliderRange(DiffractionParams(400.0, 500.0, 0.01))
    ensures Analyze(DiffractionParams(400.0, 500.0, 0.01)).colorClass == Red
    ensures InSliderRange(DefaultParams) && Analyze(DefaultParams).colorClass == Cyan
  {
    assert Physics.CalculateFresnelNumber(700.0, 50.0, 2.0) == 1.0 / 560.0;
    assert Physics.CalculateFresnelNumber(400.0, 500.0, 0.01) == 62.5;
    DefaultIsNearField();
  }

  // ---------------------------------------------------------------------------
  // Splitting the regime label
  // ---------------------------------------------------------------------------

  /** The first piece of a split at c: the longest prefix of s without c. */
  function TakeUntil(s: string, c: char): (r: string)
    ensures r <= s
    ensures c !in r
    ensures |r| == |s| || s[|r|] == c
  {
    if |s| == 0 then []
    else if s[0] == c then []
    else [s[0]] + TakeUntil(s[1..], c)
  }

  /** Everything after the first c, or nothing when s has no c. */
  function DropThrough(s: string, c: char): (r: string)
    ensures c in s ==> s == TakeUntil(s, c) + [c] + r
    ensures c !in s ==> r == []
  {
    if |s| == 0 then []
    else if s[0] == c then s[1..]
    else DropThrough(s[1..], c)
  }

  /** `replace` with a one-character pattern: removes only the first c. */
  function RemoveFirst(s: string, c: char): (r: string)
    ensures c !in s ==> r == s
    ensures c in s ==> r == TakeUntil(s, c) + DropThrough(s, c)
  {
    if |s| == 0 then []
    else if s[0] == c then s[1..]
    else [s[0]] + RemoveFirst(s[1..], c)
  }

  /** The badge's main line: the label up to its first '('. */
  function Header(text: string): string
  {
    TakeUntil(text, '(')
  }

  /** The badge's second line: the second piece of the split at '(' with the first
      ')' removed, or empty when the label has no '('. */
  function Subtitle(text: string): string
  {
    if '(' in text then RemoveFirst(TakeUntil(DropThrough(text, '('), '('), ')') else ""
  }

  /** A string without c is its own longest c-free prefix. */
  lemma TakeUntilAbsent(s: string, c: char)
    requires c !in s
    ensures TakeUntil(s, c) == s
  {
    assert |TakeUntil(s, c)| == |s|;
  }

  /** The split finds the first c of h + [c] + rest exactly at the end of h. */
  lemma {:induction false} SplitAtFirst(h: string, c: char, rest: string)
    requires c !in h
    ensures TakeUntil(h + [c] + rest, c) == h
    ensures DropThrough(h + [c] + rest, c) == rest
  {
    if |h| > 0 {
      assert (h + [c] + rest)[1..] == h[1..] + [c] + rest;
      SplitAtFirst(h[1..], c, rest);
    } else {
      assert h + [c] + rest == [c] + rest;
    }
  }

  /** A label of the form "header(subtitle)" splits back into its two parts. */
  lemma {:induction false} LabelSplitRoundTrip(h: string, t: string)
    requires '(' !in h && '(' !in t && ')' !in t
    ensures Header(h + "(" + t + ")") == h
    ensures Subtitle(h + "(" + t + ")") == t
  {
    var text := h + "(" + t + ")";
    assert text == h + ['('] + (t + ")");
    SplitAtFirst(h, '(', t + ")");
    assert '(' in text by { assert text[|h|] == '('; }
    TakeUntilAbsent(t + ")", '(');
    SplitAtFirst(t, ')', []);
    assert t + ")" == t + [')'] + [];
  }

  /** A label without '(' is shown whole, with an empty subtitle. */
  lemma PlainLabel(text: string)
    requires '(' !in text
    ensures Header(text) == text && Subtitle(text) == ""
  {
    TakeUntilAbsent(text, '(');
  }

  /** The near-field label shows its Chinese name over "near field". */
  lemma FresnelBadge()
    ensures Header(Fresnel.Label()) == "菲涅尔 " && Subtitle(Fresnel.Label()) == "近场"
  {
    assert Fresnel.Label() == "菲涅尔 " + "(" + "近场" + ")";
    LabelSplitRoundTrip("菲涅尔 ", "近场");
  }

  /** The far-field label shows its Chinese name over "far field". */
  lemma FraunhoferBadge()
    ensures Header(Fraunhofer.Label()) == "夫琅禾费 " && Subtitle(Fraunhofer.Label()) == "远场"
  {
    assert Fraunhofer.Label() == "夫琅禾费 " + "(" + "远场" + ")";
    LabelSplitRoundTrip("夫琅禾费 ", "远场");
  }

  /** The transition label has no parenthesis: it is shown whole, without subtitle. */
  lemma TransitionBadge()
    ensures Header(Transition.Label()) == "过渡区域" && Subtitle(Transition.Label()) == ""
  {
    PlainLabel(Transition.Label());
  }

  /** Whatever F is, the badge has a non-empty subtitle. */
  lemma SubtitleNeverEmpty(f: real)
    ensures Subtitle(Classify(f).regime.Label()) != ""
    ensures Header(Classify(f).regime.Label()) != ""
  {
    FresnelBadge();
    FraunhoferBadge();
  }
}
