/** The numerical core of the visualiser (utils/physics.ts): the fixed-step
    quadrature of the Fresnel integrals, the two intensity models, the Fresnel
    number and the wavelength-to-colour table. All arithmetic is over exact reals;
    the transcendental functions come from a `Maths.Library`. */
module Physics {
  import opened Maths

  // ---------------------------------------------------------------------------
  // Fresnel integrals C(u), S(u) by the trapezoidal rule
  // ---------------------------------------------------------------------------

  /** Number of sub-intervals of [0, u]; the quadrature reads Steps + 1 samples. */
  const Steps: nat := 100

  datatype FresnelPair = FresnelPair(c: real, s: real)

  /** Trapezoidal weight of sample i: one half at both ends, one inside. */
  function Weight(i: nat): real
  {
    if i == 0 || i == Steps then 0.5 else 1.0
  }

  /** The integrand's argument pi t^2 / 2 at t. */
  function Argument(m: Library, t: real): real
  {
    m.pi * t * t / 2.0
  }

  /** The weighted value of f at sample i of a grid with step dt. */
  function Sample(m: Library, f: real -> real, dt: real, i: nat): real
  {
    Weight(i) * f(Argument(m, i as real * dt))
  }

  /** The sum of samples 0 .. n-1, accumulated in the order the loop visits them. */
  function WeightedSum(m: Library, f: real -> real, dt: real, n: nat): real
  {
    if n == 0 then 0.0 else WeightedSum(m, f, dt, n - 1) + Sample(m, f, dt, n - 1)
  }

  /** One integral over [0, u]: all Steps + 1 weighted samples of f, times the step. */
  function ScaledSum(m: Library, f: real -> real, u: real): real
  {
    var dt := u / Steps as real;
    WeightedSum(m, f, dt, Steps + 1) * dt
  }

  /** The value the quadrature loop computes for upper bound u. */
  function Quadrature(m: Library, u: real): FresnelPair
  {
    FresnelPair(ScaledSum(m, m.cos, u), ScaledSum(m, m.sin, u))
  }

  /** The quadrature loop: 101 samples of cos and sin of pi t^2 / 2, weighted and
      summed, then both sums scaled by the step. */
  method IntegrateFresnel(m: Library, u: real) returns (r: FresnelPair)
    ensures r == Quadrature(m, u)
    ensures TrigBounded(m) ==> Abs(r.c) <= Abs(u) && Abs(r.s) <= Abs(u)
  {
    var c, s := 0.0, 0.0;
    var dt := u / Steps as real;
    for i := 0 to Steps + 1
      invariant c == WeightedSum(m, m.cos, dt, i)
      invariant s == WeightedSum(m, m.sin, dt, i)
    {
      var t := i as real * dt;
      var weight := if i == 0 || i == Steps then 0.5 else 1.0;
      var argument := m.pi * t * t / 2.0;
      assert weight == Weight(i) && argument == Argument(m, t);
      SampleValue(m, m.cos, dt, i, weight, argument);
      SampleValue(m, m.sin, dt, i, weight, argument);
      c := c + weight * m.cos(argument);
      s := s + weight * m.sin(argument);
    }
    r := FresnelPair(c * dt, s * dt);
    if TrigBounded(m) {
      QuadratureBounded(m, u);
    }
  }

  /** The loop's weight and argument for sample i are those of Sample. */
  lemma SampleValue(m: Library, f: real -> real, dt: real, i: nat, weight: real, argument: real)
    requires weight == Weight(i) && argument == Argument(m, i as real * dt)
    ensures Sample(m, f, dt, i) == weight * f(argument)
  {
  }

  /** At u = 0 the step is zero, so both integrals are exactly zero. */
  lemma QuadratureAtZero(m: Library)
    ensures Quadrature(m, 0.0) == FresnelPair(0.0, 0.0)
  {
  }

  /** Negating the step leaves every sample unchanged, since samples depend on t^2 only. */
  lemma {:induction false} WeightedSumEvenInStep(m: Library, f: real -> real, dt: real, n: nat)
    ensures WeightedSum(m, f, -dt, n) == WeightedSum(m, f, dt, n)
  {
    if n > 0 {
      WeightedSumEvenInStep(m, f, dt, n - 1);
      var t := (n - 1) as real * dt;
      assert (n - 1) as real * -dt == -t;
      assert m.pi * -t * -t == m.pi * t * t;
      assert Sample(m, f, -dt, n - 1) == Sample(m, f, dt, n - 1);
    }
  }

  /** The quadrature is odd in its upper bound: C(-u) = -C(u) and S(-u) = -S(u). */
  lemma QuadratureOdd(m: Library, u: real)
    ensures Quadrature(m, -u) == FresnelPair(-Quadrature(m, u).c, -Quadrature(m, u).s)
  {
    var dt := u / Steps as real;
    assert -u / Steps as real == -dt;
    WeightedSumEvenInStep(m, m.cos, dt, Steps + 1);
    WeightedSumEvenInStep(m, m.sin, dt, Steps + 1);
  }

  /** The sum of the first n trapezoidal weights. */
  function TotalWeight(n: nat): real
  {
    if n == 0 then 0.0 else TotalWeight(n - 1) + Weight(n - 1)
  }

  /** Interior prefixes weigh n - 1/2; all 101 samples weigh exactly Steps. */
  lemma {:induction false} TotalWeightValue(n: nat)
    requires 1 <= n <= Steps + 1
    ensures TotalWeight(n) == if n == Steps + 1 then Steps as real else n as real - 0.5
  {
    if n > 1 {
      TotalWeightValue(n - 1);
    }
  }

  /** A sum of samples of a function bounded by 1 is bounded by the sum of the weights. */
  lemma {:induction false} WeightedSumBounded(m: Library, f: real -> real, dt: real, n: nat)
    requires forall y :: -1.0 <= f(y) <= 1.0
    ensures Abs(WeightedSum(m, f, dt, n)) <= TotalWeight(n)
  {
    if n > 0 {
      WeightedSumBounded(m, f, dt, n - 1);
      var y := f(Argument(m, (n - 1) as real * dt));
      assert -1.0 <= y <= 1.0;
      assert Weight(n - 1) == 0.5 || Weight(n - 1) == 1.0;
      assert -Weight(n - 1) <= Sample(m, f, dt, n - 1) <= Weight(n - 1);
    }
  }

  lemma ScaledBound(x: real, bound: real, d: real)
    requires Abs(x) <= bound
    ensures Abs(x * d) <= bound * Abs(d)
  {
    if d >= 0.0 {
      if x >= 0.0 {
        assert x * d <= bound * d;
      } else {
        assert -x * d <= bound * d;
      }
    } else {
      if x >= 0.0 {
        assert x * -d <= bound * -d;
      } else {
        assert -x * -d <= bound * -d;
      }
    }
  }

  /** With |sin|, |cos| <= 1 the weights total Steps, so |C(u)| <= |u| and |S(u)| <= |u|. */
  lemma QuadratureBounded(m: Library, u: real)
    requires TrigBounded(m)
    ensures Abs(Quadrature(m, u).c) <= Abs(u) && Abs(Quadrature(m, u).s) <= Abs(u)
  {
    ScaledSumBounded(m, m.cos, u);
    ScaledSumBounded(m, m.sin, u);
  }

  /** One integral of an integrand bounded by 1 over [0, u] is bounded by |u|. */
  lemma ScaledSumBounded(m: Library, f: real -> real, u: real)
    requires forall y :: -1.0 <= f(y) <= 1.0
    ensures Abs(ScaledSum(m, f, u)) <= Abs(u)
  {
    var dt := u / Steps as real;
    FullSumBounded(m, f, dt, Steps + 1);
    StepScaling(WeightedSum(m, f, dt, Steps + 1), u, dt);
  }

  /** All Steps + 1 samples of an integrand bounded by 1 sum to at most Steps. */
  lemma FullSumBounded(m: Library, f: real -> real, dt: real, n: nat)
    requires forall y :: -1.0 <= f(y) <= 1.0
    requires n == Steps + 1
    ensures Abs(WeightedSum(m, f, dt, n)) <= Steps as real
  {
    TotalWeightValue(n);
    WeightedSumBounded(m, f, dt, n);
  }

  /** A sum bounded by the total weight Steps, scaled by the step u / Steps, is bounded by |u|. */
  lemma StepScaling(sum: real, u: real, dt: real)
    requires Abs(sum) <= Steps as real
    requires dt == u / Steps as real
    ensures Abs(sum * dt) <= Abs(u)
  {
    ScaledBound(sum, Steps as real, dt);
    assert Steps as real * Abs(dt) == Abs(u);
  }

  // ---------------------------------------------------------------------------
  // Intensity at one screen position
  // ---------------------------------------------------------------------------

  /** Fraunhofer and (unnormalised) Fresnel intensity at one screen position. */
  datatype Intensity = Intensity(fraunhofer: real, fresnel: real)

  const NanometreInMetres: real := 0.000000001
  const MicrometreInMetres: real := 0.000001
  const MillimetreInMetres: real := 0.001

  /** The far-field sinc^2 intensity, pinned to 1 at the exact centre of the screen. */
  function Fraunhofer(m: Library, xMm: real, wavelengthNm: real, slitWidthUm: real, distanceM: real): (r: real)
    requires wavelengthNm > 0.0 && slitWidthUm > 0.0 && distanceM > 0.0 && m.pi > 0.0
    ensures xMm == 0.0 ==> r == 1.0
    ensures r >= 0.0
  {
    var x := xMm * MillimetreInMetres;
    if x == 0.0 then 1.0
    else SincSquared(m, Beta(m, xMm, wavelengthNm, slitWidthUm, distanceM))
  }

  /** beta = pi a x / (lambda z), in metres; nonzero away from the centre. */
  function Beta(m: Library, xMm: real, wavelengthNm: real, slitWidthUm: real, distanceM: real): (beta: real)
    requires wavelengthNm > 0.0 && slitWidthUm > 0.0 && distanceM > 0.0 && m.pi > 0.0
    ensures xMm != 0.0 ==> beta != 0.0
  {
    var lambda := wavelengthNm * NanometreInMetres;
    var a := slitWidthUm * MicrometreInMetres;
    var z := distanceM;
    var x := xMm * MillimetreInMetres;
    (m.pi * a * x) / (lambda * z)
  }

  /** (sin(beta) / beta)^2 for beta != 0. */
  function SincSquared(m: Library, beta: real): (r: real)
    requires beta != 0.0
    ensures r >= 0.0
  {
    var sinc := m.sin(beta) / beta;
    SquareSign(sinc);
    Square(sinc)
  }

  /** The two Cornu-spiral parameters v1 = k (x - a/2) and v2 = k (x + a/2),
      with k = sqrt(2 / (lambda z)). */
  function CornuBounds(m: Library, xMm: real, wavelengthNm: real, slitWidthUm: real, distanceM: real): (real, real)
    requires wavelengthNm > 0.0 && distanceM > 0.0
  {
    var lambda := wavelengthNm * NanometreInMetres;
    var a := slitWidthUm * MicrometreInMetres;
    var z := distanceM;
    var x := xMm * MillimetreInMetres;
    var k := m.sqrt(2.0 / (lambda * z));
    (k * (x - a / 2.0), k * (x + a / 2.0))
  }

  /** Half the squared length of the Cornu-spiral chord between v1 and v2. */
  function FresnelRaw(m: Library, xMm: real, wavelengthNm: real, slitWidthUm: real, distanceM: real): (r: real)
    requires wavelengthNm > 0.0 && distanceM > 0.0
    ensures r >= 0.0
  {
    var (v1, v2) := CornuBounds(m, xMm, wavelengthNm, slitWidthUm, distanceM);
    var int1 := Quadrature(m, v1);
    var int2 := Quadrature(m, v2);
    var dC := int2.c - int1.c;
    var dS := int2.s - int1.s;
    SquareSign(dC);
    SquareSign(dS);
    0.5 * (Square(dC) + Square(dS))
  }

  /** Both intensity models at screen position xMm (millimetres). */
  function CalculateIntensity(m: Library, xMm: real, wavelengthNm: real, slitWidthUm: real, distanceM: real): (r: Intensity)
    requires wavelengthNm > 0.0 && slitWidthUm > 0.0 && distanceM > 0.0 && m.pi > 0.0
    ensures xMm == 0.0 ==> r.fraunhofer == 1.0
    ensures r.fraunhofer >= 0.0 && r.fresnel >= 0.0
  {
    Intensity(Fraunhofer(m, xMm, wavelengthNm, slitWidthUm, distanceM),
              FresnelRaw(m, xMm, wavelengthNm, slitWidthUm, distanceM))
  }

  /** Mirroring the position swaps the two Cornu parameters and negates them. */
  lemma CornuBoundsMirror(m: Library, xMm: real, wavelengthNm: real, slitWidthUm: real, distanceM: real)
    requires wavelengthNm > 0.0 && distanceM > 0.0
    ensures CornuBounds(m, -xMm, wavelengthNm, slitWidthUm, distanceM).0 == -CornuBounds(m, xMm, wavelengthNm, slitWidthUm, distanceM).1
    ensures CornuBounds(m, -xMm, wavelengthNm, slitWidthUm, distanceM).1 == -CornuBounds(m, xMm, wavelengthNm, slitWidthUm, distanceM).0
  {
    var lambda := wavelengthNm * NanometreInMetres;
    var a := slitWidthUm * MicrometreInMetres;
    var x := xMm * MillimetreInMetres;
    var k := m.sqrt(2.0 / (lambda * distanceM));
    assert -xMm * MillimetreInMetres == -x;
    assert k * (-x - a / 2.0) == -(k * (x + a / 2.0));
    assert k * (-x + a / 2.0) == -(k * (x - a / 2.0));
  }

  /** The Fresnel intensity is symmetric about the centre of the screen. */
  lemma FresnelEven(m: Library, xMm: real, wavelengthNm: real, slitWidthUm: real, distanceM: real)
    requires wavelengthNm > 0.0 && distanceM > 0.0
    ensures FresnelRaw(m, -xMm, wavelengthNm, slitWidthUm, distanceM) == FresnelRaw(m, xMm, wavelengthNm, slitWidthUm, distanceM)
  {
    var (v1, v2) := CornuBounds(m, xMm, wavelengthNm, slitWidthUm, distanceM);
    CornuBoundsMirror(m, xMm, wavelengthNm, slitWidthUm, distanceM);
    QuadratureOdd(m, v1);
    QuadratureOdd(m, v2);
    var i1, i2 := Quadrature(m, v1), Quadrature(m, v2);
    var dC, dS := i2.c - i1.c, i2.s - i1.s;
    assert -i1.c - -i2.c == dC && -i1.s - -i2.s == dS;
  }

  /** With an odd sine, sinc^2 is even. */
  lemma SincSquaredEven(m: Library, beta: real)
    requires beta != 0.0 && SinOdd(m)
    ensures SincSquared(m, -beta) == SincSquared(m, beta)
  {
    assert m.sin(-beta) == -m.sin(beta);
    assert m.sin(-beta) / -beta == m.sin(beta) / beta;
  }

  /** Mirroring the position negates beta. */
  lemma BetaOdd(m: Library, xMm: real, wavelengthNm: real, slitWidthUm: real, distanceM: real)
    requires wavelengthNm > 0.0 && slitWidthUm > 0.0 && distanceM > 0.0 && m.pi > 0.0
    ensures Beta(m, -xMm, wavelengthNm, slitWidthUm, distanceM) == -Beta(m, xMm, wavelengthNm, slitWidthUm, distanceM)
  {
    var lambda := wavelengthNm * NanometreInMetres;
    var a := slitWidthUm * MicrometreInMetres;
    var x := xMm * MillimetreInMetres;
    assert -xMm * MillimetreInMetres == -x;
    assert m.pi * a * -x == -(m.pi * a * x);
  }

  /** With an odd sine the Fraunhofer intensity is symmetric about the centre too. */
  lemma FraunhoferEven(m: Library, xMm: real, wavelengthNm: real, slitWidthUm: real, distanceM: real)
    requires wavelengthNm > 0.0 && slitWidthUm > 0.0 && distanceM > 0.0 && m.pi > 0.0
    requires SinOdd(m)
    ensures Fraunhofer(m, -xMm, wavelengthNm, slitWidthUm, distanceM) == Fraunhofer(m, xMm, wavelengthNm, slitWidthUm, distanceM)
  {
    if xMm != 0.0 {
      BetaOdd(m, xMm, wavelengthNm, slitWidthUm, distanceM);
      SincSquaredEven(m, Beta(m, xMm, wavelengthNm, slitWidthUm, distanceM));
    }
  }

  /** With |sin y| <= |y|, sinc^2 never exceeds 1. */
  lemma SincSquaredAtMostOne(m: Library, beta: real)
    requires beta != 0.0 && SinBelowIdentity(m)
    ensures SincSquared(m, beta) <= 1.0
  {
    assert Abs(m.sin(beta)) <= Abs(beta);
    UnitRatio(m.sin(beta), beta);
    SquareAtMostOne(m.sin(beta) / beta);
  }

  /** With |sin y| <= |y| the Fraunhofer intensity never exceeds its central value 1. */
  lemma FraunhoferAtMostOne(m: Library, xMm: real, wavelengthNm: real, slitWidthUm: real, distanceM: real)
    requires wavelengthNm > 0.0 && slitWidthUm > 0.0 && distanceM > 0.0 && m.pi > 0.0
    requires SinBelowIdentity(m)
    ensures Fraunhofer(m, xMm, wavelengthNm, slitWidthUm, distanceM) <= 1.0
  {
    if xMm != 0.0 {
      SincSquaredAtMostOne(m, Beta(m, xMm, wavelengthNm, slitWidthUm, distanceM));
    }
  }

  lemma UnitRatio(num: real, den: real)
    requires den != 0.0 && Abs(num) <= Abs(den)
    ensures -1.0 <= num / den <= 1.0
  {
    var q := num / den;
    assert q * den == num;
  }

  // ---------------------------------------------------------------------------
  // Fresnel number
  // ---------------------------------------------------------------------------

  /** F = a^2 / (z lambda) after converting to metres. Stated in the panel's own
      units, F = a^2 / (z lambda) * 1e-3, so it is positive for any nonzero slit. */
  function CalculateFresnelNumber(wavelengthNm: real, slitWidthUm: real, distanceM: real): (f: real)
    requires wavelengthNm > 0.0 && distanceM > 0.0
    ensures f == Square(slitWidthUm) / (distanceM * wavelengthNm) * 0.001
    ensures slitWidthUm != 0.0 ==> f > 0.0
  {
    var a := slitWidthUm * MicrometreInMetres;
    var z := distanceM;
    var lambda := wavelengthNm * NanometreInMetres;
    FresnelUnits(slitWidthUm, distanceM, wavelengthNm);
    Square(a) / (z * lambda)
  }

  /** Converting to metres scales a^2 / (z lambda) by 1e-12 / 1e-9 = 1e-3. */
  lemma FresnelUnits(aUm: real, z: real, lambdaNm: real)
    requires z > 0.0 && lambdaNm > 0.0
    ensures Square(aUm * MicrometreInMetres) / (z * (lambdaNm * NanometreInMetres))
            == Square(aUm) / (z * lambdaNm) * 0.001
    ensures aUm != 0.0 ==> Square(aUm) / (z * lambdaNm) * 0.001 > 0.0
  {
    var d := z * lambdaNm;
    ProductPositive(z, lambdaNm);
    SquareScale(aUm);
    assert z * (lambdaNm * NanometreInMetres) == d * NanometreInMetres;
    QuotientScale(Square(aUm), d);
    if aUm != 0.0 {
      SquareSign(aUm);
      QuotientPositive(Square(aUm), d);
    }
  }

  lemma SquareScale(x: real)
    ensures Square(x * MicrometreInMetres) == Square(x) * 0.000000000001
  {
  }

  lemma QuotientScale(n: real, d: real)
    requires d > 0.0
    ensures (n * 0.000000000001) / (d * 0.000000001) == n / d * 0.001
  {
    var q := n / d;
    assert q * d == n;
    assert (q * 0.001) * (d * 0.000000001) == q * d * 0.000000000001;
  }

  lemma ProductPositive(x: real, y: real)
    requires x > 0.0 && y > 0.0
    ensures x * y > 0.0
  {
    assert x * y > 0.0 * y;
  }

  lemma QuotientPositive(n: real, d: real)
    requires n > 0.0 && d > 0.0
    ensures n / d > 0.0
  {
    var q := n / d;
    assert q * d == n;
  }

  /** Moving the screen further away strictly lowers the Fresnel number. */
  lemma FresnelNumberDecreasingInDistance(wavelengthNm: real, slitWidthUm: real, z1: real, z2: real)
    requires wavelengthNm > 0.0 && slitWidthUm > 0.0 && 0.0 < z1 < z2
    ensures CalculateFresnelNumber(wavelengthNm, slitWidthUm, z1) > CalculateFresnelNumber(wavelengthNm, slitWidthUm, z2)
  {
    ProductPositive(z1, wavelengthNm);
    ProductLess(z1, z2, wavelengthNm);
    SquareSign(slitWidthUm);
    QuotientAntitone(Square(slitWidthUm), z1 * wavelengthNm, z2 * wavelengthNm);
  }

  lemma ProductLess(x: real, y: real, c: real)
    requires x < y && c > 0.0
    ensures x * c < y * c
  {
  }

  lemma QuotientAntitone(n: real, d1: real, d2: real)
    requires n > 0.0 && 0.0 < d1 < d2
    ensures n / d1 > n / d2
  {
    var q1, q2 := n / d1, n / d2;
    assert q1 * d1 == n && q2 * d2 == n;
    QuotientPositive(n, d2);
    assert q2 * d1 < q2 * d2;
  }

  /** The default parameters (550 nm, 200 um, 0.5 m) give F = 8/55, about 0.145. */
  lemma DefaultFresnelNumber()
    ensures CalculateFresnelNumber(550.0, 200.0, 0.5) == 8.0 / 55.0
  {
  }

  // ---------------------------------------------------------------------------
  // Wavelength to display colour
  // ---------------------------------------------------------------------------

  /** The edges of the six colour bands, in nanometres. Band k is [Edges[k], Edges[k+1]). */
  const BandEdges: seq<real> := [380.0, 440.0, 490.0, 510.0, 580.0, 645.0, 781.0]

  predicate InBand(w: real, k: nat)
    requires k < 6
  {
    BandEdges[k] <= w < BandEdges[k + 1]
  }

  /** Each visible wavelength lies in exactly one band, and nothing else lies in any. */
  lemma BandsPartitionVisible(w: real)
    ensures 380.0 <= w < 781.0 <==> exists k :: 0 <= k < 6 && InBand(w, k)
    ensures forall j, k :: 0 <= j < 6 && 0 <= k < 6 && InBand(w, j) && InBand(w, k) ==> j == k
  {
    if 380.0 <= w < 781.0 {
      var k := if w < 440.0 then 0 else if w < 490.0 then 1 else if w < 510.0 then 2
               else if w < 580.0 then 3 else if w < 645.0 then 4 else 5;
      assert InBand(w, k);
    }
  }

  /** Red, green and blue, each on the unit scale. */
  datatype UnitRgb = UnitRgb(r: real, g: real, b: real)

  /** The band table: in each band one channel ramps linearly and the others are 0 or 1. */
  function BandChannels(w: real): (c: UnitRgb)
    ensures 0.0 <= c.r <= 1.0 && 0.0 <= c.g <= 1.0 && 0.0 <= c.b <= 1.0
    ensures !(380.0 <= w < 781.0) ==> c == UnitRgb(0.0, 0.0, 0.0)
  {
    if InBand(w, 0) then UnitRgb(-(w - 440.0) / (440.0 - 380.0), 0.0, 1.0)
    else if InBand(w, 1) then UnitRgb(0.0, (w - 440.0) / (490.0 - 440.0), 1.0)
    else if InBand(w, 2) then UnitRgb(0.0, 1.0, -(w - 510.0) / (510.0 - 490.0))
    else if InBand(w, 3) then UnitRgb((w - 510.0) / (580.0 - 510.0), 1.0, 0.0)
    else if InBand(w, 4) then UnitRgb(1.0, -(w - 645.0) / (645.0 - 580.0), 0.0)
    else if InBand(w, 5) then UnitRgb(1.0, 0.0, 0.0)
    else UnitRgb(0.0, 0.0, 0.0)
  }

  /** The opacity taper: 0.3 to 1 over [380, 420), 1 up to 701, 1 to 0.3 over [701, 781). */
  function AlphaTaper(w: real): (alpha: real)
    ensures 380.0 <= w < 781.0 ==> 0.3 <= alpha <= 1.0
    ensures !(380.0 <= w < 781.0) ==> alpha == 0.0
    ensures 420.0 <= w < 701.0 ==> alpha == 1.0
  {
    if 380.0 <= w < 420.0 then 0.3 + 0.7 * (w - 380.0) / (420.0 - 380.0)
    else if 420.0 <= w < 701.0 then 1.0
    else if 701.0 <= w < 781.0 then 0.3 + 0.7 * (781.0 - w) / (781.0 - 701.0)
    else 0.0
  }

  /** A display colour: channels 0-255, opacity 0-1. */
  datatype Rgba = Rgba(r: int, g: int, b: int, alpha: real)

  /** The colour a wavelength (nm) is drawn in. */
  function WavelengthToColor(w: real): (c: Rgba)
    ensures 0 <= c.r <= 255 && 0 <= c.g <= 255 && 0 <= c.b <= 255
    ensures 0.0 <= c.alpha <= 1.0
    ensures c.alpha > 0.0 <==> 380.0 <= w < 781.0
    ensures 380.0 <= w < 781.0 ==> c.alpha >= 0.3
    ensures !(380.0 <= w < 781.0) ==> c == Rgba(0, 0, 0, 0.0)
  {
    var rgb := BandChannels(w);
    Rgba(Round(rgb.r * 255.0), Round(rgb.g * 255.0), Round(rgb.b * 255.0), AlphaTaper(w))
  }

  /** 550 nm lies in the green-to-yellow band: (146, 255, 0) at full opacity. */
  lemma GreenTestVector()
    ensures WavelengthToColor(550.0) == Rgba(146, 255, 0, 1.0)
  {
    assert BandChannels(550.0) == UnitRgb(4.0 / 7.0, 1.0, 0.0);
    assert 4.0 / 7.0 * 255.0 + 0.5 == 2047.0 / 14.0;
    assert Round(4.0 / 7.0 * 255.0) == 146;
  }

  /** Ultraviolet 300 nm is drawn fully transparent black. */
  lemma UltravioletTestVector()
    ensures WavelengthToColor(300.0) == Rgba(0, 0, 0, 0.0)
  {
  }
}
