/** The plot and the simulated screen (components/Visualization.tsx): sampling the
    two intensity models across the screen, normalising the Fresnel column by its own
    maximum, and mapping canvas pixel columns to samples. */
module Visualization {
  import opened Maths
  import opened Types
  import Physics

  /** Number of intervals across the screen; the profile holds Points + 1 samples. */
  const Points: nat := 200
  /** Width of the simulated screen, in millimetres (from -10 mm to +10 mm). */
  const RangeMm: real := 20.0

  /** One row of the chart: position label (mm), Fresnel and Fraunhofer intensity. */
  datatype PlotPoint = PlotPoint(x: real, fresnel: real, fraunhofer: real)

  /** Distance between neighbouring samples, in millimetres. */
  const Step: real := 0.1

  /** Screen position of sample i, in millimetres. */
  function Position(i: nat): real
  {
    -RangeMm / 2.0 + i as real * Step
  }

  /** The sampling loop's own formula for the position, with step range / points. */
  lemma SamplePosition(i: nat, step: real)
    requires step == RangeMm / Points as real
    ensures -RangeMm / 2.0 + i as real * step == Position(i)
  {
    assert step == Step;
  }

  /** The chart label: the position rounded to two decimals. */
  function TwoDecimals(x: real): real
  {
    Round(x * 100.0) as real / 100.0
  }

  /** The samples run from -10 mm to +10 mm in steps of 0.1 mm. */
  lemma PositionsSpanScreen(i: nat, j: nat)
    requires i < j
    ensures Position(0) == -10.0 && Position(Points) == 10.0
    ensures Position(j) - Position(i) == (j - i) as real / 10.0
    ensures Position(i) < Position(j)
  {
  }

  /** Every sample position is already a multiple of 0.01 mm, so its label is exact. */
  lemma {:induction false} LabelIsExact(i: nat)
    ensures TwoDecimals(Position(i)) == Position(i)
  {
    var n := 10 * i - 1000;
    assert Position(i) * 100.0 == n as real;
    assert Round(n as real) == n;
  }

  /** The chart row for sample i, before normalisation. */
  function RawPoint(m: Library, p: DiffractionParams, i: nat): PlotPoint
    requires Positive(p) && m.pi > 0.0
  {
    var x := Position(i);
    var r := Physics.CalculateIntensity(m, x, p.wavelength, p.slitWidth, p.distance);
    PlotPoint(TwoDecimals(x), r.fresnel, r.fraunhofer)
  }

  /** All Points + 1 chart rows, before normalisation. */
  function RawProfile(m: Library, p: DiffractionParams): (rows: seq<PlotPoint>)
    requires Positive(p) && m.pi > 0.0
    ensures |rows| == Points + 1
    ensures forall i :: 0 <= i < |rows| ==> rows[i].fresnel >= 0.0 && rows[i].fraunhofer >= 0.0
  {
    seq(Points + 1, i requires 0 <= i <= Points => RawPoint(m, p, i))
  }

  /** The running maximum of the Fresnel column: it starts at 0 and is replaced only
      by a strictly larger value. */
  function MaxFresnel(rows: seq<PlotPoint>): (mx: real)
    ensures mx >= 0.0
    ensures forall i :: 0 <= i < |rows| ==> rows[i].fresnel <= mx
    ensures mx > 0.0 ==> exists i :: 0 <= i < |rows| && rows[i].fresnel == mx
  {
    if |rows| == 0 then 0.0
    else
      var mx := MaxFresnel(rows[..|rows| - 1]);
      var last := rows[|rows| - 1].fresnel;
      if last > mx then last else mx
  }

  /** The normalisation pass: only the Fresnel column changes, scaled by 1 / maxI,
      or set to 0 when the maximum is not positive. */
  function Normalize(rows: seq<PlotPoint>, maxI: real): (r: seq<PlotPoint>)
    ensures |r| == |rows|
    ensures forall i :: 0 <= i < |rows| ==> r[i].x == rows[i].x && r[i].fraunhofer == rows[i].fraunhofer
    ensures maxI > 0.0 ==> forall i :: 0 <= i < |rows| ==> r[i].fresnel * maxI == rows[i].fresnel
    ensures maxI <= 0.0 ==> forall i :: 0 <= i < |rows| ==> r[i].fresnel == 0.0
  {
    seq(|rows|, i requires 0 <= i < |rows| =>
      rows[i].(fresnel := if maxI > 0.0 then rows[i].fresnel / maxI else 0.0))
  }

  /** When maxI bounds a non-negative column, the normalised column lies in [0, 1],
      and a row at the maximum becomes exactly 1. */
  lemma NormalizedInUnitRange(rows: seq<PlotPoint>, maxI: real)
    requires forall i :: 0 <= i < |rows| ==> 0.0 <= rows[i].fresnel <= maxI
    ensures forall i :: 0 <= i < |rows| ==> 0.0 <= Normalize(rows, maxI)[i].fresnel <= 1.0
    ensures forall i :: 0 <= i < |rows| && maxI > 0.0 && rows[i].fresnel == maxI ==> Normalize(rows, maxI)[i].fresnel == 1.0
  {
    var r := Normalize(rows, maxI);
    forall i | 0 <= i < |rows|
      ensures 0.0 <= r[i].fresnel <= 1.0
      ensures maxI > 0.0 && rows[i].fresnel == maxI ==> r[i].fresnel == 1.0
    {
      if maxI > 0.0 {
        UnitQuotient(rows[i].fresnel, maxI);
      }
    }
  }

  lemma UnitQuotient(v: real, mx: real)
    requires 0.0 <= v <= mx && mx > 0.0
    ensures 0.0 <= v / mx <= 1.0
    ensures v == mx ==> v / mx == 1.0
  {
    var q := v / mx;
    assert q * mx == v;
  }

  /** Normalisation keeps the shape of the profile: it does not reorder intensities. */
  lemma NormalizeMonotone(rows: seq<PlotPoint>, maxI: real, i: nat, j: nat)
    requires i < |rows| && j < |rows| && maxI > 0.0
    requires rows[i].fresnel <= rows[j].fresnel
    ensures Normalize(rows, maxI)[i].fresnel <= Normalize(rows, maxI)[j].fresnel
  {
    var a, b := rows[i].fresnel / maxI, rows[j].fresnel / maxI;
    assert a * maxI == rows[i].fresnel && b * maxI == rows[j].fresnel;
    if a > b {
      assert (a - b) * maxI > 0.0 * maxI;
    }
  }

  /** Normalising a non-negative profile by its own running maximum puts every value in
      [0, 1]; some row reaches exactly 1 unless the whole column is 0. */
  lemma SelfNormalized(rows: seq<PlotPoint>)
    requires forall i :: 0 <= i < |rows| ==> rows[i].fresnel >= 0.0
    ensures var r := Normalize(rows, MaxFresnel(rows));
      && (forall i :: 0 <= i < |r| ==> 0.0 <= r[i].fresnel <= 1.0)
      && (MaxFresnel(rows) > 0.0 ==> exists i :: 0 <= i < |r| && r[i].fresnel == 1.0)
      && (MaxFresnel(rows) == 0.0 ==> forall i :: 0 <= i < |r| ==> r[i].fresnel == 0.0)
  {
    var mx := MaxFresnel(rows);
    NormalizedInUnitRange(rows, mx);
    if mx > 0.0 {
      var k :| 0 <= k < |rows| && rows[k].fresnel == mx;
      assert Normalize(rows, mx)[k].fresnel == 1.0;
    }
  }

  /** The chart rows are labelled with the sample positions and carry the
      Fraunhofer intensity unchanged. */
  lemma RawProfileRows(m: Library, p: DiffractionParams)
    requires Positive(p) && m.pi > 0.0
    ensures forall i :: 0 <= i < |RawProfile(m, p)| ==>
      && RawProfile(m, p)[i].x == Position(i)
      && RawProfile(m, p)[i].fraunhofer == Physics.CalculateIntensity(m, Position(i), p.wavelength, p.slitWidth, p.distance).fraunhofer
  {
    forall i | 0 <= i < |RawProfile(m, p)|
      ensures RawProfile(m, p)[i].x == Position(i)
    {
      LabelIsExact(i);
    }
  }

  /** The sampling loop: evaluates both models at Points + 1 positions and keeps a
      running maximum of the Fresnel intensity. */
  method SampleProfile(m: Library, p: DiffractionParams) returns (newData: seq<PlotPoint>, maxI: real)
    requires Positive(p) && m.pi > 0.0
    ensures newData == RawProfile(m, p)
    ensures maxI == MaxFresnel(newData)
  {
    ghost var rows := RawProfile(m, p);
    var step := RangeMm / Points as real;
    newData := [];
    maxI := 0.0;
    for i := 0 to Points + 1
      invariant newData == rows[..i]
      invariant maxI == MaxFresnel(newData)
    {
      var x := -RangeMm / 2.0 + i as real * step;
      SamplePosition(i, step);
      var intensities := Physics.CalculateIntensity(m, x, p.wavelength, p.slitWidth, p.distance);
      MaxFresnelAppend(newData, intensities.fresnel, x, intensities.fraunhofer);
      if intensities.fresnel > maxI {
        maxI := intensities.fresnel;
      }
      var row := PlotPoint(TwoDecimals(x), intensities.fresnel, intensities.fraunhofer);
      SampleRow(m, p, i, x);
      PrefixStep(rows, i);
      newData := newData + [row];
    }
    assert rows[..Points + 1] == rows;
  }

  /** One step of the running maximum. */
  lemma MaxFresnelAppend(rows: seq<PlotPoint>, fresnel: real, x: real, fraunhofer: real)
    ensures var last := PlotPoint(TwoDecimals(x), fresnel, fraunhofer);
      MaxFresnel(rows + [last]) == if fresnel > MaxFresnel(rows) then fresnel else MaxFresnel(rows)
  {
    var last := PlotPoint(TwoDecimals(x), fresnel, fraunhofer);
    assert (rows + [last])[..|rows|] == rows;
  }

  /** The row the loop builds at position x = Position(i) is row i of the raw profile. */
  lemma SampleRow(m: Library, p: DiffractionParams, i: nat, x: real)
    requires Positive(p) && m.pi > 0.0 && i <= Points && x == Position(i)
    ensures var r := Physics.CalculateIntensity(m, x, p.wavelength, p.slitWidth, p.distance);
      PlotPoint(TwoDecimals(x), r.fresnel, r.fraunhofer) == RawProfile(m, p)[i]
  {
  }

  lemma PrefixStep(rows: seq<PlotPoint>, i: nat)
    requires i < |rows|
    ensures rows[..i + 1] == rows[..i] + [rows[i]]
  {
  }

  /** The whole computation behind the chart and the simulated screen: sample, then
      normalise the Fresnel column by its own maximum. */
  method ComputePlotData(m: Library, p: DiffractionParams) returns (plotData: seq<PlotPoint>, maxIntensity: real)
    requires Positive(p) && m.pi > 0.0
    ensures maxIntensity == MaxFresnel(RawProfile(m, p))
    ensures plotData == Normalize(RawProfile(m, p), maxIntensity)
    ensures |plotData| == Points + 1
    ensures forall i :: 0 <= i < |plotData| ==>
      && plotData[i].x == Position(i)
      && plotData[i].fraunhofer == Physics.CalculateIntensity(m, Position(i), p.wavelength, p.slitWidth, p.distance).fraunhofer
      && 0.0 <= plotData[i].fresnel <= 1.0
    ensures maxIntensity > 0.0 ==> exists i :: 0 <= i < |plotData| && plotData[i].fresnel == 1.0
    ensures maxIntensity == 0.0 ==> forall i :: 0 <= i < |plotData| ==> plotData[i].fresnel == 0.0
  {
    var newData, maxI := SampleProfile(m, p);
    plotData := Normalize(newData, maxI);
    maxIntensity := maxI;
    SelfNormalized(newData);
    RawProfileRows(m, p);
  }

  // ---------------------------------------------------------------------------
  // Simulated screen: one canvas column per pixel
  // ---------------------------------------------------------------------------

  /** Sample index shown in pixel column i of a canvas `width` pixels wide:
      floor(i / width * dataLen). */
  function DataIndex(i: nat, width: nat, dataLen: nat): (k: int)
    requires i < width
    ensures 0 <= k
    ensures dataLen > 0 ==> k < dataLen
  {
    IndexBounds(i, width, dataLen);
    ((i as real / width as real) * dataLen as real).Floor
  }

  lemma IndexBounds(i: nat, width: nat, dataLen: nat)
    requires i < width
    ensures 0.0 <= (i as real / width as real) * dataLen as real
    ensures dataLen > 0 ==> (i as real / width as real) * dataLen as real < dataLen as real
  {
    var f := i as real / width as real;
    assert f * width as real == i as real;
    assert 0.0 <= f < 1.0;
    assert 0.0 * dataLen as real <= f * dataLen as real;
    if dataLen > 0 {
      assert f * dataLen as real < 1.0 * dataLen as real;
    }
  }

  /** Neighbouring pixels never show samples out of order: the mapping is monotone. */
  lemma DataIndexMonotone(i: nat, j: nat, width: nat, dataLen: nat)
    requires i <= j < width
    ensures DataIndex(i, width, dataLen) <= DataIndex(j, width, dataLen)
  {
    var fi, fj := i as real / width as real, j as real / width as real;
    assert fi * width as real == i as real && fj * width as real == j as real;
    assert fi * dataLen as real <= fj * dataLen as real;
  }

  /** On an 800-pixel canvas the 201 samples are spread from the first column to the
      last: column 0 shows sample 0 and column 799 shows sample 200. */
  lemma CanvasEnds()
    ensures DataIndex(0, 800, Points + 1) == 0
    ensures DataIndex(799, 800, Points + 1) == Points
  {
    assert (799.0 / 800.0) * 201.0 == 200.74875;
  }

  /** What one pixel column of the simulated screen shows. */
  datatype Column = Blank | Filled(opacity: real)

  /** The drawing loop: every pixel column takes the normalised Fresnel intensity of
      the sample it maps to as its opacity; a column whose sample does not exist is
      left blank. */
  method PaintColumns(plotData: seq<PlotPoint>, width: nat) returns (columns: seq<Column>)
    ensures |columns| == width
    ensures |plotData| > 0 ==> forall i :: 0 <= i < width ==>
      columns[i] == Filled(plotData[DataIndex(i, width, |plotData|)].fresnel)
    ensures |plotData| == 0 ==> forall i :: 0 <= i < width ==> columns[i] == Blank
  {
    var dataLen := |plotData|;
    columns := [];
    for i := 0 to width
      invariant |columns| == i
      invariant dataLen > 0 ==> forall k :: 0 <= k < i ==> columns[k] == Filled(plotData[DataIndex(k, width, dataLen)].fresnel)
      invariant dataLen == 0 ==> forall k :: 0 <= k < i ==> columns[k] == Blank
    {
      var dataIndex := DataIndex(i, width, dataLen);
      if dataIndex < dataLen {
        var point := plotData[dataIndex];
        columns := columns + [Filled(point.fresnel)];
      } else {
        columns := columns + [Blank];
      }
    }
  }
}
