/** The width arithmetic of `adjust_table_column_widths`
    (pdf3md/formatters/docx_formatter.py): the available width is shared
    out in proportion to the weights, each share is clamped to its column's
    bounds, and the clamped widths are rescaled to the available width and
    truncated to whole EMU. Real numbers stand for Python floats. Lengths
    are stored in whole twips, so a width written to a table reads back
    rounded to a multiple of 635 EMU. */
module ColumnWidths {
  import opened Seqs
  import opened TableLayout
  import opened FileSize

  const EmuPerTwip: nat := 635

  /** A length in EMU as python-docx writes it to a twips attribute:
      `round(emu / 635)`, ties to even. */
  function Twips(emu: nat): (t: nat)
    ensures 2 * (emu - t * EmuPerTwip) <= EmuPerTwip && 2 * (t * EmuPerTwip - emu) <= EmuPerTwip
  {
    RoundHalfEvenNearest(emu, EmuPerTwip);
    RoundHalfEven(emu, EmuPerTwip)
  }


  /** `available * (weight / total)` per column, where the total is
      `sum(weights) or 1`. */
  function RawWidths(avail: int, weights: seq<real>): (r: seq<real>)
    ensures |r| == |weights|
  {
    var total := if Sum(weights) == 0.0 then 1.0 else Sum(weights);
    seq(|weights|, i requires 0 <= i < |weights| => avail as real * (weights[i] / total))
  }

  /** With a non-zero total, the raw widths share out exactly the
      available width. */
  lemma RawWidthsFill(avail: int, weights: seq<real>)
    requires Sum(weights) != 0.0
    ensures Sum(RawWidths(avail, weights)) == avail as real
  {
    var total := Sum(weights);
    var k := avail as real / total;
    var r := RawWidths(avail, weights);
    forall i | 0 <= i < |weights|
      ensures r[i] == weights[i] * k
    {
      assert avail as real * (weights[i] / total) == weights[i] * (avail as real / total);
    }
    SumScale(weights, k, r);
  }

  /** The clamp of one raw width: the minimum is compared first. */
  function Clamp(raw: real, lo: real, hi: real): (r: real)
    ensures lo <= raw <= hi ==> r == raw
    ensures raw < lo ==> r == lo
    ensures lo <= raw && raw > hi ==> r == hi
    ensures lo <= hi ==> lo <= r <= hi
  {
    if raw < lo then lo else if raw > hi then hi else raw
  }

  /** Python's `int(x)`: truncation toward zero. */
  function Trunc(x: real): (n: int)
    ensures x >= 0.0 ==> n >= 0 && n as real <= x < n as real + 1.0
    ensures x < 0.0 ==> n <= 0 && n as real - 1.0 < x <= n as real
  {
    if x >= 0.0 then x.Floor else -((-x).Floor)
  }

  /** `[int(w) for w in ws]`. */
  function Truncs(ws: seq<real>): (r: seq<int>)
    ensures |r| == |ws|
    ensures forall i :: 0 <= i < |ws| ==> r[i] == Trunc(ws[i])
  {
    if |ws| == 0 then [] else Truncs(ws[..|ws| - 1]) + [Trunc(ws[|ws| - 1])]
  }

  function SumInt(s: seq<int>): int
  {
    if |s| == 0 then 0 else SumInt(s[..|s| - 1]) + s[|s| - 1]
  }

  /** Truncating non-negative reals loses less than one per term. */
  lemma {:induction false} TruncsSum(ws: seq<real>)
    requires forall i :: 0 <= i < |ws| ==> ws[i] >= 0.0
    ensures SumInt(Truncs(ws)) as real <= Sum(ws)
    ensures SumInt(Truncs(ws)) as real > Sum(ws) - |ws| as real || |ws| == 0
    decreases |ws|
  {
    if |ws| > 0 {
      var init := ws[..|ws| - 1];
      TruncsSum(init);
      assert Truncs(ws)[..|ws| - 1] == Truncs(init);
    }
  }

  /** Each clamped width times the rescaling factor. */
  function Scaled(ws: seq<real>, k: real): (r: seq<real>)
    ensures |r| == |ws|
    ensures forall i :: 0 <= i < |ws| ==> r[i] == ws[i] * k
  {
    seq(|ws|, i requires 0 <= i < |ws| => ws[i] * k)
  }

  /** The rescaling factor: `available / total`, where the total is
      `sum(clamped) or available`, and 1 when that is zero too. */
  function Factor(avail: int, clamped: seq<real>): real
  {
    var total := if Sum(clamped) == 0.0 then avail as real else Sum(clamped);
    if total != 0.0 then avail as real / total else 1.0
  }

  /** The final widths: `int(width * scale)` for each clamped width. */
  function FinalWidths(avail: int, clamped: seq<real>): (r: seq<int>)
    ensures |r| == |clamped|
  {
    Truncs(Scaled(clamped, Factor(avail, clamped)))
  }

  /** Positive clamped widths rescale to whole widths that fill the
      available width up to less than one EMU per column. */
  lemma FinalWidthsFit(avail: int, clamped: seq<real>)
    requires avail >= 0 && |clamped| > 0
    requires forall i :: 0 <= i < |clamped| ==> clamped[i] > 0.0
    ensures avail - |clamped| < SumInt(FinalWidths(avail, clamped)) <= avail
  {
    SumPositive(clamped);
    var k := Factor(avail, clamped);
    var xs := Scaled(clamped, k);
    assert k == avail as real / Sum(clamped);
    assert k >= 0.0;
    SumScale(clamped, k, xs);
    assert Sum(xs) == avail as real;
    forall i | 0 <= i < |xs| ensures xs[i] >= 0.0 {
      assert xs[i] == clamped[i] * k;
    }
    TruncsSum(xs);
  }

  /** Rescaling keeps the order of the clamped widths. */
  lemma FinalWidthsOrdered(avail: int, clamped: seq<real>, i: nat, j: nat)
    requires avail >= 0 && i < |clamped| && j < |clamped|
    requires forall k :: 0 <= k < |clamped| ==> clamped[k] >= 0.0
    requires clamped[i] <= clamped[j]
    ensures FinalWidths(avail, clamped)[i] <= FinalWidths(avail, clamped)[j]
  {
    var k := Factor(avail, clamped);
    FactorNonNegative(avail, clamped);
    TruncsScaledMono(clamped, k, i, j);
    assert FinalWidths(avail, clamped) == Truncs(Scaled(clamped, k));
  }

  /** Truncating non-negative widths scaled by a non-negative factor keeps
      their order. */
  lemma TruncsScaledMono(c: seq<real>, k: real, i: nat, j: nat)
    requires k >= 0.0 && i < |c| && j < |c| && 0.0 <= c[i] <= c[j]
    ensures Truncs(Scaled(c, k))[i] <= Truncs(Scaled(c, k))[j]
  {
    ScaledMono(c, k, i, j);
    TruncsMono(Scaled(c, k), i, j);
  }

  lemma ScaledMono(c: seq<real>, k: real, i: nat, j: nat)
    requires k >= 0.0 && i < |c| && j < |c| && 0.0 <= c[i] <= c[j]
    ensures 0.0 <= Scaled(c, k)[i] <= Scaled(c, k)[j]
  {
    MulMono(c[i], c[j], k);
    NonNegativeProduct(c[i], k);
  }

  lemma TruncsMono(xs: seq<real>, i: nat, j: nat)
    requires i < |xs| && j < |xs| && 0.0 <= xs[i] <= xs[j]
    ensures Truncs(xs)[i] <= Truncs(xs)[j]
  {
    TruncMono(xs[i], xs[j]);
  }

  lemma FactorNonNegative(avail: int, clamped: seq<real>)
    requires avail >= 0
    requires forall k :: 0 <= k < |clamped| ==> clamped[k] >= 0.0
    ensures Factor(avail, clamped) >= 0.0
  {
    NonNegativeSum(clamped);
  }

  lemma MulMono(a: real, b: real, k: real)
    requires a <= b && k >= 0.0
    ensures a * k <= b * k
  {
  }

  lemma NonNegativeProduct(a: real, k: real)
    requires a >= 0.0 && k >= 0.0
    ensures a * k >= 0.0
  {
  }

  lemma TruncMono(x: real, y: real)
    requires 0.0 <= x <= y
    ensures Trunc(x) <= Trunc(y)
  {
  }

  lemma {:induction false} NonNegativeSum(s: seq<real>)
    requires forall i :: 0 <= i < |s| ==> s[i] >= 0.0
    ensures Sum(s) >= 0.0
    decreases |s|
  {
    if |s| > 0 {
      NonNegativeSum(s[..|s| - 1]);
    }
  }

  /** The weight of every column. */
  function Weights(headers: seq<string>, columns: seq<seq<string>>): (r: seq<real>)
    requires |headers| == |columns|
    ensures |r| == |columns|
    ensures forall j :: 0 <= j < |r| ==> r[j] == Weight(columns[j], headers[j]) && r[j] >= 1.0
  {
    seq(|columns|, j requires 0 <= j < |columns| => Weight(columns[j], headers[j]))
  }

  /** The clamped width of every column. */
  function Clamped(avail: int, sc: SizeClass, headers: seq<string>, columns: seq<seq<string>>): (r: seq<real>)
    requires |headers| == |columns|
    ensures |r| == |columns|
    ensures forall j :: 0 <= j < |r| ==>
      r[j] == Clamp(RawWidths(avail, Weights(headers, columns))[j], ColumnMin(sc.minWidth, headers[j]) as real, sc.maxWidth as real)
  {
    var raw := RawWidths(avail, Weights(headers, columns));
    seq(|columns|, j requires 0 <= j < |columns| =>
      Clamp(raw[j], ColumnMin(sc.minWidth, headers[j]) as real, sc.maxWidth as real))
  }

  /** `adjust_table_column_widths` on a table whose column `j` holds the
      texts `columns[j]`, top to bottom, under the headers `headers`. */
  function AdjustWidths(avail: int, sc: SizeClass, headers: seq<string>, columns: seq<seq<string>>): (r: seq<int>)
    requires |headers| == |columns|
    ensures |r| == |columns|
  {
    FinalWidths(avail, Clamped(avail, sc, headers, columns))
  }

  /** Every clamped width is positive when the table's bounds are. */
  lemma ClampedPositive(avail: int, sc: SizeClass, headers: seq<string>, columns: seq<seq<string>>)
    requires |headers| == |columns|
    requires sc.minWidth > 0 && sc.maxWidth > 0
    ensures forall j :: 0 <= j < |columns| ==> Clamped(avail, sc, headers, columns)[j] > 0.0
  {
    var c := Clamped(avail, sc, headers, columns);
    forall j | 0 <= j < |columns| ensures c[j] > 0.0 {
      var lo := ColumnMin(sc.minWidth, headers[j]);
      assert lo > 0 by {
        if OverrideMin(Classify(headers[j])).Some? {
          assert lo == Inches(OverrideMin(Classify(headers[j])).value);
        }
      }
    }
  }

  /** The widths of a table's columns fill its available width, short of it
      by less than one EMU per column, and a column whose clamped width is no
      larger than another's gets no larger a final width. */
  lemma AdjustWidthsFit(avail: int, rows: nat, headers: seq<string>, columns: seq<seq<string>>, i: nat, j: nat)
    requires avail >= 0 && |headers| == |columns| && i < |columns| && j < |columns|
    ensures var sc := ChooseSizeClass(rows, |columns|);
      var r := AdjustWidths(avail, sc, headers, columns);
      && avail - |columns| < SumInt(r) <= avail
      && (Clamped(avail, sc, headers, columns)[i] <= Clamped(avail, sc, headers, columns)[j] ==> r[i] <= r[j])
  {
    var sc := ChooseSizeClass(rows, |columns|);
    ClampedPositive(avail, sc, headers, columns);
    var c := Clamped(avail, sc, headers, columns);
    FinalWidthsFit(avail, c);
    if c[i] <= c[j] {
      FinalWidthsOrdered(avail, c, i, j);
    }
  }

  // ----- stored widths -----

  /** A width in EMU written to a `w:gridCol` or `w:tcW` attribute and read
      back: the nearest whole number of twips, in EMU. Python's `round` is
      symmetric about zero. */
  function StoredWidth(w: int): (s: int)
    ensures s % EmuPerTwip == 0
    ensures -317 <= s - w <= 317
  {
    if w >= 0 then Twips(w) * EmuPerTwip else -(Twips(-w) * EmuPerTwip)
  }

  /** Every width of a sequence as stored. */
  function Stored(ws: seq<int>): (r: seq<int>)
    ensures |r| == |ws|
    ensures forall i :: 0 <= i < |ws| ==> r[i] % EmuPerTwip == 0 && -317 <= r[i] - ws[i] <= 317
  {
    seq(|ws|, i requires 0 <= i < |ws| => StoredWidth(ws[i]))
  }

  /** Storing moves a total by at most 317 EMU per width. */
  lemma {:induction false} StoredSum(ws: seq<int>)
    ensures -317 * |ws| <= SumInt(Stored(ws)) - SumInt(ws) <= 317 * |ws|
    decreases |ws|
  {
    if |ws| > 0 {
      var p := ws[..|ws| - 1];
      StoredSum(p);
      assert Stored(ws)[..|ws| - 1] == Stored(p);
    }
  }
}
