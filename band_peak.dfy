/** Band-peak selection of the LFN monitor and batch analyzer: the rows of a
    spectrogram whose frequency lies in an inclusive band are kept, and the
    peak is numpy's `argmax` over that sub-matrix (the first maximal cell in
    row-major order) together with `np.max`. The spectrogram itself
    (`scipy.signal.spectrogram`, `10*log10`) is an input. */
module BandPeak {
  import opened Results

  const LF_LOW: real := 20.0
  const LF_HIGH: real := 100.0
  const HF_LOW: real := 20000.0
  const HF_HIGH: real := 24000.0
  const HF_EMPTY_PEAK: real := 0.0
  const HF_EMPTY_DB: real := -100.0

  /** Frequency of each row, and the dB value of each (row, time) cell. */
  datatype Spectrogram = Spectrogram(freqs: seq<real>, db: seq<seq<real>>)

  /** A numpy array: one row per frequency, all rows of one width. */
  predicate WellFormed(s: Spectrogram)
  {
    |s.freqs| == |s.db| && forall i :: 0 <= i < |s.db| ==> |s.db[i]| == |s.db[0]|
  }

  /** `(f >= lo) & (f <= hi)`. */
  predicate InBand(f: real, lo: real, hi: real)
  {
    lo <= f <= hi
  }

  datatype PeakError = EmptyArgmax  // `np.argmax` of an empty array raises ValueError

  /** The peak of one band: its frequency and its dB value. */
  datatype Peak = Peak(freq: real, db: real)

  datatype Cell = Cell(row: nat, col: nat, db: real)

  /** `a` comes before `b` in row-major (C) order. */
  predicate Before(a: Cell, b: Cell)
  {
    a.row < b.row || (a.row == b.row && a.col < b.col)
  }

  /** (`i`, `j`) is a cell of the masked sub-matrix. */
  ghost predicate BandCell(s: Spectrogram, lo: real, hi: real, i: int, j: int)
    requires WellFormed(s)
  {
    0 <= i < |s.freqs| && InBand(s.freqs[i], lo, hi) && 0 <= j < |s.db[i]|
  }

  ghost predicate AnyBandCell(s: Spectrogram, lo: real, hi: real)
    requires WellFormed(s)
  {
    exists i, j :: BandCell(s, lo, hi, i, j)
  }

  /** (`i`, `j`) holds the band's maximum and no earlier band cell in
      row-major order holds it. */
  ghost predicate IsFirstPeakCell(s: Spectrogram, lo: real, hi: real, i: int, j: int)
    requires WellFormed(s)
  {
    && BandCell(s, lo, hi, i, j)
    && (forall i', j' :: BandCell(s, lo, hi, i', j') ==> s.db[i'][j'] <= s.db[i][j])
    && (forall i', j' :: BandCell(s, lo, hi, i', j') && Before(Cell(i', j', 0.0), Cell(i, j, 0.0)) ==>
          s.db[i'][j'] < s.db[i][j])
  }

  /** The cells (`i`, 0) .. (`i`, `w` - 1) of row `i`. */
  function RowCells(s: Spectrogram, i: nat, w: nat): (cells: seq<Cell>)
    requires WellFormed(s) && i < |s.db| && w <= |s.db[i]|
    ensures |cells| == w
    ensures forall k :: 0 <= k < w ==> cells[k] == Cell(i, k, s.db[i][k])
    decreases w
  {
    if w == 0 then [] else RowCells(s, i, w - 1) + [Cell(i, w - 1, s.db[i][w - 1])]
  }

  /** The masked sub-matrix of rows [0, n) flattened in row-major order,
      each cell carrying its position in the full spectrogram. */
  function BandCells(s: Spectrogram, lo: real, hi: real, n: nat): (cells: seq<Cell>)
    requires WellFormed(s) && n <= |s.freqs|
    ensures forall k :: 0 <= k < |cells| ==>
      cells[k].row < n && BandCell(s, lo, hi, cells[k].row, cells[k].col) &&
      cells[k].db == s.db[cells[k].row][cells[k].col]
    decreases n
  {
    if n == 0 then []
    else if InBand(s.freqs[n - 1], lo, hi) then
      BandCells(s, lo, hi, n - 1) + RowCells(s, n - 1, |s.db[n - 1]|)
    else BandCells(s, lo, hi, n - 1)
  }

  /** Every cell of the masked sub-matrix is listed. */
  lemma {:induction false} BandCellsComplete(s: Spectrogram, lo: real, hi: real, n: nat, i: nat, j: nat)
    requires WellFormed(s) && n <= |s.freqs|
    requires BandCell(s, lo, hi, i, j) && i < n
    ensures exists k :: (0 <= k < |BandCells(s, lo, hi, n)| &&
                         BandCells(s, lo, hi, n)[k].row == i && BandCells(s, lo, hi, n)[k].col == j)
    decreases n
  {
    var prev := BandCells(s, lo, hi, n - 1);
    if i < n - 1 {
      BandCellsComplete(s, lo, hi, n - 1, i, j);
      var k :| 0 <= k < |prev| && prev[k].row == i && prev[k].col == j;
      assert BandCells(s, lo, hi, n)[k] == prev[k];
    } else {
      var row := RowCells(s, n - 1, |s.db[n - 1]|);
      assert BandCells(s, lo, hi, n)[|prev| + j] == row[j];
    }
  }

  /** The cells are listed in row-major order. */
  lemma {:induction false} BandCellsOrdered(s: Spectrogram, lo: real, hi: real, n: nat)
    requires WellFormed(s) && n <= |s.freqs|
    ensures forall k, l :: 0 <= k < l < |BandCells(s, lo, hi, n)| ==>
      Before(BandCells(s, lo, hi, n)[k], BandCells(s, lo, hi, n)[l])
    decreases n
  {
    if n > 0 {
      BandCellsOrdered(s, lo, hi, n - 1);
      var prev := BandCells(s, lo, hi, n - 1);
      var cells := BandCells(s, lo, hi, n);
      if InBand(s.freqs[n - 1], lo, hi) {
        var row := RowCells(s, n - 1, |s.db[n - 1]|);
        assert cells == prev + row;
        forall k, l | 0 <= k < l < |cells| ensures Before(cells[k], cells[l]) {
          if l < |prev| {
            assert cells[k] == prev[k] && cells[l] == prev[l];
          } else if k < |prev| {
            assert cells[k] == prev[k] && prev[k].row < n - 1;
            assert cells[l] == row[l - |prev|];
          } else {
            assert cells[k] == row[k - |prev|] && cells[l] == row[l - |prev|];
          }
        }
      }
    }
  }

  /** numpy's `argmax` on a flat sequence: the first position of the maximum
      (a left-to-right scan that moves only on a strictly larger value). */
  function FirstMax(cells: seq<Cell>): (k: nat)
    requires |cells| > 0
    ensures k < |cells|
    ensures forall l :: 0 <= l < |cells| ==> cells[l].db <= cells[k].db
    ensures forall l :: 0 <= l < k ==> cells[l].db < cells[k].db
    decreases |cells|
  {
    if |cells| == 1 then 0
    else
      var k := FirstMax(cells[..|cells| - 1]);
      assert forall l :: 0 <= l < |cells| - 1 ==> cells[..|cells| - 1][l] == cells[l];
      if cells[|cells| - 1].db > cells[k].db then |cells| - 1 else k
  }

  /** The position of the cell `np.argmax` picks in the masked sub-matrix,
      or none when that sub-matrix has no cells. */
  function PeakCell(s: Spectrogram, lo: real, hi: real): (r: Option<(nat, nat)>)
    requires WellFormed(s)
    ensures r.None? <==> !AnyBandCell(s, lo, hi)
    ensures r.Some? ==> IsFirstPeakCell(s, lo, hi, r.value.0, r.value.1)
  {
    var cells := BandCells(s, lo, hi, |s.freqs|);
    assert AnyBandCell(s, lo, hi) <==> |cells| > 0 by {
      forall i, j | BandCell(s, lo, hi, i, j) ensures |cells| > 0 {
        BandCellsComplete(s, lo, hi, |s.freqs|, i, j);
      }
      if |cells| > 0 {
        assert BandCell(s, lo, hi, cells[0].row, cells[0].col);
      }
    }
    if |cells| == 0 then None
    else
      var k := FirstMax(cells);
      var c := cells[k];
      BandCellsOrdered(s, lo, hi, |s.freqs|);
      forall i', j' | BandCell(s, lo, hi, i', j')
        ensures s.db[i'][j'] <= s.db[c.row][c.col]
        ensures Before(Cell(i', j', 0.0), Cell(c.row, c.col, 0.0)) ==> s.db[i'][j'] < s.db[c.row][c.col]
      {
        BandCellsComplete(s, lo, hi, |s.freqs|, i', j');
        var l :| 0 <= l < |cells| && cells[l].row == i' && cells[l].col == j';
        assert Before(Cell(i', j', 0.0), Cell(c.row, c.col, 0.0)) ==> l < k;
      }
      Some((c.row, c.col))
  }

  /** One band's peak: the frequency of the row holding the first maximal
      cell and that maximum; an empty band makes `argmax` raise. */
  function BandPeak(s: Spectrogram, lo: real, hi: real): (r: Result<Peak, PeakError>)
    requires WellFormed(s)
    ensures r.Err? <==> !AnyBandCell(s, lo, hi)
    ensures r.Ok? ==> InBand(r.value.freq, lo, hi)
    ensures r.Ok? ==> forall i, j :: BandCell(s, lo, hi, i, j) ==> s.db[i][j] <= r.value.db
    ensures r.Ok? ==> (exists i, j :: IsFirstPeakCell(s, lo, hi, i, j) &&
                        s.freqs[i] == r.value.freq && s.db[i][j] == r.value.db)
  {
    match PeakCell(s, lo, hi)
    case None => Err(EmptyArgmax)
    case Some((i, j)) => Ok(Peak(s.freqs[i], s.db[i][j]))
  }

  /** Ties go to the lowest in-band row: no earlier in-band row reaches the
      reported maximum. */
  lemma PeakRowIsLowest(s: Spectrogram, lo: real, hi: real, i: nat, j: nat, i': nat, j': nat)
    requires WellFormed(s) && IsFirstPeakCell(s, lo, hi, i, j)
    requires BandCell(s, lo, hi, i', j') && i' < i
    ensures s.db[i'][j'] < s.db[i][j]
  {
    assert Before(Cell(i', j', 0.0), Cell(i, j, 0.0));
  }

  /** The ultrasonic band: a band without any frequency row reports the
      sentinel (0, -100) instead of raising. */
  function UltrasonicPeak(s: Spectrogram): (r: Result<Peak, PeakError>)
    requires WellFormed(s)
    ensures (forall i :: 0 <= i < |s.freqs| ==> !InBand(s.freqs[i], HF_LOW, HF_HIGH)) ==>
      r == Ok(Peak(HF_EMPTY_PEAK, HF_EMPTY_DB))
    ensures (exists i :: 0 <= i < |s.freqs| && InBand(s.freqs[i], HF_LOW, HF_HIGH)) ==>
      r == BandPeak(s, HF_LOW, HF_HIGH)
    ensures r.Err? ==> |s.db[0]| == 0
  {
    if exists i :: 0 <= i < |s.freqs| && InBand(s.freqs[i], HF_LOW, HF_HIGH) then
      var r := BandPeak(s, HF_LOW, HF_HIGH);
      assert r.Err? ==> |s.db[0]| == 0 by {
        if r.Err? && |s.db[0]| > 0 {
          var i :| 0 <= i < |s.freqs| && InBand(s.freqs[i], HF_LOW, HF_HIGH);
          assert BandCell(s, HF_LOW, HF_HIGH, i, 0);
        }
      }
      r
    else Ok(Peak(HF_EMPTY_PEAK, HF_EMPTY_DB))
  }

  /** The peaks of both bands as `analyze_and_plot` / `analyze_audio`
      compute them. */
  datatype BandPeaks = BandPeaks(lfn: Peak, hf: Peak)

  /** The LFN band first (unguarded: an empty band raises), then the
      ultrasonic band with its sentinel. */
  function AnalyzeBands(s: Spectrogram): (r: Result<BandPeaks, PeakError>)
    requires WellFormed(s)
    ensures r.Err? <==> !AnyBandCell(s, LF_LOW, LF_HIGH) || UltrasonicPeak(s).Err?
    ensures r.Ok? ==> Ok(r.value.lfn) == BandPeak(s, LF_LOW, LF_HIGH) && Ok(r.value.hf) == UltrasonicPeak(s)
  {
    match BandPeak(s, LF_LOW, LF_HIGH)
    case Err(e) => Err(e)
    case Ok(lfn) =>
      match UltrasonicPeak(s)
      case Err(e) => Err(e)
      case Ok(hf) => Ok(BandPeaks(lfn, hf))
  }
}
