/** The Scan Assembler: visits every grid position column by column, reduces its
    samples, places the value (with edge-fill) into the raster, and keeps the running
    minimum and maximum of the values seen.

    `ScanState` and the functions `Step`, `Column` and `Columns` are the specification
    of one position, of the first rows of one column, and of the first columns of the
    grid; the class `ScanAssembler` is the program, proved against them. */
module Assembler {
  import opened Reducer
  import opened Placement

  /** The raster and the running extremes, as values. */
  datatype ScanState = ScanState(raster: seq<real>, minValue: real, maxValue: real)

  /** The sentinels the extremes start from: any plausible sample beats them. */
  const InitialMin: real := 1000000.0
  const InitialMax: real := -1000000.0

  /** What the file reader yields for a position: its samples, or None when the file
      could not be opened or stat-ed, or its size is not a whole number of floats. */
  type Reader = (int, int) -> Option<seq<real>>

  /** The file could be mapped. Mapping a zero-length file fails, so an empty file is
      skipped like an unreadable one and never reaches the division. */
  predicate Mapped(reading: Option<seq<real>>)
  {
    reading.Some? && |reading.value| > 0
  }

  /** `if (avg < min_value) min_value = avg;` */
  function LowerMin(m: real, avg: real): (r: real)
    ensures r <= m && r <= avg
    ensures r == m || r == avg
  {
    if avg < m then avg else m
  }

  /** `if (avg > max_value) max_value = avg;` */
  function RaiseMax(m: real, avg: real): (r: real)
    ensures r >= m && r >= avg
    ensures r == m || r == avg
  {
    if avg > m then avg else m
  }

  /** One position: a skipped position changes nothing; otherwise its mean goes into
      its target cells and widens the extremes. */
  function Step(g: Geometry, st: ScanState, x: int, y: int, reading: Option<seq<real>>): (r: ScanState)
    requires g.Valid() && g.InGrid(x, y) && |st.raster| == g.Size()
    ensures |r.raster| == |st.raster|
    ensures r.minValue <= st.minValue && r.maxValue >= st.maxValue
  {
    if !Mapped(reading) then st
    else
      var avg := Mean(reading.value);
      ScanState(Write(st.raster, Targets(g, x, y), avg), LowerMin(st.minValue, avg), RaiseMax(st.maxValue, avg))
  }

  /** Rows 0 .. n-1 of scan column x, in order. */
  function Column(g: Geometry, st: ScanState, read: Reader, x: int, n: int): (r: ScanState)
    requires g.Valid() && 0 <= x < g.w && 0 <= n <= g.h && |st.raster| == g.Size()
    ensures |r.raster| == |st.raster|
    ensures r.minValue <= st.minValue && r.maxValue >= st.maxValue
    decreases n
  {
    if n == 0 then st
    else Step(g, Column(g, st, read, x, n - 1), x, n - 1, read(x, n - 1))
  }

  /** Scan columns 0 .. m-1, each in full, in order. */
  function Columns(g: Geometry, st: ScanState, read: Reader, m: int): (r: ScanState)
    requires g.Valid() && 0 <= m <= g.w && |st.raster| == g.Size()
    ensures |r.raster| == |st.raster|
    ensures r.minValue <= st.minValue && r.maxValue >= st.maxValue
    decreases m
  {
    if m == 0 then st
    else Column(g, Columns(g, st, read, m - 1), read, m - 1, g.h)
  }

  /** The whole grid. */
  function Traverse(g: Geometry, st: ScanState, read: Reader): (r: ScanState)
    requires g.Valid() && |st.raster| == g.Size()
  {
    Columns(g, st, read, g.w)
  }

  /** A value lies within the extremes of a state. */
  predicate Within(st: ScanState, v: real)
  {
    st.minValue <= v <= st.maxValue
  }

  /** Every cell is as it was in `init`, or within the current extremes. */
  predicate CellsAccounted(init: seq<real>, st: ScanState)
  {
    |st.raster| == |init| &&
    forall i :: 0 <= i < |init| ==> st.raster[i] == init[i] || Within(st, st.raster[i])
  }

  /** A processed position's cells hold its mean, and the mean is within the extremes;
      every other cell is untouched. */
  lemma StepPlaces(g: Geometry, st: ScanState, x: int, y: int, reading: Option<seq<real>>)
    requires g.Valid() && g.InGrid(x, y) && |st.raster| == g.Size() && Mapped(reading)
    ensures var r := Step(g, st, x, y, reading);
      var avg := Mean(reading.value);
      (forall i :: 0 <= i < |r.raster| ==>
        r.raster[i] == if i in Targets(g, x, y) then avg else st.raster[i]) &&
      Within(r, avg)
  {
  }

  /** A skipped position (unreadable, or empty and so unmappable) leaves raster and
      extremes exactly as they were. */
  lemma StepSkipped(g: Geometry, st: ScanState, x: int, y: int, reading: Option<seq<real>>)
    requires g.Valid() && g.InGrid(x, y) && |st.raster| == g.Size()
    requires reading == None || reading == Some([])
    ensures Step(g, st, x, y, reading) == st
  {
  }

  lemma StepKeepsCellsAccounted(g: Geometry, init: seq<real>, st: ScanState, x: int, y: int, reading: Option<seq<real>>)
    requires g.Valid() && g.InGrid(x, y) && |st.raster| == g.Size()
    requires CellsAccounted(init, st)
    ensures CellsAccounted(init, Step(g, st, x, y, reading))
  {
    if Mapped(reading) {
      StepPlaces(g, st, x, y, reading);
    }
  }

  lemma {:induction false} ColumnKeepsCellsAccounted(g: Geometry, init: seq<real>, st: ScanState, read: Reader, x: int, n: int)
    requires g.Valid() && 0 <= x < g.w && 0 <= n <= g.h && |st.raster| == g.Size()
    requires CellsAccounted(init, st)
    ensures CellsAccounted(init, Column(g, st, read, x, n))
    decreases n
  {
    if n > 0 {
      ColumnKeepsCellsAccounted(g, init, st, read, x, n - 1);
      StepKeepsCellsAccounted(g, init, Column(g, st, read, x, n - 1), x, n - 1, read(x, n - 1));
    }
  }

  lemma {:induction false} ColumnsKeepCellsAccounted(g: Geometry, init: seq<real>, st: ScanState, read: Reader, m: int)
    requires g.Valid() && 0 <= m <= g.w && |st.raster| == g.Size()
    requires CellsAccounted(init, st)
    ensures CellsAccounted(init, Columns(g, st, read, m))
    decreases m
  {
    if m > 0 {
      ColumnsKeepCellsAccounted(g, init, st, read, m - 1);
      ColumnKeepsCellsAccounted(g, init, Columns(g, st, read, m - 1), read, m - 1, g.h);
    }
  }

  /** After the traversal every raster cell is either the value it started with (a
      skipped position's cell, or a gap no position fills) or a value between the
      final minimum and maximum. */
  lemma TraverseCellsWithinExtremes(g: Geometry, st: ScanState, read: Reader)
    requires g.Valid() && |st.raster| == g.Size()
    ensures var r := Traverse(g, st, read);
      forall i :: 0 <= i < |r.raster| ==>
        r.raster[i] == st.raster[i] || Within(r, r.raster[i])
  {
    ColumnsKeepCellsAccounted(g, st.raster, st, read, g.w);
  }

  /** Rows before n of column x contribute means within the extremes after them. */
  lemma {:induction false} ColumnCovers(g: Geometry, st: ScanState, read: Reader, x: int, n: int)
    requires g.Valid() && 0 <= x < g.w && 0 <= n <= g.h && |st.raster| == g.Size()
    ensures var r := Column(g, st, read, x, n);
      forall y :: 0 <= y < n && Mapped(read(x, y)) ==> Within(r, Mean(read(x, y).value))
    decreases n
  {
    if n > 0 {
      var prev := Column(g, st, read, x, n - 1);
      ColumnCovers(g, st, read, x, n - 1);
      if Mapped(read(x, n - 1)) {
        StepPlaces(g, prev, x, n - 1, read(x, n - 1));
      }
    }
  }

  /** Positions of the first m columns contribute means within the extremes after them. */
  lemma {:induction false} ColumnsCover(g: Geometry, st: ScanState, read: Reader, m: int)
    requires g.Valid() && 0 <= m <= g.w && |st.raster| == g.Size()
    ensures var r := Columns(g, st, read, m);
      forall x, y :: 0 <= x < m && 0 <= y < g.h && Mapped(read(x, y)) ==>
        Within(r, Mean(read(x, y).value))
    decreases m
  {
    if m > 0 {
      var prev := Columns(g, st, read, m - 1);
      ColumnsCover(g, st, read, m - 1);
      ColumnCovers(g, prev, read, m - 1, g.h);
    }
  }

  /** After the traversal the extremes bound the mean of every position that was read. */
  lemma TraverseExtremesBoundEveryMean(g: Geometry, st: ScanState, read: Reader)
    requires g.Valid() && |st.raster| == g.Size()
    ensures var r := Traverse(g, st, read);
      forall x, y :: g.InGrid(x, y) && Mapped(read(x, y)) ==>
        Within(r, Mean(read(x, y).value))
  {
    ColumnsCover(g, st, read, g.w);
  }

  /** A column none of whose first n rows can be mapped leaves the whole state alone. */
  lemma {:induction false} UnreadColumnKeepsState(g: Geometry, st: ScanState, read: Reader, x: int, n: int)
    requires g.Valid() && 0 <= x < g.w && 0 <= n <= g.h && |st.raster| == g.Size()
    requires forall y :: 0 <= y < n ==> !Mapped(read(x, y))
    ensures Column(g, st, read, x, n) == st
    decreases n
  {
    if n > 0 {
      UnreadColumnKeepsState(g, st, read, x, n - 1);
    }
  }

  /** The same for the first m columns. */
  lemma {:induction false} UnreadColumnsKeepState(g: Geometry, st: ScanState, read: Reader, m: int)
    requires g.Valid() && 0 <= m <= g.w && |st.raster| == g.Size()
    requires forall x, y :: 0 <= x < m && 0 <= y < g.h ==> !Mapped(read(x, y))
    ensures Columns(g, st, read, m) == st
    decreases m
  {
    if m > 0 {
      UnreadColumnsKeepState(g, st, read, m - 1);
      UnreadColumnKeepsState(g, st, read, m - 1, g.h);
    }
  }

  /** The degenerate run: starting from the sentinels, the final minimum exceeds the
      final maximum exactly when no position of the grid could be read. */
  lemma TraverseDegenerateIff(g: Geometry, st: ScanState, read: Reader)
    requires g.Valid() && |st.raster| == g.Size()
    requires st.minValue == InitialMin && st.maxValue == InitialMax
    ensures var r := Traverse(g, st, read);
      r.minValue > r.maxValue <==> forall x, y :: g.InGrid(x, y) ==> !Mapped(read(x, y))
  {
    if forall x, y :: g.InGrid(x, y) ==> !Mapped(read(x, y)) {
      UnreadColumnsKeepState(g, st, read, g.w);
    } else {
      TraverseExtremesBoundEveryMean(g, st, read);
    }
  }

  /** A 2 x 2 scan, one sample per file: 10 and 20 down column 0, 30 and 40 up column 1. */
  function SmallScan(x: int, y: int): Option<seq<real>>
  {
    if x == 0 then Some([if y == 0 then 10.0 else 20.0])
    else Some([if y == 0 then 30.0 else 40.0])
  }

  /** A file holding one plausible sample reduces to that sample. */
  lemma SingleSampleMean(v: real)
    requires LooksReasonable(v)
    ensures Mean([v]) == v
  {
    assert [v][..0] == [];
  }

  /** Writing a single target is a sequence update. */
  lemma WriteOne(raster: seq<real>, i: int, v: real)
    requires 0 <= i < |raster|
    ensures Write(raster, [i], v) == raster[i := v]
  {
    assert [i][1..] == [];
  }

  /** Position (0, 0): row 0, image column 1, flat cell 1. */
  lemma SmallScanStep00()
    ensures Step(Geometry(2, 2, 0), ScanState([0.0, 0.0, 0.0, 0.0], InitialMin, InitialMax), 0, 0, SmallScan(0, 0))
      == ScanState([0.0, 10.0, 0.0, 0.0], 10.0, 10.0)
  {
    var g := Geometry(2, 2, 0);
    SingleSampleMean(10.0);
    var t := Targets(g, 0, 0);
    assert |t| == 1 && t[0] == 1;
    assert t == [1];
    WriteOne([0.0, 0.0, 0.0, 0.0], 1, 10.0);
  }

  /** Position (0, 1): row 1, image column 1, flat cell 3. */
  lemma SmallScanStep01()
    ensures Step(Geometry(2, 2, 0), ScanState([0.0, 10.0, 0.0, 0.0], 10.0, 10.0), 0, 1, SmallScan(0, 1))
      == ScanState([0.0, 10.0, 0.0, 20.0], 10.0, 20.0)
  {
    var g := Geometry(2, 2, 0);
    SingleSampleMean(20.0);
    var t := Targets(g, 0, 1);
    assert |t| == 1 && t[0] == 3;
    assert t == [3];
    WriteOne([0.0, 10.0, 0.0, 0.0], 3, 20.0);
  }

  /** Position (1, 0): odd column read upwards, row 1, image column 0, flat cell 2. */
  lemma SmallScanStep10()
    ensures Step(Geometry(2, 2, 0), ScanState([0.0, 10.0, 0.0, 20.0], 10.0, 20.0), 1, 0, SmallScan(1, 0))
      == ScanState([0.0, 10.0, 30.0, 20.0], 10.0, 30.0)
  {
    var g := Geometry(2, 2, 0);
    SingleSampleMean(30.0);
    var t := Targets(g, 1, 0);
    assert |t| == 1 && t[0] == 2;
    assert t == [2];
    WriteOne([0.0, 10.0, 0.0, 20.0], 2, 30.0);
  }

  /** Position (1, 1): row 0, image column 0, flat cell 0. */
  lemma SmallScanStep11()
    ensures Step(Geometry(2, 2, 0), ScanState([0.0, 10.0, 30.0, 20.0], 10.0, 30.0), 1, 1, SmallScan(1, 1))
      == ScanState([40.0, 10.0, 30.0, 20.0], 10.0, 40.0)
  {
    var g := Geometry(2, 2, 0);
    SingleSampleMean(40.0);
    var t := Targets(g, 1, 1);
    assert |t| == 1 && t[0] == 0;
    assert t == [0];
    WriteOne([0.0, 10.0, 30.0, 20.0], 0, 40.0);
  }

  /** With no shift the raster is the grid mirrored left to right, with the odd
      column read bottom to top; the extremes are the smallest and largest sample. */
  lemma SmallScanRaster()
    ensures Traverse(Geometry(2, 2, 0), ScanState([0.0, 0.0, 0.0, 0.0], InitialMin, InitialMax), SmallScan)
      == ScanState([40.0, 10.0, 30.0, 20.0], 10.0, 40.0)
  {
    var g := Geometry(2, 2, 0);
    var s0 := ScanState([0.0, 0.0, 0.0, 0.0], InitialMin, InitialMax);
    var s2 := ScanState([0.0, 10.0, 0.0, 20.0], 10.0, 20.0);
    SmallScanStep00();
    SmallScanStep01();
    SmallScanStep10();
    SmallScanStep11();
    assert Column(g, s0, SmallScan, 0, 1) == ScanState([0.0, 10.0, 0.0, 0.0], 10.0, 10.0);
    assert Column(g, s0, SmallScan, 0, 2) == s2;
    assert Columns(g, s0, SmallScan, 1) == s2;
    assert Column(g, s2, SmallScan, 1, 1) == ScanState([0.0, 10.0, 30.0, 20.0], 10.0, 30.0);
    assert Column(g, s2, SmallScan, 1, 2) == ScanState([40.0, 10.0, 30.0, 20.0], 10.0, 40.0);
  }

  /** The scan assembler: the raster and the running extremes, updated in place. */
  class ScanAssembler {
    const geometry: Geometry
    const raster: array<real>
    var minValue: real
    var maxValue: real

    ghost predicate Valid()
      reads this
    {
      geometry.Valid() && raster.Length == geometry.Size()
    }

    ghost function State(): ScanState
      reads this, raster
    {
      ScanState(raster[..], minValue, maxValue)
    }

    /** Allocates the `ImgW() * ImgH()` raster; the source leaves it uninitialised,
        the model starts every cell at zero. */
    constructor (g: Geometry)
      requires g.Valid()
      ensures Valid() && geometry == g && fresh(raster)
      ensures raster.Length == g.ImgW() * g.ImgH()
      ensures minValue == InitialMin && maxValue == InitialMax
      ensures forall i :: 0 <= i < raster.Length ==> raster[i] == 0.0
    {
      geometry := g;
      raster := new real[g.Size()](_ => 0.0);
      minValue, maxValue := InitialMin, InitialMax;
    }

    /** Writes `avg` into the position's own cell and, in the shift band, its neighbour. */
    method Place(x: int, y: int, avg: real)
      requires Valid() && geometry.InGrid(x, y)
      modifies raster
      ensures Valid()
      ensures raster[..] == Write(old(raster[..]), Targets(geometry, x, y), avg)
    {
      var g := geometry;
      var idx := Index(g, x, y);
      NeighbourInRaster(g, x, y);
      if x % 2 == 0 && y < g.shift {
        raster[idx + 1] := avg;
        raster[idx] := avg;
      } else if x % 2 == 1 && YPos(g, x, y) >= g.h {
        raster[idx - 1] := avg;
        raster[idx] := avg;
      } else {
        raster[idx] := avg;
      }
      assert raster[..] == Write(old(raster[..]), Targets(g, x, y), avg);
    }

    /** One grid position: skip it, or reduce, place and update the extremes. */
    method Process(x: int, y: int, reading: Option<seq<real>>)
      requires Valid() && geometry.InGrid(x, y)
      modifies this, raster
      ensures Valid()
      ensures State() == Step(geometry, old(State()), x, y, reading)
    {
      match reading
      case None =>
      case Some(samples) =>
        if |samples| > 0 {
          var avg := Reduce(samples);
          Place(x, y, avg);
          if avg < minValue {
            minValue := avg;
          }
          if avg > maxValue {
            maxValue := avg;
          }
        }
    }

    /** The grid loop: columns x ascending, rows y ascending within each column. */
    method Assemble(read: Reader)
      requires Valid()
      modifies this, raster
      ensures Valid()
      ensures State() == Traverse(geometry, old(State()), read)
    {
      var g := geometry;
      for x := 0 to g.w
        invariant State() == Columns(g, old(State()), read, x)
      {
        for y := 0 to g.h
          invariant State() == Column(g, Columns(g, old(State()), read, x), read, x, y)
        {
          Process(x, y, read(x, y));
        }
      }
    }
  }
}
