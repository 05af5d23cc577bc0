/** The program around the core: the configuration checks made before any scan work,
    and one whole run (checks, raster allocation, grid traversal). */
module Viz {
  import opened Reducer
  import opened Placement
  import opened Assembler

  /** The C `int` that `atoi` returns. */
  newtype int32 = v: int | -0x8000_0000 <= v < 0x8000_0000

  /** Row shift when no `-s` is given: an empirical correction for the mechanics. */
  const DefaultShift: int32 := 10

  /** Colour map when no `-c` is given (Plasma). */
  const DefaultColorMap: int32 := 1

  /** Number of colour maps: Grey, Plasma, Magma, Inferno, Viridis. */
  const ColorMapCount: int := 5

  /** The `int` from `atoi` stored into an `unsigned int`: taken modulo 2^32. */
  function AsUnsigned(v: int32): (r: int)
    ensures 0 <= r < 0x1_0000_0000
    ensures (r - v as int) % 0x1_0000_0000 == 0
  {
    if v < 0 then v as int + 0x1_0000_0000 else v as int
  }

  /** The colour-map index is accepted exactly when the `atoi` value is 0 .. 4: a
      negative value becomes a huge unsigned one and fails the `> 4` test. */
  lemma ColorMapAcceptedIff(v: int32)
    ensures AsUnsigned(v) < ColorMapCount <==> 0 <= v < ColorMapCount as int32
  {
  }

  /** Checks' verdict: go ahead with a geometry and colour map, or exit with a code. */
  datatype Outcome = Proceed(geometry: Geometry, colorMap: int) | Exit(code: int)

  /** The checks in source order: positional argument count (usage, exit 1), then the
      output file, the colour map and the shift (exit 2). `positional` is the number of
      arguments left after the options; `w` and `h` are not checked. */
  function CheckConfig(positional: int, outputOpened: bool, colorMapArg: int32, shift: int32, w: int32, h: int32): (r: Outcome)
    ensures r == Exit(1) <==> positional != 3
    ensures r == Exit(2) <==>
      positional == 3 && (!outputOpened || !(0 <= colorMapArg < ColorMapCount as int32) || shift < 0)
    ensures r.Exit? ==> r.code == 1 || r.code == 2
    ensures r.Proceed? ==>
      0 <= r.colorMap < ColorMapCount && r.colorMap == colorMapArg as int &&
      r.geometry == Geometry(w as int, h as int, shift as int) &&
      r.geometry.ImgW() == w as int && r.geometry.ImgH() == h as int + shift as int &&
      r.geometry.shift >= 0
  {
    ColorMapAcceptedIff(colorMapArg);
    if positional != 3 then Exit(1)
    else if !outputOpened then Exit(2)
    else if AsUnsigned(colorMapArg) > 4 then Exit(2)
    else if shift < 0 then Exit(2)
    else Proceed(Geometry(w as int, h as int, shift as int), AsUnsigned(colorMapArg))
  }

  /** With three positional arguments, an opened output and no `-c` or `-s`, the run
      proceeds on the default Plasma map with the default shift of 10 rows. */
  lemma DefaultsAccepted(w: int32, h: int32)
    ensures CheckConfig(3, true, DefaultColorMap, DefaultShift, w, h)
      == Proceed(Geometry(w as int, h as int, 10), 1)
  {
  }

  /** One run: on a rejected configuration the exit code and no scan work at all;
      otherwise a fresh zeroed raster, the whole grid traversed into it, exit code 0. */
  method Visualize(positional: int, outputOpened: bool, colorMapArg: int32, shift: int32,
                   w: int32, h: int32, read: Reader)
    returns (code: int, scan: ScanAssembler?)
    requires CheckConfig(positional, outputOpened, colorMapArg, shift, w, h).Proceed? ==> w >= 0 && h >= 0
    ensures var c := CheckConfig(positional, outputOpened, colorMapArg, shift, w, h);
      if c.Exit? then code == c.code && scan == null
      else
        code == 0 && scan != null && fresh(scan) && fresh(scan.raster) &&
        scan.geometry == c.geometry &&
        scan.State() == Traverse(c.geometry,
                                 ScanState(seq(c.geometry.Size(), _ => 0.0), InitialMin, InitialMax),
                                 read)
  {
    var c := CheckConfig(positional, outputOpened, colorMapArg, shift, w, h);
    if c.Exit? {
      return c.code, null;
    }
    scan := new ScanAssembler(c.geometry);
    assert scan.State().raster == seq(c.geometry.Size(), _ => 0.0);
    scan.Assemble(read);
    code := 0;
  }
}
