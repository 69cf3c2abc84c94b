/** The page's pixel buffer (`buf`, a Uint32Array over the canvas image):
    where a draw lands and what the visual frame writes there. */
module PixelBuffer {
  import opened Sampling

  /** One Uint32Array cell. */
  newtype Pixel = x: int | 0 <= x < 0x1_0000_0000

  const Black: Pixel := 0xFF00_0000
  const ColorInside: Pixel := 0xFF99_D334
  const ColorOutside: Pixel := 0xFFB6_72F4

  function ColorOf(p: Point): Pixel {
    if InDisk(p) then ColorInside else ColorOutside
  }

  /** `py * w + px` with `px = floor((x + 1) * w / 2)` and likewise `py`, for a
      canvas `w` pixels wide. */
  function PixelIndex(p: Point, w: int): int {
    var half := w as real / 2.0;
    var px := ((p.x + 1.0) * half).Floor;
    var py := ((p.y + 1.0) * half).Floor;
    py * w + px
  }

  /** One write of the visual loop, behind its bounds guard. */
  function Plot(b: seq<Pixel>, p: Point, w: int): seq<Pixel> {
    var k := PixelIndex(p, w);
    if 0 <= k < |b| then b[k := ColorOf(p)] else b
  }

  /** The buffer after plotting the draws `ps` in order. */
  function Paint(b: seq<Pixel>, ps: seq<Point>, w: int): (r: seq<Pixel>)
    ensures |r| == |b|
  {
    if ps == [] then b else Plot(Paint(b, ps[..|ps| - 1], w), ps[|ps| - 1], w)
  }

  /** Plotting one more draw: the step the visual loop takes. */
  lemma PaintPrefix(b: seq<Pixel>, ps: seq<Point>, w: int, i: nat)
    requires i < |ps|
    ensures Paint(b, ps[..i + 1], w) == Plot(Paint(b, ps[..i], w), ps[i], w)
  {
    assert ps[..i + 1][..i] == ps[..i];
  }

  /** A cell that no draw maps to keeps its colour; in particular a draw whose
      index falls outside the buffer writes nothing. */
  lemma {:induction false} PaintUntouched(b: seq<Pixel>, ps: seq<Point>, w: int, k: int)
    requires 0 <= k < |b|
    requires forall j :: 0 <= j < |ps| ==> PixelIndex(ps[j], w) != k
    ensures Paint(b, ps, w)[k] == b[k]
  {
    if ps != [] {
      PaintUntouched(b, ps[..|ps| - 1], w, k);
    }
  }

  /** A cell holds the colour of the last draw that maps to it. */
  lemma {:induction false} PaintLastWrite(b: seq<Pixel>, ps: seq<Point>, w: int, j: nat)
    requires j < |ps| && 0 <= PixelIndex(ps[j], w) < |b|
    requires forall j' :: j < j' < |ps| ==> PixelIndex(ps[j'], w) != PixelIndex(ps[j], w)
    ensures Paint(b, ps, w)[PixelIndex(ps[j], w)] == ColorOf(ps[j])
  {
    if j < |ps| - 1 {
      PaintLastWrite(b, ps[..|ps| - 1], w, j);
    }
  }

  /** Every cell ends up with its old colour or the colour of some draw that
      maps to it. */
  lemma {:induction false} PaintCellOrigin(b: seq<Pixel>, ps: seq<Point>, w: int, k: int)
    requires 0 <= k < |b|
    ensures Paint(b, ps, w)[k] == b[k]
         || exists j :: 0 <= j < |ps| && PixelIndex(ps[j], w) == k && Paint(b, ps, w)[k] == ColorOf(ps[j])
  {
    if ps != [] {
      var init := ps[..|ps| - 1];
      PaintCellOrigin(b, init, w, k);
      if PixelIndex(ps[|ps| - 1], w) != k {
        if Paint(b, init, w)[k] != b[k] {
          var j :| 0 <= j < |init| && PixelIndex(init[j], w) == k && Paint(b, init, w)[k] == ColorOf(init[j]);
          assert ps[j] == init[j];
        }
      }
    }
  }
}
