/** How many pixels of two decoded frames differ by more than a tolerance in any channel. */
module PixelDiff {
  import opened Integers
  import PngFilter

  type byte = PngFilter.byte

  datatype Raster = Raster(width: nat, height: nat, channels: nat, data: seq<byte>)

  function Distance(x: int, y: int): nat { Abs(x - y) }

  ghost predicate ValidRaster(r: Raster) { |r.data| == r.width * r.height * r.channels }

  /** Where channel `c` of pixel `p` is. */
  function At(p: int, channels: int, c: int): int { p * channels + c }

  /**
   * Byte `i` differs. The second frame may have fewer channels than the first; past its
   * end nothing compares as greater, so nothing differs there.
   */
  predicate ByteDiffers(a: Raster, b: Raster, tolerance: int, i: int) {
    0 <= i < |a.data| && i < |b.data| && Distance(a.data[i], b.data[i]) > tolerance
  }

  ghost predicate PixelDiffers(a: Raster, b: Raster, tolerance: int, p: int) {
    exists c :: 0 <= c < a.channels && ByteDiffers(a, b, tolerance, At(p, a.channels, c))
  }

  ghost function Differing(a: Raster, b: Raster, tolerance: int, upTo: nat): set<int> {
    set p | 0 <= p < upTo && PixelDiffers(a, b, tolerance, p)
  }

  ghost function Count(a: Raster, b: Raster, tolerance: int): nat {
    if a.width != b.width || a.height != b.height then a.width * a.height
    else |Differing(a, b, tolerance, a.width * a.height)|
  }

  lemma PixelInside(r: Raster, p: nat, c: nat)
    requires ValidRaster(r) && p < r.width * r.height && c < r.channels
    ensures 0 <= At(p, r.channels, c) < |r.data|
  {
    var pixels := r.width * r.height;
    assert (pixels - p - 1) * r.channels >= 0;
    assert pixels * r.channels == p * r.channels + r.channels + (pixels - p - 1) * r.channels;
  }

  /** A pixel differs when one of its bytes, at its place in both frames, is further apart than the tolerance. */
  lemma PixelDiffersExactly(a: Raster, b: Raster, tolerance: int, p: nat)
    requires ValidRaster(a) && p < a.width * a.height
    ensures PixelDiffers(a, b, tolerance, p) <==>
            exists i :: p * a.channels <= i < p * a.channels + a.channels && i < |a.data| && i < |b.data| &&
                        (a.data[i] - b.data[i] > tolerance || b.data[i] - a.data[i] > tolerance)
  {
    if i :| p * a.channels <= i < p * a.channels + a.channels && i < |a.data| && i < |b.data| &&
            (a.data[i] - b.data[i] > tolerance || b.data[i] - a.data[i] > tolerance) {
      assert ByteDiffers(a, b, tolerance, At(p, a.channels, i - p * a.channels));
    }
    if c :| 0 <= c < a.channels && ByteDiffers(a, b, tolerance, At(p, a.channels, c)) {
      PixelInside(a, p, c);
      var i := At(p, a.channels, c);
      assert a.data[i] - b.data[i] > tolerance || b.data[i] - a.data[i] > tolerance;
    }
  }

  /** Frames of different sizes differ in every pixel of the first; of the same size, in those that do. */
  lemma CountExactly(a: Raster, b: Raster, tolerance: int, differing: set<int>)
    requires ValidRaster(a)
    requires forall p :: p in differing <==> 0 <= p < a.width * a.height && PixelDiffers(a, b, tolerance, p)
    ensures Count(a, b, tolerance) ==
            if a.width == b.width && a.height == b.height then |differing| else a.width * a.height
  {
    assert differing == Differing(a, b, tolerance, a.width * a.height);
  }

  method DifferingPixels(first: Raster, second: Raster, tolerance: int) returns (count: nat)
    requires ValidRaster(first) && ValidRaster(second)
    ensures count == Count(first, second, tolerance)
  {
    if first.width != second.width || first.height != second.height {
      return first.width * first.height;
    }
    count := 0;
    assert Differing(first, second, tolerance, 0) == {};
    for p := 0 to first.width * first.height
      invariant count == |Differing(first, second, tolerance, p)|
    {
      var differs := false;
      var c := 0;
      while c < first.channels
        invariant 0 <= c <= first.channels
        invariant !differs
        invariant forall k :: 0 <= k < c ==> !ByteDiffers(first, second, tolerance, At(p, first.channels, k))
      {
        PixelInside(first, p, c);
        var i := At(p, first.channels, c);
        if i < |second.data| && Distance(first.data[i], second.data[i]) > tolerance {
          differs := true;
          assert ByteDiffers(first, second, tolerance, At(p, first.channels, c));
          break;
        }
        c := c + 1;
      }
      assert differs == PixelDiffers(first, second, tolerance, p);
      if differs { count := count + 1; }
      OneMore(first, second, tolerance, p);
    }
  }

  lemma OneMore(a: Raster, b: Raster, tolerance: int, p: nat)
    ensures |Differing(a, b, tolerance, p + 1)| ==
            |Differing(a, b, tolerance, p)| + (if PixelDiffers(a, b, tolerance, p) then 1 else 0)
  {
    assert Differing(a, b, tolerance, p + 1) ==
           Differing(a, b, tolerance, p) + if PixelDiffers(a, b, tolerance, p) then {p as int} else {};
  }

  lemma PixelOf(r: Raster, i: nat)
    requires ValidRaster(r) && i < |r.data|
    ensures r.channels > 0
    ensures 0 <= i / r.channels < r.width * r.height
    ensures i == At(i / r.channels, r.channels, i % r.channels)
  {
    Quotient(i, r.width * r.height, r.channels);
  }

  lemma Quotient(i: nat, pixels: nat, channels: nat)
    requires i < pixels * channels
    ensures channels > 0 && i / channels < pixels
  {
    if channels > 0 {
      var q := i / channels;
      assert (q - pixels) * channels == q * channels - pixels * channels < 0;
    }
  }

  /** For frames with the same channels, the order of the two does not matter. */
  lemma Symmetric(a: Raster, b: Raster, tolerance: int)
    requires ValidRaster(a) && ValidRaster(b) && a.channels == b.channels
    requires a.width == b.width && a.height == b.height
    ensures Count(a, b, tolerance) == Count(b, a, tolerance)
  {
    forall p ensures PixelDiffers(a, b, tolerance, p) == PixelDiffers(b, a, tolerance, p) {
      assert forall c :: ByteDiffers(a, b, tolerance, At(p, a.channels, c)) ==
                         ByteDiffers(b, a, tolerance, At(p, b.channels, c));
    }
    assert Differing(a, b, tolerance, a.width * a.height) == Differing(b, a, tolerance, b.width * b.height);
  }

  /** Two frames of one shape count nothing exactly when every byte is within the tolerance. */
  lemma NoneDiffersExactly(a: Raster, b: Raster, tolerance: int)
    requires ValidRaster(a) && ValidRaster(b) && a.channels == b.channels
    requires a.width == b.width && a.height == b.height
    ensures |a.data| == |b.data|
    ensures Count(a, b, tolerance) == 0 <==>
            forall i :: 0 <= i < |a.data| ==> Distance(a.data[i], b.data[i]) <= tolerance
  {
    var none := Differing(a, b, tolerance, a.width * a.height);
    if Count(a, b, tolerance) == 0 {
      forall i | 0 <= i < |a.data| ensures Distance(a.data[i], b.data[i]) <= tolerance {
        PixelOf(a, i);
        assert i / a.channels !in none;
        assert !ByteDiffers(a, b, tolerance, At(i / a.channels, a.channels, i % a.channels));
      }
    }
    if forall i :: 0 <= i < |a.data| ==> Distance(a.data[i], b.data[i]) <= tolerance {
      assert none == {};
    }
  }

  /**
   * With the alpha channel on one side only, the order of the two matters: bytes are
   * compared at one position in both, whatever pixel they belong to.
   */
  lemma OrderMatters(plain: Raster, clear: Raster)
    requires plain == Raster(2, 1, 3, [0, 0, 0, 0, 0, 0]) && clear == Raster(2, 1, 4, [0, 0, 0, 255, 9, 0, 0, 255])
    ensures ValidRaster(plain) && ValidRaster(clear)
    ensures Count(plain, clear, 6) == 1 && Count(clear, plain, 6) == 2
  {
    assert ByteDiffers(plain, clear, 6, At(1, 3, 0));
    assert Differing(plain, clear, 6, 2) == {1};
    assert ByteDiffers(clear, plain, 6, At(0, 4, 3)) && ByteDiffers(clear, plain, 6, At(1, 4, 0));
    assert Differing(clear, plain, 6, 2) == {0, 1};
  }
}
