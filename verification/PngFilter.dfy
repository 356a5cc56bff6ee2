/**
 * PNG row filters (clause 9 of ISO/IEC 15948) and the decoder that undoes them.
 *
 * The raw data is, for each row, one filter byte and `stride` filtered bytes; the
 * image is `stride` bytes a row. All arithmetic on bytes is modulo 256.
 */
module PngFilter {
  import opened Integers

  type byte = x: int | 0 <= x < 256

  /** Whichever of left, up and upper left is nearest to left + up - upper left. */
  function Paeth(a: int, b: int, c: int): int {
    var p := a + b - c;
    var pa, pb, pc := Abs(p - a), Abs(p - b), Abs(p - c);
    if pa <= pb && pa <= pc then a else if pb <= pc then b else c
  }

  lemma PaethIsNearest(a: int, b: int, c: int, other: int)
    requires other == a || other == b || other == c
    ensures Paeth(a, b, c) == a || Paeth(a, b, c) == b || Paeth(a, b, c) == c
    ensures Abs(a + b - c - Paeth(a, b, c)) <= Abs(a + b - c - other)
    ensures Abs(a + b - c - Paeth(a, b, c)) == Abs(a + b - c - a) ==> Paeth(a, b, c) == a
    ensures Abs(a + b - c - Paeth(a, b, c)) == Abs(a + b - c - b) ==> Paeth(a, b, c) == a || Paeth(a, b, c) == b
  {
    var p := a + b - c;
    assert Abs(p - a) == Abs(a - p) && Abs(p - b) == Abs(b - p) && Abs(p - c) == Abs(c - p);
  }

  function Predictor(filter: int, left: int, up: int, upLeft: int): int {
    match filter
    case 1 => left
    case 2 => up
    case 3 => (left + up) / 2
    case 4 => Paeth(left, up, upLeft)
    case _ => 0
  }

  /** The shape of an image: rows of `stride` bytes, `channels` bytes a pixel. */
  datatype Shape = Shape(height: nat, stride: nat, channels: nat)

  predicate ValidShape(s: Shape) { s.channels > 0 }

  /** What the filter predicts for byte `x` of row `y`, from the image bytes before it. */
  function Predict(s: Shape, filter: int, before: seq<byte>, y: int, x: int): int
    requires ValidShape(s) && 0 <= x < s.stride && x <= |before| && (y > 0 ==> s.stride + x <= |before|)
  {
    var k := |before|;
    var left := if x >= s.channels then before[k - s.channels] else 0;
    var up := if y > 0 then before[k - s.stride] else 0;
    var upLeft := if y > 0 && x >= s.channels then before[k - s.stride - s.channels] else 0;
    Predictor(filter, left, up, upLeft)
  }

  /** Where row `y` starts, at `size` bytes a row. */
  function RowStart(y: nat, size: nat): nat { if y == 0 then 0 else RowStart(y - 1, size) + size }

  lemma {:induction false} RowStartIsProduct(y: nat, size: nat)
    ensures RowStart(y, size) == y * size
  {
    if y == 0 {
    } else {
      RowStartIsProduct(y - 1, size);
    }
  }

  lemma NextRow(y: nat, size: nat)
    ensures RowStart(y + 1, size) == RowStart(y, size) + size
  {}

  lemma {:induction false} RowFits(y: nat, height: nat, size: nat)
    requires y < height
    ensures RowStart(y, size) + size == RowStart(y + 1, size) <= RowStart(height, size)
  {
    if y + 1 == height {
    } else {
      RowFits(y, height - 1, size);
    }
  }

  ghost predicate IsRaw(s: Shape, raw: seq<byte>) {
    ValidShape(s) && |raw| == RowStart(s.height, s.stride + 1)
  }

  ghost predicate IsImage(s: Shape, image: seq<byte>) {
    ValidShape(s) && |image| == RowStart(s.height, s.stride)
  }

  ghost function RowFilter(s: Shape, raw: seq<byte>, y: nat): byte
    requires IsRaw(s, raw) && y < s.height
  {
    RowFits(y, s.height, s.stride + 1);
    raw[RowStart(y, s.stride + 1)]
  }

  ghost function Line(s: Shape, raw: seq<byte>, y: nat): (line: seq<byte>)
    requires IsRaw(s, raw) && y < s.height
    ensures |line| == s.stride
  {
    RowFits(y, s.height, s.stride + 1);
    raw[RowStart(y, s.stride + 1) + 1..][..s.stride]
  }

  // ----- One byte, in the words of the standard -----

  /**
   * `value` is the byte `read` undone beside its neighbours: filter 0, or any not known, adds
   * nothing; 1 the byte one pixel to the left; 2 the byte above; 3 half the sum of the two,
   * rounded down; 4 whichever of left, above and above left is nearest to
   * left + above - above left, in this order when they are as near.
   */
  predicate Undoes(filter: int, left: int, above: int, aboveLeft: int, read: int, value: int) {
    match filter
    case 1 => value == (read + left) % 256
    case 2 => value == (read + above) % 256
    case 3 => value == (read + (left + above) / 2) % 256
    case 4 =>
      var p := left + above - aboveLeft;
      if Abs(p - left) <= Abs(p - above) && Abs(p - left) <= Abs(p - aboveLeft) then value == (read + left) % 256
      else if Abs(p - above) <= Abs(p - aboveLeft) then value == (read + above) % 256
      else value == (read + aboveLeft) % 256
    case _ => value == read
  }

  /** The neighbours of the byte at `k` of the image, `x` of its row; outside the image they are 0. */
  function LeftOf(s: Shape, image: seq<byte>, k: int, x: int): int
    requires 0 <= x <= k <= |image|
  {
    if x >= s.channels > 0 then image[k - s.channels] else 0
  }

  function AboveOf(s: Shape, image: seq<byte>, k: int, y: int, x: int): int
    requires 0 <= x <= k <= |image| && (y > 0 ==> s.stride + x <= k)
  {
    if y > 0 && s.stride > 0 then image[k - s.stride] else 0
  }

  function AboveLeftOf(s: Shape, image: seq<byte>, k: int, y: int, x: int): int
    requires 0 <= x <= k <= |image| && (y > 0 ==> s.stride + x <= k)
  {
    if y > 0 && x >= s.channels > 0 then image[k - s.stride - s.channels] else 0
  }

  lemma PredictorUndoes(filter: int, left: int, above: int, aboveLeft: int, read: byte)
    ensures Undoes(filter, left, above, aboveLeft, read, (read + Predictor(filter, left, above, aboveLeft)) % 256)
  {
    PaethIsNearest(left, above, aboveLeft, left);
  }

  lemma PredictFrom(s: Shape, filter: int, before: seq<byte>, image: seq<byte>, y: int, x: int)
    requires ValidShape(s) && 0 <= x < s.stride && x <= |before| && (y > 0 ==> s.stride + x <= |before|)
    requires before <= image
    ensures var k := |before|;
            Predict(s, filter, before, y, x) ==
            Predictor(filter, LeftOf(s, image, k, x), AboveOf(s, image, k, y, x), AboveLeftOf(s, image, k, y, x))
  {
    assert forall i :: 0 <= i < |before| ==> image[i] == before[i];
  }

  /** Byte `k` of the image, `x` of row `y`, is `read` undone from the image before it. */
  predicate IsUndone(s: Shape, image: seq<byte>, k: int, y: int, x: int, filter: int, read: int, value: int)
    requires 0 <= x <= k <= |image| && (y > 0 ==> s.stride + x <= k)
  {
    Undoes(filter, LeftOf(s, image, k, x), AboveOf(s, image, k, y, x), AboveLeftOf(s, image, k, y, x), read, value)
  }

  lemma PredictUndoes(s: Shape, filter: int, before: seq<byte>, image: seq<byte>, y: int, x: int, read: byte,
      value: int)
    requires ValidShape(s) && 0 <= x < s.stride && x <= |before| && (y > 0 ==> s.stride + x <= |before|)
    requires before <= image && value == (read + Predict(s, filter, before, y, x)) % 256
    ensures IsUndone(s, image, |before|, y, x, filter, read, value)
  {
    var k := |before|;
    PredictFrom(s, filter, before, image, y, x);
    PredictorUndoes(filter, LeftOf(s, image, k, x), AboveOf(s, image, k, y, x), AboveLeftOf(s, image, k, y, x), read);
  }

  // ----- The decoder -----

  /** The image once the first `x` bytes of row `y` are undone, given the rows above. */
  ghost function UnfilterLine(s: Shape, y: nat, filter: int, above: seq<byte>, line: seq<byte>,
      x: nat): (image: seq<byte>)
    requires ValidShape(s) && x <= |line| == s.stride && (y > 0 ==> s.stride <= |above|)
    ensures |image| == |above| + x
  {
    if x == 0 then above
    else
      var before := UnfilterLine(s, y, filter, above, line, x - 1);
      before + [(line[x - 1] + Predict(s, filter, before, y, x - 1)) % 256]
  }

  ghost function UnfilterRows(s: Shape, raw: seq<byte>, y: nat): (image: seq<byte>)
    requires IsRaw(s, raw) && y <= s.height
    ensures |image| == RowStart(y, s.stride)
  {
    if y == 0 then []
    else
      NextRow(y - 1, s.stride);
      assert y > 1 ==> RowStart(y - 1, s.stride) == RowStart(y - 2, s.stride) + s.stride;
      UnfilterLine(s, y - 1, RowFilter(s, raw, y - 1), UnfilterRows(s, raw, y - 1), Line(s, raw, y - 1), s.stride)
  }

  ghost function Decoded(s: Shape, raw: seq<byte>): (image: seq<byte>)
    requires IsRaw(s, raw)
    ensures IsImage(s, image)
  {
    UnfilterRows(s, raw, s.height)
  }

  /** One byte undone, from the bytes already in place before it. */
  method UndoByte(s: Shape, y: nat, x: nat, filter: byte, byteRead: byte, data: array<byte>, k: nat,
      ghost before: seq<byte>)
    returns (undone: byte)
    requires ValidShape(s) && x < s.stride && x <= k && (y > 0 ==> s.stride + x <= k) && k <= data.Length
    requires |before| == k && forall i :: 0 <= i < k ==> before[i] == data[i]
    ensures undone == (byteRead + Predict(s, filter, before, y, x)) % 256
  {
    var left: int := if x >= s.channels then data[k - s.channels] else 0;
    var up: int := if y > 0 then data[k - s.stride] else 0;
    var upLeft: int := if y > 0 && x >= s.channels then data[k - s.stride - s.channels] else 0;
    var value: int := byteRead;
    if filter == 1 { value := value + left; }
    else if filter == 2 { value := value + up; }
    else if filter == 3 { value := value + (left + up) / 2; }
    else if filter == 4 { value := value + Paeth(left, up, upLeft); }
    undone := value % 256;
  }

  /** One row undone in place, behind the `start` bytes of the rows above it. */
  method DecodeLine(s: Shape, y: nat, filter: byte, line: seq<byte>, data: array<byte>, start: nat)
    requires ValidShape(s) && |line| == s.stride && start + s.stride <= data.Length
    requires y > 0 ==> s.stride <= start
    modifies data
    ensures data[..start + s.stride] == UnfilterLine(s, y, filter, old(data[..start]), line, s.stride)
  {
    ghost var above := data[..start];
    ghost var before := above;
    for x := 0 to s.stride
      invariant |before| == start + x && forall i :: 0 <= i < |before| ==> before[i] == data[i]
      invariant before == UnfilterLine(s, y, filter, above, line, x)
    {
      var k := start + x;
      var undone := UndoByte(s, y, x, filter, line[x], data, k, before);
      data[k] := undone;
      before := before + [undone];
    }
  }

  lemma OneMoreRow(s: Shape, raw: seq<byte>, y: nat)
    requires IsRaw(s, raw) && y < s.height
    ensures RowStart(y, s.stride + 1) + 1 + s.stride <= |raw|
    ensures RowStart(y, s.stride) + s.stride == RowStart(y + 1, s.stride) <= RowStart(s.height, s.stride)
    ensures y > 0 ==> s.stride <= RowStart(y, s.stride)
    ensures var start := RowStart(y, s.stride + 1);
            UnfilterRows(s, raw, y + 1) ==
            UnfilterLine(s, y, raw[start], UnfilterRows(s, raw, y), raw[start + 1..][..s.stride], s.stride)
  {
    RowFits(y, s.height, s.stride + 1);
    RowFits(y, s.height, s.stride);
  }

  /** Row `y`, its filter byte first, undone behind the rows above it. */
  method DecodeRow(s: Shape, raw: seq<byte>, y: nat, data: array<byte>)
    requires IsRaw(s, raw) && y < s.height && data.Length == RowStart(s.height, s.stride)
    requires RowStart(y, s.stride) <= data.Length && data[..RowStart(y, s.stride)] == UnfilterRows(s, raw, y)
    modifies data
    ensures RowStart(y + 1, s.stride) <= data.Length
    ensures data[..RowStart(y + 1, s.stride)] == UnfilterRows(s, raw, y + 1)
  {
    OneMoreRow(s, raw, y);
    var start, at := RowStart(y, s.stride + 1), RowStart(y, s.stride);
    var line := raw[start + 1..][..s.stride];
    DecodeLine(s, y, raw[start], line, data, at);
    assert data[..at + s.stride] == UnfilterRows(s, raw, y + 1);
  }

  method DecodeRows(s: Shape, raw: seq<byte>) returns (data: array<byte>)
    requires IsRaw(s, raw)
    ensures data[..] == Decoded(s, raw)
  {
    data := new byte[RowStart(s.height, s.stride)];
    for y := 0 to s.height
      invariant RowStart(y, s.stride) <= data.Length && data[..RowStart(y, s.stride)] == UnfilterRows(s, raw, y)
    {
      DecodeRow(s, raw, y, data);
    }
    assert data[..data.Length] == data[..];
  }

  // ----- The encoder it undoes -----

  /** The first `x` bytes of the row that begins at `start`, filtered. */
  ghost function FilterLine(s: Shape, y: nat, filter: int, image: seq<byte>, start: nat, x: nat): (line: seq<byte>)
    requires ValidShape(s) && x <= s.stride && start + s.stride <= |image| && (y > 0 ==> s.stride <= start)
    ensures |line| == x
  {
    if x == 0 then []
    else
      var k := start + x - 1;
      FilterLine(s, y, filter, image, start, x - 1) + [(image[k] - Predict(s, filter, image[..k], y, x - 1)) % 256]
  }

  /** The raw data of the first `y` rows, with one filter chosen for each row. */
  ghost function FilterRows(s: Shape, image: seq<byte>, filters: seq<byte>, y: nat): seq<byte>
    requires IsImage(s, image) && y <= |filters| == s.height
  {
    if y == 0 then []
    else
      FilterRows(s, image, filters, y - 1) + [filters[y - 1]] + FilterLineOf(s, image, filters, y - 1)
  }

  lemma {:induction false} FilterRowsLength(s: Shape, image: seq<byte>, filters: seq<byte>, y: nat)
    requires IsImage(s, image) && y <= |filters| == s.height
    ensures |FilterRows(s, image, filters, y)| == RowStart(y, s.stride + 1)
  {
    if y == 0 {
    } else {
      FilterRowsLength(s, image, filters, y - 1);
    }
  }

  ghost function FilterLineOf(s: Shape, image: seq<byte>, filters: seq<byte>, y: nat): (line: seq<byte>)
    requires IsImage(s, image) && y < |filters| == s.height
    ensures |line| == s.stride
  {
    RowInside(s, image, y);
    FilterLine(s, y, filters[y], image, RowStart(y, s.stride), s.stride)
  }

  lemma RowInside(s: Shape, image: seq<byte>, y: nat)
    requires IsImage(s, image) && y < s.height
    ensures RowStart(y, s.stride) + s.stride == RowStart(y + 1, s.stride) <= |image|
    ensures y > 0 ==> s.stride <= RowStart(y, s.stride)
  {
    RowFits(y, s.height, s.stride);
  }

  ghost function Filtered(s: Shape, image: seq<byte>, filters: seq<byte>): (raw: seq<byte>)
    requires IsImage(s, image) && |filters| == s.height
    ensures IsRaw(s, raw)
  {
    FilterRowsLength(s, image, filters, s.height);
    FilterRows(s, image, filters, s.height)
  }

  lemma AddBack(v: byte, p: int)
    ensures ((v - p) % 256 + p) % 256 == v
  {}

  lemma TakeOff(v: byte, p: int)
    ensures ((v + p) % 256 - p) % 256 == v
  {}

  // Slices, kept apart from the rows they are used on.

  lemma Extend(a: seq<byte>, k: nat)
    requires k < |a|
    ensures a[..k + 1] == a[..k] + [a[k]]
  {}

  lemma PrefixOfPrefix(a: seq<byte>, length: nat, shorter: nat)
    requires shorter <= length <= |a|
    ensures a[..length][..shorter] == a[..shorter]
  {}

  lemma IsPrefixOfSum(a: seq<byte>, b: seq<byte>)
    ensures a <= a + b
  {}

  lemma PrefixChain(a: seq<byte>, b: seq<byte>, c: seq<byte>)
    requires a <= b <= c
    ensures a <= c
  {}

  lemma SameParts(a: seq<byte>, f: byte, line: seq<byte>, b: seq<byte>, g: byte, other: seq<byte>)
    requires |a| == |b| && a + [f] + line == b + [g] + other
    ensures f == g && line == other
  {
    assert (a + [f] + line)[|a|] == f && (b + [g] + other)[|a|] == g;
    assert (a + [f] + line)[|a| + 1..] == line && (b + [g] + other)[|a| + 1..] == other;
  }

  /** Undoing the filtered bytes of one row gives the row. */
  lemma {:induction false} LineRestored(s: Shape, y: nat, filter: int, image: seq<byte>, start: nat, x: nat)
    requires ValidShape(s) && x <= s.stride && start + s.stride <= |image| && (y > 0 ==> s.stride <= start)
    ensures UnfilterLine(s, y, filter, image[..start], FilterLine(s, y, filter, image, start, s.stride), x) ==
            image[..start + x]
  {
    if x == 0 {
    } else {
      var k := start + x - 1;
      LineRestored(s, y, filter, image, start, x - 1);
      FilterLineByte(s, y, filter, image, start, x - 1, s.stride);
      AddBack(image[k], Predict(s, filter, image[..k], y, x - 1));
      Extend(image, k);
    }
  }

  lemma {:induction false} FilterLineByte(s: Shape, y: nat, filter: int, image: seq<byte>, start: nat, x: nat, to: nat)
    requires ValidShape(s) && x < to <= s.stride && start + s.stride <= |image| && (y > 0 ==> s.stride <= start)
    ensures FilterLine(s, y, filter, image, start, to)[x] ==
            (image[start + x] - Predict(s, filter, image[..start + x], y, x)) % 256
  {
    if x == to - 1 {
    } else {
      FilterLineByte(s, y, filter, image, start, x, to - 1);
    }
  }

  lemma FilterOneMore(s: Shape, image: seq<byte>, filters: seq<byte>, y: nat)
    requires IsImage(s, image) && y < |filters| == s.height
    ensures FilterRows(s, image, filters, y) <= FilterRows(s, image, filters, y + 1)
  {
    var shorter := FilterRows(s, image, filters, y);
    var row := [filters[y]] + FilterLineOf(s, image, filters, y);
    assert FilterRows(s, image, filters, y + 1) == shorter + row;
    IsPrefixOfSum(shorter, row);
  }

  /** The first rows of the raw data are the first rows filtered. */
  lemma {:induction false} FilterRowsGrow(s: Shape, image: seq<byte>, filters: seq<byte>, y: nat, to: nat)
    requires IsImage(s, image) && y <= to <= |filters| == s.height
    ensures FilterRows(s, image, filters, y) <= FilterRows(s, image, filters, to)
  {
    if y == to {
    } else {
      FilterRowsGrow(s, image, filters, y, to - 1);
      FilterOneMore(s, image, filters, to - 1);
      PrefixChain(FilterRows(s, image, filters, y), FilterRows(s, image, filters, to - 1),
          FilterRows(s, image, filters, to));
    }
  }

  lemma SplitRow(s: Shape, raw: seq<byte>, y: nat)
    requires IsRaw(s, raw) && y < s.height
    ensures RowStart(y, s.stride + 1) <= RowStart(y + 1, s.stride + 1) <= |raw|
    ensures raw[..RowStart(y + 1, s.stride + 1)] == raw[..RowStart(y, s.stride + 1)] + [RowFilter(s, raw, y)] +
            Line(s, raw, y)
  {
    RowFits(y, s.height, s.stride + 1);
  }

  /** What the decoder reads as row `y` of the raw data an image filters to. */
  lemma FilteredRow(s: Shape, image: seq<byte>, filters: seq<byte>, y: nat)
    requires IsImage(s, image) && y < |filters| == s.height
    ensures RowFilter(s, Filtered(s, image, filters), y) == filters[y]
    ensures Line(s, Filtered(s, image, filters), y) == FilterLineOf(s, image, filters, y)
  {
    var raw := Filtered(s, image, filters);
    FilteredThrough(s, image, filters, y);
    FilteredThrough(s, image, filters, y + 1);
    SplitRow(s, raw, y);
    SameParts(raw[..RowStart(y, s.stride + 1)], RowFilter(s, raw, y), Line(s, raw, y),
              FilterRows(s, image, filters, y), filters[y], FilterLineOf(s, image, filters, y));
  }

  lemma FilteredThrough(s: Shape, image: seq<byte>, filters: seq<byte>, y: nat)
    requires IsImage(s, image) && y <= |filters| == s.height
    ensures RowStart(y, s.stride + 1) <= |Filtered(s, image, filters)|
    ensures Filtered(s, image, filters)[..RowStart(y, s.stride + 1)] == FilterRows(s, image, filters, y)
  {
    FilterRowsGrow(s, image, filters, y, s.height);
    FilterRowsLength(s, image, filters, y);
  }

  lemma RowRestored(s: Shape, image: seq<byte>, filters: seq<byte>, y: nat)
    requires IsImage(s, image) && y < |filters| == s.height
    ensures RowStart(y, s.stride) + s.stride == RowStart(y + 1, s.stride) <= |image| &&
            (y > 0 ==> s.stride <= RowStart(y, s.stride))
    ensures var raw := Filtered(s, image, filters);
            UnfilterLine(s, y, RowFilter(s, raw, y), image[..RowStart(y, s.stride)], Line(s, raw, y), s.stride) ==
            image[..RowStart(y + 1, s.stride)]
  {
    RowInside(s, image, y);
    FilteredRow(s, image, filters, y);
    LineRestored(s, y, filters[y], image, RowStart(y, s.stride), s.stride);
  }

  lemma {:induction false} RowsRestored(s: Shape, image: seq<byte>, filters: seq<byte>, y: nat)
    requires IsImage(s, image) && y <= |filters| == s.height
    ensures RowStart(y, s.stride) <= |image|
    ensures UnfilterRows(s, Filtered(s, image, filters), y) == image[..RowStart(y, s.stride)]
  {
    if y == 0 {
    } else {
      RowsRestored(s, image, filters, y - 1);
      RowRestored(s, image, filters, y - 1);
    }
  }

  /**
   * Decoding undoes filtering, for every image and every choice of a filter per row
   * (a filter byte outside 0 to 4 is read as none, by both).
   */
  lemma DecodeUndoesFilter(s: Shape, image: seq<byte>, filters: seq<byte>)
    requires IsImage(s, image) && |filters| == s.height
    ensures Decoded(s, Filtered(s, image, filters)) == image
  {
    RowsRestored(s, image, filters, s.height);
    assert image[..|image|] == image;
  }

  // ----- And back -----

  lemma {:induction false} LineGrows(s: Shape, y: nat, filter: int, above: seq<byte>, line: seq<byte>, x: nat, to: nat)
    requires ValidShape(s) && x <= to <= |line| == s.stride && (y > 0 ==> s.stride <= |above|)
    ensures UnfilterLine(s, y, filter, above, line, to)[..|above| + x] == UnfilterLine(s, y, filter, above, line, x)
  {
    if x == to {
    } else {
      LineGrows(s, y, filter, above, line, x, to - 1);
      PrefixOfPrefix(UnfilterLine(s, y, filter, above, line, to), |above| + to - 1, |above| + x);
    }
  }

  lemma {:induction false} RowsGrow(s: Shape, raw: seq<byte>, y: nat, to: nat)
    requires IsRaw(s, raw) && y <= to <= s.height
    ensures RowStart(y, s.stride) <= RowStart(to, s.stride)
    ensures UnfilterRows(s, raw, to)[..RowStart(y, s.stride)] == UnfilterRows(s, raw, y)
  {
    if y == to {
    } else {
      RowsGrow(s, raw, y, to - 1);
      var above := UnfilterRows(s, raw, to - 1);
      LineGrows(s, to - 1, RowFilter(s, raw, to - 1), above, Line(s, raw, to - 1), 0, s.stride);
      PrefixOfPrefix(UnfilterRows(s, raw, to), |above|, RowStart(y, s.stride));
    }
  }

  /** Filtering the undone bytes of one row gives the line that was read. */
  lemma {:induction false} LineRefiltered(s: Shape, y: nat, filter: int, above: seq<byte>, line: seq<byte>,
      image: seq<byte>, x: nat)
    requires ValidShape(s) && x <= |line| == s.stride && (y > 0 ==> s.stride <= |above|)
    requires |above| + s.stride <= |image|
    requires image[..|above| + s.stride] == UnfilterLine(s, y, filter, above, line, s.stride)
    ensures FilterLine(s, y, filter, image, |above|, x) == line[..x]
  {
    if x == 0 {
    } else {
      LineRefiltered(s, y, filter, above, line, image, x - 1);
      DecodedByte(s, y, filter, above, line, image, x - 1);
      TakeOff(line[x - 1], Predict(s, filter, image[..|above| + x - 1], y, x - 1));
      Extend(line, x - 1);
    }
  }

  lemma DecodedByte(s: Shape, y: nat, filter: int, above: seq<byte>, line: seq<byte>, image: seq<byte>, x: nat)
    requires ValidShape(s) && x < |line| == s.stride && (y > 0 ==> s.stride <= |above|)
    requires |above| + s.stride <= |image|
    requires image[..|above| + s.stride] == UnfilterLine(s, y, filter, above, line, s.stride)
    ensures image[|above| + x] == (line[x] + Predict(s, filter, image[..|above| + x], y, x)) % 256
  {
    PrefixOfPrefix(image, |above| + s.stride, |above| + x);
    PrefixOfPrefix(image, |above| + s.stride, |above| + x + 1);
    LineGrows(s, y, filter, above, line, x, s.stride);
    LineGrows(s, y, filter, above, line, x + 1, s.stride);
    Extend(image, |above| + x);
  }

  lemma RowRefiltered(s: Shape, raw: seq<byte>, y: nat)
    requires IsRaw(s, raw) && y < s.height
    ensures RowStart(y, s.stride) + s.stride == RowStart(y + 1, s.stride) <= |Decoded(s, raw)|
    ensures y > 0 ==> s.stride <= RowStart(y, s.stride)
    ensures FilterLine(s, y, RowFilter(s, raw, y), Decoded(s, raw), RowStart(y, s.stride), s.stride) == Line(s, raw, y)
  {
    var image, above, line := Decoded(s, raw), UnfilterRows(s, raw, y), Line(s, raw, y);
    RowInside(s, image, y);
    RowsGrow(s, raw, y + 1, s.height);
    LineRefiltered(s, y, RowFilter(s, raw, y), above, line, image, s.stride);
    assert line[..s.stride] == line;
  }

  /**
   * Every byte of the decoded image: the byte of the raw data at its place, behind the filter
   * byte of its row, undone by that filter from the image itself.
   */
  lemma DecodedByteIsUndone(s: Shape, raw: seq<byte>, y: nat, x: nat)
    requires IsRaw(s, raw) && y < s.height && x < s.stride
    ensures var at, k := RowStart(y, s.stride + 1), RowStart(y, s.stride) + x;
            && at == y * (s.stride + 1) && k == y * s.stride + x
            && at + 1 + x < |raw| && k < |Decoded(s, raw)| && (y > 0 ==> s.stride + x <= k)
            && IsUndone(s, Decoded(s, raw), k, y, x, raw[at], raw[at + 1 + x], Decoded(s, raw)[k])
  {
    var at, k := RowStart(y, s.stride + 1), RowStart(y, s.stride) + x;
    RowStartIsProduct(y, s.stride + 1);
    RowStartIsProduct(y, s.stride);
    RowFits(y, s.height, s.stride + 1);
    PlacedByte(s, raw, y, x, k);
  }

  /** The rows down to `y` are those above it and `y` undone behind them. */
  lemma RowPlaced(s: Shape, raw: seq<byte>, y: nat)
    requires IsRaw(s, raw) && y < s.height
    ensures var image, above := Decoded(s, raw), UnfilterRows(s, raw, y);
            && |above| == RowStart(y, s.stride) && |above| + s.stride <= |image| && (y > 0 ==> s.stride <= |above|)
            && image[..|above| + s.stride] ==
               UnfilterLine(s, y, RowFilter(s, raw, y), above, Line(s, raw, y), s.stride)
  {
    RowInside(s, Decoded(s, raw), y);
    RowsGrow(s, raw, y + 1, s.height);
  }

  /** Its bytes, undone from the image so far. */
  lemma PlacedByte(s: Shape, raw: seq<byte>, y: nat, x: nat, k: nat)
    requires IsRaw(s, raw) && y < s.height && x < s.stride && k == RowStart(y, s.stride) + x
    ensures k < |Decoded(s, raw)| && (y > 0 ==> s.stride + x <= k)
    ensures IsUndone(s, Decoded(s, raw), k, y, x, RowFilter(s, raw, y), Line(s, raw, y)[x], Decoded(s, raw)[k])
  {
    var image, above, line := Decoded(s, raw), UnfilterRows(s, raw, y), Line(s, raw, y);
    RowPlaced(s, raw, y);
    DecodedByte(s, y, RowFilter(s, raw, y), above, line, image, x);
    PredictUndoes(s, RowFilter(s, raw, y), image[..k], image, y, x, line[x], image[k]);
  }

  /** Row `y` of the image, filtered, is row `y` of the raw data. */
  ghost predicate RowMatches(s: Shape, image: seq<byte>, raw: seq<byte>, filters: seq<byte>, y: nat)
    requires IsImage(s, image) && IsRaw(s, raw) && y < |filters| == s.height
  {
    filters[y] == RowFilter(s, raw, y) && FilterLineOf(s, image, filters, y) == Line(s, raw, y)
  }

  lemma OneMoreRefiltered(s: Shape, image: seq<byte>, raw: seq<byte>, filters: seq<byte>, y: nat)
    requires IsImage(s, image) && IsRaw(s, raw) && y < |filters| == s.height
    requires RowMatches(s, image, raw, filters, y)
    requires FilterRows(s, image, filters, y) <= raw
    ensures FilterRows(s, image, filters, y + 1) <= raw
  {
    FilterRowsLength(s, image, filters, y);
    SplitRow(s, raw, y);
  }

  lemma {:induction false} RowsRefiltered(s: Shape, image: seq<byte>, raw: seq<byte>, filters: seq<byte>, y: nat)
    requires IsImage(s, image) && IsRaw(s, raw) && y <= |filters| == s.height
    requires forall k :: 0 <= k < s.height ==> RowMatches(s, image, raw, filters, k)
    ensures FilterRows(s, image, filters, y) <= raw
  {
    if y == 0 {
    } else {
      RowsRefiltered(s, image, raw, filters, y - 1);
      OneMoreRefiltered(s, image, raw, filters, y - 1);
    }
  }

  /** Filtering the decoded image again, with the filters read, gives the raw data back. */
  lemma FilterUndoesDecode(s: Shape, raw: seq<byte>, filters: seq<byte>)
    requires IsRaw(s, raw) && |filters| == s.height
    requires forall y :: 0 <= y < s.height ==> filters[y] == RowFilter(s, raw, y)
    ensures Filtered(s, Decoded(s, raw), filters) == raw
  {
    forall y | 0 <= y < s.height ensures RowMatches(s, Decoded(s, raw), raw, filters, y) {
      RowRefiltered(s, raw, y);
    }
    RowsRefiltered(s, Decoded(s, raw), raw, filters, s.height);
  }
}
