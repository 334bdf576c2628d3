/**
 The PNG reader of scripts/paper_game_screens.py: chunks, the header's checks and the
 in-place reconstruction of filtered rows (section 6 of RFC 2083). The decompressed
 pixel data is an input.
 */
module Png {
  import opened Numbers
  import opened Options

  type Byte = b: int | 0 <= b < 256

  // --- the filters of section 6 of RFC 2083 ------------------------------------------------

  function Paeth(a: Byte, b: Byte, c: Byte): Byte {
    var p := a as int + b as int - c as int;
    var pa, pb, pc := AbsInt(p - a), AbsInt(p - b), AbsInt(p - c);
    if pa <= pb && pa <= pc then a else if pb <= pc then b else c
  }

  /** The Paeth predictor is the neighbour nearest to a + b - c; left wins ties, then up. */
  lemma PaethIsNearest(a: Byte, b: Byte, c: Byte, other: Byte)
    requires other in {a, b, c}
    ensures var p, r := a as int + b as int - c as int, Paeth(a, b, c);
            && r in {a, b, c} && AbsInt(p - r) <= AbsInt(p - other)
            && (AbsInt(p - a) == AbsInt(p - r) ==> r == a)
            && (AbsInt(p - b) == AbsInt(p - r) && r != a ==> r == b)
  {
  }

  const UNKNOWN: nat := 5

  // What a filter type predicts from the pixels to the left, above and above left.
  function Predictor(kind: Byte, left: Byte, up: Byte, corner: Byte): Byte {
    if kind == 1 then left
    else if kind == 2 then up
    else if kind == 3 then (left as int + up as int) / 2
    else if kind == 4 then Paeth(left, up, corner)
    else 0
  }

  // The byte one pixel to the left, 0 in the first pixel.
  function Left(row: seq<Byte>, channels: nat, i: nat): Byte
    requires i <= |row|
    requires channels > 0
  {
    if i >= channels then row[i - channels] else 0
  }

  function Plus(a: Byte, b: Byte): Byte { (a as int + b as int) % 256 }

  function Minus(a: Byte, b: Byte): Byte { (a as int - b as int) % 256 }

  // The encoder's side: each byte less its prediction from the unfiltered rows.
  function Filter(row: seq<Byte>, previous: seq<Byte>, channels: nat, kind: Byte): (line: seq<Byte>)
    requires |row| == |previous| && channels > 0
    ensures |line| == |row|
    ensures forall i :: 0 <= i < |row| ==>
                          line[i] == Minus(row[i], Predictor(kind, Left(row, channels, i), previous[i], Left(previous, channels, i)))
  {
    seq(|row|, i requires 0 <= i < |row| =>
      Minus(row[i], Predictor(kind, Left(row, channels, i), previous[i], Left(previous, channels, i))))
  }

  // The decoder's side, for the first n bytes of the line.
  function Unfilter(line: seq<Byte>, previous: seq<Byte>, channels: nat, kind: Byte, n: nat): (row: seq<Byte>)
    requires |line| == |previous| && channels > 0 && n <= |line|
    ensures |row| == n
  {
    if n == 0 then []
    else
      var row := Unfilter(line, previous, channels, kind, n - 1);
      row + [Plus(line[n - 1], Predictor(kind, Left(row, channels, n - 1), previous[n - 1], Left(previous, channels, n - 1)))]
  }

  lemma {:induction false} UnfilterPrefix(line: seq<Byte>, previous: seq<Byte>, channels: nat, kind: Byte, m: nat, n: nat)
    requires |line| == |previous| && channels > 0 && m <= n <= |line|
    ensures Unfilter(line, previous, channels, kind, n)[..m] == Unfilter(line, previous, channels, kind, m)
  {
    if m < n {
      UnfilterPrefix(line, previous, channels, kind, m, n - 1);
    }
  }

  lemma PlusMinus(a: Byte, p: Byte)
    ensures Plus(Minus(a, p), p) == a && Minus(Plus(a, p), p) == a
  {
    assert Minus(a, p) as int == if a >= p then a - p else a - p + 256;
    assert Plus(a, p) as int == if a + p < 256 then a + p else a + p - 256;
  }

  lemma {:induction false} UnfilterInvertsFrom(row: seq<Byte>, previous: seq<Byte>, channels: nat, kind: Byte, n: nat)
    requires |row| == |previous| && channels > 0 && n <= |row|
    ensures Unfilter(Filter(row, previous, channels, kind), previous, channels, kind, n) == row[..n]
  {
    if n > 0 {
      UnfilterInvertsFrom(row, previous, channels, kind, n - 1);
      var i := n - 1;
      PlusMinus(row[i], Predictor(kind, Left(row, channels, i), previous[i], Left(previous, channels, i)));
    }
  }

  /** Reconstruction inverts the filter, for every row, previous row, pixel width and filter type. */
  lemma UnfilterInvertsFilter(row: seq<Byte>, previous: seq<Byte>, channels: nat, kind: Byte)
    requires |row| == |previous| && channels > 0
    ensures Unfilter(Filter(row, previous, channels, kind), previous, channels, kind, |row|) == row
  {
    UnfilterInvertsFrom(row, previous, channels, kind, |row|);
    assert row[..|row|] == row;
  }

  /** And the filter inverts reconstruction: a line stands for exactly one row. */
  lemma FilterInvertsUnfilter(line: seq<Byte>, previous: seq<Byte>, channels: nat, kind: Byte)
    requires |line| == |previous| && channels > 0
    ensures Filter(Unfilter(line, previous, channels, kind, |line|), previous, channels, kind) == line
  {
    var row := Unfilter(line, previous, channels, kind, |line|);
    forall i | 0 <= i < |line| ensures Filter(row, previous, channels, kind)[i] == line[i] {
      UnfilterPrefix(line, previous, channels, kind, i, |line|);
      UnfilterPrefix(line, previous, channels, kind, i + 1, |line|);
      assert row[i] == row[..i + 1][i];
      PlusMinus(line[i], Predictor(kind, Left(row, channels, i), previous[i], Left(previous, channels, i)));
    }
  }

  // --- byte by byte ---------------------------------------------------------------------------

  // The byte one pixel before position i, or 0 in the first pixel.
  predicate PixelBefore(b: Byte, row: seq<Byte>, channels: nat, i: nat)
    requires i <= |row| && channels > 0
  {
    if i < channels then b == 0 else b == row[i - channels]
  }

  // The neighbour nearest to left + up - corner; left before up before corner when equally near.
  predicate Nearest(b: Byte, left: Byte, up: Byte, corner: Byte) {
    var to := left as int + up as int - corner as int;
    var l, u, c := AbsInt(left as int - to), AbsInt(up as int - to), AbsInt(corner as int - to);
    (l <= u && l <= c && b == left) || (u < l && u <= c && b == up) || (c < l && c < u && b == corner)
  }

  // A byte of the row is the stored one plus what section 6 of RFC 2083 predicts for its filter type.
  predicate ByteOf(b: Byte, stored: Byte, kind: Byte, left: Byte, up: Byte, corner: Byte) {
    exists predicted: Byte ::
      && (b as int == stored as int + predicted as int || b as int + 256 == stored as int + predicted as int)
      && Predicts(kind, predicted, left, up, corner)
  }

  predicate Predicts(kind: Byte, predicted: Byte, left: Byte, up: Byte, corner: Byte) {
    match kind
    case 0 => predicted == 0
    case 1 => predicted == left
    case 2 => predicted == up
    case 3 => 2 * predicted as int <= left as int + up as int <= 2 * predicted as int + 1
    case 4 => Nearest(predicted, left, up, corner)
    case _ => false
  }

  predicate RowByteOf(row: seq<Byte>, line: seq<Byte>, previous: seq<Byte>, channels: nat, kind: Byte, i: nat)
    requires |row| == |line| == |previous| && i < |row| && channels > 0
  {
    exists left: Byte, corner: Byte ::
      && PixelBefore(left, row, channels, i) && PixelBefore(corner, previous, channels, i)
      && ByteOf(row[i], line[i], kind, left, previous[i], corner)
  }

  // Every byte of the row, from the stored line, the row so far and the row above.
  predicate RowOf(row: seq<Byte>, line: seq<Byte>, previous: seq<Byte>, channels: nat, kind: Byte)
    requires channels > 0
  {
    |row| == |line| == |previous| && forall i: nat :: i < |row| ==> RowByteOf(row, line, previous, channels, kind, i)
  }

  lemma PlusIsByte(stored: Byte, kind: Byte, left: Byte, up: Byte, corner: Byte)
    requires kind < UNKNOWN
    ensures ByteOf(Plus(stored, Predictor(kind, left, up, corner)), stored, kind, left, up, corner)
  {
    var predicted := Predictor(kind, left, up, corner);
    var b := Plus(stored, predicted);
    assert b as int == stored as int + predicted as int || b as int + 256 == stored as int + predicted as int;
    assert Predicts(kind, predicted, left, up, corner);
  }

  /** The unfiltered row is the stored line plus the predictions, byte by byte. */
  lemma UnfilterIsRow(line: seq<Byte>, previous: seq<Byte>, channels: nat, kind: Byte)
    requires |line| == |previous| && channels > 0 && kind < UNKNOWN
    ensures RowOf(Unfilter(line, previous, channels, kind, |line|), line, previous, channels, kind)
  {
    var row := Unfilter(line, previous, channels, kind, |line|);
    forall i: nat | i < |row| ensures RowByteOf(row, line, previous, channels, kind, i) {
      UnfilterPrefix(line, previous, channels, kind, i, |line|);
      UnfilterPrefix(line, previous, channels, kind, i + 1, |line|);
      assert row[i] == row[..i + 1][i];
      var left, corner := Left(row, channels, i), Left(previous, channels, i);
      hide Unfilter, ByteOf, Predictor, Plus;
      assert Left(row[..i], channels, i) == left;
      PlusIsByte(line[i], kind, left, previous[i], corner);
      assert PixelBefore(left, row, channels, i) && PixelBefore(corner, previous, channels, i);
    }
  }

  // --- the loop over a row --------------------------------------------------------------------

  lemma UnfilterStep(line: seq<Byte>, previous: seq<Byte>, channels: nat, kind: Byte, i: nat)
    requires |line| == |previous| && channels > 0 && i < |line|
    ensures var row := Unfilter(line, previous, channels, kind, i);
            Unfilter(line, previous, channels, kind, i + 1)
            == row + [Plus(line[i], Predictor(kind, Left(row, channels, i), previous[i], Left(previous, channels, i)))]
  {
  }

  lemma PredictorCases(kind: Byte, left: Byte, up: Byte, corner: Byte, b: Byte)
    ensures kind == 1 ==> Predictor(kind, left, up, corner) == left
    ensures kind == 2 ==> Predictor(kind, left, up, corner) == up
    ensures kind == 3 ==> Predictor(kind, left, up, corner) == (left as int + up as int) / 2
    ensures kind == 4 ==> Predictor(kind, left, up, corner) == Paeth(left, up, corner)
    ensures kind == 0 ==> Plus(b, Predictor(kind, left, up, corner)) == b
  {
  }

  // An unknown filter is met at the first byte, so a row without bytes never raises.
  method ReconstructRow(line: array<Byte>, previous: seq<Byte>, channels: nat, kind: Byte) returns (ok: bool)
    requires line.Length == |previous| && channels > 0
    modifies line
    ensures ok <==> kind < UNKNOWN || line.Length == 0
    ensures ok ==> line[..] == Unfilter(old(line[..]), previous, channels, kind, |previous|)
    ensures ok ==> RowOf(line[..], old(line[..]), previous, channels, kind)
    ensures !ok ==> line[..] == old(line[..])
  {
    hide Unfilter, Plus, Predictor, Paeth, RowByteOf;
    ghost var raw := line[..];
    UnfilterNothing(raw, previous, channels, kind);
    for i := 0 to line.Length
      invariant kind < UNKNOWN || i == 0
      invariant line[..i] == Unfilter(raw, previous, channels, kind, i)
      invariant forall j :: i <= j < line.Length ==> line[j] == raw[j]
    {
      ghost var row := line[..i];
      var left: Byte := if i >= channels then line[i - channels] else 0;
      var up := previous[i];
      var corner: Byte := if i >= channels then previous[i - channels] else 0;
      assert left == Left(row, channels, i) && corner == Left(previous, channels, i);
      PredictorCases(kind, left, up, corner, line[i]);
      UnfilterStep(raw, previous, channels, kind, i);
      if kind == 1 {
        line[i] := Plus(line[i], left);
      } else if kind == 2 {
        line[i] := Plus(line[i], up);
      } else if kind == 3 {
        line[i] := Plus(line[i], (left as int + up as int) / 2);
      } else if kind == 4 {
        line[i] := Plus(line[i], Paeth(left, up, corner));
      } else if kind != 0 {
        return false;
      }
      assert line[..i] == row;
      assert line[i] == Plus(raw[i], Predictor(kind, left, up, corner));
      assert line[..i + 1] == row + [line[i]];
    }
    assert line[..] == line[..line.Length];
    if line.Length > 0 {
      UnfilterIsRow(raw, previous, channels, kind);
    }
    return true;
  }

  /** With no pixels in a row an unknown filter goes unnoticed; with one byte the same filter is an error. */
  lemma UnknownFilterNeedsAByte()
    ensures Pixels([9], 0, 3, 1) == Image([[]]) && Pixels([9, 0, 0, 0], 3, 3, 1) == UnknownFilter
  {
    var empty, full := LinesOf([9], 0, 1), LinesOf([9, 0, 0, 0], 3, 1);
    assert empty[0] == Line(9, []) && full[0].kind == 9 && |full[0].bytes| == 3;
    NoRows(empty, 0, 3);
    NoRows(full, 3, 3);
    RowsStep(empty, 0, 3, [], Zeros(0));
    RowsStep(full, 3, 3, [], Zeros(3));
  }

  lemma UnfilterNothing(line: seq<Byte>, previous: seq<Byte>, channels: nat, kind: Byte)
    requires |line| == |previous| && channels > 0
    ensures Unfilter(line, previous, channels, kind, 0) == []
  {
  }

  // --- the rows of an image ------------------------------------------------------------------------

  // A filtered row as stored: its filter type and its bytes.
  datatype Line = Line(kind: Byte, bytes: seq<Byte>)

  function Zeros(n: nat): (z: seq<Byte>)
    ensures |z| == n && forall i :: 0 <= i < n ==> z[i] == 0
  {
    seq(n, _ => 0)
  }

  predicate AllLong<T>(xs: seq<seq<T>>, n: nat) { forall i :: 0 <= i < |xs| ==> |xs[i]| == n }

  predicate LinesLong(lines: seq<Line>, n: nat) { forall i :: 0 <= i < |lines| ==> |lines[i].bytes| == n }

  // The row above row n.
  function Above(rows: seq<seq<Byte>>, stride: nat, n: nat): (row: seq<Byte>)
    requires n <= |rows| && AllLong(rows, stride)
    ensures |row| == stride
  {
    if n == 0 then Zeros(stride) else rows[n - 1]
  }

  predicate Readable(line: Line) { line.kind < UNKNOWN || line.bytes == [] }

  // The rows of the first n lines, or None after an unknown filter.
  function Rows(lines: seq<Line>, stride: nat, channels: nat, n: nat): (rows: Option<seq<seq<Byte>>>)
    requires LinesLong(lines, stride) && channels > 0 && n <= |lines|
    ensures rows.Some? ==> |rows.value| == n && AllLong(rows.value, stride)
  {
    if n == 0 then Some([])
    else
      match Rows(lines, stride, channels, n - 1)
      case None => None
      case Some(rows) =>
        var line := lines[n - 1];
        if !Readable(line) then None
        else Some(rows + [Unfilter(line.bytes, Above(rows, stride, n - 1), channels, line.kind, stride)])
  }

  // The encoder: any filter type for each row.
  function FilterRows(rows: seq<seq<Byte>>, kinds: seq<Byte>, stride: nat, channels: nat): (lines: seq<Line>)
    requires AllLong(rows, stride) && |kinds| == |rows| && channels > 0
    ensures |lines| == |rows| && LinesLong(lines, stride)
    ensures forall i :: 0 <= i < |rows| ==> lines[i] == Line(kinds[i], Filter(rows[i], Above(rows, stride, i), channels, kinds[i]))
  {
    seq(|rows|, i requires 0 <= i < |rows| => Line(kinds[i], Filter(rows[i], Above(rows, stride, i), channels, kinds[i])))
  }

  predicate Known(kinds: seq<Byte>) { forall i :: 0 <= i < |kinds| ==> kinds[i] < UNKNOWN }

  lemma {:induction false} RowsInvertFrom(rows: seq<seq<Byte>>, kinds: seq<Byte>, stride: nat, channels: nat, n: nat)
    requires AllLong(rows, stride) && |kinds| == |rows| && channels > 0 && Known(kinds) && n <= |rows|
    ensures Rows(FilterRows(rows, kinds, stride, channels), stride, channels, n) == Some(rows[..n])
  {
    hide Rows, Above, Filter;
    var lines := FilterRows(rows, kinds, stride, channels);
    if n == 0 {
      NoRows(lines, stride, channels);
    } else {
      RowsInvertFrom(rows, kinds, stride, channels, n - 1);
      OneRowMore(lines, stride, channels, rows, n - 1, kinds[n - 1]);
    }
  }

  lemma OneRowMore(lines: seq<Line>, stride: nat, channels: nat, rows: seq<seq<Byte>>, i: nat, kind: Byte)
    requires AllLong(rows, stride) && LinesLong(lines, stride) && channels > 0 && i < |rows| == |lines| && kind < UNKNOWN
    requires lines[i] == Line(kind, Filter(rows[i], Above(rows, stride, i), channels, kind))
    requires Rows(lines, stride, channels, i) == Some(rows[..i])
    ensures Rows(lines, stride, channels, i + 1) == Some(rows[..i + 1])
  {
    hide Unfilter, Filter, Rows;
    var above := Above(rows, stride, i);
    assert above == Above(rows[..i], stride, i);
    UnfilterInvertsFilter(rows[i], above, channels, kind);
    RowsStep(lines, stride, channels, rows[..i], above);
    assert rows[..i] + [rows[i]] == rows[..i + 1];
  }

  lemma NoRows(lines: seq<Line>, stride: nat, channels: nat)
    requires LinesLong(lines, stride) && channels > 0
    ensures Rows(lines, stride, channels, 0) == Some([])
  {
  }

  lemma RowsStep(lines: seq<Line>, stride: nat, channels: nat, rows: seq<seq<Byte>>, above: seq<Byte>)
    requires LinesLong(lines, stride) && channels > 0 && |rows| < |lines| && AllLong(rows, stride) && |above| == stride
    requires Rows(lines, stride, channels, |rows|) == Some(rows) && above == Above(rows, stride, |rows|)
    ensures var line := lines[|rows|];
            Rows(lines, stride, channels, |rows| + 1)
            == if Readable(line) then Some(rows + [Unfilter(line.bytes, above, channels, line.kind, stride)]) else None
  {
  }

  /** Decoding inverts encoding for a whole image, whatever filter each row uses. */
  lemma RowsInvertFilters(rows: seq<seq<Byte>>, kinds: seq<Byte>, stride: nat, channels: nat)
    requires AllLong(rows, stride) && |kinds| == |rows| && channels > 0 && Known(kinds)
    ensures Rows(FilterRows(rows, kinds, stride, channels), stride, channels, |rows|) == Some(rows)
  {
    RowsInvertFrom(rows, kinds, stride, channels, |rows|);
    assert rows[..|rows|] == rows;
  }

  // --- pixel data ---------------------------------------------------------------------------------------

  function Flatten(lines: seq<Line>): seq<Byte> {
    if lines == [] then []
    else Flatten(lines[..|lines| - 1]) + ([lines[|lines| - 1].kind] + lines[|lines| - 1].bytes)
  }

  lemma RowFits(r: nat, height: nat, size: nat)
    requires r < height
    ensures 0 <= r * size && r * size + size <= height * size && (r + 1) * size == r * size + size
  {
    assert (r + 1) * size <= height * size by {
      Ordered(r + 1, height, size);
    }
  }

  lemma Ordered(a: nat, b: nat, size: nat)
    requires a <= b
    ensures a * size <= b * size
  {
  }

  // Row r of the pixel data.
  function LineAt(raw: seq<Byte>, stride: nat, height: nat, r: nat): (line: Line)
    requires |raw| == height * (stride + 1) && r < height
    ensures |line.bytes| == stride
  {
    RowFits(r, height, stride + 1);
    var start := r * (stride + 1);
    Line(raw[start], raw[start + 1..start + 1 + stride])
  }

  function LinesOf(raw: seq<Byte>, stride: nat, height: nat): (lines: seq<Line>)
    requires |raw| == height * (stride + 1)
    ensures |lines| == height && LinesLong(lines, stride)
    ensures forall r :: 0 <= r < height ==> lines[r] == LineAt(raw, stride, height, r)
  {
    seq(height, r requires 0 <= r < height => LineAt(raw, stride, height, r))
  }

  lemma {:induction false} FlattenedAt(lines: seq<Line>, stride: nat, r: nat)
    requires LinesLong(lines, stride) && r <= |lines|
    ensures |Flatten(lines)| == |lines| * (stride + 1)
    ensures r < |lines| ==> LineAt(Flatten(lines), stride, |lines|, r) == lines[r]
  {
    if lines != [] {
      hide Flatten;
      var n := |lines| - 1;
      var front, last := lines[..n], [lines[n].kind] + lines[n].bytes;
      FlattenSnoc(lines);
      RowFits(n, n + 1, stride + 1);
      FlattenedAt(front, stride, if r < n then r else n);
      if r < n {
        RowFits(r, n, stride + 1);
        RowFits(r, n + 1, stride + 1);
        SliceOfFront(Flatten(front), last, r * (stride + 1), stride);
      } else if r == n {
        SliceOfLast(Flatten(front), lines[n]);
      }
    } else {
      assert Flatten(lines) == [];
    }
  }

  lemma FlattenSnoc(lines: seq<Line>)
    requires lines != []
    ensures var n := |lines| - 1; Flatten(lines) == Flatten(lines[..n]) + ([lines[n].kind] + lines[n].bytes)
  {
  }

  lemma SliceOfLast(a: seq<Byte>, line: Line)
    ensures var b := a + ([line.kind] + line.bytes);
            b[|a|] == line.kind && b[|a| + 1..|a| + 1 + |line.bytes|] == line.bytes
  {
  }

  lemma SliceOfFront(a: seq<Byte>, b: seq<Byte>, start: nat, stride: nat)
    requires start + 1 + stride <= |a|
    ensures (a + b)[start] == a[start] && (a + b)[start + 1..start + 1 + stride] == a[start + 1..start + 1 + stride]
  {
  }

  lemma LinesOfFlatten(lines: seq<Line>, stride: nat)
    requires LinesLong(lines, stride)
    ensures |Flatten(lines)| == |lines| * (stride + 1) && LinesOf(Flatten(lines), stride, |lines|) == lines
  {
    FlattenedAt(lines, stride, |lines|);
    forall r | 0 <= r < |lines| ensures LinesOf(Flatten(lines), stride, |lines|)[r] == lines[r] {
      FlattenedAt(lines, stride, r);
    }
  }

  datatype Image = Image(rows: seq<seq<Byte>>) | SizeMismatch | UnknownFilter

  // What the pixel data of an image of this size stands for.
  function Pixels(raw: seq<Byte>, stride: nat, channels: nat, height: nat): Image
    requires channels > 0
  {
    if |raw| != height * (stride + 1) then SizeMismatch
    else
      match Rows(LinesOf(raw, stride, height), stride, channels, height)
      case None => UnknownFilter
      case Some(rows) => Image(rows)
  }

  // Row by row: a filter byte and as many bytes as the row has, unfiltered against the row above.
  ghost predicate ImageOf(rows: seq<seq<Byte>>, raw: seq<Byte>, stride: nat, channels: nat)
    requires channels > 0
  {
    |raw| == |rows| * (stride + 1) && forall r: nat :: r < |rows| ==> LineOf(rows, raw, stride, channels, r)
  }

  ghost predicate LineOf(rows: seq<seq<Byte>>, raw: seq<Byte>, stride: nat, channels: nat, r: nat)
    requires r < |rows| && channels > 0
  {
    var at := r * (stride + 1);
    && |rows[r]| == stride && 0 <= at && at + 1 + stride <= |raw|
    && exists above: seq<Byte> ::
         && (if r == 0 then |above| == stride && forall i :: 0 <= i < stride ==> above[i] == 0 else above == rows[r - 1])
         && RowOf(rows[r], raw[at + 1..at + 1 + stride], above, channels, raw[at])
  }

  lemma {:induction false} RowsAreRead(lines: seq<Line>, stride: nat, channels: nat, n: nat, r: nat)
    requires LinesLong(lines, stride) && channels > 0 && r < n <= |lines| && Rows(lines, stride, channels, n).Some?
    ensures var rows := Rows(lines, stride, channels, n).value;
            RowOf(rows[r], lines[r].bytes, Above(rows, stride, r), channels, lines[r].kind)
  {
    hide RowByteOf, Unfilter;
    if r < n - 1 {
      RowsAreRead(lines, stride, channels, n - 1, r);
    } else {
      var line := lines[r];
      if stride > 0 {
        UnfilterIsRow(line.bytes, Above(Rows(lines, stride, channels, r).value, stride, r), channels, line.kind);
      }
    }
  }

  /** An image read from pixel data is its rows, unfiltered byte by byte from the stored lines. */
  lemma PixelsAreImage(raw: seq<Byte>, stride: nat, channels: nat, height: nat)
    requires channels > 0 && Pixels(raw, stride, channels, height).Image?
    ensures ImageOf(Pixels(raw, stride, channels, height).rows, raw, stride, channels)
    ensures |Pixels(raw, stride, channels, height).rows| == height
  {
    hide RowOf, Rows;
    var lines := LinesOf(raw, stride, height);
    var rows := Rows(lines, stride, channels, height).value;
    forall r: nat | r < height ensures LineOf(rows, raw, stride, channels, r) {
      RowsAreRead(lines, stride, channels, height, r);
      RowFits(r, height, stride + 1);
      var at := r * (stride + 1);
      assert lines[r] == LineAt(raw, stride, height, r);
      assert RowOf(rows[r], raw[at + 1..at + 1 + stride], Above(rows, stride, r), channels, raw[at]);
    }
  }

  // The row loop of png_summary; it keeps every row, where the source keeps their colours.
  method ReadPixels(raw: seq<Byte>, width: nat, channels: nat, height: nat) returns (image: Image)
    requires channels > 0
    ensures image == Pixels(raw, width * channels, channels, height)
    ensures image.Image? ==> |image.rows| == height && ImageOf(image.rows, raw, width * channels, channels)
  {
    hide Rows, Unfilter, RowOf;
    var stride := width * channels;
    if |raw| != height * (stride + 1) {
      return SizeMismatch;
    }
    ghost var lines := LinesOf(raw, stride, height);
    var rows: seq<seq<Byte>> := [];
    var previous := Zeros(stride);
    NoRows(lines, stride, channels);
    for r := 0 to height
      invariant |rows| == r && AllLong(rows, stride) && previous == Above(rows, stride, r)
      invariant Rows(lines, stride, channels, r) == Some(rows)
    {
      RowFits(r, height, stride + 1);
      var start := r * (stride + 1);
      var kind := raw[start];
      var line := new Byte[stride](i requires 0 <= i < stride => raw[start + 1 + i]);
      assert line[..] == lines[r].bytes && kind == lines[r].kind;
      RowsStep(lines, stride, channels, rows, previous);
      var ok := ReconstructRow(line, previous, channels, kind);
      if !ok {
        RowsStop(lines, stride, channels, r, height);
        return UnknownFilter;
      }
      rows := rows + [line[..]];
      previous := line[..];
    }
    PixelsAreImage(raw, stride, channels, height);
    return Image(rows);
  }

  lemma {:induction false} RowsStop(lines: seq<Line>, stride: nat, channels: nat, r: nat, n: nat)
    requires LinesLong(lines, stride) && channels > 0 && r < n <= |lines|
    requires Rows(lines, stride, channels, r + 1) == None
    ensures Rows(lines, stride, channels, n) == None
  {
    if r + 1 < n {
      RowsStop(lines, stride, channels, r, n - 1);
    }
  }
}
