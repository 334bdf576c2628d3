/**
 The container of a PNG file as scripts/paper_game_screens.py reads it: chunks after
 the signature, the header's checks, and from the file's bytes to its rows. Inflation
 of the compressed data is a parameter.
 */
module PngFile {
  import opened Options
  import opened Png

  const SIGNATURE: seq<Byte> := [137, 80, 78, 71, 13, 10, 26, 10]
  const IHDR: seq<Byte> := [73, 72, 68, 82]
  const IDAT: seq<Byte> := [73, 68, 65, 84]

  // --- big-endian numbers -----------------------------------------------------------------

  function Number(b: seq<Byte>): nat
    requires |b| == 4
  {
    ((b[0] as nat * 256 + b[1] as nat) * 256 + b[2] as nat) * 256 + b[3] as nat
  }

  function FourBytes(n: nat): (b: seq<Byte>)
    requires n < 0x1_0000_0000
    ensures |b| == 4
  {
    [n / 16_777_216, n / 65_536 % 256, n / 256 % 256, n % 256]
  }

  lemma NumberRoundTrip(n: nat)
    requires n < 0x1_0000_0000
    ensures Number(FourBytes(n)) == n
  {
    assert n == 256 * (n / 256) + n % 256;
    assert n / 256 == 256 * (n / 65_536) + n / 256 % 256;
    assert n / 65_536 == 256 * (n / 16_777_216) + n / 65_536 % 256;
  }

  // --- chunks -------------------------------------------------------------------------------

  datatype Chunk = Chunk(kind: seq<Byte>, body: seq<Byte>)

  // A slice as Python takes it: a body that runs past the end of the file is cut short.
  function Slice(data: seq<Byte>, start: nat, length: nat): seq<Byte>
    requires start <= |data|
  {
    if start + length <= |data| then data[start..start + length] else data[start..]
  }

  function ChunksFrom(data: seq<Byte>, offset: nat): seq<Chunk>
    decreases |data| - offset
  {
    if offset + 8 > |data| then []
    else
      var length := Number(data[offset..offset + 4]);
      [Chunk(data[offset + 4..offset + 8], Slice(data, offset + 8, length))] + ChunksFrom(data, offset + 12 + length)
  }

  // _chunks.
  method Chunks(data: seq<Byte>) returns (chunks: seq<Chunk>)
    ensures chunks == ChunksFrom(data, |SIGNATURE|)
  {
    hide Number, Slice;
    chunks := [];
    var offset: nat := |SIGNATURE|;
    while offset + 8 <= |data|
      invariant ChunksFrom(data, |SIGNATURE|) == chunks + ChunksFrom(data, offset)
      decreases |data| - offset
    {
      var length := Number(data[offset..offset + 4]);
      chunks := chunks + [Chunk(data[offset + 4..offset + 8], Slice(data, offset + 8, length))];
      offset := offset + 12 + length;
    }
  }

  // --- the writer's side -------------------------------------------------------------------------

  // A chunk as it lies in a file: the reader never looks at the checksum.
  datatype Stored = Stored(chunk: Chunk, checksum: seq<Byte>)

  predicate Storable(s: Stored) { |s.chunk.kind| == 4 && |s.chunk.body| < 0x1_0000_0000 && |s.checksum| == 4 }

  predicate AllStorable(stored: seq<Stored>) { forall i :: 0 <= i < |stored| ==> Storable(stored[i]) }

  function Encoded(s: Stored): seq<Byte>
    requires Storable(s)
  {
    FourBytes(|s.chunk.body|) + s.chunk.kind + s.chunk.body + s.checksum
  }

  function AllEncoded(stored: seq<Stored>): seq<Byte>
    requires AllStorable(stored)
  {
    if stored == [] then [] else Encoded(stored[0]) + AllEncoded(stored[1..])
  }

  function ChunksOf(stored: seq<Stored>): (chunks: seq<Chunk>)
    ensures |chunks| == |stored| && forall i :: 0 <= i < |stored| ==> chunks[i] == stored[i].chunk
  {
    seq(|stored|, i requires 0 <= i < |stored| => stored[i].chunk)
  }

  lemma OneChunk(before: seq<Byte>, s: Stored, after: seq<Byte>)
    requires Storable(s)
    ensures var data, o, n := before + Encoded(s) + after, |before|, |s.chunk.body|;
            && |data| == o + 12 + n + |after|
            && Number(data[o..o + 4]) == n && data[o + 4..o + 8] == s.chunk.kind && Slice(data, o + 8, n) == s.chunk.body
  {
    var data, o, n := before + Encoded(s) + after, |before|, |s.chunk.body|;
    NumberRoundTrip(n);
    assert data[o..o + 4] == FourBytes(n);
    assert data[o + 4..o + 8] == s.chunk.kind;
    assert data[o + 8..o + 8 + n] == s.chunk.body;
  }

  // The reader's step over one chunk.
  lemma ReadsOne(before: seq<Byte>, s: Stored, after: seq<Byte>)
    requires Storable(s)
    ensures |before + Encoded(s)| == |before| + 12 + |s.chunk.body|
    ensures var data := before + Encoded(s) + after;
            ChunksFrom(data, |before|) == [s.chunk] + ChunksFrom(data, |before + Encoded(s)|)
  {
    hide Number, Slice;
    OneChunk(before, s, after);
  }

  lemma NothingMore(data: seq<Byte>)
    ensures ChunksFrom(data, |data|) == []
  {
  }

  lemma {:induction false} ChunksRoundTripFrom(before: seq<Byte>, stored: seq<Stored>)
    requires AllStorable(stored)
    ensures ChunksFrom(before + AllEncoded(stored), |before|) == ChunksOf(stored)
    decreases |stored|
  {
    hide Encoded, ChunksFrom;
    if stored == [] {
      assert before + AllEncoded(stored) == before;
      NothingMore(before);
    } else {
      var s, rest := stored[0], stored[1..];
      var next := before + Encoded(s);
      ReadsOne(before, s, AllEncoded(rest));
      ChunksRoundTripFrom(next, rest);
      assert before + AllEncoded(stored) == next + AllEncoded(rest);
      assert ChunksOf(stored) == [s.chunk] + ChunksOf(rest);
    }
  }

  function File(stored: seq<Stored>): seq<Byte>
    requires AllStorable(stored)
  {
    SIGNATURE + AllEncoded(stored)
  }

  /** Every chunk of a well-formed file is read back, in order, with its whole body. */
  lemma ChunksRoundTrip(stored: seq<Stored>)
    requires AllStorable(stored)
    ensures ChunksFrom(File(stored), |SIGNATURE|) == ChunksOf(stored)
  {
    ChunksRoundTripFrom(SIGNATURE, stored);
  }

  // --- the summary's reading ------------------------------------------------------------------------

  // The body of the last header chunk.
  function Header(chunks: seq<Chunk>): Option<seq<Byte>> {
    if chunks == [] then None
    else
      var last := chunks[|chunks| - 1];
      if last.kind == IHDR then Some(last.body) else Header(chunks[..|chunks| - 1])
  }

  // The bodies of all data chunks, joined.
  function Compressed(chunks: seq<Chunk>): seq<Byte> {
    if chunks == [] then []
    else
      var last := chunks[|chunks| - 1];
      Compressed(chunks[..|chunks| - 1]) + if last.kind == IDAT then last.body else []
  }

  datatype Format = Format(width: nat, height: nat, channels: nat)

  datatype Reading =
    | NotPng
    | NoHeader
    | Unsupported
    | Read(format: Format, image: Image)

  predicate IsPng(data: seq<Byte>) { SIGNATURE <= data }

  function FormatOf(header: seq<Byte>): Option<Format>
    requires |header| == 13
  {
    var channels := if header[9] == 2 then 3 else if header[9] == 6 then 4 else 0;
    if header[8] != 8 || channels == 0 || header[12] != 0 then None
    else Some(Format(Number(header[0..4]), Number(header[4..8]), channels))
  }

  // png_summary up to its colours.
  function Summary(data: seq<Byte>, inflate: seq<Byte> -> seq<Byte>): Reading {
    if !IsPng(data) then NotPng
    else
      var chunks := ChunksFrom(data, |SIGNATURE|);
      match Header(chunks)
      case None => NoHeader
      case Some(header) =>
        if |header| != 13 then NoHeader
        else
          match FormatOf(header)
          case None => Unsupported
          case Some(f) => Read(f, Pixels(inflate(Compressed(chunks)), f.width * f.channels, f.channels, f.height))
  }

  method PngSummary(data: seq<Byte>, inflate: seq<Byte> -> seq<Byte>) returns (r: Reading)
    ensures r == Summary(data, inflate)
  {
    hide Pixels;
    if !IsPng(data) {
      return NotPng;
    }
    var header: Option<seq<Byte>> := None;
    var compressed: seq<Byte> := [];
    var chunks := Chunks(data);
    for i := 0 to |chunks|
      invariant header == Header(chunks[..i]) && compressed == Compressed(chunks[..i])
    {
      assert chunks[..i + 1][..i] == chunks[..i];
      if chunks[i].kind == IHDR {
        header := Some(chunks[i].body);
      } else if chunks[i].kind == IDAT {
        compressed := compressed + chunks[i].body;
      }
    }
    assert chunks[..|chunks|] == chunks;
    if header == None || |header.value| != 13 {
      return NoHeader;
    }
    var format := FormatOf(header.value);
    if format == None {
      return Unsupported;
    }
    var f := format.value;
    var image := ReadPixels(inflate(compressed), f.width, f.channels, f.height);
    return Read(f, image);
  }

  // --- from an image to a file and back --------------------------------------------------------------------

  function HeaderFor(f: Format, colour: Byte, compression: Byte, filter: Byte): (h: seq<Byte>)
    requires f.width < 0x1_0000_0000 && f.height < 0x1_0000_0000
    ensures |h| == 13
  {
    FourBytes(f.width) + FourBytes(f.height) + [8, colour, compression, filter, 0]
  }

  lemma HeaderRoundTrip(f: Format, colour: Byte, compression: Byte, filter: Byte)
    requires f.width < 0x1_0000_0000 && f.height < 0x1_0000_0000
    requires (colour == 2 && f.channels == 3) || (colour == 6 && f.channels == 4)
    ensures FormatOf(HeaderFor(f, colour, compression, filter)) == Some(f)
  {
    var h := HeaderFor(f, colour, compression, filter);
    NumberRoundTrip(f.width);
    NumberRoundTrip(f.height);
    hide Number, FourBytes;
    assert h[0..4] == FourBytes(f.width) && h[4..8] == FourBytes(f.height);
  }

  // What an encoder chose: the format's colour type, each row's filter, the compressed bytes.
  predicate Encodes(rows: seq<seq<Byte>>, f: Format, kinds: seq<Byte>, compressed: seq<Byte>, inflate: seq<Byte> -> seq<Byte>) {
    && f.channels > 0 && AllLong(rows, f.width * f.channels)
    && f.height == |rows| == |kinds| && Known(kinds)
    && inflate(compressed) == Flatten(FilterRows(rows, kinds, f.width * f.channels, f.channels))
  }

  /**
   A whole file: for every 8-bit RGB or RGBA image, any filter for each row, any split of
   the compressed data over data chunks and any other chunks around them, what is read is
   the image.
   */
  lemma FileRoundTrip(rows: seq<seq<Byte>>, f: Format, colour: Byte, kinds: seq<Byte>, stored: seq<Stored>, inflate: seq<Byte> -> seq<Byte>)
    requires f.width < 0x1_0000_0000 && f.height < 0x1_0000_0000
    requires (colour == 2 && f.channels == 3) || (colour == 6 && f.channels == 4)
    requires AllStorable(stored) && Header(ChunksOf(stored)) == Some(HeaderFor(f, colour, 0, 0))
    requires Encodes(rows, f, kinds, Compressed(ChunksOf(stored)), inflate)
    ensures Summary(File(stored), inflate) == Read(f, Image(rows))
  {
    hide FormatOf, HeaderFor, Flatten, FilterRows, Rows, LinesOf, Header, Compressed, ChunksFrom, ChunksOf, AllEncoded;
    var stride := f.width * f.channels;
    var lines := FilterRows(rows, kinds, stride, f.channels);
    ChunksRoundTrip(stored);
    HeaderRoundTrip(f, colour, 0, 0);
    LinesOfFlatten(lines, stride);
    RowsInvertFilters(rows, kinds, stride, f.channels);
    assert SIGNATURE <= File(stored);
  }
}
