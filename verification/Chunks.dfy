/** Splitting terminal input into `WriteStdin` requests, and how large one such request can get as
    CBOR (section 3 of RFC 8949). */
module Chunks {
  import opened Arithmetic
  import opened Wrappers
  import Framing

  const WRITE_STDIN_CHUNK: nat := 1024 * 1024

  type Bytes = seq<byte>

  /** `slice::chunks(size)`: full pieces, then what is left; nothing for an empty slice. */
  function Pieces(bytes: Bytes, size: nat): seq<Bytes>
    requires size > 0
    decreases |bytes|
  {
    if bytes == [] then []
    else if |bytes| <= size then [bytes]
    else [bytes[..size]] + Pieces(bytes[size..], size)
  }

  function BuildWriteStdinChunks(bytes: Bytes): seq<Bytes> {
    if |bytes| <= WRITE_STDIN_CHUNK then [bytes] else Pieces(bytes, WRITE_STDIN_CHUNK)
  }

  function Flatten<T>(ss: seq<seq<T>>): seq<T> {
    if ss == [] then [] else ss[0] + Flatten(ss[1..])
  }

  function CeilDiv(n: nat, d: nat): nat
    requires d > 0
  {
    (n + d - 1) / d
  }

  lemma CeilDivStep(n: nat, d: nat)
    requires d > 0 && n > d
    ensures CeilDiv(n, d) == 1 + CeilDiv(n - d, d)
  {
    assert (n + d - 1) == d + (n - d + d - 1);
    DivideAfterAdd(n - d + d - 1, d);
  }

  lemma DivideAfterAdd(x: nat, d: nat)
    requires d > 0
    ensures (d + x) / d == 1 + x / d
  {
    var q := x / d;
    assert x == q * d + x % d;
    assert (q + 1) * d == q * d + d && (q + 2) * d == q * d + d + d;
    Quotient(d + x, d, q + 1);
  }

  lemma SmallCeilDiv(n: nat, d: nat)
    requires 0 < n <= d
    ensures CeilDiv(n, d) == 1
  {
  }

  lemma {:induction false} PiecesAre(bytes: Bytes, size: nat)
    requires size > 0 && bytes != []
    ensures Flatten(Pieces(bytes, size)) == bytes
    ensures |Pieces(bytes, size)| == CeilDiv(|bytes|, size)
    ensures forall i :: 0 <= i < |Pieces(bytes, size)| ==> 1 <= |Pieces(bytes, size)[i]| <= size
    ensures forall i :: 0 <= i < |Pieces(bytes, size)| - 1 ==> |Pieces(bytes, size)[i]| == size
    decreases |bytes|
  {
    if |bytes| <= size {
      SmallCeilDiv(|bytes|, size);
      assert Flatten([bytes]) == bytes + Flatten([]);
    } else {
      var rest := bytes[size..];
      PiecesAre(rest, size);
      CeilDivStep(|bytes|, size);
      assert ([bytes[..size]] + Pieces(rest, size))[1..] == Pieces(rest, size);
      assert bytes[..size] + rest == bytes;
    }
  }

  /** The chunks concatenate to the input, there are max(1, ceil(n / 2^20)) of them, all but the last
      are full, and only empty input gives an empty chunk. */
  lemma ChunksRoundTrip(bytes: Bytes)
    ensures var chunks := BuildWriteStdinChunks(bytes);
            && Flatten(chunks) == bytes
            && |chunks| == (if bytes == [] then 1 else CeilDiv(|bytes|, 1048576))
            && (forall i :: 0 <= i < |chunks| ==>
                  |chunks[i]| <= 1048576 && (chunks[i] == [] <==> bytes == []))
            && (forall i :: 0 <= i < |chunks| - 1 ==> |chunks[i]| == 1048576)
  {
    if |bytes| <= WRITE_STDIN_CHUNK {
      assert Flatten([bytes]) == bytes + Flatten([]);
      if bytes != [] { SmallCeilDiv(|bytes|, WRITE_STDIN_CHUNK); }
    } else {
      PiecesAre(bytes, WRITE_STDIN_CHUNK);
    }
  }

  // ---- CBOR size ----

  /** The initial byte and argument of a data item (section 3 of RFC 8949): additional information
      below 24 holds the argument itself, 24 to 27 announce 1, 2, 4 or 8 argument bytes. */
  function CborHead(major: nat, n: nat): Bytes
    requires major < 8
  {
    if n < 24 then [major * 32 + n]
    else if n < 0x100 then [major * 32 + 24, n]
    else if n < 0x1_0000 then [major * 32 + 25, n / 256, n % 256]
    else if n < 0x1_0000_0000 then [major * 32 + 26] + BigEndian(n, 4)
    else [major * 32 + 27] + BigEndian(n, 8)
  }

  function BigEndian(n: nat, width: nat): (r: Bytes)
    ensures |r| == width
  {
    if width == 0 then [] else BigEndian(n / 256, width - 1) + [n % 256]
  }

  // ---- Reading it back ----

  function FromBigEndian(bytes: Bytes): nat {
    if bytes == [] then 0 else 256 * FromBigEndian(bytes[..|bytes| - 1]) + bytes[|bytes| - 1]
  }

  function Power256(width: nat): nat { if width == 0 then 1 else 256 * Power256(width - 1) }

  lemma {:induction false} BigEndianReads(n: nat, width: nat)
    requires n < Power256(width)
    ensures FromBigEndian(BigEndian(n, width)) == n
  {
    if width > 0 {
      BigEndianReads(n / 256, width - 1);
      assert BigEndian(n, width)[..width - 1] == BigEndian(n / 256, width - 1);
    }
  }

  datatype Header = Header(major: nat, argument: nat, size: nat)

  /** What an initial byte and the argument bytes after it say. */
  function ReadHeader(bytes: Bytes): Option<Header> {
    if bytes == [] then None
    else
      var major, info := bytes[0] / 32, bytes[0] % 32;
      var width :=
        if info < 24 then 0 else if info == 24 then 1 else if info == 25 then 2 else if info == 26 then 4 else 8;
      if info > 27 || |bytes| < 1 + width then None
      else Some(Header(major, if info < 24 then info else FromBigEndian(bytes[1..1 + width]), 1 + width))
  }

  lemma HeaderReads(major: nat, n: nat, tail: Bytes)
    requires major < 8 && n < 0x1_0000_0000
    ensures ReadHeader(CborHead(major, n) + tail) == Some(Header(major, n, |CborHead(major, n)|))
    ensures |CborHead(major, n)| == if n < 24 then 1 else if n < 256 then 2 else if n < 65536 then 3 else 5
  {
    var head := CborHead(major, n);
    assert (head + tail)[0] == head[0];
    if n >= 24 {
      var width := |head| - 1;
      assert (head + tail)[1..1 + width] == head[1..];
      ArgumentReads(n, width, head[1..]);
    }
  }

  lemma ArgumentReads(n: nat, width: nat, argument: Bytes)
    requires argument == if width == 1 then [n] else if width == 2 then [n / 256, n % 256] else BigEndian(n, 4)
    requires (width == 1 && n < 256) || (width == 2 && n < 65536) || (width == 4 && n < 0x1_0000_0000)
    ensures FromBigEndian(argument) == n
  {
    if width == 1 {
      assert argument[..0] == [];
    } else if width == 2 {
      var high: Bytes := [n / 256];
      assert argument[..1] == high && high[..0] == [];
      assert FromBigEndian(high) == n / 256;
    } else {
      assert Power256(4) == 0x1_0000_0000;
      BigEndianReads(n, 4);
    }
  }

  /** Reading as many unsigned integers as asked for. */
  function ReadItems(bytes: Bytes, count: nat): Option<Bytes> {
    if count == 0 then Some([])
    else
      match ReadHeader(bytes)
      case None => None
      case Some(h) =>
        if h.major != 0 || h.argument > 255 || h.size > |bytes| then None
        else
          match ReadItems(bytes[h.size..], count - 1)
          case None => None
          case Some(rest) => Some([h.argument] + rest)
  }

  function CborItems(bytes: Bytes): Bytes {
    if bytes == [] then [] else CborHead(0, bytes[0]) + CborItems(bytes[1..])
  }

  /** Major type 4 with a definite length, each element an unsigned integer of major type 0. */
  function CborArray(bytes: Bytes): Bytes {
    CborHead(4, |bytes|) + CborItems(bytes)
  }

  lemma {:induction false} ItemsRead(bytes: Bytes)
    ensures ReadItems(CborItems(bytes), |bytes|) == Some(bytes)
  {
    if bytes != [] {
      ItemsRead(bytes[1..]);
      var head, rest := CborHead(0, bytes[0]), CborItems(bytes[1..]);
      HeaderReads(0, bytes[0], rest);
      assert (head + rest)[|head|..] == rest;
      assert [bytes[0]] + bytes[1..] == bytes;
    }
  }

  /** An encoded chunk reads back as an array of the chunk's length and, after its head, of its bytes. */
  lemma ArrayReads(bytes: Bytes)
    requires |bytes| < 0x1_0000_0000
    ensures var encoded := CborArray(bytes);
            && ReadHeader(encoded).Some? && ReadHeader(encoded).value.major == 4
            && ReadHeader(encoded).value.argument == |bytes| && ReadHeader(encoded).value.size <= |encoded|
            && ReadItems(encoded[ReadHeader(encoded).value.size..], |bytes|) == Some(bytes)
  {
    HeaderReads(4, |bytes|, CborItems(bytes));
    ItemsRead(bytes);
    var head := CborHead(4, |bytes|);
    assert CborArray(bytes)[|head|..] == CborItems(bytes);
  }

  function CountFrom24(bytes: Bytes): nat {
    if bytes == [] then 0 else (if bytes[0] >= 24 then 1 else 0) + CountFrom24(bytes[1..])
  }

  lemma {:induction false} ItemsSize(bytes: Bytes)
    ensures |CborItems(bytes)| == |bytes| + CountFrom24(bytes)
    ensures CountFrom24(bytes) <= |bytes|
  {
    if bytes != [] { ItemsSize(bytes[1..]); }
  }

  /** A chunk takes one byte per element below 24 and two per other element, plus at most five bytes
      of head: under 2 MiB + 5, well below the frame cap. */
  lemma ChunkFitsFrame(bytes: Bytes, i: nat)
    requires i < |BuildWriteStdinChunks(bytes)|
    ensures var chunk := BuildWriteStdinChunks(bytes)[i];
            && |CborArray(chunk)| == |CborHead(4, |chunk|)| + |chunk| + CountFrom24(chunk)
            && |CborArray(chunk)| <= 5 + 2 * |chunk| <= 5 + 2 * WRITE_STDIN_CHUNK < Framing.MAX_FRAME_LEN
  {
    ChunksRoundTrip(bytes);
    ItemsSize(BuildWriteStdinChunks(bytes)[i]);
  }

  /** Without chunking the same encoding overflows the cap already for 8 MiB of text. */
  lemma UnchunkedOverflows(bytes: Bytes)
    requires |bytes| >= 8 * 1024 * 1024 && |bytes| < 0x1_0000_0000 && CountFrom24(bytes) == |bytes|
    ensures |CborArray(bytes)| > Framing.MAX_FRAME_LEN
  {
    ItemsSize(bytes);
  }
}
