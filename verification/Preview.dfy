/** The capped read-only preview: UTF-8 (section 4 of RFC 3629), the probe that decides binary, and
    where the probe's cut goes wrong. */
module Preview {
  import opened Wrappers

  type Bytes = seq<byte>

  const PREVIEW_CAP: nat := 1024 * 1024
  const BINARY_PROBE_LEN: nat := 8 * 1024

  // ---- UTF-8 ----

  predicate IsTail(b: byte) { 0x80 <= b <= 0xBF }

  /** How long a character that starts with this byte is; 0 if none does. */
  function LeadLen(b: byte): nat {
    if b <= 0x7F then 1
    else if 0xC2 <= b <= 0xDF then 2
    else if 0xE0 <= b <= 0xEF then 3
    else if 0xF0 <= b <= 0xF4 then 4
    else 0
  }

  /** Which second bytes may follow a lead byte: no overlong forms, no surrogates, nothing beyond
      U+10FFFF. */
  predicate SecondOk(lead: byte, second: byte) {
    if lead == 0xE0 then 0xA0 <= second <= 0xBF
    else if lead == 0xED then 0x80 <= second <= 0x9F
    else if lead == 0xF0 then 0x90 <= second <= 0xBF
    else if lead == 0xF4 then 0x80 <= second <= 0x8F
    else IsTail(second)
  }

  /** The first n bytes could begin one character. */
  predicate Begins(b: Bytes, n: nat)
    requires n <= |b|
  {
    && 1 <= n <= 4
    && n <= LeadLen(b[0])
    && (n >= 2 ==> SecondOk(b[0], b[1]))
    && (n >= 3 ==> IsTail(b[2]))
    && (n >= 4 ==> IsTail(b[3]))
  }

  /** The length of the well-formed character b starts with; 0 if it starts with none. */
  function CharLen(b: Bytes): (n: nat)
    ensures n <= |b| && n <= 4
    ensures n > 0 ==> Begins(b, n) && n == LeadLen(b[0])
  {
    if b == [] then 0
    else
      var n := LeadLen(b[0]);
      if 1 <= n <= |b| && Begins(b, n) then n else 0
  }

  predicate ValidUtf8(b: Bytes)
    decreases |b|
  {
    b == [] || (CharLen(b) > 0 && ValidUtf8(b[CharLen(b)..]))
  }

  /** U+FFFD. */
  const REPLACEMENT: Bytes := [0xEF, 0xBF, 0xBD]

  /** How many bytes of an ill-formed start one replacement character stands for: as long as they
      could still begin a character, and at least one. */
  function BadLen(b: Bytes): (n: nat)
    requires b != []
    ensures 1 <= n <= |b|
  {
    if |b| >= 3 && Begins(b, 3) then 3 else if |b| >= 2 && Begins(b, 2) then 2 else 1
  }

  /** `String::from_utf8_lossy`, as UTF-8 bytes. */
  function Lossy(b: Bytes): Bytes
    decreases |b|
  {
    if b == [] then []
    else if CharLen(b) > 0 then b[..CharLen(b)] + Lossy(b[CharLen(b)..])
    else REPLACEMENT + Lossy(b[BadLen(b)..])
  }

  lemma CharLenOfPrefix(b: Bytes, t: Bytes)
    requires CharLen(b) > 0
    ensures CharLen(b[..CharLen(b)] + t) == CharLen(b)
  {
  }

  lemma ReplacementFirst(t: Bytes)
    ensures CharLen(REPLACEMENT + t) == 3
  {
  }

  /** Lossy decoding always gives well-formed text, and gives back exactly the well-formed. */
  lemma {:induction false} LossyIsValid(b: Bytes)
    ensures ValidUtf8(Lossy(b))
    ensures Lossy(b) == b <==> ValidUtf8(b)
    decreases |b|
  {
    if b != [] {
      var n := CharLen(b);
      if n > 0 {
        var rest := Lossy(b[n..]);
        LossyIsValid(b[n..]);
        CharLenOfPrefix(b, rest);
        assert (b[..n] + rest)[n..] == rest;
        assert b == b[..n] + b[n..];
        if Lossy(b) == b { assert rest == b[n..]; }
      } else {
        var rest := Lossy(b[BadLen(b)..]);
        LossyIsValid(b[BadLen(b)..]);
        ReplacementFirst(rest);
        assert (REPLACEMENT + rest)[3..] == rest;
      }
    }
  }

  // ---- What the tables say ----

  /** A code point that is no surrogate. */
  predicate Scalar(c: int) { 0 <= c < 0xD800 || 0xE000 <= c <= 0x10FFFF }

  predicate Scalars(cs: seq<int>) { forall i :: 0 <= i < |cs| ==> Scalar(cs[i]) }

  /** Section 3 of RFC 3629: six bits to each byte after the first. */
  function Encode(c: int): Bytes
    requires Scalar(c)
  {
    if c < 0x80 then [c]
    else if c < 0x800 then [0xC0 + c / 64, 0x80 + c % 64]
    else if c < 0x1_0000 then [0xE0 + c / 4096, 0x80 + c / 64 % 64, 0x80 + c % 64]
    else [0xF0 + c / 262144, 0x80 + c / 4096 % 64, 0x80 + c / 64 % 64, 0x80 + c % 64]
  }

  function EncodeAll(cs: seq<int>): Bytes
    requires Scalars(cs)
  {
    if cs == [] then [] else Encode(cs[0]) + EncodeAll(cs[1..])
  }

  ghost predicate Encodes(cs: seq<int>, b: Bytes) { Scalars(cs) && EncodeAll(cs) == b }

  /** Six more bits. */
  function Shifted(q: nat, tail: byte): (c: nat)
    requires IsTail(tail)
    ensures c / 64 == q && c % 64 == tail as int - 0x80
  {
    q * 64 + (tail as int - 0x80)
  }

  lemma ShiftTwice(c: nat)
    ensures c / 4096 == c / 64 / 64 && c / 262144 == c / 64 / 64 / 64
  {
  }

  /** The code point of the character b starts with. */
  function CodePoint(b: Bytes): (c: int)
    requires CharLen(b) > 0
  {
    match CharLen(b)
    case 1 => b[0]
    case 2 => Shifted(b[0] as int - 0xC0, b[1])
    case 3 => Shifted(Shifted(b[0] as int - 0xE0, b[1]), b[2])
    case _ => Shifted(Shifted(Shifted(b[0] as int - 0xF0, b[1]), b[2]), b[3])
  }

  lemma CodePointEncodes(b: Bytes)
    requires CharLen(b) > 0
    ensures Scalar(CodePoint(b)) && Encode(CodePoint(b)) == b[..CharLen(b)]
  {
    ShiftTwice(CodePoint(b));
  }

  lemma EncodedIsChar(c: int, t: Bytes)
    requires Scalar(c)
    ensures CharLen(Encode(c) + t) == |Encode(c)|
  {
    var b := Encode(c) + t;
    assert forall i :: 0 <= i < |Encode(c)| ==> b[i] == Encode(c)[i];
    if c >= 0x800 { SecondIsOk(c); }
  }

  lemma SecondIsOk(c: int)
    requires Scalar(c) && c >= 0x800
    ensures SecondOk(Encode(c)[0], Encode(c)[1]) && LeadLen(Encode(c)[0]) == |Encode(c)|
  {
  }

  lemma {:induction false} EncodedIsValid(cs: seq<int>)
    requires Scalars(cs)
    ensures ValidUtf8(EncodeAll(cs))
  {
    if cs != [] {
      var rest := EncodeAll(cs[1..]);
      EncodedIsChar(cs[0], rest);
      EncodedIsValid(cs[1..]);
      assert (Encode(cs[0]) + rest)[|Encode(cs[0])|..] == rest;
    }
  }

  lemma EncodedMore(b: Bytes, rest: seq<int>)
    requires CharLen(b) > 0 && Encodes(rest, b[CharLen(b)..])
    ensures Encodes([CodePoint(b)] + rest, b)
  {
    CodePointEncodes(b);
    assert ([CodePoint(b)] + rest)[1..] == rest;
    assert b == b[..CharLen(b)] + b[CharLen(b)..];
  }

  lemma {:induction false} ValidHasCode(b: Bytes) returns (cs: seq<int>)
    requires ValidUtf8(b)
    ensures Encodes(cs, b)
    decreases |b|
  {
    cs := [];
    if b != [] {
      var rest := ValidHasCode(b[CharLen(b)..]);
      EncodedMore(b, rest);
      cs := [CodePoint(b)] + rest;
    }
  }

  /** Well-formed is exactly: the encodings of some scalar values one after another. */
  lemma ValidIsEncoded(b: Bytes)
    ensures ValidUtf8(b) <==> exists cs :: Encodes(cs, b)
  {
    if cs :| Encodes(cs, b) { EncodedIsValid(cs); }
    if ValidUtf8(b) { var cs := ValidHasCode(b); }
  }

  /** These bytes are the first of some character. */
  ghost predicate Opens(p: Bytes) { exists c: int | Scalar(c) :: p <= Encode(c) }

  /** A way to go on for bytes that could begin a character. */
  function Completed(b: Bytes, n: nat): (r: Bytes)
    requires n <= |b| && Begins(b, n)
    ensures b[..n] <= r && CharLen(r) == |r|
  {
    var second := if b[0] == 0xE0 then 0xA0 else if b[0] == 0xF0 then 0x90 else 0x80;
    (b[..n] + [second, 0x80, 0x80][if n <= 1 then 0 else n - 1..])[..LeadLen(b[0])]
  }

  lemma BeginsIsOpens(b: Bytes, n: nat)
    requires 1 <= n <= |b|
    ensures Begins(b, n) <==> Opens(b[..n])
  {
    if Begins(b, n) {
      var r := Completed(b, n);
      CodePointEncodes(r);
      assert b[..n] <= Encode(CodePoint(r));
    }
    if c: int :| Scalar(c) && b[..n] <= Encode(c) {
      EncodedIsChar(c, []);
      assert Encode(c) + [] == Encode(c);
      assert Begins(Encode(c), |Encode(c)|);
    }
  }

  /** No character stands first, and these n bytes are the longest start of one there is, or a single
      byte: the maximal subpart of section 3.9 of the Unicode Standard. */
  ghost predicate BadPart(b: Bytes, n: nat) {
    && 1 <= n <= |b|
    && (forall c: int | Scalar(c) :: !(Encode(c) <= b))
    && (n == 1 || Opens(b[..n]))
    && (forall k: nat :: n < k <= |b| ==> !Opens(b[..k]))
  }

  /** Lossy decoding keeps every character, and puts one U+FFFD for each maximal part of what is none. */
  lemma LossyByParts(b: Bytes, c: int, t: Bytes, n: nat)
    ensures Lossy([]) == []
    ensures Scalar(c) ==> Lossy(Encode(c) + t) == Encode(c) + Lossy(t)
    ensures BadPart(b, n) ==> Lossy(b) == [0xEF, 0xBF, 0xBD] + Lossy(b[n..])
  {
    if Scalar(c) {
      EncodedIsChar(c, t);
      assert (Encode(c) + t)[..|Encode(c)|] == Encode(c) && (Encode(c) + t)[|Encode(c)|..] == t;
    }
    if BadPart(b, n) { BadPartIsBadLen(b, n); }
  }

  lemma CharIsEncoded(b: Bytes)
    ensures CharLen(b) > 0 ==> exists c: int | Scalar(c) :: Encode(c) <= b
  {
    if CharLen(b) > 0 { CodePointEncodes(b); }
  }

  lemma BadPartIsBadLen(b: Bytes, n: nat)
    requires BadPart(b, n)
    ensures CharLen(b) == 0 && BadLen(b) == n
  {
    CharIsEncoded(b);
    BeginsIsOpens(b, n);
    BeginsIsOpens(b, BadLen(b));
    if |b| >= 3 { BeginsIsOpens(b, 3); }
    if |b| >= 2 { BeginsIsOpens(b, 2); }
  }

  // ---- Where a text may be cut ----

  /** Between characters: at the end, or before a byte that continues none. */
  predicate Boundary(b: Bytes, k: nat)
    requires k <= |b|
  {
    k == |b| || !IsTail(b[k])
  }

  lemma TailsInside(b: Bytes, k: nat)
    requires 0 < k < CharLen(b)
    ensures IsTail(b[k])
  {
  }

  lemma CutChar(b: Bytes, k: nat)
    requires 0 < k <= |b| && CharLen(b) > 0
    ensures CharLen(b[..k]) == if k < CharLen(b) then 0 else CharLen(b)
  {
  }

  /** A prefix of well-formed text is well-formed exactly when it ends between characters. */
  lemma {:induction false} PrefixValid(b: Bytes, k: nat)
    requires ValidUtf8(b) && k <= |b|
    ensures ValidUtf8(b[..k]) <==> Boundary(b, k)
    decreases |b|
  {
    if k > 0 {
      var n := CharLen(b);
      CutChar(b, k);
      if k < n {
        TailsInside(b, k);
      } else {
        PrefixValid(b[n..], k - n);
        assert b[..k][n..] == b[n..][..k - n];
      }
    }
  }

  // ---- The preview ----

  datatype FilePreview = Text(content: Bytes, truncated: bool, size: nat) | Binary(size: nat) | TooLarge(size: nat)

  function ProbeLen(bytes: Bytes): nat { if |bytes| <= BINARY_PROBE_LEN then |bytes| else BINARY_PROBE_LEN }

  function BuildPreview(size: nat, bytes: Bytes): FilePreview {
    var probe := bytes[..ProbeLen(bytes)];
    if 0 in probe || !ValidUtf8(probe) then Binary(size) else Text(Lossy(bytes), size > |bytes|, size)
  }

  function BuildPreviewCapped(statSize: nat, bytes: Bytes): FilePreview {
    if |bytes| > PREVIEW_CAP then TooLarge(|bytes|) else BuildPreview(statSize, bytes)
  }

  datatype Kind = Regular | Directory | Special

  /** The read after the checks: at most one byte past the cap of what the file then holds. */
  function ReadFilePreview(kind: Kind, statSize: nat, contents: Bytes): Result<FilePreview, ()> {
    if kind != Regular then Err(())
    else if statSize > PREVIEW_CAP then Ok(TooLarge(statSize))
    else
      var read := if |contents| <= PREVIEW_CAP + 1 then contents else contents[..PREVIEW_CAP + 1];
      Ok(BuildPreviewCapped(statSize, read))
  }

  /** Well-formed text without NUL is shown as it is exactly when the probe is cut between
      characters; when a character straddles the cut it is called binary. */
  lemma TextIsShown(statSize: nat, b: Bytes)
    requires ValidUtf8(b) && 0 !in b && |b| <= PREVIEW_CAP
    ensures Boundary(b, ProbeLen(b)) ==> BuildPreviewCapped(statSize, b) == Text(b, statSize > |b|, statSize)
    ensures !Boundary(b, ProbeLen(b)) ==> BuildPreviewCapped(statSize, b) == Binary(statSize)
  {
    PrefixValid(b, ProbeLen(b));
    LossyIsValid(b);
  }

  /** For any bytes: `TooLarge` exactly past the cap; otherwise `Text` exactly when the probe is
      NUL-free and well-formed, and then the content is the bytes themselves exactly when all of them
      are well-formed. */
  lemma Classified(statSize: nat, b: Bytes)
    ensures BuildPreviewCapped(statSize, b).TooLarge? <==> |b| > PREVIEW_CAP
    ensures BuildPreviewCapped(statSize, b).Text? <==>
              |b| <= PREVIEW_CAP && 0 !in b[..ProbeLen(b)] && ValidUtf8(b[..ProbeLen(b)])
    ensures BuildPreviewCapped(statSize, b).Text? ==>
              var c := BuildPreviewCapped(statSize, b).content; ValidUtf8(c) && (c == b <==> ValidUtf8(b))
  {
    LossyIsValid(b);
  }

  /** A file that fits when it is statted but holds more than the cap when it is read is never shown
      as if it were whole. */
  lemma GrownFileIsTooLarge(statSize: nat, contents: Bytes)
    requires statSize <= PREVIEW_CAP
    ensures ReadFilePreview(Regular, statSize, contents) == Ok(TooLarge(PREVIEW_CAP + 1)) <==> |contents| > PREVIEW_CAP
    ensures |contents| <= PREVIEW_CAP ==>
              ReadFilePreview(Regular, statSize, contents) == Ok(BuildPreview(statSize, contents))
  {
  }

  /** The preview told from the kind, the stated size and what the file holds: only a regular file has one,
      1 MiB is the most that is shown, and the first 8 KiB decide whether it is text. */
  lemma PreviewIs(kind: Kind, statSize: nat, contents: Bytes)
    ensures var r := ReadFilePreview(kind, statSize, contents);
            var head := contents[..if |contents| < 8192 then |contents| else 8192];
            && (kind != Regular ==> r == Err(()))
            && (kind == Regular && statSize > 1048576 ==> r == Ok(TooLarge(statSize)))
            && (kind == Regular && statSize <= 1048576 < |contents| ==> r == Ok(TooLarge(1048577)))
            && (kind == Regular && statSize <= 1048576 && |contents| <= 1048576 ==>
                  r == if 0 !in head && exists cs :: Encodes(cs, head)
                       then Ok(Text(Lossy(contents), statSize > |contents|, statSize)) else Ok(Binary(statSize)))
  {
    ValidIsEncoded(contents[..ProbeLen(contents)]);
  }

  // ---- An ordinary text called binary ----

  function Letters(n: nat): Bytes { seq(n, _ => 0x61) }

  lemma {:induction false} LettersValid(n: nat, t: Bytes)
    ensures ValidUtf8(Letters(n) + t) <==> ValidUtf8(t)
    decreases n
  {
    if n == 0 {
      assert Letters(0) + t == t;
    } else {
      var x := Letters(n) + t;
      assert x[0] == 0x61;
      assert x[1..] == Letters(n - 1) + t;
      LettersValid(n - 1, t);
    }
  }

  /** 8191 letters and one two-byte character (U+00E9). */
  const ACCENT_AT_THE_CUT: Bytes := Letters(8191) + [0xC3, 0xA9]

  lemma StraddlingTextIsBinary()
    ensures ValidUtf8(ACCENT_AT_THE_CUT) && 0 !in ACCENT_AT_THE_CUT
    ensures BuildPreviewCapped(8193, ACCENT_AT_THE_CUT) == Binary(8193)
  {
    var accent: Bytes := [0xC3, 0xA9];
    assert accent[2..] == [];
    assert CharLen(accent) == 2;
    LettersValid(8191, accent);
    assert ACCENT_AT_THE_CUT[8192] == 0xA9;
    TextIsShown(8193, ACCENT_AT_THE_CUT);
  }
}
