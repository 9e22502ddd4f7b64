/**
 Binary assets: `AssetMeta::segments_for`, `payload_len`, `seal_segment` and `open_segment` of
 crates/iroh-beekem-core/src/asset.rs, the cutting and reassembly loops of
 crates/iroh-beekem-sim/src/lib.rs, and the ordered part keys of crates/iroh-beekem-core/src/blinding.rs.

 Authenticated encryption is symbolic: a sealed segment opens under the key and the additional
 data it was sealed with and under nothing else.
 */
module Asset {

  type Byte = b: int | 0 <= b < 256

  const MAX_U64: nat := 0xffff_ffff_ffff_ffff

  // ---------------------------------------------------------------- segmentation

  function SegmentsFor(size: nat, width: nat): (segments: nat)
    ensures segments >= 1
  {
    if width == 0 then 1
    else
      var full := size / width;
      if size % width == 0 then (if full > 1 then full else 1) else full + 1
  }

  function Saturate(n: nat): nat {
    if n > MAX_U64 then MAX_U64 else n
  }

  /** How many bytes of a segment are real; total in the index. */
  function PayloadLen(size: nat, width: nat, index: nat): nat {
    var start := Saturate(index * width);
    var remaining := if size < start then 0 else size - start;
    if remaining < width then remaining else width
  }

  datatype Sealed = Sealed(key: nat, uuid: nat, index: nat, segments: nat, width: nat, body: seq<Byte>)

  datatype Opened = Plain(bytes: seq<Byte>) | Missing | Unauthentic | Altered

  function Zeros(n: nat): seq<Byte> {
    seq(n, _ => 0)
  }

  datatype SealOutcome = Done(sealed: Sealed) | TooLong

  function Padded(key: nat, uuid: nat, index: nat, segments: nat, width: nat, piece: seq<Byte>): (r: Sealed)
    requires |piece| <= width
    ensures |r.body| == width
  {
    Sealed(key, uuid, index, segments, width, piece + Zeros(width - |piece|))
  }

  /** Pad to the width, then seal; a piece longer than the width is refused. */
  function SealSegment(key: nat, uuid: nat, index: nat, segments: nat, width: nat, piece: seq<Byte>): SealOutcome {
    if |piece| > width then TooLong else Done(Padded(key, uuid, index, segments, width, piece))
  }

  /** Authenticate, then trim to the bytes that are really there. */
  function OpenSegment(key: nat, uuid: nat, index: nat, segments: nat, width: nat, payload: nat, s: Sealed): Opened {
    if s == Sealed(key, uuid, index, segments, width, s.body) then
      Plain(s.body[..if payload < |s.body| then payload else |s.body|])
    else Unauthentic
  }

  function Piece(file: seq<Byte>, width: nat, index: nat): (piece: seq<Byte>)
    requires index * width <= |file|
    ensures |piece| <= width
  {
    var start := index * width;
    file[start..if start + width < |file| then start + width else |file|]
  }

  /** The segments hold the whole file, none starts past its end, and one fewer would not do. */
  lemma SegmentsCover(size: nat, width: nat)
    requires width > 0
    ensures size <= SegmentsFor(size, width) * width && (SegmentsFor(size, width) - 1) * width <= size
    ensures SegmentsFor(size, width) > 1 ==> (SegmentsFor(size, width) - 1) * width < size
  {
    var full, rest := size / width, size % width;
    assert size == full * width + rest;
    if rest != 0 {
      assert (full + 1) * width == full * width + width;
    } else if full <= 1 {
      Multiply(full, 1, width);
    } else {
      Multiply(full - 1, full, width);
    }
  }

  lemma StartsInside(size: nat, width: nat, index: nat)
    requires index < SegmentsFor(size, width)
    ensures index * width <= size
  {
    if width > 0 {
      SegmentsCover(size, width);
      Multiply(index, SegmentsFor(size, width) - 1, width);
    }
  }

  /** Past the last segment there is no payload. */
  lemma NoPayloadPastTheEnd(size: nat, width: nat, index: nat)
    requires width > 0 && size <= MAX_U64 && index >= SegmentsFor(size, width)
    ensures PayloadLen(size, width, index) == 0
  {
    SegmentsCover(size, width);
    Multiply(SegmentsFor(size, width), index, width);
  }

  lemma Multiply(a: nat, b: nat, w: nat)
    requires a <= b
    ensures a * w <= b * w
  {
  }

  /** The writer's loop: cut, pad and seal each segment, filed under its index. */
  method SealAsset(key: nat, uuid: nat, width: nat, file: seq<Byte>) returns (store: map<nat, Sealed>)
    ensures IsSealing(key, uuid, width, file, store)
  {
    var segments := SegmentsFor(|file|, width);
    store := map[];
    for index := 0 to segments
      invariant forall i :: i in store <==> 0 <= i < index
      invariant forall i | 0 <= i < index ::
                  && i * width <= |file|
                  && store[i] == Padded(key, uuid, i, segments, width, Piece(file, width, i))
    {
      StartsInside(|file|, width, index);
      var piece := Piece(file, width, index);
      var outcome := SealSegment(key, uuid, index, segments, width, piece);
      store := store[index := outcome.sealed];
    }
  }

  /** What was reassembled counts only if it has the digest on record. */
  function Checked(hash: seq<Byte> -> nat, digest: nat, r: Opened): Opened {
    if r.Plain? && hash(r.bytes) != digest then Altered else r
  }

  /**
   The reader's loop: open each segment, trim it and append it; any gap or refusal fails the read,
   and so does a result with another digest than the one on record.
   */
  method ReadAsset(key: nat, uuid: nat, size: nat, segments: nat, width: nat, store: map<nat, Sealed>,
                   hash: seq<Byte> -> nat, digest: nat)
    returns (r: Opened)
    ensures r == Checked(hash, digest, Reassemble(key, uuid, size, segments, width, store, segments))
  {
    var out: seq<Byte> := [];
    for index := 0 to segments
      invariant Reassemble(key, uuid, size, segments, width, store, index) == Plain(out)
    {
      if index !in store {
        RefusalIsFinal(key, uuid, size, segments, width, store, index + 1, segments);
        return Missing;
      }
      var piece := OpenSegment(key, uuid, index, segments, width, PayloadLen(size, width, index), store[index]);
      if !piece.Plain? {
        RefusalIsFinal(key, uuid, size, segments, width, store, index + 1, segments);
        return piece;
      }
      out := out + piece.bytes;
    }
    r := if hash(out) == digest then Plain(out) else Altered;
  }

  /** The first `n` segments, opened in order and joined. */
  function Reassemble(key: nat, uuid: nat, size: nat, segments: nat, width: nat, store: map<nat, Sealed>,
                      n: nat): Opened
  {
    if n == 0 then Plain([]) else
      var before := Reassemble(key, uuid, size, segments, width, store, n - 1);
      if !before.Plain? then before
      else if n - 1 !in store then Missing
      else
        var piece := OpenSegment(key, uuid, n - 1, segments, width, PayloadLen(size, width, n - 1), store[n - 1]);
        if piece.Plain? then Plain(before.bytes + piece.bytes) else piece
  }

  lemma {:induction false} RefusalIsFinal(key: nat, uuid: nat, size: nat, segments: nat, width: nat,
                                          store: map<nat, Sealed>, k: nat, n: nat)
    requires k <= n && !Reassemble(key, uuid, size, segments, width, store, k).Plain?
    ensures Reassemble(key, uuid, size, segments, width, store, n)
            == Reassemble(key, uuid, size, segments, width, store, k)
    decreases n
  {
    if k < n { RefusalIsFinal(key, uuid, size, segments, width, store, k, n - 1); }
  }

  // ---------------------------------------------------------------- the round trip

  /** The store holds exactly the sealed pieces of the file. */
  ghost predicate IsSealing(key: nat, uuid: nat, width: nat, file: seq<Byte>, store: map<nat, Sealed>) {
    var segments := SegmentsFor(|file|, width);
    && (forall i :: i in store <==> 0 <= i < segments)
    && (forall i | 0 <= i < segments ::
          i * width <= |file| && store[i] == Padded(key, uuid, i, segments, width, Piece(file, width, i)))
  }

  lemma PieceSurvives(key: nat, uuid: nat, width: nat, file: seq<Byte>, segments: nat, i: nat)
    requires i * width <= |file| <= MAX_U64
    ensures OpenSegment(key, uuid, i, segments, width, PayloadLen(|file|, width, i),
                        Padded(key, uuid, i, segments, width, Piece(file, width, i)))
            == Plain(Piece(file, width, i))
  {
    var piece := Piece(file, width, i);
    assert PayloadLen(|file|, width, i) == |piece|;
    assert (piece + Zeros(width - |piece|))[..|piece|] == piece;
  }

  function Upto(file: seq<Byte>, n: nat): seq<Byte> {
    file[..if n < |file| then n else |file|]
  }

  lemma PiecesJoin(file: seq<Byte>, width: nat, i: nat)
    requires i * width <= |file|
    ensures Upto(file, i * width) + Piece(file, width, i) == Upto(file, (i + 1) * width)
  {
    var at := i * width;
    assert (i + 1) * width == at + width;
    var end := if at + width < |file| then at + width else |file|;
    assert file[..end] == file[..at] + file[at..end];
  }

  /** The store opens to the file's own piece at `i`. */
  ghost predicate ReadsPiece(key: nat, uuid: nat, width: nat, file: seq<Byte>, store: map<nat, Sealed>, i: nat) {
    && i in store && i * width <= |file|
    && OpenSegment(key, uuid, i, SegmentsFor(|file|, width), width, PayloadLen(|file|, width, i), store[i])
       == Plain(Piece(file, width, i))
  }

  lemma SealingReads(key: nat, uuid: nat, width: nat, file: seq<Byte>, store: map<nat, Sealed>, i: nat)
    requires |file| <= MAX_U64 && IsSealing(key, uuid, width, file, store) && i < SegmentsFor(|file|, width)
    ensures ReadsPiece(key, uuid, width, file, store, i)
  {
    PieceSurvives(key, uuid, width, file, SegmentsFor(|file|, width), i);
  }

  lemma OneMoreSegment(key: nat, uuid: nat, width: nat, file: seq<Byte>, store: map<nat, Sealed>, i: nat)
    requires ReadsPiece(key, uuid, width, file, store, i)
    requires Reassemble(key, uuid, |file|, SegmentsFor(|file|, width), width, store, i) == Plain(Upto(file, i * width))
    ensures Reassemble(key, uuid, |file|, SegmentsFor(|file|, width), width, store, i + 1)
            == Plain(Upto(file, (i + 1) * width))
  {
    PiecesJoin(file, width, i);
  }

  lemma {:induction false} PrefixReads(key: nat, uuid: nat, width: nat, file: seq<Byte>,
                                       store: map<nat, Sealed>, n: nat)
    requires forall i | 0 <= i < n :: ReadsPiece(key, uuid, width, file, store, i)
    ensures Reassemble(key, uuid, |file|, SegmentsFor(|file|, width), width, store, n) == Plain(Upto(file, n * width))
    decreases n
  {
    if n == 0 {
    } else {
      PrefixReads(key, uuid, width, file, store, n - 1);
      OneMoreSegment(key, uuid, width, file, store, n - 1);
    }
  }

  /** Sealing a file and reading it back returns the file, exactly when a segment can hold anything. */
  lemma SegmentationRoundTrip(key: nat, uuid: nat, width: nat, file: seq<Byte>, store: map<nat, Sealed>,
                              hash: seq<Byte> -> nat)
    requires |file| <= MAX_U64 && IsSealing(key, uuid, width, file, store)
    ensures var segments := SegmentsFor(|file|, width);
            Checked(hash, hash(file), Reassemble(key, uuid, |file|, segments, width, store, segments)) == Plain(file)
            <==> width > 0 || file == []
  {
    forall i | 0 <= i < SegmentsFor(|file|, width)
      ensures ReadsPiece(key, uuid, width, file, store, i)
    {
      SealingReads(key, uuid, width, file, store, i);
    }
    PrefixReads(key, uuid, width, file, store, SegmentsFor(|file|, width));
    if width > 0 {
      SegmentsCover(|file|, width);
      assert file[..|file|] == file;
    }
  }

  /** A piece that fits is sealed whole, padded with zeros to the width; a longer one is refused. */
  lemma SealingPads(key: nat, uuid: nat, index: nat, segments: nat, width: nat, piece: seq<Byte>)
    ensures var r := SealSegment(key, uuid, index, segments, width, piece);
            && (r.TooLong? <==> |piece| > width)
            && (r.Done? ==>
                  && |r.sealed.body| == width && r.sealed.body[..|piece|] == piece
                  && (forall i | |piece| <= i < width :: r.sealed.body[i] == 0))
  {
  }

  /** A sealed segment opens under the key, asset, position, count and width it was sealed with, only. */
  lemma OpensOnlyAsSealed(key: nat, uuid: nat, index: nat, segments: nat, width: nat, payload: nat, s: Sealed)
    ensures var r := OpenSegment(key, uuid, index, segments, width, payload, s);
            && (r.Plain? <==> && s.key == key && s.uuid == uuid && s.index == index
                              && s.segments == segments && s.width == width)
            && (r.Plain? ==> r.bytes <= s.body && |r.bytes| == if payload < |s.body| then payload else |s.body|)
            && (!r.Plain? ==> r == Unauthentic)
  {
  }

  /** A segment presented anywhere but where it was sealed makes the whole read fail. */
  lemma MovedSegmentsAreRefused(key: nat, uuid: nat, size: nat, segments: nat, width: nat,
                                store: map<nat, Sealed>, i: nat)
    requires i < segments && i in store && store[i].index != i
    ensures !Reassemble(key, uuid, size, segments, width, store, segments).Plain?
  {
    RefusalIsFinal(key, uuid, size, segments, width, store, i + 1, segments);
  }

  // ---------------------------------------------------------------- part keys

  const ASSET_PREFIX_BYTES: nat := 24

  function Pow256(k: nat): (p: nat)
    ensures p > 0
  {
    if k == 0 then 1 else 256 * Pow256(k - 1)
  }

  function BigEndian(n: nat, k: nat): (r: seq<Byte>)
    ensures |r| == k
  {
    if k == 0 then [] else BigEndian(n / 256, k - 1) + [n % 256]
  }

  /** Byte order on keys of one length. */
  ghost predicate Before(a: seq<Byte>, b: seq<Byte>)
    requires |a| == |b|
  {
    exists i | 0 <= i < |a| :: a[..i] == b[..i] && a[i] < b[i]
  }

  lemma BeforeExtends(a: seq<Byte>, b: seq<Byte>, x: Byte, y: Byte)
    requires |a| == |b| && (Before(a, b) || (a == b && x < y))
    ensures Before(a + [x], b + [y])
  {
    if Before(a, b) {
      var i :| 0 <= i < |a| && a[..i] == b[..i] && a[i] < b[i];
      assert (a + [x])[..i] == a[..i] && (b + [y])[..i] == b[..i];
    } else {
      assert (a + [x])[..|a|] == a && (b + [y])[..|a|] == b;
    }
  }

  lemma BeforePrepends(p: seq<Byte>, a: seq<Byte>, b: seq<Byte>)
    requires |a| == |b| && Before(a, b)
    ensures Before(p + a, p + b)
  {
    var i :| 0 <= i < |a| && a[..i] == b[..i] && a[i] < b[i];
    assert (p + a)[..|p| + i] == p + a[..i] && (p + b)[..|p| + i] == p + b[..i];
  }

  lemma {:induction false} BigEndianIsOrdered(n: nat, m: nat, k: nat)
    requires n < m < Pow256(k)
    ensures Before(BigEndian(n, k), BigEndian(m, k))
    decreases k
  {
    if n / 256 < m / 256 {
      BigEndianIsOrdered(n / 256, m / 256, k - 1);
    }
    BeforeExtends(BigEndian(n / 256, k - 1), BigEndian(m / 256, k - 1), n % 256, m % 256);
  }

  /** The number big-endian bytes spell. */
  ghost function Value(bytes: seq<Byte>): nat {
    if bytes == [] then 0 else 256 * Value(bytes[..|bytes| - 1]) + bytes[|bytes| - 1]
  }

  lemma {:induction false} BigEndianSpells(n: nat, k: nat)
    requires n < Pow256(k)
    ensures Value(BigEndian(n, k)) == n
    decreases k
  {
    if k == 0 {
    } else {
      BigEndianSpells(n / 256, k - 1);
      assert BigEndian(n, k)[..k - 1] == BigEndian(n / 256, k - 1);
    }
  }

  function PartKey(prefix: seq<Byte>, part: nat): seq<Byte> {
    prefix + BigEndian(part, 8)
  }

  method AssetPartKey(prefix: seq<Byte>, part: nat) returns (key: seq<Byte>)
    requires |prefix| == ASSET_PREFIX_BYTES && part <= MAX_U64
    ensures key == PartKey(prefix, part) && |key| == 32
  {
    var buffer: array<Byte> := new Byte[32](_ => 0);
    var tail := BigEndian(part, 8);
    for i := 0 to ASSET_PREFIX_BYTES
      invariant buffer[..i] == prefix[..i]
    {
      buffer[i] := prefix[i];
    }
    for i := 0 to 8
      invariant buffer[..ASSET_PREFIX_BYTES + i] == prefix + tail[..i]
    {
      buffer[ASSET_PREFIX_BYTES + i] := tail[i];
      assert tail[..i + 1] == tail[..i] + [tail[i]];
    }
    key := buffer[..];
  }

  lemma EightBytesHoldU64()
    ensures Pow256(8) == MAX_U64 + 1
  {
    assert Pow256(1) == 256 && Pow256(2) == 256 * Pow256(1) && Pow256(3) == 256 * Pow256(2)
           && Pow256(4) == 256 * Pow256(3);
    assert Pow256(5) == 256 * Pow256(4) && Pow256(6) == 256 * Pow256(5) && Pow256(7) == 256 * Pow256(6)
           && Pow256(8) == 256 * Pow256(7);
  }

  /** A part key is the prefix and, spelled out behind it, the index. */
  lemma PartKeySpellsTheIndex(prefix: seq<Byte>, part: nat)
    requires part <= MAX_U64
    ensures PartKey(prefix, part)[..|prefix|] == prefix && Value(PartKey(prefix, part)[|prefix|..]) == part
  {
    EightBytesHoldU64();
    BigEndianSpells(part, 8);
    assert PartKey(prefix, part)[|prefix|..] == BigEndian(part, 8);
  }

  /** Keys of one asset share its prefix and increase strictly in byte order with the index. */
  lemma PartKeysIncrease(prefix: seq<Byte>, i: nat, j: nat)
    requires i < j <= MAX_U64
    ensures Before(PartKey(prefix, i), PartKey(prefix, j))
    ensures PartKey(prefix, i)[..|prefix|] == prefix == PartKey(prefix, j)[..|prefix|]
  {
    EightBytesHoldU64();
    BigEndianIsOrdered(i, j, 8);
    BeforePrepends(prefix, BigEndian(i, 8), BigEndian(j, 8));
  }
}
