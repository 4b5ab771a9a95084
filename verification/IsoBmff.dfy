/** The file-type box of an ISO base media file (src/paperclip.rs). */
module IsoBmff {
  import opened Wrappers
  import opened Bytes

  const FileType: seq<Byte> := [0x66, 0x74, 0x79, 0x70]
  const SEARCH_LIMIT := 4 * 1024

  function Min(a: nat, b: nat): nat { if a <= b then a else b }

  /** Groups of four bytes; an incomplete last group is dropped. */
  function Chunks(bytes: seq<Byte>): seq<seq<Byte>> {
    if |bytes| < 4 then [] else [bytes[..4]] + Chunks(bytes[4..])
  }

  function Flatten(chunks: seq<seq<Byte>>): seq<Byte> {
    if chunks == [] then [] else chunks[0] + Flatten(chunks[1..])
  }

  function BrandsFrom(bytes: seq<Byte>, offset: nat): Option<seq<seq<Byte>>>
    decreases |bytes| - offset
  {
    if offset + 8 > Min(|bytes|, SEARCH_LIMIT) then None
    else
      var size := Big(bytes[offset..offset + 4]);
      if size < 8 || offset + size > |bytes| then None
      else if bytes[offset + 4..offset + 8] == FileType then
        if size < 16 || (size - 16) % 4 != 0 then None
        else Some([bytes[offset + 8..offset + 12]] + Chunks(bytes[offset + 16..offset + size]))
      else BrandsFrom(bytes, offset + size)
  }

  method Brands(bytes: seq<Byte>) returns (brands: Option<seq<seq<Byte>>>)
    requires |bytes| < USIZE_LIMIT
    ensures brands == BrandsFrom(bytes, 0)
  {
    var offset := 0;
    while offset + 8 < USIZE_LIMIT && offset + 8 <= Min(|bytes|, SEARCH_LIMIT)
      invariant offset <= |bytes| && BrandsFrom(bytes, 0) == BrandsFrom(bytes, offset)
      decreases |bytes| - offset
    {
      var size := Big(bytes[offset..offset + 4]);
      if size < 8 { return None; }
      var end := CheckedAdd(offset, size);
      if end.None? || end.value > |bytes| { return None; }
      if bytes[offset + 4..offset + 8] == FileType {
        if size < 16 || (size - 16) % 4 != 0 { return None; }
        return Some([bytes[offset + 8..offset + 12]] + Chunks(bytes[offset + 16..offset + size]));
      }
      offset := offset + size;
    }
    return None;
  }

  datatype Box = Box(size: seq<Byte>, kind: seq<Byte>, payload: seq<Byte>) {
    predicate Valid() { |size| == 4 && |kind| == 4 && Big(size) == 8 + |payload| }

    function Bytes(): seq<Byte> { size + (kind + payload) }
  }

  predicate AllPlain(boxes: seq<Box>) {
    forall i :: 0 <= i < |boxes| ==> boxes[i].Valid() && boxes[i].kind != FileType
  }

  function Serialize(boxes: seq<Box>): seq<Byte> {
    if boxes == [] then [] else boxes[0].Bytes() + Serialize(boxes[1..])
  }

  predicate AllFour(chunks: seq<seq<Byte>>) { forall i :: 0 <= i < |chunks| ==> |chunks[i]| == 4 }

  lemma {:induction false} ChunksOfFlatten(chunks: seq<seq<Byte>>)
    requires AllFour(chunks)
    ensures Chunks(Flatten(chunks)) == chunks && |Flatten(chunks)| % 4 == 0
    decreases |chunks|
  {
    if chunks != [] {
      var rest := Flatten(chunks[1..]);
      ChunksOfFlatten(chunks[1..]);
      assert (chunks[0] + rest)[..4] == chunks[0] && (chunks[0] + rest)[4..] == rest;
    }
  }

  /** What stands at `offset` when a box does. */
  lemma BoxAt(bytes: seq<Byte>, offset: nat, b: Box)
    requires b.Valid() && offset + |b.Bytes()| <= |bytes|
    requires bytes[offset..offset + |b.Bytes()|] == b.Bytes()
    ensures bytes[offset..offset + 4] == b.size && bytes[offset + 4..offset + 8] == b.kind
    ensures bytes[offset + 8..offset + |b.Bytes()|] == b.payload
  {
    var part := b.Bytes();
    assert part[..4] == b.size && part[4..8] == b.kind && part[8..] == b.payload;
    SubSlice(bytes, offset, part, 0, 4);
    SubSlice(bytes, offset, part, 4, 8);
    SubSlice(bytes, offset, part, 8, |part|);
  }

  lemma SubSlice(bytes: seq<Byte>, offset: nat, part: seq<Byte>, i: nat, j: nat)
    requires offset + |part| <= |bytes| && bytes[offset..offset + |part|] == part && i <= j <= |part|
    ensures bytes[offset + i..offset + j] == part[i..j]
  {
    forall k | i <= k < j ensures bytes[offset + k] == part[k] { assert bytes[offset..offset + |part|][k] == part[k]; }
  }

  lemma {:induction false} BoxIsSkipped(bytes: seq<Byte>, offset: nat, b: Box)
    requires b.Valid() && b.kind != FileType && offset + |b.Bytes()| <= |bytes|
    requires bytes[offset..offset + |b.Bytes()|] == b.Bytes() && offset + 8 <= SEARCH_LIMIT
    ensures BrandsFrom(bytes, offset) == BrandsFrom(bytes, offset + |b.Bytes()|)
  {
    BoxAt(bytes, offset, b);
  }

  lemma {:induction false} BoxesAreSkipped(bytes: seq<Byte>, offset: nat, boxes: seq<Box>)
    requires AllPlain(boxes) && offset + |Serialize(boxes)| + 8 <= Min(|bytes|, SEARCH_LIMIT)
    requires bytes[offset..offset + |Serialize(boxes)|] == Serialize(boxes)
    ensures BrandsFrom(bytes, offset) == BrandsFrom(bytes, offset + |Serialize(boxes)|)
    decreases |boxes|
  {
    hide BrandsFrom;
    if boxes != [] {
      var first, rest := boxes[0].Bytes(), Serialize(boxes[1..]);
      assert Serialize(boxes) == first + rest;
      var next := offset + |first|;
      assert bytes[offset..next] == first && bytes[next..next + |rest|] == rest by {
        SplitSlice(bytes, offset, first, rest);
      }
      assert BrandsFrom(bytes, offset) == BrandsFrom(bytes, next) by { BoxIsSkipped(bytes, offset, boxes[0]); }
      BoxesAreSkipped(bytes, next, boxes[1..]);
    }
  }

  /** A file whose file-type box starts early enough yields its major brand and then its compatible
      brands, whatever boxes come before and whatever follows. */
  lemma BrandsAreRead(
    bytes: seq<Byte>, boxes: seq<Box>, size: seq<Byte>, major: seq<Byte>, minor: seq<Byte>, compatible: seq<seq<Byte>>)
    requires AllPlain(boxes) && |major| == |minor| == 4 && AllFour(compatible)
    requires Box(size, [0x66, 0x74, 0x79, 0x70], major + (minor + Flatten(compatible))).Valid()
    requires Serialize(boxes) + Box(size, [0x66, 0x74, 0x79, 0x70], major + (minor + Flatten(compatible))).Bytes() <= bytes
    requires |Serialize(boxes)| + 8 <= 4096
    ensures BrandsFrom(bytes, 0) == Some([major] + compatible)
  {
    var b := Box(size, FileType, major + (minor + Flatten(compatible)));
    var at := |Serialize(boxes)|;
    var whole := Serialize(boxes) + b.Bytes();
    assert bytes[0..|whole|] == whole;
    SubSlice(bytes, 0, whole, 0, at);
    SubSlice(bytes, 0, whole, at, |whole|);
    hide BrandsFrom, Serialize, Flatten, Box.Bytes, Box.Valid;
    BoxesAreSkipped(bytes, 0, boxes);
    BrandsHere(bytes, at, b, major, minor, compatible);
  }

  lemma BrandsHere(
    bytes: seq<Byte>, at: nat, b: Box, major: seq<Byte>, minor: seq<Byte>, compatible: seq<seq<Byte>>)
    requires |major| == |minor| == 4 && AllFour(compatible)
    requires b.Valid() && b.kind == FileType && b.payload == major + (minor + Flatten(compatible))
    requires at + |b.Bytes()| <= |bytes| && bytes[at..at + |b.Bytes()|] == b.Bytes() && at + 8 <= SEARCH_LIMIT
    ensures BrandsFrom(bytes, at) == Some([major] + compatible)
  {
    BoxAt(bytes, at, b);
    ChunksOfFlatten(compatible);
    BrandSlices(bytes, at + 8, major, minor, Flatten(compatible));
  }

  lemma BrandSlices(bytes: seq<Byte>, start: nat, major: seq<Byte>, minor: seq<Byte>, flat: seq<Byte>)
    requires |major| == |minor| == 4 && start + 8 + |flat| <= |bytes|
    requires bytes[start..start + 8 + |flat|] == major + (minor + flat)
    ensures bytes[start..start + 4] == major && bytes[start + 8..start + 8 + |flat|] == flat
  {
    SplitSlice(bytes, start, major, minor + flat);
    SplitSlice(bytes, start + 4, minor, flat);
  }

  /** `found` is a file-type box that starts early enough, behind whole boxes that are not. */
  ghost predicate Behind(bytes: seq<Byte>, offset: nat, boxes: seq<Box>, found: Box) {
    && AllPlain(boxes) && found.Valid() && found.kind == FileType
    && |found.payload| >= 8 && |found.payload| % 4 == 0
    && offset + |Serialize(boxes)| + 8 <= SEARCH_LIMIT
    && offset + |Serialize(boxes)| + |found.Bytes()| <= |bytes|
    && bytes[offset..offset + |Serialize(boxes)| + |found.Bytes()|] == Serialize(boxes) + found.Bytes()
  }

  lemma HereIsBox(bytes: seq<Byte>, offset: nat) returns (b: Box)
    requires offset + 8 <= |bytes| && Big(bytes[offset..offset + 4]) >= 8
    requires offset + Big(bytes[offset..offset + 4]) <= |bytes|
    ensures b.Valid() && b.kind == bytes[offset + 4..offset + 8] && |b.Bytes()| == Big(bytes[offset..offset + 4])
    ensures bytes[offset..offset + |b.Bytes()|] == b.Bytes()
    ensures b.payload == bytes[offset + 8..offset + |b.Bytes()|]
  {
    var end := offset + Big(bytes[offset..offset + 4]);
    b := Box(bytes[offset..offset + 4], bytes[offset + 4..offset + 8], bytes[offset + 8..end]);
    assert b.Bytes() == bytes[offset..end];
  }

  /** Conversely, brands are only ever read from a top-level file-type box, behind whole other boxes. */
  lemma {:induction false} BrandsAreSound(bytes: seq<Byte>, offset: nat) returns (boxes: seq<Box>, found: Box)
    requires BrandsFrom(bytes, offset).Some?
    ensures Behind(bytes, offset, boxes, found)
    ensures found.kind == [0x66, 0x74, 0x79, 0x70] && offset + |Serialize(boxes)| + 8 <= 4096
    ensures BrandsFrom(bytes, offset) == Some([found.payload[..4]] + Chunks(found.payload[8..]))
    decreases |bytes| - offset
  {
    var b := HereIsBox(bytes, offset);
    var next := offset + |b.Bytes()|;
    if b.kind == FileType {
      boxes, found := [], b;
      assert bytes[offset + 8..offset + 12] == b.payload[..4] && bytes[offset + 16..next] == b.payload[8..];
      assert [] + b.Bytes() == b.Bytes();
    } else {
      var others;
      others, found := BrandsAreSound(bytes, next);
      boxes := [b] + others;
      BehindMore(bytes, offset, b, others, found);
    }
  }

  lemma BehindMore(bytes: seq<Byte>, offset: nat, b: Box, others: seq<Box>, found: Box)
    requires b.Valid() && b.kind != FileType && offset + |b.Bytes()| <= |bytes|
    requires bytes[offset..offset + |b.Bytes()|] == b.Bytes() && Behind(bytes, offset + |b.Bytes()|, others, found)
    ensures Behind(bytes, offset, [b] + others, found)
  {
    var rest := Serialize(others) + found.Bytes();
    var next := offset + |b.Bytes()|;
    assert ([b] + others)[1..] == others;
    assert Serialize([b] + others) + found.Bytes() == b.Bytes() + rest;
    assert bytes[offset..next + |rest|] == bytes[offset..next] + bytes[next..next + |rest|];
  }
}
