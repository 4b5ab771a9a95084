/** The EBML header walk (src/paperclip.rs): section 4 of RFC 8794 for variable-size integers. */
module ContainerProbe {
  import opened Wrappers
  import opened Bytes

  const HEADER_ID := 0x1a45_dfa3
  const DOC_TYPE_ID := 0x4282

  datatype Vint = Vint(value: nat, length: nat)

  /** The marker bit of an integer of this many bytes, within its first byte. */
  function Marker(length: nat): nat
    requires 1 <= length <= 8
  {
    match length
    case 1 => 0x80
    case 2 => 0x40
    case 3 => 0x20
    case 4 => 0x10
    case 5 => 0x08
    case 6 => 0x04
    case 7 => 0x02
    case _ => 0x01
  }

  /** The place of the highest bit that is set: one for the top bit, eight for the lowest. */
  function LengthOf(first: Byte): (length: Option<nat>)
    ensures length.None? <==> first == 0
    ensures length.Some? ==> 1 <= length.value <= 8
    ensures length.Some? ==> Marker(length.value) <= first < 2 * Marker(length.value)
  {
    if first >= 0x80 then Some(1)
    else if first >= 0x40 then Some(2)
    else if first >= 0x20 then Some(3)
    else if first >= 0x10 then Some(4)
    else if first >= 0x08 then Some(5)
    else if first >= 0x04 then Some(6)
    else if first >= 0x02 then Some(7)
    else if first >= 0x01 then Some(8)
    else None
  }

  /** The value of the marker bit inside a whole integer: 2 to the 7 times its length. */
  function MarkerWeight(length: nat): nat
    requires 1 <= length <= 8
  {
    match length
    case 1 => 0x80
    case 2 => 0x4000
    case 3 => 0x20_0000
    case 4 => 0x1000_0000
    case 5 => 0x8_0000_0000
    case 6 => 0x400_0000_0000
    case 7 => 0x2_0000_0000_0000
    case _ => 0x100_0000_0000_0000
  }

  lemma WeightIs(length: nat)
    requires 1 <= length <= 8
    ensures MarkerWeight(length) == Marker(length) * Power(length - 1)
    ensures 2 * MarkerWeight(length) <= Power(length)
  {
    assert Power(1) == 0x100 && Power(2) == 0x1_0000 && Power(3) == 0x100_0000 && Power(4) == 0x1_0000_0000;
    assert Power(5) == 0x100_0000_0000 && Power(6) == 0x1_0000_0000_0000;
    assert Power(7) == 0x100_0000_0000_0000 && Power(8) == 0x1_0000_0000_0000_0000;
  }

  /** The integer at `offset` with its marker. */
  function MarkedAt(bytes: seq<Byte>, offset: nat): (v: Option<Vint>)
    ensures v.Some? ==>
              && 1 <= v.value.length <= 8 && offset + v.value.length <= |bytes|
              && MarkerWeight(v.value.length) <= v.value.value < 2 * MarkerWeight(v.value.length)
  {
    if offset >= |bytes| then None
    else
      var length := LengthOf(bytes[offset]);
      if length.None? || offset + length.value > |bytes| then None
      else
        VintBounds(bytes, offset);
        Some(Vint(Big(bytes[offset..offset + length.value]), length.value))
  }

  function VintAt(bytes: seq<Byte>, offset: nat, retain: bool): (v: Option<Vint>)
    ensures v.Some? ==> 1 <= v.value.length <= 8 && offset + v.value.length <= |bytes|
  {
    var marked := MarkedAt(bytes, offset);
    if marked.None? || retain then marked
    else Some(Vint(marked.value.value - MarkerWeight(marked.value.length), marked.value.length))
  }

  /** A marked integer lies between its marker's weight and twice that. */
  lemma VintBounds(bytes: seq<Byte>, offset: nat)
    requires offset < |bytes| && LengthOf(bytes[offset]).Some?
    requires offset + LengthOf(bytes[offset]).value <= |bytes|
    ensures var length := LengthOf(bytes[offset]).value;
            MarkerWeight(length) <= Big(bytes[offset..offset + length]) < 2 * MarkerWeight(length)
  {
    var length := LengthOf(bytes[offset]).value;
    var digits := bytes[offset..offset + length];
    FirstByteBounds(digits);
    WeightIs(length);
    Scale(Marker(length), bytes[offset], 2 * Marker(length), Power(length - 1));
  }

  lemma Scale(low: nat, first: nat, high: nat, p: nat)
    requires low <= first < high
    ensures low * p <= first * p && (first + 1) * p <= high * p
  {
  }

  /** The bit test of the search for the marker. */
  predicate Bit(first: Byte, count: nat)
    requires 1 <= count <= 8
  {
    first / Marker(count) % 2 == 1
  }

  lemma FirstBit(first: Byte, count: nat)
    requires 1 <= count <= 8 && first < 2 * Marker(count)
    ensures Bit(first, count) <==> first >= Marker(count)
    ensures first >= Marker(count) ==> LengthOf(first) == Some(count)
  {
  }

  method FindLength(first: Byte) returns (length: Option<nat>)
    ensures length == LengthOf(first)
  {
    for count := 1 to 9
      invariant count <= 8 ==> first < 2 * Marker(count)
      invariant count == 9 ==> first == 0
    {
      FirstBit(first, count);
      if Bit(first, count) { return Some(count); }
    }
    return None;
  }

  method EbmlVint(bytes: seq<Byte>, offset: nat, retainMarker: bool) returns (v: Option<Vint>)
    requires |bytes| < USIZE_LIMIT
    ensures v == VintAt(bytes, offset, retainMarker)
  {
    if offset >= |bytes| { return None; }
    var first := bytes[offset];
    var found := FindLength(first);
    if found.None? { return None; }
    var length := found.value;
    var end := CheckedAdd(offset, length);
    if end.None? || end.value > |bytes| { return None; }
    ghost var digits := bytes[offset..end.value];
    ghost var dropped := if retainMarker then 0 else Marker(length);
    var value: nat := if retainMarker then first else first % Marker(length);
    PartialStart(digits, dropped, value);
    for i := 1 to length
      invariant Partial(digits, dropped, value, i)
    {
      PartialStep(digits, dropped, value, i);
      value := CheckedAdd(CheckedMul(value, 256).value, bytes[offset + i]).value;
    }
    PartialEnd(digits, dropped, value, length);
    VintOfDigits(bytes, offset, length, digits);
    return Some(Vint(value, length));
  }

  /** The value of the first `i` bytes, less the marker if it is dropped. */
  ghost predicate Partial(digits: seq<Byte>, dropped: nat, value: nat, i: nat) {
    1 <= i <= |digits| <= 8 && value == Big(digits[..i]) - dropped * Power(i - 1) && value < Power(i)
  }

  lemma PartialStart(digits: seq<Byte>, dropped: nat, value: nat)
    requires 1 <= |digits| <= 8 && value == digits[0] - dropped
    ensures Partial(digits, dropped, value, 1)
  {
    assert digits[..1][..0] == [];
    assert Big(digits[..1]) == digits[0];
    assert Power(0) == 1 && Power(1) == 256;
  }

  lemma PartialEnd(digits: seq<Byte>, dropped: nat, value: nat, length: nat)
    requires |digits| == length && Partial(digits, dropped, value, length)
    ensures dropped == 0 ==> value == Big(digits)
    ensures dropped == Marker(length) ==> value == Big(digits) - MarkerWeight(length)
  {
    assert digits[..length] == digits;
    WeightIs(length);
  }

  lemma PartialStep(digits: seq<Byte>, dropped: nat, value: nat, i: nat)
    requires i < |digits| && Partial(digits, dropped, value, i)
    ensures value * 256 + digits[i] < USIZE_LIMIT
    ensures Partial(digits, dropped, value * 256 + digits[i], i + 1)
  {
    assert digits[..i + 1][..i] == digits[..i];
    Fits(value, i, digits[i]);
    Regroup(dropped, Power(i - 1));
    assert Big(digits[..i + 1]) == 256 * Big(digits[..i]) + digits[i];
  }

  /** The overflow checks never fire: eight bytes fit. */
  lemma Fits(value: nat, i: nat, byte: Byte)
    requires 1 <= i <= 7 && value < Power(i)
    ensures value * 256 + byte < Power(i + 1) <= USIZE_LIMIT
  {
    assert Power(8) == 256 * Power(7) == USIZE_LIMIT by {
      assert Power(2) == 256 * 256 && Power(4) == Power(2) * 256 * 256;
      assert Power(6) == Power(4) * 256 * 256 && Power(8) == Power(6) * 256 * 256;
    }
    PowerGrows(i + 1, 8);
  }

  lemma {:induction false} PowerGrows(a: nat, b: nat)
    requires a <= b
    ensures 1 <= Power(a) <= Power(b)
    decreases b
  {
    if a < b { PowerGrows(a, b - 1); } else if a > 0 { PowerGrows(a - 1, b - 1); }
  }

  // ------------------------------------------------------------ header walk

  /** An element: its id, and where its payload starts and ends. */
  datatype Item = Item(id: nat, start: nat, end: nat)

  function ItemAt(bytes: seq<Byte>, offset: nat, limit: nat): (r: Option<Item>)
    ensures r.Some? ==> offset < r.value.start <= r.value.end <= limit
  {
    var id := VintAt(bytes, offset, true);
    if id.None? then None
    else
      var size := VintAt(bytes, offset + id.value.length, false);
      if size.None? then None
      else
        var start := offset + id.value.length + size.value.length;
        if start + size.value.value > limit then None
        else Some(Item(id.value.value, start, start + size.value.value))
  }

  function DocTypeFrom(bytes: seq<Byte>, offset: nat, end: nat): Option<seq<Byte>>
    requires end <= |bytes|
    decreases end - offset
  {
    if offset >= end then None
    else
      var item := ItemAt(bytes, offset, end);
      if item.None? then None
      else if item.value.id == DOC_TYPE_ID then Some(bytes[item.value.start..item.value.end])
      else DocTypeFrom(bytes, item.value.end, end)
  }

  function DocType(bytes: seq<Byte>): Option<seq<Byte>> {
    var header := ItemAt(bytes, 0, |bytes|);
    if header.None? || header.value.id != HEADER_ID then None
    else DocTypeFrom(bytes, header.value.start, header.value.end)
  }

  /** Reads an id and a size, and refuses an element that overruns `limit`. */
  method ReadItem(bytes: seq<Byte>, offset: nat, limit: nat) returns (r: Option<Item>)
    requires |bytes| < USIZE_LIMIT && limit <= |bytes|
    ensures r == ItemAt(bytes, offset, limit)
  {
    var id := EbmlVint(bytes, offset, true);
    if id.None? { return None; }
    var sizeAt := offset + id.value.length;
    var size := EbmlVint(bytes, sizeAt, false);
    if size.None? { return None; }
    var start := sizeAt + size.value.length;
    var end := CheckedAdd(start, size.value.value);
    if end.None? || end.value > limit { return None; }
    return Some(Item(id.value.value, start, end.value));
  }

  method EbmlDocumentType(bytes: seq<Byte>) returns (r: Option<seq<Byte>>)
    requires |bytes| < USIZE_LIMIT
    ensures r == DocType(bytes)
  {
    var header := ReadItem(bytes, 0, |bytes|);
    if header.None? || header.value.id != HEADER_ID { return None; }
    var offset, headerEnd := header.value.start, header.value.end;
    while offset < headerEnd
      invariant offset <= headerEnd && DocType(bytes) == DocTypeFrom(bytes, offset, headerEnd)
      decreases headerEnd - offset
    {
      var item := ReadItem(bytes, offset, headerEnd);
      if item.None? { return None; }
      if item.value.id == DOC_TYPE_ID { return Some(bytes[item.value.start..item.value.end]); }
      offset := item.value.end;
    }
    return None;
  }

  // ---------------------------------------------------------- built headers

  /** A variable-size integer: its first byte's marker tells its length. */
  predicate IsVint(digits: seq<Byte>) {
    digits != [] && LengthOf(digits[0]) == Some(|digits|)
  }

  /** Its value without the marker. */
  function Data(digits: seq<Byte>): nat
    requires IsVint(digits)
  {
    VintBounds(digits, 0);
    assert digits[0..|digits|] == digits;
    Big(digits) - MarkerWeight(|digits|)
  }

  datatype Element = Element(id: seq<Byte>, size: seq<Byte>, payload: seq<Byte>) {
    predicate Valid() {
      IsVint(id) && IsVint(size) && Data(size) == |payload|
    }

    predicate IsDocType() { Big(id) == DOC_TYPE_ID }

    function Bytes(): seq<Byte> { id + (size + payload) }
  }

  predicate AllValid(elements: seq<Element>) {
    forall i :: 0 <= i < |elements| ==> elements[i].Valid()
  }

  function Serialize(elements: seq<Element>): seq<Byte> {
    if elements == [] then [] else elements[0].Bytes() + Serialize(elements[1..])
  }

  function FirstDocType(elements: seq<Element>): Option<seq<Byte>> {
    if elements == [] then None
    else if elements[0].IsDocType() then Some(elements[0].payload)
    else FirstDocType(elements[1..])
  }

  /** A well-formed integer reads back wherever it stands, with its marker or without. */
  lemma ReadsBack(bytes: seq<Byte>, offset: nat, digits: seq<Byte>)
    requires IsVint(digits) && offset + |digits| <= |bytes| && bytes[offset..offset + |digits|] == digits
    ensures VintAt(bytes, offset, true) == Some(Vint(Big(digits), |digits|))
    ensures VintAt(bytes, offset, false) == Some(Vint(Data(digits), |digits|))
  {
    assert bytes[offset] == digits[0];
    VintOfDigits(bytes, offset, |digits|, digits);
  }

  lemma VintOfDigits(bytes: seq<Byte>, offset: nat, length: nat, digits: seq<Byte>)
    requires offset + length <= |bytes| && 1 <= length <= 8 && bytes[offset..offset + length] == digits
    requires LengthOf(bytes[offset]) == Some(length)
    ensures Big(digits) >= MarkerWeight(length)
    ensures VintAt(bytes, offset, true) == Some(Vint(Big(digits), length))
    ensures VintAt(bytes, offset, false) == Some(Vint(Big(digits) - MarkerWeight(length), length))
  {
    VintBounds(bytes, offset);
  }

  /** And whatever is read is a well-formed integer that stands there. */
  lemma ReadsOnly(bytes: seq<Byte>, offset: nat, retain: bool) returns (digits: seq<Byte>)
    requires VintAt(bytes, offset, retain).Some?
    ensures IsVint(digits) && offset + |digits| <= |bytes| && bytes[offset..offset + |digits|] == digits
    ensures VintAt(bytes, offset, retain) == Some(Vint(if retain then Big(digits) else Data(digits), |digits|))
  {
    digits := bytes[offset..offset + LengthOf(bytes[offset]).value];
    ReadsBack(bytes, offset, digits);
  }

  /** Every value can be written in each length that has room for it. */
  lemma EveryValueHasAVint(value: nat, length: nat) returns (digits: seq<Byte>)
    requires 1 <= length <= 8 && value < MarkerWeight(length)
    ensures |digits| == length && IsVint(digits) && Data(digits) == value
  {
    var w := MarkerWeight(length) + value;
    var p := Power(length - 1);
    digits := BigEndian(w, length);
    PowerGrows(0, length - 1);
    WeightIs(length);
    BigOfBigEndian(w, length);
    FirstByteBounds(digits);
    Unscale(digits[0], Marker(length), p, w);
    FirstBit(digits[0], length);
  }

  lemma Unscale(first: nat, marker: nat, p: nat, w: nat)
    requires p >= 1 && marker * p <= w < 2 * (marker * p) && first * p <= w < (first + 1) * p
    ensures marker <= first < 2 * marker
  {
    if first < marker { Scale(first, first, marker, p); }
    if first >= 2 * marker { Scale(2 * marker, first, first + 1, p); }
  }

  lemma {:induction false} BigIsInjective(a: seq<Byte>, b: seq<Byte>)
    requires |a| == |b| && Big(a) == Big(b)
    ensures a == b
    decreases |a|
  {
    if a != [] {
      var x, y := a[..|a| - 1], b[..|b| - 1];
      BigIsInjective(x, y);
      assert a == x + [a[|a| - 1]] && b == y + [b[|b| - 1]];
    }
  }

  lemma WeightsApart(a: nat, b: nat)
    requires 1 <= a <= 8 && 1 <= b <= 8
    ensures a < b ==> 2 * MarkerWeight(a) <= MarkerWeight(b)
  {
  }

  /** Marker-retaining decoding is injective: equal values come from equal bytes of equal length. */
  lemma RetainedIsInjective(a: seq<Byte>, b: seq<Byte>)
    requires IsVint(a) && IsVint(b) && Big(a) == Big(b)
    ensures a == b
  {
    assert a[0..|a|] == a && b[0..|b|] == b;
    VintBounds(a, 0);
    VintBounds(b, 0);
    WeightsApart(|a|, |b|);
    WeightsApart(|b|, |a|);
    BigIsInjective(a, b);
  }

  /** A serialized element is read where it stands. */
  lemma ItemBuilt(bytes: seq<Byte>, offset: nat, e: Element, limit: nat)
    requires e.Valid() && offset + |e.Bytes()| <= limit <= |bytes|
    requires bytes[offset..offset + |e.Bytes()|] == e.Bytes()
    ensures var end := offset + |e.Bytes()|;
            && ItemAt(bytes, offset, limit) == Some(Item(Big(e.id), end - |e.payload|, end))
            && bytes[end - |e.payload|..end] == e.payload
  {
    hide VintAt, MarkedAt, LengthOf, Big, Data;
    SplitSlice(bytes, offset, e.id, e.size + e.payload);
    SplitSlice(bytes, offset + |e.id|, e.size, e.payload);
    ReadsBack(bytes, offset, e.id);
    ReadsBack(bytes, offset + |e.id|, e.size);
  }

  lemma {:induction false} DocTypeStep(bytes: seq<Byte>, offset: nat, end: nat, item: Item)
    requires offset < end <= |bytes| && ItemAt(bytes, offset, end) == Some(item)
    ensures DocTypeFrom(bytes, offset, end)
            == if item.id == DOC_TYPE_ID then Some(bytes[item.start..item.end])
               else DocTypeFrom(bytes, item.end, end)
  {
  }

  lemma {:induction false} DocTypeOf(bytes: seq<Byte>, header: Item)
    requires ItemAt(bytes, 0, |bytes|) == Some(header) && header.id == HEADER_ID
    ensures DocType(bytes) == DocTypeFrom(bytes, header.start, header.end)
  {
  }

  /** The elements stand one behind the other from `offset` to `end`. */
  predicate Laid(bytes: seq<Byte>, offset: nat, end: nat, elements: seq<Element>)
    decreases |elements|
  {
    if elements == [] then offset == end <= |bytes|
    else
      var next := offset + |elements[0].Bytes()|;
      && next <= end <= |bytes|
      && bytes[offset..next] == elements[0].Bytes()
      && Laid(bytes, next, end, elements[1..])
  }

  lemma {:induction false} SerializedIsLaid(bytes: seq<Byte>, offset: nat, elements: seq<Element>)
    requires offset + |Serialize(elements)| <= |bytes|
    requires bytes[offset..offset + |Serialize(elements)|] == Serialize(elements)
    ensures Laid(bytes, offset, offset + |Serialize(elements)|, elements)
    decreases |elements|
  {
    if elements != [] {
      var first, rest := elements[0].Bytes(), Serialize(elements[1..]);
      SplitSlice(bytes, offset, first, rest);
      SerializedIsLaid(bytes, offset + |first|, elements[1..]);
    }
  }

  /** `element` stands there, from `offset` to `next`. */
  ghost predicate Stands(bytes: seq<Byte>, offset: nat, next: nat, element: Element) {
    element.Valid() && offset < next <= |bytes| && bytes[offset..next] == element.Bytes()
  }

  lemma LaidParts(bytes: seq<Byte>, offset: nat, end: nat, elements: seq<Element>) returns (next: nat)
    requires AllValid(elements) && elements != [] && Laid(bytes, offset, end, elements)
    ensures Stands(bytes, offset, next, elements[0]) && next <= end <= |bytes|
    ensures AllValid(elements[1..]) && Laid(bytes, next, end, elements[1..])
  {
    next := offset + |elements[0].Bytes()|;
  }

  lemma {:induction false} StandsStep(bytes: seq<Byte>, offset: nat, next: nat, end: nat, e: Element)
    requires Stands(bytes, offset, next, e) && next <= end <= |bytes|
    ensures DocTypeFrom(bytes, offset, end)
            == if e.IsDocType() then Some(e.payload) else DocTypeFrom(bytes, next, end)
  {
    ItemBuilt(bytes, offset, e, end);
    DocTypeStep(bytes, offset, end, Item(Big(e.id), next - |e.payload|, next));
  }

  lemma {:induction false} WalkLaid(bytes: seq<Byte>, offset: nat, end: nat, elements: seq<Element>)
    requires AllValid(elements) && Laid(bytes, offset, end, elements) && offset <= end <= |bytes|
    ensures DocTypeFrom(bytes, offset, end) == FirstDocType(elements)
    decreases |elements|
  {
    if elements != [] {
      var next := LaidParts(bytes, offset, end, elements);
      StandsStep(bytes, offset, next, end, elements[0]);
      if !elements[0].IsDocType() { WalkLaid(bytes, next, end, elements[1..]); }
    }
  }

  const HeaderId: seq<Byte> := [0x1a, 0x45, 0xdf, 0xa3]

  lemma HeaderIdValue()
    ensures IsVint(HeaderId) && Big(HeaderId) == HEADER_ID
  {
    assert HeaderId[..3] == [0x1a, 0x45, 0xdf];
    assert HeaderId[..3][..2] == [0x1a, 0x45];
    assert HeaderId[..3][..2][..1] == [0x1a];
    assert Big(HeaderId[..3][..2][..1]) == 0x1a;
    assert Big(HeaderId[..3][..2]) == 0x1a45;
    assert Big(HeaderId[..3]) == 0x1a45df;
  }

  lemma HeaderReads(bytes: seq<Byte>, header: Element) returns (start: nat)
    requires header.id == HeaderId && header.Valid() && header.Bytes() <= bytes
    ensures start + |header.payload| <= |bytes| && bytes[start..start + |header.payload|] == header.payload
    ensures DocType(bytes) == DocTypeFrom(bytes, start, start + |header.payload|)
  {
    var end := |header.Bytes()|;
    start := end - |header.payload|;
    HeaderIdValue();
    ItemBuilt(bytes, 0, header, |bytes|);
    DocTypeOf(bytes, Item(HEADER_ID, start, end));
  }

  lemma {:induction false} WalkSerialized(bytes: seq<Byte>, start: nat, elements: seq<Element>, content: seq<Byte>)
    requires AllValid(elements) && content == Serialize(elements) && start + |content| <= |bytes|
    requires bytes[start..start + |content|] == content
    ensures DocTypeFrom(bytes, start, start + |content|) == FirstDocType(elements)
  {
    SerializedIsLaid(bytes, start, elements);
    WalkLaid(bytes, start, start + |content|, elements);
  }

  /** A built header yields the payload of its first top-level document type, whatever its
      elements contain and whatever follows. */
  lemma BuiltHeaderReads(bytes: seq<Byte>, elements: seq<Element>, size: seq<Byte>)
    requires AllValid(elements) && Element(HeaderId, size, Serialize(elements)).Valid()
    requires Element(HeaderId, size, Serialize(elements)).Bytes() <= bytes
    ensures DocType(bytes) == FirstDocType(elements)
  {
    hide DocTypeFrom;
    var content := Serialize(elements);
    var start := HeaderReads(bytes, Element(HeaderId, size, content));
    WalkSerialized(bytes, start, elements, content);
  }

  /** Conversely, whatever is returned is the payload of a top-level document type element, behind
      whole top-level elements none of which is one. */
  lemma {:induction false} WalkIsSound(bytes: seq<Byte>, offset: nat, end: nat)
      returns (skipped: seq<Element>, found: Element, foundEnd: nat)
    requires end <= |bytes| && DocTypeFrom(bytes, offset, end).Some?
    ensures Behind(bytes, offset, foundEnd, skipped, found) && offset <= foundEnd <= end
    ensures Some(found.payload) == DocTypeFrom(bytes, offset, end)
    decreases end - offset
  {
    var element, next := StepDown(bytes, offset, end);
    if element.IsDocType() {
      skipped, found, foundEnd := [], element, next;
      BehindNothing(bytes, offset, next, element);
    } else {
      var others;
      others, found, foundEnd := WalkIsSound(bytes, next, end);
      skipped := [element] + others;
      BehindMore(bytes, offset, next, foundEnd, element, others, found);
    }
  }

  /** The walk's next element, and what it leaves to do. */
  lemma {:induction false} StepDown(bytes: seq<Byte>, offset: nat, end: nat) returns (element: Element, next: nat)
    requires end <= |bytes| && DocTypeFrom(bytes, offset, end).Some?
    ensures Stands(bytes, offset, next, element) && next <= end
    ensures DocTypeFrom(bytes, offset, end)
            == if element.IsDocType() then Some(element.payload) else DocTypeFrom(bytes, next, end)
  {
    element, next := ElementAt(bytes, offset, end);
    DocTypeStep(bytes, offset, end, Item(Big(element.id), next - |element.payload|, next));
  }

  /** `found` is a document type element, behind whole elements that are not. */
  ghost predicate Behind(bytes: seq<Byte>, offset: nat, end: nat, skipped: seq<Element>, found: Element) {
    && AllValid(skipped + [found]) && found.IsDocType()
    && (forall i :: 0 <= i < |skipped| ==> !skipped[i].IsDocType())
    && end <= |bytes| && Laid(bytes, offset, end, skipped + [found])
  }

  lemma BehindNothing(bytes: seq<Byte>, offset: nat, next: nat, found: Element)
    requires Stands(bytes, offset, next, found) && found.IsDocType()
    ensures Behind(bytes, offset, next, [], found)
  {
    LaidMore(bytes, offset, next, found, []);
    assert [found] + [] == [] + [found];
  }

  lemma BehindMore(
    bytes: seq<Byte>, offset: nat, next: nat, end: nat, element: Element, others: seq<Element>, found: Element)
    requires Stands(bytes, offset, next, element) && !element.IsDocType() && next <= end
    requires Behind(bytes, next, end, others, found)
    ensures Behind(bytes, offset, end, [element] + others, found)
  {
    LaidMore(bytes, offset, end, element, others + [found]);
    assert [element] + (others + [found]) == [element] + others + [found];
  }

  lemma LaidMore(bytes: seq<Byte>, offset: nat, end: nat, element: Element, others: seq<Element>)
    requires element.Valid() && AllValid(others) && offset + |element.Bytes()| <= end <= |bytes|
    requires bytes[offset..offset + |element.Bytes()|] == element.Bytes()
    requires Laid(bytes, offset + |element.Bytes()|, end, others)
    ensures AllValid([element] + others) && Laid(bytes, offset, end, [element] + others)
  {
    assert ([element] + others)[1..] == others;
  }

  lemma ElementAt(bytes: seq<Byte>, offset: nat, end: nat) returns (element: Element, next: nat)
    requires offset < end <= |bytes| && ItemAt(bytes, offset, end).Some?
    ensures element.Valid() && offset < next <= end && bytes[offset..next] == element.Bytes()
    ensures |element.payload| <= next
    ensures ItemAt(bytes, offset, end) == Some(Item(Big(element.id), next - |element.payload|, next))
    ensures bytes[next - |element.payload|..next] == element.payload
  {
    hide VintAt, MarkedAt, LengthOf, Big, Data;
    var id := ReadsOnly(bytes, offset, true);
    var size := ReadsOnly(bytes, offset + |id|, false);
    var start := offset + |id| + |size|;
    next := start + Data(size);
    element := Element(id, size, bytes[start..next]);
    Joined(bytes, offset, offset + |id|, start, next);
  }

  lemma Joined(bytes: seq<Byte>, i: nat, j: nat, k: nat, l: nat)
    requires i <= j <= k <= l <= |bytes|
    ensures bytes[i..l] == bytes[i..j] + (bytes[j..k] + bytes[k..l])
  {
  }

  /** For a whole input: whatever document type is returned, the input begins with a header element,
      and the document type element stands at the top level inside it, behind elements that are not. */
  lemma DocTypeIdValue()
    ensures IsVint([0x42, 0x82]) && Big([0x42, 0x82]) == DOC_TYPE_ID
  {
    var id: seq<Byte> := [0x42, 0x82];
    assert id[..1] == [0x42] && id[..1][..0] == [];
    assert Big(id[..1]) == 0x42;
  }

  /** The data of an integer are its low seven bits a byte. */
  lemma {:induction false} DataIsLowBits(digits: seq<Byte>)
    requires IsVint(digits)
    ensures Data(digits) == Big(digits) % SevenBits(|digits|)
  {
    VintBounds(digits, 0);
    assert digits[0..|digits|] == digits;
    WeightIsSevenBits(|digits|);
    var big, weight := Big(digits), SevenBits(|digits|);
    assert weight <= big < 2 * weight;
  }

  function SevenBits(length: nat): nat { if length == 0 then 1 else 128 * SevenBits(length - 1) }

  lemma WeightIsSevenBits(length: nat)
    requires 1 <= length <= 8
    ensures MarkerWeight(length) == SevenBits(length)
  {
    assert SevenBits(2) == 0x4000 && SevenBits(4) == 0x1000_0000 && SevenBits(6) == 0x400_0000_0000;
  }

  lemma DocTypeIsSound(bytes: seq<Byte>)
      returns (header: Element, end: nat, skipped: seq<Element>, found: Element, foundEnd: nat)
    requires DocType(bytes).Some?
    ensures Stands(bytes, 0, end, header) && header.id == [0x1a, 0x45, 0xdf, 0xa3] && |header.payload| <= end
    ensures Behind(bytes, end - |header.payload|, foundEnd, skipped, found) && foundEnd <= end
    ensures found.id == [0x42, 0x82] && Some(found.payload) == DocType(bytes)
  {
    hide DocTypeFrom, VintAt, Big, Laid;
    header, end := ElementAt(bytes, 0, |bytes|);
    HeaderIdValue();
    RetainedIsInjective(header.id, HeaderId);
    DocTypeOf(bytes, Item(HEADER_ID, end - |header.payload|, end));
    skipped, found, foundEnd := WalkIsSound(bytes, end - |header.payload|, end);
    DocTypeIdValue();
    assert (skipped + [found])[|skipped|] == found;
    RetainedIsInjective(found.id, [0x42, 0x82]);
  }
}
