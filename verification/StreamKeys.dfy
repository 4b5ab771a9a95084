/** The logical keys of stream events (src/streaming.rs). */
module StreamKeys {
  import opened Decimal

  /** What identifies a stream event; numbers print in decimal. */
  datatype Identity =
    | Account(account: int, event: string, objectId: int, version: int)
    | Global(event: string, objectId: int, version: int)
    | Media(account: int, event: string, objectId: int, media: int)

  function EventLogicalKey(account: int, event: string, objectId: int, version: int): string {
    "stream:" + Print(account) + ":" + event + ":" + Print(objectId) + ":" + Print(version)
  }

  function GlobalEventLogicalKey(event: string, objectId: int, version: int): string {
    "stream:global:" + event + ":" + Print(objectId) + ":" + Print(version)
  }

  function MediaEventLogicalKey(account: int, event: string, objectId: int, media: int): string {
    "stream:" + Print(account) + ":" + event + ":" + Print(objectId) + ":media:" + Print(media)
  }

  function Key(e: Identity): string {
    match e
    case Account(account, event, objectId, version) => EventLogicalKey(account, event, objectId, version)
    case Global(event, objectId, version) => GlobalEventLogicalKey(event, objectId, version)
    case Media(account, event, objectId, media) => MediaEventLogicalKey(account, event, objectId, media)
  }

  /** A field that holds no separator. */
  predicate Plain(text: string) { ':' !in text }

  lemma PrintIsPlain(n: int)
    ensures Plain(Print(n))
    ensures Print(n) != "media" && Print(n) != "global"
  {
    assert forall i :: 0 <= i < |Print(n)| ==> Print(n)[i] != ':' && Print(n)[i] != 'm' && Print(n)[i] != 'g';
    assert "media"[0] == 'm' && "global"[0] == 'g';
  }

  /** Where the first separator falls is fixed. */
  lemma FirstField(a: string, x: string, b: string, y: string)
    requires Plain(a) && Plain(b) && a + ":" + x == b + ":" + y
    ensures a == b && x == y
  {
    var left, right := a + ":" + x, b + ":" + y;
    assert left[|a|] == ':' && right[|b|] == ':';
    assert forall i | 0 <= i < |b| :: right[i] == b[i];
    assert forall i | 0 <= i < |a| :: left[i] == a[i];
    assert right[|a|] == ':' && left[|b|] == ':';
    assert left[..|a|] == a && right[..|b|] == b;
    assert left[|a| + 1..] == x && right[|b| + 1..] == y;
  }

  /** And so is where the last one falls. */
  lemma LastField(x: string, a: string, y: string, b: string)
    requires Plain(a) && Plain(b) && x + ":" + a == y + ":" + b
    ensures a == b && x == y
  {
    var left, right := x + ":" + a, y + ":" + b;
    assert left[|x|] == ':' && right[|y|] == ':';
    assert forall i | |x| < i < |left| :: left[i] == a[i - |x| - 1];
    assert forall i | |y| < i < |right| :: right[i] == b[i - |y| - 1];
    assert right[|x|] == ':' && left[|y|] == ':';
    assert left[..|x|] == x && right[..|y|] == y;
    assert left[|x| + 1..] == a && right[|y| + 1..] == b;
  }

  function Head(e: Identity): string { if e.Global? then "global" else Print(e.account) }

  function Tail(e: Identity): string {
    match e
    case Account(_, _, _, version) => Print(version)
    case Global(_, _, version) => Print(version)
    case Media(_, _, _, media) => Print(media)
  }

  function Middle(e: Identity): string {
    if e.Media? then (e.event + ":" + Print(e.objectId)) + ":" + "media" else e.event + ":" + Print(e.objectId)
  }

  lemma KeyForm(e: Identity)
    ensures Key(e) == "stream" + ":" + (Head(e) + ":" + (Middle(e) + ":" + Tail(e)))
    ensures Plain(Head(e)) && Plain(Tail(e))
  {
    if !e.Global? { PrintIsPlain(e.account); }
    var number := if e.Media? then e.media else e.version;
    PrintIsPlain(number);
    assert "stream:" == "stream" + ":" && "stream:global:" == "stream" + ":" + "global" + ":" && ":media:" == ":" + "media" + ":";
    Regroup("stream", ":", Head(e), e.event, Print(e.objectId), Print(number));
    RegroupMedia("stream", ":", Head(e), e.event, Print(e.objectId), "media", Print(number));
  }

  lemma Regroup(s: string, c: string, p: string, e: string, o: string, v: string)
    ensures s + c + p + c + e + c + o + c + v == s + c + (p + c + ((e + c + o) + c + v))
  {
    assert (e + c + o) + c + v == e + (c + (o + (c + v)));
  }

  lemma RegroupMedia(s: string, c: string, p: string, e: string, o: string, m: string, v: string)
    ensures s + c + p + c + e + c + o + (c + m + c) + v == s + c + (p + c + (((e + c + o) + c + m) + c + v))
  {
    Regroup(s, c, p, e, o, m + c + v);
    assert o + (c + m + c) + v == o + c + (m + c + v);
  }

  lemma MiddleInjective(a: Identity, b: Identity)
    requires Middle(a) == Middle(b)
    ensures a.event == b.event && a.objectId == b.objectId && (a.Media? <==> b.Media?)
  {
    PrintIsPlain(a.objectId);
    PrintIsPlain(b.objectId);
    var x, y := a.event + ":" + Print(a.objectId), b.event + ":" + Print(b.objectId);
    if a.Media? && b.Media? { LastField(x, "media", y, "media"); }
    else if a.Media? { LastField(x, "media", b.event, Print(b.objectId)); }
    else if b.Media? { LastField(a.event, Print(a.objectId), y, "media"); }
    LastField(a.event, Print(a.objectId), b.event, Print(b.objectId));
    PrintInjective(a.objectId, b.objectId);
  }

  /** Keys are equal only for equal identities: each printer is injective, for every event name,
      and no two printers ever meet. */
  lemma KeysIdentify(a: Identity, b: Identity)
    requires Key(a) == Key(b)
    ensures a == b
  {
    KeyForm(a);
    KeyForm(b);
    var restA, restB := Middle(a) + ":" + Tail(a), Middle(b) + ":" + Tail(b);
    FirstField("stream", Head(a) + ":" + restA, "stream", Head(b) + ":" + restB);
    FirstField(Head(a), restA, Head(b), restB);
    LastField(Middle(a), Tail(a), Middle(b), Tail(b));
    MiddleInjective(a, b);
    if !a.Global? { PrintIsPlain(a.account); }
    if !b.Global? { PrintIsPlain(b.account); }
    if !a.Global? && !b.Global? { PrintInjective(a.account, b.account); }
    TailInjective(a, b);
  }

  lemma TailInjective(a: Identity, b: Identity)
    requires Tail(a) == Tail(b) && (a.Media? <==> b.Media?) && (a.Global? <==> b.Global?)
    ensures a.Account? ==> b.Account? && a.version == b.version
    ensures a.Global? ==> b.Global? && a.version == b.version
    ensures a.Media? ==> b.Media? && a.media == b.media
  {
    if a.Media? { PrintInjective(a.media, b.media); } else { PrintInjective(a.version, b.version); }
  }

  lemma DigitPrints(n: nat)
    requires n < 10
    ensures Print(n) == [DigitChar(n)]
  {
  }

  /** How the three forms look. */
  lemma KeysLookLikeThis()
    ensures Key(Account(1, "update", 2, 3)) == "stream:1:update:2:3"
    ensures Key(Global("delete", 4, 5)) == "stream:global:delete:4:5"
    ensures Key(Media(1, "update", 2, 6)) == "stream:1:update:2:media:6"
  {
    AccountLooksLikeThis();
    MediaLooksLikeThis();
    hide EventLogicalKey, MediaEventLogicalKey;
    DigitPrints(4);
    DigitPrints(5);
    hide Print;
  }

  lemma AccountLooksLikeThis()
    ensures EventLogicalKey(1, "update", 2, 3) == "stream:1:update:2:3"
  {
    DigitPrints(1);
    DigitPrints(2);
    DigitPrints(3);
    hide Print;
  }

  lemma MediaLooksLikeThis()
    ensures MediaEventLogicalKey(1, "update", 2, 6) == "stream:1:update:2:media:6"
  {
    DigitPrints(1);
    DigitPrints(2);
    DigitPrints(6);
    hide Print;
  }
}
