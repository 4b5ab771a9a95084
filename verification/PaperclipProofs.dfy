/** The path printer and the path parser undo each other, and paths tell attachments and ids apart. */
module PaperclipProofs {
  import opened Wrappers
  import opened Decimal
  import opened Utf8
  import opened UrlPath
  import opened Paperclip

  // ---------------------------------------------------------------- partitions

  lemma {:induction false} ZeroInFront(digits: string)
    requires AllDigits(digits)
    ensures AllDigits("0" + digits) && ParseNat("0" + digits) == ParseNat(digits)
    decreases |digits|
  {
    var longer := "0" + digits;
    if digits == "" {
      assert longer == "0" && longer[..0] == "";
    } else {
      assert longer[..|longer| - 1] == "0" + digits[..|digits| - 1];
      ZeroInFront(digits[..|digits| - 1]);
    }
  }

  lemma {:induction false} PadKeepsValue(digits: string, width: nat)
    requires AllDigits(digits)
    ensures AllDigits(Pad(digits, width)) && ParseNat(Pad(digits, width)) == ParseNat(digits)
    ensures |Pad(digits, width)| == if |digits| >= width then |digits| else width
    decreases width - |digits|
  {
    if |digits| < width {
      ZeroInFront(digits);
      PadKeepsValue("0" + digits, width);
    }
  }

  lemma {:induction false} ThreesAreGroups(s: string)
    requires AllDigits(s) && |s| % 3 == 0
    ensures AllGroups(Threes(s)) && GroupDigits(Threes(s)) == s && 3 * |Threes(s)| == |s|
    decreases |s|
  {
    if |s| >= 3 {
      ThreesAreGroups(s[3..]);
      assert s == s[..3] + s[3..];
      assert Threes(s)[1..] == Threes(s[3..]);
    }
  }

  /** Every printable id has at least three groups, and they spell it. */
  lemma GroupsSpellId(id: int)
    requires Groups(id).Some?
    ensures var groups := Groups(id).value;
            AllGroups(groups) && |groups| >= 3 && ParseNat(GroupDigits(groups)) == id
  {
    var digits := PrintNat(id);
    var width := PaddedWidth(|digits|).value;
    PadKeepsValue(digits, width);
    ThreesAreGroups(Pad(digits, width));
  }

  lemma GroupsAreSlashFree(groups: seq<string>)
    requires AllGroups(groups)
    ensures AllSlashFree(groups)
  {
    forall i | 0 <= i < |groups| ensures SlashFree(groups[i]) {
      forall c | c in groups[i] ensures c != '/' { assert IsDigit(c); }
    }
  }

  lemma PartitionSplits(id: int)
    requires PartitionedId(id).Some?
    ensures Split(PartitionedId(id).value) == Groups(id).value
  {
    GroupsSpellId(id);
    GroupsAreSlashFree(Groups(id).value);
    SplitOfJoin(Groups(id).value);
  }

  /** Two ids never share a partition. */
  lemma PartitionsIdentify(a: int, b: int)
    requires PartitionedId(a).Some? && PartitionedId(a) == PartitionedId(b)
    ensures a == b
  {
    PartitionSplits(a);
    PartitionSplits(b);
    GroupsSpellId(a);
    GroupsSpellId(b);
  }

  // -------------------------------------------------------------------- layout

  function Layout(cache: bool, a: Attachment, groups: seq<string>, style: string, fileName: string): seq<string> {
    (if cache then ["cache"] else []) + ([a.Folder(), a.Group()] + (groups + [style, fileName]))
  }

  lemma NamesApart(a: Attachment, b: Attachment)
    requires a.Folder() == b.Folder() && a.Group() == b.Group()
    ensures a == b
  {
  }

  lemma FolderIsNotCache(a: Attachment)
    ensures a.Folder() != "cache"
  {
    assert a.Folder()[0] in "ams" || a.Folder()[1] == 'u' || a.Folder()[0] == 'p';
  }

  lemma LayoutsIdentify(
    c: bool, a: Attachment, g: seq<string>, s: string, f: string,
    d: bool, b: Attachment, h: seq<string>, t: string, k: string)
    requires Layout(c, a, g, s, f) == Layout(d, b, h, t, k)
    ensures c == d && a == b && g == h && s == t && f == k
  {
    LayoutParts(c, a, g, s, f);
    LayoutParts(d, b, h, t, k);
    hide Layout, Attachment.Folder, Attachment.Group;
    var n := if c then 1 else 0;
    assert (Layout(c, a, g, s, f)[0] == "cache") <==> c;
    assert a.Folder() == Layout(c, a, g, s, f)[n] && a.Group() == Layout(c, a, g, s, f)[n + 1];
    NamesApart(a, b);
    SameEnds(g, s, f, h, t, k);
  }

  lemma LayoutParts(cache: bool, a: Attachment, groups: seq<string>, style: string, fileName: string)
    ensures var parts, n := Layout(cache, a, groups, style, fileName), if cache then 1 else 0;
            && |parts| == n + 4 + |groups| && (parts[0] == "cache" <==> cache)
            && parts[n] == a.Folder() && parts[n + 1] == a.Group() && parts[n + 2..] == groups + [style, fileName]
  {
    FolderIsNotCache(a);
  }

  lemma SameEnds(g: seq<string>, s: string, f: string, h: seq<string>, t: string, k: string)
    requires g + [s, f] == h + [t, k]
    ensures g == h && s == t && f == k
  {
    assert |g| == |h|;
    assert (g + [s, f])[..|g|] == g && (h + [t, k])[..|h|] == h;
    assert (g + [s, f])[|g|] == s && (h + [t, k])[|h|] == t;
    assert (g + [s, f])[|g| + 1] == f && (h + [t, k])[|h| + 1] == k;
  }

  lemma JoinTwo(a: string, b: string)
    ensures Join([a, b]) == a + ("/" + b)
  {
    assert [a, b][1..] == [b];
  }

  /** The printer writes the components of the layout, one slash apart. */
  lemma PrinterIsLayout(m: Metadata, style: string)
    requires RelativePath(m, style).Some?
    ensures Groups(m.id).Some? && StyleFileName(m, style).Some?
    ensures RelativePath(m, style).value
            == Join(Layout(m.CachePrefix(), m.attachment, Groups(m.id).value, style, StyleFileName(m, style).value))
  {
    var a := m.attachment;
    var groups, fileName := Groups(m.id).value, StyleFileName(m, style).value;
    GroupsSpellId(m.id);
    JoinBody(a.Folder(), a.Group(), groups, style, fileName);
    JoinCache([a.Folder(), a.Group()] + (groups + [style, fileName]), m.CachePrefix());
  }

  lemma JoinBody(folder: string, group: string, groups: seq<string>, style: string, fileName: string)
    requires groups != []
    ensures Join([folder, group] + (groups + [style, fileName]))
            == folder + ("/" + group) + ("/" + (Join(groups) + ("/" + (style + ("/" + fileName)))))
  {
    JoinTwo(style, fileName);
    JoinTwo(folder, group);
    JoinSplits(groups, [style, fileName]);
    JoinSplits([folder, group], groups + [style, fileName]);
  }

  lemma JoinCache(body: seq<string>, cache: bool)
    requires body != []
    ensures Join((if cache then ["cache"] else []) + body) == (if cache then "cache/" else "") + Join(body)
  {
    if cache {
      assert (["cache"] + body)[1..] == body;
      assert "cache" + ("/" + Join(body)) == "cache/" + Join(body);
    } else {
      assert [] + body == body;
      assert "" + Join(body) == Join(body);
    }
  }

  // ---------------------------------------------------------------- components

  /** A safe component survives encoding and decoding. */
  lemma ComponentReadsBack(c: string)
    requires SafeComponent(c)
    ensures EncodeComponent(c) != "" && DecodeComponent(EncodeComponent(c)) == Some(c)
  {
    EscapeReads(Encode(c));
    DecodesBack(c);
    assert Encode(c) != [];
  }

  ghost predicate AllSafe(parts: seq<string>) {
    forall i :: 0 <= i < |parts| ==> SafeComponent(parts[i])
  }

  lemma {:induction false} DecodeCons(first: string, rest: seq<string>)
    requires DecodeComponent(first).Some? && DecodeAll(rest).Some?
    ensures DecodeAll([first] + rest) == Some([DecodeComponent(first).value] + DecodeAll(rest).value)
  {
    assert ([first] + rest)[1..] == rest;
  }

  lemma {:induction false} ComponentsReadBack(parts: seq<string>)
    requires AllSafe(parts)
    ensures DecodeAll(EncodeAll(parts)) == Some(parts)
    decreases |parts|
  {
    if parts != [] {
      ComponentReadsBack(parts[0]);
      ComponentsReadBack(parts[1..]);
      DecodeCons(EncodeComponent(parts[0]), EncodeAll(parts[1..]));
      assert parts == [parts[0]] + parts[1..];
    }
  }

  lemma {:induction false} DecodedAreSafe(parts: seq<string>)
    requires DecodeAll(parts).Some?
    ensures AllSafe(DecodeAll(parts).value)
    decreases |parts|
  {
    if parts != [] { DecodedAreSafe(parts[1..]); }
  }

  lemma {:induction false} BaseIsPrefix(name: string, end: nat)
    requires end <= |name| && name != ""
    ensures BaseName(name, end) <= name && BaseName(name, end) != ""
    decreases end
  {
    if end > 1 && name[end - 1] != '.' { BaseIsPrefix(name, end - 1); }
  }

  /** A derivative of a safe name exists and is safe. */
  lemma DerivativeIsSafe(name: string, extension: string)
    requires SafeComponent(name) && (extension == "png" || extension == "jpeg")
    ensures DerivativeFileName(name, extension).Some?
    ensures SafeComponent(DerivativeFileName(name, extension).value)
  {
    BaseIsPrefix(name, |name|);
    var base := BaseName(name, |name|);
    var derived := base + "." + extension;
    forall i | 0 <= i < |derived| ensures derived[i] != '/' && derived[i] != '\\' && !IsControl(derived[i]) {
      if i < |base| { assert derived[i] == name[i]; }
      else if i == |base| { assert derived[i] == '.'; }
      else { assert derived[i] == extension[i - |base| - 1]; }
    }
    assert |derived| > 2;
  }

  /** What the printer accepts as a style, the parser accepts too, and the file name is safe. */
  lemma PrintedStyleIsPermitted(m: Metadata, style: string)
    requires StyleFileName(m, style).Some?
    ensures m.attachment.PermitsStyle(style) && SafeComponent(StyleFileName(m, style).value)
  {
    DerivativeIsSafe(m.fileName, "png");
    DerivativeIsSafe(m.fileName, "jpeg");
  }

  lemma PermittedStyleIsText(a: Attachment, style: string)
    requires a.PermitsStyle(style)
    ensures StyleText(style) && SafeComponent(style)
  {
    assert style != "";
    assert StyleText(style);
    assert forall i :: 0 <= i < |style| ==> style[i] != '.';
  }

  lemma FoldersAreSafe(a: Attachment)
    ensures SafeComponent(a.Folder())
  {
  }

  lemma GroupsOfFilesAreSafe(a: Attachment)
    ensures SafeComponent(a.Group())
  {
  }

  // ------------------------------------------------------------------ attachments

  /** Two slash-free halves are told apart. */
  lemma SameHalves(a: string, b: string, x: string, y: string)
    requires SlashFree(a) && SlashFree(b) && SlashFree(x) && SlashFree(y)
    requires a + ("/" + b) == x + ("/" + y)
    ensures a == x && b == y
  {
    SplitFirst(a, b);
    SplitFirst(x, y);
    SplitPlain(b);
    SplitPlain(y);
    assert ([a] + [b])[0] == a && ([a] + [b])[1] == b;
    assert ([x] + [y])[0] == x && ([x] + [y])[1] == y;
  }

  lemma PathsApart(a: Attachment, b: Attachment)
    requires a.Path() == b.Path()
    ensures a == b
  {
    FoldersAreSafe(a);
    FoldersAreSafe(b);
    GroupsOfFilesAreSafe(a);
    GroupsOfFilesAreSafe(b);
    SameHalves(a.Folder(), a.Group(), b.Folder(), b.Group());
    NamesApart(a, b);
  }

  lemma {:induction false} FindIsSound(path: string, from: nat)
    requires from <= |Attachments|
    ensures FindAttachment(path, from).Some? ==> FindAttachment(path, from).value.Path() == path
    ensures FindAttachment(path, from).None? ==> forall i :: from <= i < |Attachments| ==> Attachments[i].Path() != path
    decreases |Attachments| - from
  {
    if from < |Attachments| { FindIsSound(path, from + 1); }
  }

  lemma EveryAttachmentIsListed(a: Attachment) returns (i: nat)
    ensures i < |Attachments| && Attachments[i] == a
  {
    i := match a
      case AccountAvatar => 0
      case AccountHeader => 1
      case MediaFile => 2
      case MediaThumbnail => 3
      case CustomEmojiImage => 4
      case PreviewCardImage => 5
      case PreviewCardProviderIcon => 6
      case SiteUploadFile => 7;
  }

  lemma FindsAttachment(a: Attachment)
    ensures FindAttachment(a.Path(), 0) == Some(a)
  {
    var i := EveryAttachmentIsListed(a);
    FindIsSound(a.Path(), 0);
    var found := FindAttachment(a.Path(), 0);
    assert found.Some?;
    PathsApart(found.value, a);
  }

  // ------------------------------------------------------------------- round trip

  lemma LayoutIndices(cache: bool, a: Attachment, groups: seq<string>, style: string, fileName: string)
    requires |groups| >= 3
    ensures var parts, n := Layout(cache, a, groups, style, fileName), if cache then 1 else 0;
            && |parts| == n + 4 + |groups| && (parts[0] == "cache" <==> cache)
            && parts[n] == a.Folder() && parts[n + 1] == a.Group()
            && parts[n + 2..|parts| - 2] == groups
            && parts[|parts| - 2] == style && parts[|parts| - 1] == fileName
  {
    FolderIsNotCache(a);
  }

  lemma ParserReadsLayout(cache: bool, a: Attachment, id: I64, style: string, fileName: string)
    requires Groups(id).Some? && (cache ==> a.PermitsCache())
    requires a.PermitsStyle(style) && SafeComponent(fileName)
    ensures var parts := Layout(cache, a, Groups(id).value, style, fileName);
            ParseComponents(parts) == Some(PaperclipPath(Join(parts), a, id))
  {
    var groups := Groups(id).value;
    GroupsSpellId(id);
    PartitionSplits(id);
    LayoutIndices(cache, a, groups, style, fileName);
    FindsAttachment(a);
    PermittedStyleIsText(a, style);
  }

  lemma LayoutIsSafe(cache: bool, a: Attachment, groups: seq<string>, style: string, fileName: string)
    requires AllGroups(groups) && SafeComponent(style) && SafeComponent(fileName)
    ensures AllSafe(Layout(cache, a, groups, style, fileName)) && AllSlashFree(Layout(cache, a, groups, style, fileName))
  {
    FoldersAreSafe(a);
    GroupsOfFilesAreSafe(a);
    assert SafeComponent("cache");
    forall i | 0 <= i < |groups| ensures SafeComponent(groups[i]) { GroupIsSafe(groups[i]); }
    var parts := Layout(cache, a, groups, style, fileName);
    forall i | 0 <= i < |parts| ensures SafeComponent(parts[i]) {
      var n := if cache then 3 else 2;
      if n <= i < n + |groups| { assert parts[i] == groups[i - n]; }
    }
  }

  lemma GroupIsSafe(part: string)
    requires IsGroup(part)
    ensures SafeComponent(part)
  {
    assert forall i :: 0 <= i < |part| ==> IsDigit(part[i]);
  }

  lemma StyleOfLayout(p: PaperclipPath, front: seq<string>, style: string, fileName: string)
    requires front != [] && SlashFree(style) && SlashFree(fileName)
    requires p.relativePath == Join(front + [style, fileName])
    ensures Style(p) == style
  {
    JoinTwo(style, fileName);
    JoinSplits(front, [style, fileName]);
    assert p.relativePath == Join(front) + ("/" + style) + ("/" + fileName);
    RSplitLast(Join(front) + ("/" + style), fileName);
    RSplitLast(Join(front), style);
  }

  lemma EncodedStart(parts: seq<string>)
    requires parts != [] && AllSafe(parts) && AllSlashFree(parts)
    ensures var path := EncodeUrlPath(Join(parts)); path != "" && path[0] != '/'
  {
    EncodedPath(parts);
    SplitOfJoin(parts);
    var encoded := EncodeAll(parts);
    ComponentReadsBack(parts[0]);
    EscapeReads(Encode(parts[0]));
    assert EncodeUrlPath(Join(parts)) == Join(encoded);
    assert Join(encoded)[0] == encoded[0][0];
  }

  /** Parsing an encoded path is parsing its components. */
  lemma EncodedComponentsParse(parts: seq<string>)
    requires parts != [] && AllSafe(parts) && AllSlashFree(parts)
    ensures ParsePaperclipPath(EncodeUrlPath(Join(parts))) == ParseComponents(parts)
  {
    EncodedPath(parts);
    EncodedStart(parts);
    ComponentsReadBack(parts);
  }

  lemma LayoutStyle(p: PaperclipPath, cache: bool, a: Attachment, groups: seq<string>, style: string, fileName: string)
    requires SlashFree(style) && SlashFree(fileName)
    requires p.relativePath == Join(Layout(cache, a, groups, style, fileName))
    ensures Style(p) == style
  {
    var front := (if cache then ["cache"] else []) + ([a.Folder(), a.Group()] + groups);
    assert Layout(cache, a, groups, style, fileName) == front + [style, fileName];
    StyleOfLayout(p, front, style, fileName);
  }

  /** Whatever path a metadata record has for a style, its URL form parses back to the same
      attachment, id and path, and authorizes that record. */
  lemma PrintedPathsParse(m: Metadata, style: string)
    requires RelativePath(m, style).Some?
    ensures ParsePaperclipPath(EncodeUrlPath(RelativePath(m, style).value))
            == Some(PaperclipPath(RelativePath(m, style).value, m.attachment, m.id))
    ensures Authorizes(PaperclipPath(RelativePath(m, style).value, m.attachment, m.id), m)
  {
    PrinterIsLayout(m, style);
    PrintedStyleIsPermitted(m, style);
    PermittedStyleIsText(m.attachment, style);
    var cache, a, groups, fileName := m.CachePrefix(), m.attachment, Groups(m.id).value, StyleFileName(m, style).value;
    GroupsSpellId(m.id);
    LayoutIsSafe(cache, a, groups, style, fileName);
    EncodedComponentsParse(Layout(cache, a, groups, style, fileName));
    ParserReadsLayout(cache, a, m.id, style, fileName);
    var p := PaperclipPath(RelativePath(m, style).value, a, m.id);
    LayoutStyle(p, cache, a, groups, style, fileName);
  }

  // --------------------------------------------------------------------- converse

  lemma ComponentsOf(components: seq<string>, n: nat, folder: string, group: string, groups: seq<string>)
    requires n <= 1 && n + 4 <= |components| && (n == 1 <==> components[0] == "cache")
    requires components[n] == folder && components[n + 1] == group && components[n + 2..|components| - 2] == groups
    ensures components == (if n == 1 then ["cache"] else [])
                          + ([folder, group] + (groups + components[|components| - 2..]))
  {
  }

  /** Only laid-out components parse. */
  lemma ParsedIsLayout(components: seq<string>, p: PaperclipPath) returns (cache: bool, style: string, fileName: string)
    requires AllSafe(components) && ParseComponents(components) == Some(p)
    ensures p.relativePath == Join(components) && Groups(p.id).Some?
    ensures components == Layout(cache, p.attachment, Groups(p.id).value, style, fileName)
    ensures p.attachment.PermitsStyle(style) && SafeComponent(style) && SafeComponent(fileName)
  {
    cache := components[0] == "cache";
    var n, a := if cache then 1 else 0, p.attachment;
    style, fileName := components[|components| - 2], components[|components| - 1];
    FindIsSound(components[n] + ("/" + components[n + 1]), 0);
    FoldersAreSafe(a);
    GroupsOfFilesAreSafe(a);
    SameHalves(a.Folder(), a.Group(), components[n], components[n + 1]);
    PartitionSplits(p.id);
    assert components[|components| - 2..] == [style, fileName];
    ComponentsOf(components, n, a.Folder(), a.Group(), Groups(p.id).value);
  }

  /** A parsed path authorizes only records with its own attachment and id. */
  lemma AuthorizedRecordsMatch(path: string, p: PaperclipPath, m: Metadata)
    requires ParsePaperclipPath(path) == Some(p) && Authorizes(p, m)
    ensures m.attachment == p.attachment && m.id == p.id
  {
    var components := DecodeAll(Split(path)).value;
    DecodedAreSafe(Split(path));
    var cache, style, fileName := ParsedIsLayout(components, p);
    LayoutStyle(p, cache, p.attachment, Groups(p.id).value, style, fileName);
    PathsIdentify(p.relativePath, cache, p.attachment, p.id, style, fileName, m);
  }

  lemma PathsIdentify(
    path: string, cache: bool, a: Attachment, id: int, style: string, fileName: string, m: Metadata)
    requires Groups(id).Some? && SafeComponent(style) && SafeComponent(fileName)
    requires path == Join(Layout(cache, a, Groups(id).value, style, fileName)) && RelativePath(m, style) == Some(path)
    ensures m.attachment == a && m.id == id && m.CachePrefix() == cache && StyleFileName(m, style) == Some(fileName)
  {
    PrinterIsLayout(m, style);
    PrintedStyleIsPermitted(m, style);
    var name := StyleFileName(m, style).value;
    GroupsSpellId(id);
    GroupsSpellId(m.id);
    LayoutIsSafe(cache, a, Groups(id).value, style, fileName);
    LayoutIsSafe(m.CachePrefix(), m.attachment, Groups(m.id).value, style, name);
    SplitOfJoin(Layout(cache, a, Groups(id).value, style, fileName));
    SplitOfJoin(Layout(m.CachePrefix(), m.attachment, Groups(m.id).value, style, name));
    LayoutsIdentify(cache, a, Groups(id).value, style, fileName,
                    m.CachePrefix(), m.attachment, Groups(m.id).value, style, name);
  }
}
