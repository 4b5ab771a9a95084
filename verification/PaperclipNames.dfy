/** What a printed path says: which ids have one, which styles are served, and under which names. */
module PaperclipNames {
  import opened Wrappers
  import opened Decimal
  import opened Utf8
  import opened UrlPath
  import opened Paperclip
  import opened PaperclipProofs

  // --------------------------------------------------------------- partitions

  function Ten(k: nat): nat { if k == 0 then 1 else 10 * Ten(k - 1) }

  lemma {:induction false} DigitCount(n: nat, k: nat)
    requires k > 0
    ensures |PrintNat(n)| <= k <==> n < Ten(k)
    decreases n
  {
    if n >= 10 {
      if k == 1 {
        assert Ten(1) == 10;
      } else {
        DigitCount(n / 10, k - 1);
        assert n < 10 * Ten(k - 1) <==> n / 10 < Ten(k - 1);
      }
    } else {
      TenGrows(k);
    }
  }

  lemma {:induction false} TenGrows(k: nat)
    ensures k > 0 ==> Ten(k) >= 10
  {
    if k > 1 { TenGrows(k - 1); }
  }

  lemma TenIs()
    ensures Ten(9) == 1_000_000_000 && Ten(12) == 1_000_000_000_000
    ensures Ten(14) == 100_000_000_000_000 && Ten(15) == 1_000_000_000_000_000
    ensures Ten(17) == 100_000_000_000_000_000 && Ten(18) == 1_000_000_000_000_000_000
    ensures Ten(19) == 10_000_000_000_000_000_000
  {
    assert Ten(3) == 1000 && Ten(6) == 1_000_000;
    assert Ten(16) == 10_000_000_000_000_000;
    assert Ten(13) == 10_000_000_000_000;
  }

  /** The id can be stored: its digits fill groups of three from nine or twelve places on. */
  predicate HasPartition(id: int) {
    0 < id < 1_000_000_000_000
    || 100_000_000_000_000 <= id < 1_000_000_000_000_000
    || 100_000_000_000_000_000 <= id < 1_000_000_000_000_000_000
  }

  lemma WidthOf(id: I64)
    requires id > 0
    ensures PaddedWidth(|PrintNat(id)|) ==
              if id < 1_000_000_000 then Some(9) else if id < 1_000_000_000_000 then Some(12)
              else if !HasPartition(id) then None else if id < 1_000_000_000_000_000 then Some(15) else Some(18)
  {
    TenIs();
    DigitCount(id, 9);
    DigitCount(id, 12);
    DigitCount(id, 14);
    DigitCount(id, 15);
    DigitCount(id, 17);
    DigitCount(id, 18);
    DigitCount(id, 19);
    hide Ten;
  }

  /** These groups store the id. */
  predicate Stores(id: int, groups: seq<string>) {
    groups != [] && AllGroups(groups) && ParseNat(GroupDigits(groups)) == id
  }

  /** Exactly these 64-bit ids have a path: the others have a number of digits above twelve that three
      does not divide. The path names three groups up to a billion, then four, five or six. */
  lemma PartitionShape(id: I64)
    ensures PartitionedId(id).Some? <==> HasPartition(id)
    ensures HasPartition(id) ==>
              exists groups | Stores(id, groups) ::
                && PartitionedId(id) == Some(Join(groups))
                && |groups| == if id < 1_000_000_000 then 3 else if id < 1_000_000_000_000 then 4
                               else if id < 1_000_000_000_000_000 then 5 else 6
  {
    GroupsFit(id);
    hide Groups, HasPartition;
    if Groups(id).Some? { assert Stores(id, Groups(id).value); }
  }

  lemma GroupsFit(id: I64)
    ensures Groups(id).Some? <==> HasPartition(id)
    ensures Groups(id).Some? ==>
              var groups := Groups(id).value;
              && Stores(id, groups)
              && |groups| == if id < 1_000_000_000 then 3 else if id < 1_000_000_000_000 then 4
                             else if id < 1_000_000_000_000_000 then 5 else 6
  {
    if id > 0 {
      WidthOf(id);
      if HasPartition(id) { GroupCount(id, PaddedWidth(|PrintNat(id)|).value); }
    }
  }

  lemma GroupCount(id: I64, width: nat)
    requires id > 0 && PaddedWidth(|PrintNat(id)|) == Some(width)
    ensures Groups(id).Some? && Stores(id, Groups(id).value) && 3 * |Groups(id).value| == width
  {
    GroupsSpellId(id);
    hide PaddedWidth, GroupDigits, ParseNat;
    PaddedLength(PrintNat(id), width);
  }

  lemma PaddedLength(digits: string, width: nat)
    requires AllDigits(digits) && PaddedWidth(|digits|) == Some(width)
    ensures 3 * |Threes(Pad(digits, width))| == width
  {
    PadKeepsValue(digits, width);
    ThreesAreGroups(Pad(digits, width));
  }

  // ------------------------------------------------------------------- styles

  /** `base` is the name without its extension; a leading dot starts no extension. */
  predicate IsStem(name: string, base: string) {
    || (base == name && forall k :: 0 < k < |name| ==> name[k] != '.')
    || (&& 0 < |base| < |name| && base == name[..|base|] && name[|base|] == '.'
        && forall k :: |base| < k < |name| ==> name[k] != '.')
  }

  lemma {:induction false} BaseIsStem(name: string, end: nat)
    requires end <= |name| && forall k :: 0 < end <= k < |name| ==> name[k] != '.'
    requires end == 0 ==> |name| <= 1
    ensures IsStem(name, BaseName(name, end))
    decreases end
  {
    if end > 1 && name[end - 1] != '.' { BaseIsStem(name, end - 1); }
  }

  /** The name with its extension replaced. */
  ghost predicate Renamed(name: string, extension: string, renamed: string) {
    exists base :: IsStem(name, base) && renamed == base + "." + extension
  }

  lemma StemIsUnique(name: string, a: string, b: string)
    requires IsStem(name, a) && IsStem(name, b)
    ensures a == b
  {
    assert a != name ==> name[|a|] == '.';
    assert b != name ==> name[|b|] == '.';
  }

  lemma DerivativeIsRenamed(name: string, extension: string, renamed: string)
    requires name != ""
    ensures DerivativeFileName(name, extension) == Some(renamed) <==> Renamed(name, extension, renamed)
  {
    BaseIsStem(name, |name|);
    var base := BaseName(name, |name|);
    BaseIsPrefix(name, |name|);
    if Renamed(name, extension, renamed) {
      var other :| IsStem(name, other) && renamed == other + "." + extension;
      StemIsUnique(name, base, other);
    }
  }

  /** Which file a style of an attachment is served from. */
  ghost predicate Served(m: Metadata, style: string, name: string) {
    if style == "original" then name == m.fileName
    else
      match m.attachment
      case AccountAvatar | AccountHeader =>
        style == "static" && m.contentType == Some("image/gif") && Renamed(m.fileName, "png", name)
      case CustomEmojiImage | PreviewCardProviderIcon => style == "static" && Renamed(m.fileName, "png", name)
      case MediaThumbnail | PreviewCardImage => false
      case MediaFile =>
        && style == "small" && m.contentType.Some?
        && var c := m.contentType.value;
           || (c in {"image/jpeg", "image/png", "image/webp"} && name == m.fileName)
           || (c in {"image/gif", "video/webm", "video/mp4", "video/quicktime", "video/ogg", "video/x-ms-asf"}
               && Renamed(m.fileName, "png", name))
           || (c in {"image/heic", "image/heif", "image/avif"} && Renamed(m.fileName, "jpeg", name))
      case SiteUploadFile =>
        || (m.variant == Some("mascot") && style == "mascot" && name == m.fileName)
        || (Renamed(m.fileName, "png", name)
            && (|| (m.variant == Some("favicon") && style in {"16", "32", "48"})
                || (m.variant == Some("thumbnail") && style in {"@1x", "@2x"})
                || (m.variant == Some("app_icon")
                    && style in {"36", "48", "57", "60", "72", "76", "96", "114", "120", "144", "152", "167", "180",
                                 "192", "256", "384", "512", "1024"})))
  }

  /** A style is served exactly from that file, and from none if the record's own name is unsafe. */
  lemma StylesAreServed(m: Metadata, style: string, name: string)
    ensures StyleFileName(m, style) == Some(name) <==> SafeComponent(m.fileName) && Served(m, style, name)
  {
    if SafeComponent(m.fileName) {
      if m.attachment.SiteUploadFile? && style != "original" {
        UploadStylesAreServed(m, style, name);
        hide DerivativeFileName, Renamed, SafeComponent, SiteUploadName, Served;
      } else {
        DerivativeIsRenamed(m.fileName, "png", name);
        DerivativeIsRenamed(m.fileName, "jpeg", name);
        hide DerivativeFileName, Renamed, SafeComponent, SiteUploadName;
      }
    }
  }

  lemma UploadStylesAreServed(m: Metadata, style: string, name: string)
    requires m.attachment.SiteUploadFile? && style != "original" && m.fileName != ""
    ensures SiteUploadName(m, style) == Some(name) <==> Served(m, style, name)
  {
    DerivativeIsRenamed(m.fileName, "png", name);
    ListsAgree(style);
    hide DerivativeFileName, Renamed, AppIconStyles, FaviconStyles, ThumbnailStyles;
  }

  lemma ListsAgree(style: string)
    ensures style in FaviconStyles <==> style in {"16", "32", "48"}
    ensures style in ThumbnailStyles <==> style in {"@1x", "@2x"}
    ensures style in AppIconStyles <==>
              style in {"36", "48", "57", "60", "72", "76", "96", "114", "120", "144", "152", "167", "180",
                        "192", "256", "384", "512", "1024"}
  {
  }

  // -------------------------------------------------------------------- paths

  /** The whole path: `cache` for cached remote files, the attachment's folders, the id's groups, the
      style and the served file, one slash apart. */
  lemma PathSays(m: Metadata, style: string)
    ensures RelativePath(m, style).Some? <==>
              HasPartition(m.id) && SafeComponent(m.fileName) && exists name :: Served(m, style, name)
    ensures RelativePath(m, style).Some? ==>
              exists groups, name :: Served(m, style, name) && Stores(m.id, groups)
                && RelativePath(m, style).value ==
                     Join((if m.remote && m.storageSchemaVersion.Some? && m.storageSchemaVersion.value >= 1
                              && m.attachment != PreviewCardProviderIcon && m.attachment != SiteUploadFile
                           then ["cache"] else [])
                          + ([m.attachment.Folder(), m.attachment.Group()] + (groups + [style, name])))
  {
    GroupsFit(m.id);
    hide Served, SafeComponent, Attachment.Folder, Attachment.Group, Attachment.PermitsStyle;
    forall name ensures StyleFileName(m, style) == Some(name) <==> SafeComponent(m.fileName) && Served(m, style, name) {
      StylesAreServed(m, style, name);
    }
    hide StyleFileName, Groups, HasPartition;
    if RelativePath(m, style).Some? {
      PrinterIsLayout(m, style);
      var groups, name := Groups(m.id).value, StyleFileName(m, style).value;
      assert Served(m, style, name) && Stores(m.id, groups);
    }
  }

  // ------------------------------------------------------------------ parsing

  predicate MayBeCached(a: Attachment) { a != PreviewCardProviderIcon && a != SiteUploadFile }

  /** The styles a path may name, attachment by attachment. */
  predicate Permitted(a: Attachment, style: string) {
    || style == "original"
    || (a in {AccountAvatar, AccountHeader, CustomEmojiImage, PreviewCardProviderIcon} && style == "static")
    || (a == MediaFile && style == "small")
    || (a == SiteUploadFile
        && style in {"mascot", "@1x", "@2x", "16", "32", "48", "36", "57", "60", "72", "76", "96", "114", "120", "144",
                     "152", "167", "180", "192", "256", "384", "512", "1024"})
  }

  lemma PermittedAgrees(a: Attachment, style: string)
    ensures a.PermitsStyle(style) <==> Permitted(a, style)
    ensures a.PermitsCache() <==> MayBeCached(a)
  {
    ListsAgree(style);
    hide Attachment.Folder, Attachment.Group;
  }

  /** The components of a path: folders, the id's groups, a permitted style and a safe file name. */
  predicate IsPath(components: seq<string>, cache: bool, a: Attachment, id: I64, style: string, name: string) {
    && HasPartition(id) && PartitionedId(id).Some?
    && Permitted(a, style) && SafeComponent(name) && (cache ==> MayBeCached(a))
    && components == (if cache then ["cache"] else [])
                     + ([a.Folder(), a.Group()] + (Split(PartitionedId(id).value) + [style, name]))
  }

  lemma {:induction false} AllDecode(parts: seq<string>, components: seq<string>)
    requires |parts| == |components| && forall i :: 0 <= i < |parts| ==> DecodeComponent(parts[i]) == Some(components[i])
    ensures DecodeAll(parts) == Some(components)
    decreases |parts|
  {
    if parts != [] {
      AllDecode(parts[1..], components[1..]);
      assert components == [components[0]] + components[1..];
    }
  }

  lemma {:induction false} AllDecoded(parts: seq<string>, components: seq<string>)
    requires DecodeAll(parts) == Some(components)
    ensures |parts| == |components| && forall i :: 0 <= i < |parts| ==> DecodeComponent(parts[i]) == Some(components[i])
    decreases |parts|
  {
    if parts != [] { AllDecoded(parts[1..], DecodeAll(parts[1..]).value); }
  }

  /** Escapes are valid, there is no leading slash, and every part decodes to this component. */
  ghost predicate Spells(path: string, components: seq<string>) {
    && path != "" && path[0] != '/'
    && (forall i :: 0 <= i < |Encode(path)| ==> EscapedAt(Encode(path), i))
    && |Split(path)| == |components|
    && forall i :: 0 <= i < |components| ==> DecodeComponent(Split(path)[i]) == Some(components[i])
  }

  /** Whatever parses spells the components of a path, with the attachment and id that come out. */
  lemma ParsedPathIs(path: string, p: PaperclipPath) returns (components: seq<string>, cache: bool, style: string, name: string)
    requires ParsePaperclipPath(path) == Some(p)
    ensures Spells(path, components) && components != [] && AllSafe(components) && p.relativePath == Join(components)
    ensures IsPath(components, cache, p.attachment, p.id, style, name)
  {
    components := DecodeAll(Split(path)).value;
    ValidEverywhere(Encode(path));
    AllDecoded(Split(path), components);
    DecodedAreSafe(Split(path));
    cache, style, name := ParsedIsLayout(components, p);
    PartitionShape(p.id);
    PartitionSplits(p.id);
    PermittedAgrees(p.attachment, style);
    ParsedCache(components, p, cache, style, name);
  }

  lemma ParsedCache(components: seq<string>, p: PaperclipPath, cache: bool, style: string, name: string)
    requires ParseComponents(components) == Some(p) && Groups(p.id).Some?
    requires components == Layout(cache, p.attachment, Groups(p.id).value, style, name)
    ensures cache ==> p.attachment.PermitsCache()
  {
  }

  /** And whatever spells the components of a path parses to it. */
  lemma PathsParse(path: string, components: seq<string>, cache: bool, a: Attachment, id: I64, style: string, name: string)
    requires Spells(path, components) && IsPath(components, cache, a, id, style, name)
    ensures ParsePaperclipPath(path) == Some(PaperclipPath(Join(components), a, id))
  {
    ValidEverywhere(Encode(path));
    AllDecode(Split(path), components);
    PartitionSplits(id);
    PermittedAgrees(a, style);
    ParserReadsLayout(cache, a, id, style, name);
    hide ParseComponents;
  }

  /** A parsed path authorizes a record exactly when it is the record's own: its attachment and id, its
      place in or out of the cache, and a style that the record serves from just that file. */
  lemma AuthorizedPathsAreServed(
      path: string, p: PaperclipPath, components: seq<string>, cache: bool, style: string, name: string, m: Metadata)
    requires components != [] && ParsePaperclipPath(path) == Some(p) && p.relativePath == Join(components)
    requires IsPath(components, cache, p.attachment, p.id, style, name) && AllSafe(components)
    ensures Authorizes(p, m) <==>
              && m.attachment == p.attachment && m.id == p.id
              && (cache <==> m.remote && m.storageSchemaVersion.Some? && m.storageSchemaVersion.value >= 1
                             && MayBeCached(m.attachment))
              && SafeComponent(m.fileName) && Served(m, style, name)
  {
    hide Served, Attachment.Folder, Attachment.Group, Permitted;
    PartitionSplits(p.id);
    PermittedAgrees(p.attachment, style);
    PermittedStyleIsText(p.attachment, style);
    hide Attachment.PermitsStyle;
    assert components == Layout(cache, p.attachment, Groups(p.id).value, style, name);
    LayoutStyle(p, cache, p.attachment, Groups(p.id).value, style, name);
    StylesAreServed(m, style, name);
    PermittedAgrees(m.attachment, style);
    if Authorizes(p, m) {
      PathsIdentify(p.relativePath, cache, p.attachment, p.id, style, name, m);
    } else if m.attachment == p.attachment && m.id == p.id && m.CachePrefix() == cache && StyleFileName(m, style) == Some(name) {
      OwnPathIsPrinted(m, style, components);
    }
  }

  lemma OwnPathIsPrinted(m: Metadata, style: string, components: seq<string>)
    requires Groups(m.id).Some? && PartitionedId(m.id).Some? && StyleFileName(m, style).Some?
    requires components == Layout(m.CachePrefix(), m.attachment, Groups(m.id).value, style, StyleFileName(m, style).value)
    ensures RelativePath(m, style) == Some(Join(components))
  {
    assert RelativePath(m, style).Some?;
    PrinterIsLayout(m, style);
  }
}
