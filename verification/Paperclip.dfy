/** Attachment paths: the printer, the parser and their agreement (src/paperclip.rs). */
module Paperclip {
  import opened Wrappers
  import opened Decimal
  import opened Utf8
  import opened UrlPath

  const AppIconStyles: seq<string> :=
    ["36", "48", "57", "60", "72", "76", "96", "114", "120", "144", "152", "167", "180", "192", "256", "384", "512", "1024"]
  const FaviconStyles: seq<string> := ["16", "32", "48"]
  const ThumbnailStyles: seq<string> := ["@1x", "@2x"]

  type I64 = n: int | -0x8000_0000_0000_0000 <= n < 0x8000_0000_0000_0000 witness 0

  datatype Attachment =
    | AccountAvatar
    | AccountHeader
    | MediaFile
    | MediaThumbnail
    | CustomEmojiImage
    | PreviewCardImage
    | PreviewCardProviderIcon
    | SiteUploadFile
  {
    function Folder(): string {
      match this
      case AccountAvatar | AccountHeader => "accounts"
      case MediaFile | MediaThumbnail => "media_attachments"
      case CustomEmojiImage => "custom_emojis"
      case PreviewCardImage => "preview_cards"
      case PreviewCardProviderIcon => "preview_card_providers"
      case SiteUploadFile => "site_uploads"
    }

    function Group(): string {
      match this
      case AccountAvatar => "avatars"
      case AccountHeader => "headers"
      case MediaFile | SiteUploadFile => "files"
      case MediaThumbnail => "thumbnails"
      case CustomEmojiImage | PreviewCardImage => "images"
      case PreviewCardProviderIcon => "icons"
    }

    function Path(): string { Folder() + ("/" + Group()) }

    predicate PermitsCache() { !PreviewCardProviderIcon? && !SiteUploadFile? }

    predicate PermitsStyle(style: string) {
      match this
      case AccountAvatar | AccountHeader | CustomEmojiImage | PreviewCardProviderIcon =>
        style == "original" || style == "static"
      case MediaFile => style == "original" || style == "small"
      case MediaThumbnail | PreviewCardImage => style == "original"
      case SiteUploadFile =>
        || style == "original" || style in AppIconStyles || style in FaviconStyles
        || style in ThumbnailStyles || style == "mascot"
    }
  }

  datatype Metadata = Metadata(
    attachment: Attachment,
    id: I64,
    remote: bool,
    storageSchemaVersion: Option<int>,
    fileName: string,
    contentType: Option<string>,
    variant: Option<string>)
  {
    predicate CachePrefix() {
      attachment.PermitsCache() && remote && storageSchemaVersion.Some? && storageSchemaVersion.value >= 1
    }
  }

  datatype PaperclipPath = PaperclipPath(relativePath: string, attachment: Attachment, id: I64)

  // ---------------------------------------------------------------- pieces

  predicate IsControl(c: char) { c as int < 0x20 || 0x7F <= c as int < 0xA0 }

  predicate SafeComponent(s: string) {
    && s != "" && s != "." && s != ".."
    && forall i :: 0 <= i < |s| ==> s[i] != '/' && s[i] != '\\' && !IsControl(s[i])
  }

  function DecodeComponent(value: string): Option<string> {
    if value == "" then None
    else
      var decoded := Decode(PercentDecode(Encode(value)));
      if decoded.Some? && SafeComponent(decoded.value) then decoded else None
  }

  /** Everything before the last dot that is not the first character, or all of it. */
  function BaseName(name: string, end: nat): string
    requires end <= |name|
  {
    if end <= 1 then name else if name[end - 1] == '.' then name[..end - 1] else BaseName(name, end - 1)
  }

  function DerivativeFileName(name: string, extension: string): Option<string> {
    var base := BaseName(name, |name|);
    if base == "" then None else Some(base + "." + extension)
  }

  /** The content type a media file's small style is served as; audio has none. */
  function PreviewContentType(contentType: string): Option<string> {
    if contentType in ["image/jpeg", "image/png", "image/webp"] then Some(contentType)
    else if contentType == "image/gif" then Some("image/png")
    else if contentType in ["image/heic", "image/heif", "image/avif"] then Some("image/jpeg")
    else if contentType in ["video/webm", "video/mp4", "video/quicktime", "video/ogg", "video/x-ms-asf"] then
      Some("image/png")
    else None
  }

  function SiteUploadName(m: Metadata, style: string): Option<string> {
    match m.variant
    case None => None
    case Some(variant) =>
      if variant == "mascot" then if style == "mascot" then Some(m.fileName) else None
      else
        var styles :=
          if variant == "app_icon" then AppIconStyles
          else if variant == "favicon" then FaviconStyles
          else if variant == "thumbnail" then ThumbnailStyles
          else [];
        if style in styles then DerivativeFileName(m.fileName, "png") else None
  }

  function StyleFileName(m: Metadata, style: string): Option<string> {
    if !SafeComponent(m.fileName) then None
    else if style == "original" then Some(m.fileName)
    else
      match m.attachment
      case AccountAvatar | AccountHeader =>
        if style == "static" && m.contentType == Some("image/gif") then DerivativeFileName(m.fileName, "png") else None
      case CustomEmojiImage | PreviewCardProviderIcon =>
        if style == "static" then DerivativeFileName(m.fileName, "png") else None
      case MediaFile =>
        if style != "small" || m.contentType.None? then None
        else
          var preview := PreviewContentType(m.contentType.value);
          if preview.None? then None
          else if preview == m.contentType then Some(m.fileName)
          else if preview.value == "image/png" then DerivativeFileName(m.fileName, "png")
          else if preview.value == "image/jpeg" then DerivativeFileName(m.fileName, "jpeg")
          else None
      case SiteUploadFile => SiteUploadName(m, style)
      case MediaThumbnail | PreviewCardImage => None
  }

  // ------------------------------------------------------------- partitions

  /** Nine digits, then twelve, then only what divides by three. */
  function PaddedWidth(length: nat): Option<nat> {
    if length <= 9 then Some(9)
    else if length <= 12 then Some(12)
    else if length % 3 == 0 then Some(length)
    else None
  }

  function Pad(digits: string, width: nat): string
    decreases width - |digits|
  {
    if |digits| >= width then digits else Pad("0" + digits, width)
  }

  function Threes(s: string): seq<string> {
    if |s| < 3 then [] else [s[..3]] + Threes(s[3..])
  }

  /** The groups of three digits an id is stored under. */
  function Groups(id: int): Option<seq<string>> {
    if id <= 0 then None
    else
      var digits := PrintNat(id);
      var width := PaddedWidth(|digits|);
      if width.None? then None else Some(Threes(Pad(digits, width.value)))
  }

  function PartitionedId(id: int): Option<string> {
    var groups := Groups(id);
    if groups.None? || groups.value == [] then None else Some(Join(groups.value))
  }

  predicate IsGroup(part: string) { |part| == 3 && AllDigits(part) }

  predicate AllGroups(parts: seq<string>) { forall i :: 0 <= i < |parts| ==> IsGroup(parts[i]) }

  // ------------------------------------------------------ printing and parsing

  function RelativePath(m: Metadata, style: string): Option<string> {
    var partition := PartitionedId(m.id);
    if partition.None? then None
    else
      var fileName := StyleFileName(m, style);
      if fileName.None? then None
      else
        Some((if m.CachePrefix() then "cache/" else "")
             + (m.attachment.Path() + ("/" + (partition.value + ("/" + (style + ("/" + fileName.value)))))))
  }

  predicate StyleText(style: string) {
    forall i :: 0 <= i < |style| ==>
      || '0' <= style[i] <= '9' || 'A' <= style[i] <= 'Z' || 'a' <= style[i] <= 'z'
      || style[i] == '_' || style[i] == '-' || style[i] == '@'
  }

  const Attachments: seq<Attachment> :=
    [AccountAvatar, AccountHeader, MediaFile, MediaThumbnail, CustomEmojiImage, PreviewCardImage,
     PreviewCardProviderIcon, SiteUploadFile]

  function FindAttachment(path: string, from: nat): Option<Attachment>
    requires from <= |Attachments|
    decreases |Attachments| - from
  {
    if from == |Attachments| then None
    else if Attachments[from].Path() == path then Some(Attachments[from])
    else FindAttachment(path, from + 1)
  }

  function DecodeAll(parts: seq<string>): Option<seq<string>> {
    if parts == [] then Some([])
    else
      var first := DecodeComponent(parts[0]);
      var rest := DecodeAll(parts[1..]);
      if first.None? || rest.None? then None else Some([first.value] + rest.value)
  }

  function ParseComponents(components: seq<string>): Option<PaperclipPath> {
    if |components| < 7 then None
    else
      var cache := if components[0] == "cache" then 1 else 0;
      var attachment := FindAttachment(components[cache] + ("/" + components[cache + 1]), 0);
      if attachment.None? || (cache == 1 && !attachment.value.PermitsCache()) then None
      else
        var start, end := cache + 2, |components| - 2;
        if end <= start then None
        else
          var partition := components[start..end];
          if |partition| < 3 || !AllGroups(partition) then None
          else
            var id := ParseNat(GroupDigits(partition));
            if id >= 0x8000_0000_0000_0000 then None
            else
              var expected := PartitionedId(id);
              if expected.None? || Split(expected.value) != partition then None
              else
                var style, fileName := components[end], components[end + 1];
                if !StyleText(style) || !attachment.value.PermitsStyle(style) || !SafeComponent(fileName) then None
                else Some(PaperclipPath(Join(components), attachment.value, id))
  }

  function GroupDigits(parts: seq<string>): (digits: string)
    requires AllGroups(parts)
    ensures AllDigits(digits)
  {
    if parts == [] then "" else parts[0] + GroupDigits(parts[1..])
  }

  function ParsePaperclipPath(path: string): Option<PaperclipPath> {
    if path == "" || path[0] == '/' || !ValidPercent(Encode(path)) then None
    else
      var components := DecodeAll(Split(path));
      if components.None? then None else ParseComponents(components.value)
  }

  function Style(p: PaperclipPath): string {
    var last := RSplitOnce(p.relativePath);
    if last.None? then ""
    else
      var style := RSplitOnce(last.value.0);
      if style.None? then "" else style.value.1
  }

  predicate Authorizes(p: PaperclipPath, m: Metadata) {
    RelativePath(m, Style(p)) == Some(p.relativePath)
  }
}
