/**
 * `src/llm/function.py`: the magic-byte image sniffer, the `data:` URL that `image_to_base64`
 * assembles (section 3 of RFC 2397), and the file name `save_pasted_image` picks. The file
 * system, PIL's validation, `mimetypes.guess_type` and the base64 encoder (section 4 of
 * RFC 4648) are parameters.
 */
module ImageCodec {
  import opened Wrappers
  import opened Text
  import opened Bytes

  // ---------------------------------------------------------------- signatures

  const JPEG_MAGIC: seq<uint8> := [0xFF, 0xD8, 0xFF]
  /** `\x89PNG\r\n\x1a\n` */
  const PNG_MAGIC: seq<uint8> := [0x89, 0x50, 0x4E, 0x47, 0x0D, 0x0A, 0x1A, 0x0A]
  /** `GIF87a` and `GIF89a` */
  const GIF87_MAGIC: seq<uint8> := [0x47, 0x49, 0x46, 0x38, 0x37, 0x61]
  const GIF89_MAGIC: seq<uint8> := [0x47, 0x49, 0x46, 0x38, 0x39, 0x61]
  /** `RIFF`, and `WEBP` at offset 8 */
  const RIFF_MAGIC: seq<uint8> := [0x52, 0x49, 0x46, 0x46]
  const WEBP_TAG: seq<uint8> := [0x57, 0x45, 0x42, 0x50]
  /** `BM`, `II`, `MM` */
  const BMP_MAGIC: seq<uint8> := [0x42, 0x4D]
  const TIFF_LE_MAGIC: seq<uint8> := [0x49, 0x49]
  const TIFF_BE_MAGIC: seq<uint8> := [0x4D, 0x4D]
  /** `<?xml` and `<svg` */
  const XML_MAGIC: seq<uint8> := [0x3C, 0x3F, 0x78, 0x6D, 0x6C]
  const SVG_TAG: seq<uint8> := [0x3C, 0x73, 0x76, 0x67]
  /** How far into the data the `<svg` tag is looked for. */
  const SVG_WINDOW: nat := 100

  const TOKENS: seq<string> := ["jpeg", "png", "gif", "webp", "bmp", "tiff", "svg+xml"]

  predicate Prefix(data: seq<uint8>, magic: seq<uint8>) {
    |magic| <= |data| && data[..|magic|] == magic
  }

  predicate BytesAt(data: seq<uint8>, pat: seq<uint8>, i: int) {
    0 <= i && i + |pat| <= |data| && data[i..i + |pat|] == pat
  }

  /** `pat in data` for byte strings. */
  predicate Occurs(data: seq<uint8>, pat: seq<uint8>) {
    exists i | 0 <= i <= |data| :: BytesAt(data, pat, i)
  }

  /** Python's `data[:n]`. */
  function Head(data: seq<uint8>, n: nat): seq<uint8> {
    if |data| <= n then data else data[..n]
  }

  predicate IsJpeg(d: seq<uint8>) { Prefix(d, JPEG_MAGIC) }
  predicate IsPng(d: seq<uint8>) { Prefix(d, PNG_MAGIC) }
  predicate IsGif(d: seq<uint8>) { Prefix(d, GIF87_MAGIC) || Prefix(d, GIF89_MAGIC) }
  predicate IsWebp(d: seq<uint8>) { Prefix(d, RIFF_MAGIC) && |d| >= 12 && d[8..12] == WEBP_TAG }
  predicate IsBmp(d: seq<uint8>) { Prefix(d, BMP_MAGIC) }
  predicate IsTiff(d: seq<uint8>) { Prefix(d, TIFF_LE_MAGIC) || Prefix(d, TIFF_BE_MAGIC) }
  predicate IsSvg(d: seq<uint8>) { Prefix(d, XML_MAGIC) || Occurs(Head(d, SVG_WINDOW), SVG_TAG) }

  /**
   * `get_mime_type_from_data`: the signatures are tried in a fixed order and the first match
   * names the type; data matching none is taken for JPEG.
   */
  function Sniff(d: seq<uint8>): (t: string)
    ensures t in TOKENS
    ensures t == "png" <==> !IsJpeg(d) && IsPng(d)
    ensures t == "gif" <==> !IsJpeg(d) && !IsPng(d) && IsGif(d)
    ensures t == "webp" <==> !IsJpeg(d) && !IsPng(d) && !IsGif(d) && IsWebp(d)
    ensures t == "bmp" <==> !IsJpeg(d) && !IsPng(d) && !IsGif(d) && !IsWebp(d) && IsBmp(d)
    ensures t == "tiff" <==> !IsJpeg(d) && !IsPng(d) && !IsGif(d) && !IsWebp(d) && !IsBmp(d) && IsTiff(d)
    ensures t == "svg+xml" <==>
      !IsJpeg(d) && !IsPng(d) && !IsGif(d) && !IsWebp(d) && !IsBmp(d) && !IsTiff(d) && IsSvg(d)
    ensures t == "jpeg" <==>
      IsJpeg(d) || (!IsPng(d) && !IsGif(d) && !IsWebp(d) && !IsBmp(d) && !IsTiff(d) && !IsSvg(d))
  {
    if IsJpeg(d) then "jpeg"
    else if IsPng(d) then "png"
    else if IsGif(d) then "gif"
    else if IsWebp(d) then "webp"
    else if IsBmp(d) then "bmp"
    else if IsTiff(d) then "tiff"
    else if IsSvg(d) then "svg+xml"
    else "jpeg"
  }

  /** An independent statement of the sniffer: a table of signatures scanned front to back. */
  function Rules(): seq<(seq<uint8> -> bool, string)> {
    [(IsJpeg, "jpeg"), (IsPng, "png"), (IsGif, "gif"), (IsWebp, "webp"),
     (IsBmp, "bmp"), (IsTiff, "tiff"), (IsSvg, "svg+xml")]
  }

  function FirstMatch(rules: seq<(seq<uint8> -> bool, string)>, d: seq<uint8>, default: string): string {
    if |rules| == 0 then default
    else if rules[0].0(d) then rules[0].1
    else FirstMatch(rules[1..], d, default)
  }

  lemma SniffIsFirstMatch(d: seq<uint8>)
    ensures Sniff(d) == FirstMatch(Rules(), d, "jpeg")
  {
    var rs := Rules();
    assert rs[7..] == [];
    assert FirstMatch(rs[6..], d, "jpeg") == if IsSvg(d) then "svg+xml" else "jpeg" by {
      assert rs[6..][0] == rs[6] && rs[6..][1..] == rs[7..];
    }
    assert FirstMatch(rs[5..], d, "jpeg") == if IsTiff(d) then "tiff" else FirstMatch(rs[6..], d, "jpeg") by {
      assert rs[5..][0] == rs[5] && rs[5..][1..] == rs[6..];
    }
    assert FirstMatch(rs[4..], d, "jpeg") == if IsBmp(d) then "bmp" else FirstMatch(rs[5..], d, "jpeg") by {
      assert rs[4..][0] == rs[4] && rs[4..][1..] == rs[5..];
    }
    assert FirstMatch(rs[3..], d, "jpeg") == if IsWebp(d) then "webp" else FirstMatch(rs[4..], d, "jpeg") by {
      assert rs[3..][0] == rs[3] && rs[3..][1..] == rs[4..];
    }
    assert FirstMatch(rs[2..], d, "jpeg") == if IsGif(d) then "gif" else FirstMatch(rs[3..], d, "jpeg") by {
      assert rs[2..][0] == rs[2] && rs[2..][1..] == rs[3..];
    }
    assert FirstMatch(rs[1..], d, "jpeg") == if IsPng(d) then "png" else FirstMatch(rs[2..], d, "jpeg") by {
      assert rs[1..][0] == rs[1] && rs[1..][1..] == rs[2..];
    }
  }

  /**
   * No signature shadows another: data that starts with a format's signature is sniffed as
   * that format, whatever follows.
   */
  lemma SniffRecognisesEachFormat(rest: seq<uint8>)
    ensures Sniff(JPEG_MAGIC + rest) == "jpeg"
    ensures Sniff(PNG_MAGIC + rest) == "png"
    ensures Sniff(GIF87_MAGIC + rest) == "gif" && Sniff(GIF89_MAGIC + rest) == "gif"
    ensures |rest| >= 4 ==> Sniff(RIFF_MAGIC + rest[..4] + WEBP_TAG + rest[4..]) == "webp"
    ensures Sniff(BMP_MAGIC + rest) == "bmp"
    ensures Sniff(TIFF_LE_MAGIC + rest) == "tiff" && Sniff(TIFF_BE_MAGIC + rest) == "tiff"
    ensures Sniff(XML_MAGIC + rest) == "svg+xml"
  {
    SniffEarlyFormats(rest);
    SniffLateFormats(rest);
    SniffSvg(rest);
    if |rest| >= 4 {
      SniffWebp(rest);
    }
  }

  lemma SniffEarlyFormats(rest: seq<uint8>)
    ensures Sniff(JPEG_MAGIC + rest) == "jpeg"
    ensures Sniff(PNG_MAGIC + rest) == "png"
    ensures Sniff(GIF87_MAGIC + rest) == "gif" && Sniff(GIF89_MAGIC + rest) == "gif"
  {
    assert (JPEG_MAGIC + rest)[..3] == JPEG_MAGIC;
    assert (PNG_MAGIC + rest)[0] == 0x89 && (PNG_MAGIC + rest)[..8] == PNG_MAGIC;
    assert (GIF87_MAGIC + rest)[0] == 0x47 && (GIF87_MAGIC + rest)[..6] == GIF87_MAGIC;
    assert (GIF89_MAGIC + rest)[0] == 0x47 && (GIF89_MAGIC + rest)[..6] == GIF89_MAGIC;
  }

  lemma SniffWebp(rest: seq<uint8>)
    requires |rest| >= 4
    ensures Sniff(RIFF_MAGIC + rest[..4] + WEBP_TAG + rest[4..]) == "webp"
  {
    var w := RIFF_MAGIC + rest[..4] + WEBP_TAG + rest[4..];
    assert w[0] == 0x52 && w[..4] == RIFF_MAGIC;
    assert w[8..12] == WEBP_TAG;
  }

  lemma SniffLateFormats(rest: seq<uint8>)
    ensures Sniff(BMP_MAGIC + rest) == "bmp"
    ensures Sniff(TIFF_LE_MAGIC + rest) == "tiff" && Sniff(TIFF_BE_MAGIC + rest) == "tiff"
  {
    SniffBmp(rest);
    SniffTiffLe(rest);
    SniffTiffBe(rest);
  }

  lemma SniffBmp(rest: seq<uint8>)
    ensures Sniff(BMP_MAGIC + rest) == "bmp"
  {
    var d := BMP_MAGIC + rest;
    assert d[0] == 0x42 && d[..2] == BMP_MAGIC;
    assert !IsJpeg(d) && !IsPng(d) && !IsGif(d) && !IsWebp(d);
  }

  lemma SniffTiffLe(rest: seq<uint8>)
    ensures Sniff(TIFF_LE_MAGIC + rest) == "tiff"
  {
    var d := TIFF_LE_MAGIC + rest;
    assert d[0] == 0x49 && d[..2] == TIFF_LE_MAGIC;
    assert !IsJpeg(d) && !IsPng(d) && !IsGif(d) && !IsWebp(d) && !IsBmp(d);
  }

  lemma SniffTiffBe(rest: seq<uint8>)
    ensures Sniff(TIFF_BE_MAGIC + rest) == "tiff"
  {
    var d := TIFF_BE_MAGIC + rest;
    assert d[0] == 0x4D && d[..2] == TIFF_BE_MAGIC;
    assert !IsJpeg(d) && !IsPng(d) && !IsGif(d) && !IsWebp(d) && !IsBmp(d);
  }


  lemma SniffSvg(rest: seq<uint8>)
    ensures Sniff(XML_MAGIC + rest) == "svg+xml"
  {
    var d := XML_MAGIC + rest;
    assert d[0] == 0x3C && d[..5] == XML_MAGIC;
    assert IsSvg(d);
    assert !IsJpeg(d) && !IsPng(d) && !IsGif(d) && !IsWebp(d) && !IsBmp(d) && !IsTiff(d);
  }

  // ---------------------------------------------------------------- data URLs

  /** `data:image/<mime>;base64,<encoded>` */
  function DataUrl(mime: string, encoded: string): string {
    "data:image/" + mime + ";base64," + encoded
  }

  /** What `image_to_base64` is given: a path on disk, raw bytes, or anything else. */
  datatype ImageInput =
    | PathInput(path: string, found: bool, isFile: bool, contents: Option<seq<uint8>>, guessed: Option<string>)
    | BytesInput(data: seq<uint8>)
    | OtherInput

  /** The type from `mimetypes.guess_type`, stripped of `image/`, when it is an image type. */
  function GuessedImageType(guessed: Option<string>): (r: Option<string>)
    ensures r.Some? <==> guessed.Some? && StartsWith(guessed.value, "image/")
    ensures r.Some? ==> guessed.value == "image/" + r.value
  {
    if guessed.Some? && StartsWith(guessed.value, "image/") then Some(guessed.value[6..]) else None
  }

  /** The bytes and MIME subtype chosen for an input, before validation. */
  function Classify(input: ImageInput, validate: bool): (r: Option<(seq<uint8>, string)>)
    ensures input.OtherInput? ==> r.None?
    ensures input.BytesInput? ==> r == Some((input.data, Sniff(input.data)))
    ensures input.PathInput? ==>
      (r.Some? <==> input.found && input.isFile && input.contents.Some?)
    ensures input.PathInput? && r.Some? ==>
      r.value.0 == input.contents.value && r.value.1 == (if validate && GuessedImageType(input.guessed).Some? then GuessedImageType(input.guessed).value
                       else Sniff(input.contents.value))
  {
    match input
    case OtherInput => None
    case BytesInput(data) => Some((data, Sniff(data)))
    case PathInput(_, found, isFile, contents, guessed) =>
      if !found || !isFile || contents.None? then None
      else
        var data := contents.value;
        var g := GuessedImageType(guessed);
        Some((data, if validate && g.Some? then g.value else Sniff(data)))
  }

  /**
   * `image_to_base64`: `None` for an unsupported input, a missing path, a directory, a read
   * failure, or (when validating) data PIL rejects; otherwise the `data:` URL of the bytes.
   */
  function ImageToBase64(input: ImageInput, validate: bool, isValid: seq<uint8> -> bool, b64: seq<uint8> -> string): (r: Option<string>)
    ensures r.Some? <==> Classify(input, validate).Some? && (validate ==> isValid(Classify(input, validate).value.0))
    ensures r.Some? ==>
      var (data, mime) := Classify(input, validate).value;
      r.value == DataUrl(mime, b64(data))
  {
    match Classify(input, validate)
    case None => None
    case Some((data, mime)) =>
      if validate && !isValid(data) then None else Some(DataUrl(mime, b64(data)))
  }

  /** Raw bytes without validation always yield the URL of the sniffed type. */
  lemma BytesAlwaysEncode(data: seq<uint8>, isValid: seq<uint8> -> bool, b64: seq<uint8> -> string)
    ensures ImageToBase64(BytesInput(data), false, isValid, b64) == Some(DataUrl(Sniff(data), b64(data)))
  {
  }

  /** `url.split(';')[0].split('/')[-1]`: the MIME subtype named in a `data:` URL. */
  function MimeOf(url: string): string {
    var parts := Split(Split(url, ';')[0], '/');
    parts[|parts| - 1]
  }

  /** Reading the subtype back out of a URL gives the one put in, if it has no `;` or `/`. */
  lemma MimeOfDataUrl(mime: string, encoded: string)
    requires ';' !in mime && '/' !in mime
    ensures MimeOf(DataUrl(mime, encoded)) == mime
  {
    UrlHead(mime, encoded);
    HeadParts(mime);
  }

  /** The part of a data URL before its first `;`. */
  lemma UrlHead(mime: string, encoded: string)
    requires ';' !in mime
    ensures Split(DataUrl(mime, encoded), ';')[0] == "data:image/" + mime
  {
    var head := "data:image/" + mime;
    assert ';' !in head;
    assert DataUrl(mime, encoded) == head + [';'] + ("base64," + encoded);
    SplitFirst(head, ';', "base64," + encoded);
  }

  /** `data:image/<mime>` splits on `/` into the scheme part and the subtype. */
  lemma HeadParts(mime: string)
    requires '/' !in mime
    ensures Split("data:image/" + mime, '/') == ["data:image", mime]
  {
    var scheme := "data:image";
    assert forall k :: 0 <= k < |scheme| ==> scheme[k] != '/';
    assert "data:image/" + mime == scheme + ['/'] + mime;
    SplitTwo(scheme, '/', mime);
  }


  lemma TokensAreSimple(t: string)
    requires t in TOKENS
    ensures ';' !in t && '/' !in t
  {
  }

  // ---------------------------------------------------------------- pasted-image file names

  const EXTENSIONS: seq<string> := [".jpg", ".jpeg", ".png", ".gif", ".webp", ".bmp", ".tiff", ".svg"]

  /** `filename.lower().endswith(ext)` for one of the known extensions. */
  predicate HasImageExtension(name: string) {
    exists k :: 0 <= k < |EXTENSIONS| && EndsWith(ToLowerAscii(name), EXTENSIONS[k])
  }

  function AutoName(now: nat, ext: string): string {
    "pasted_image_" + NatToDecimal(now) + "." + ext
  }

  /**
   * `save_pasted_image`'s file name, as written: without a name one is generated from the time
   * and the sniffed subtype; a name without a known extension then gets `.` and the subtype
   * appended.
   */
  function SaveFileName(data: seq<uint8>, filename: Option<string>, now: nat, b64: seq<uint8> -> string): (r: string)
    ensures filename.Some? && HasImageExtension(filename.value) ==> r == filename.value
    ensures filename.Some? && !HasImageExtension(filename.value) ==> r == filename.value + "." + Sniff(data)
    ensures filename.None? && HasImageExtension(AutoName(now, Sniff(data))) ==> r == AutoName(now, Sniff(data))
    ensures filename.None? && !HasImageExtension(AutoName(now, Sniff(data))) ==>
      r == AutoName(now, Sniff(data)) + "." + Sniff(data)
  {
    BytesAlwaysEncode(data, IsAnything, b64);
    TokensAreSimple(Sniff(data));
    MimeOfDataUrl(Sniff(data), b64(data));
    var url := ImageToBase64(BytesInput(data), false, IsAnything, b64);
    var name := if filename.None? then AutoName(now, MimeOf(url.value)) else filename.value;
    if !HasImageExtension(name) then name + "." + MimeOf(url.value) else name
  }

  /** Validation is off for pasted images, so the validity check is never consulted. */
  predicate IsAnything(d: seq<uint8>) { true }

  /**
   * Pasted SVG data gets its subtype appended twice: the generated name is
   * `pasted_image_<now>.svg+xml.svg+xml`.
   */
  lemma SvgNameDoubled(rest: seq<uint8>, now: nat, b64: seq<uint8> -> string)
    ensures SaveFileName(XML_MAGIC + rest, None, now, b64) == AutoName(now, "svg+xml") + "." + "svg+xml"
  {
    var d := XML_MAGIC + rest;
    SniffSvg(rest);
    SvgAutoNameUnknown(now);
    assert !HasImageExtension(AutoName(now, Sniff(d)));
  }


  /** A generated name for SVG data ends in `l`, so it is not recognised as an image name. */
  lemma SvgAutoNameUnknown(now: nat)
    ensures !HasImageExtension(AutoName(now, "svg+xml"))
  {
    var name := AutoName(now, "svg+xml");
    assert name[|name| - 1] == 'l';
    NoKnownExtensionEndsInL(name);
  }


  /** No known extension ends in `l`, so a name whose last letter is `l` or `L` has none of them. */
  lemma NoKnownExtensionEndsInL(name: string)
    requires |name| > 0 && LowerAscii(name[|name| - 1]) == 'l'
    ensures !HasImageExtension(name)
  {
    var low := ToLowerAscii(name);
    forall k | 0 <= k < |EXTENSIONS|
      ensures !EndsWith(low, EXTENSIONS[k])
    {
      var e := EXTENSIONS[k];
      assert e[|e| - 1] != 'l';
    }
  }

  /** The file extension for a sniffed subtype: `svg+xml` is saved as `.svg`. */
  function ExtensionFor(mime: string): (ext: string)
    requires mime in TOKENS
    ensures ext == if mime == "svg+xml" then "svg" else mime
    ensures HasImageExtension("." + ext)
  {
    var ext := if mime == "svg+xml" then "svg" else mime;
    var k := if mime == "jpeg" then 1 else if mime == "png" then 2 else if mime == "gif" then 3
             else if mime == "webp" then 4 else if mime == "bmp" then 5 else if mime == "tiff" then 6 else 7;
    assert "." + ext == EXTENSIONS[k];
    assert ToLowerAscii("." + ext) == "." + ext;
    assert EndsWith(ToLowerAscii("." + ext), EXTENSIONS[k]);
    ext
  }

  /** The file name with the subtype mapped to its extension. */
  function SaveFileNameFixed(data: seq<uint8>, filename: Option<string>, now: nat): (r: string)
    ensures filename.Some? && HasImageExtension(filename.value) ==> r == filename.value
    ensures filename.Some? && !HasImageExtension(filename.value) ==> r == filename.value + "." + ExtensionFor(Sniff(data))
  {
    var ext := ExtensionFor(Sniff(data));
    var name := if filename.None? then AutoName(now, ext) else filename.value;
    if !HasImageExtension(name) then name + "." + ext else name
  }

  /** A generated name carries exactly one extension, a known one, and is not extended again. */
  lemma {:induction false} FixedAutoNameHasOneExtension(data: seq<uint8>, now: nat)
    ensures SaveFileNameFixed(data, None, now) == AutoName(now, ExtensionFor(Sniff(data)))
    ensures HasImageExtension(SaveFileNameFixed(data, None, now))
  {
    var ext := ExtensionFor(Sniff(data));
    var name := AutoName(now, ext);
    EndsWithKnownExtension("pasted_image_" + NatToDecimal(now), ext);
  }

  /** Any stem followed by `.` and a sniffed extension has a known extension. */
  lemma EndsWithKnownExtension(stem: string, ext: string)
    requires HasImageExtension("." + ext)
    ensures HasImageExtension(stem + "." + ext)
  {
    var k :| 0 <= k < |EXTENSIONS| && EndsWith(ToLowerAscii("." + ext), EXTENSIONS[k]);
    var low := ToLowerAscii(stem + "." + ext);
    var tail := ToLowerAscii("." + ext);
    assert low[|low| - |tail|..] == tail;
    assert EndsWith(low, EXTENSIONS[k]);
  }
}
