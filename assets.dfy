/** How the editor shows binary assets and SVG drawings that are stored as
    text: a value that looks like bare base64 is wrapped in a `data:` URL
    whose media type comes from the file extension, and an SVG value is
    decoded from a `data:` URL or bare base64 back to its markup. The
    browser's `atob` and `decodeURIComponent` are parameters: `atob`
    answers None where it throws, `decodeURIComponent` likewise. */
module Assets {
  import opened Wrappers
  import opened Text

  const DataScheme := "data:"
  const Base64Marker := ";base64,"
  const OctetStream := "application/octet-stream"

  /** A character of the base64 alphabet `[A-Za-z0-9+/=]`. */
  predicate Base64Char(c: char) {
    ('A' <= c <= 'Z') || ('a' <= c <= 'z') || ('0' <= c <= '9') || c == '+' || c == '/' || c == '='
  }

  /** `looksBase64`: non-empty, not already a `data:` URL, a length that is
      a multiple of four, no white space, and only base64 characters. The
      white-space test never decides the answer: no base64 character is
      white space. */
  predicate LooksBase64(v: string)
    ensures LooksBase64(v) <==>
      v != "" && !StartsWith(v, DataScheme) && |v| % 4 == 0 && forall i :: 0 <= i < |v| ==> Base64Char(v[i])
  {
    && v != ""
    && !StartsWith(v, DataScheme)
    && |v| % 4 == 0
    && (forall i :: 0 <= i < |v| ==> !IsSpace(v[i]))
    && (forall i :: 0 <= i < |v| ==> Base64Char(v[i]))
  }

  /** The extension of the selected file (`split('.').pop()`, lower-cased),
      or "" when no file is selected. */
  function Extension(selectedPath: Option<string>): (ext: string)
    ensures '.' !in ext
    ensures selectedPath.Some? && '.' !in selectedPath.value ==> ext == ToLower(selectedPath.value)
  {
    if selectedPath.None? then ""
    else
      var last := LastPiece(selectedPath.value, '.');
      assert '.' !in selectedPath.value ==> last == selectedPath.value by {
        if '.' !in selectedPath.value {
          LastPieceWhole(selectedPath.value, '.');
        }
      }
      var ext := ToLower(last);
      assert forall i :: 0 <= i < |ext| ==> ext[i] != '.' by {
        forall i | 0 <= i < |ext| ensures ext[i] != '.' {
          assert last[i] != '.';
        }
      }
      ext
  }

  const ImageExtensions := ["jpg", "jpeg", "png", "gif", "webp", "bmp", "avif"]
  const VideoExtensions := ["mp4", "webm", "mov", "m4v", "avi", "mkv"]
  const AudioExtensions := ["mp3", "wav", "ogg", "m4a", "flac", "aac"]

  /** The extensions the editor shows as an image, video or audio asset. */
  predicate IsAsset(ext: string) {
    ext in ImageExtensions || ext in VideoExtensions || ext in AudioExtensions
  }

  /** `assetMimeByExtension`. */
  const MimeByExtension: map<string, string> := map[
    "jpg" := "image/jpeg", "jpeg" := "image/jpeg", "png" := "image/png", "gif" := "image/gif",
    "webp" := "image/webp", "bmp" := "image/bmp", "avif" := "image/avif",
    "mp4" := "video/mp4", "webm" := "video/webm", "mov" := "video/quicktime", "m4v" := "video/x-m4v",
    "avi" := "video/x-msvideo", "mkv" := "video/x-matroska",
    "mp3" := "audio/mpeg", "wav" := "audio/wav", "ogg" := "audio/ogg", "m4a" := "audio/mp4",
    "flac" := "audio/flac", "aac" := "audio/aac"]

  /** `assetMimeByExtension[ext] || 'application/octet-stream'`: the table
      names a media type for exactly the asset extensions, and no media
      type holds a `;`. */
  function Mime(ext: string): (m: string)
    ensures m != OctetStream <==> IsAsset(ext)
    ensures ';' !in m
  {
    MimeKeys();
    MimeValues();
    if ext in MimeByExtension then MimeByExtension[ext] else OctetStream
  }

  /** The table's keys are the asset extensions. */
  lemma MimeKeys()
    ensures forall e :: e in MimeByExtension <==> IsAsset(e)
  {
  }

  /** None of the table's media types is the fallback or holds a `;`. */
  lemma MimeValues()
    ensures forall e :: e in MimeByExtension ==> MimeByExtension[e] != OctetStream && ';' !in MimeByExtension[e]
  {
  }

  /** `getAssetSrc`: bare base64 becomes a `data:` URL of the extension's
      media type; an empty value, a `data:` URL and anything else are shown
      as they are. */
  function AssetSrc(v: string, ext: string): (src: string)
    ensures src == "" <==> v == ""
    ensures LooksBase64(v) ==> src == DataScheme + Mime(ext) + Base64Marker + v
    ensures !LooksBase64(v) ==> src == v
  {
    if v == "" then ""
    else if StartsWith(v, DataScheme) then v
    else if LooksBase64(v) then DataScheme + Mime(ext) + Base64Marker + v
    else v
  }

  /** The source of a shown asset is shown as it is. */
  lemma AssetSrcIdempotent(v: string, ext: string)
    ensures AssetSrc(AssetSrc(v, ext), ext) == AssetSrc(v, ext)
  {
    if LooksBase64(v) {
      var src := AssetSrc(v, ext);
      assert src[..|DataScheme|] == DataScheme;
      assert StartsWith(src, DataScheme);
    }
  }

  /** `decodeSvg`: the markup of an SVG value. A `data:` URL with a base64
      marker is decoded from what follows the marker (the value itself if
      that is not base64); one without the marker is percent-decoded from
      after its first comma (an invalid escape throws, None); bare base64
      is decoded; anything else is markup already. */
  function DecodeSvg(v: string, atob: string -> Option<string>, decodeUri: string -> Option<string>): (r: Option<string>)
    ensures v == "" ==> r == Some("")
    ensures !StartsWith(v, DataScheme) ==> r == Some(if LooksBase64(v) then atob(v).GetOr(v) else v)
    ensures r.None? ==> StartsWith(v, DataScheme) && !Contains(v, Base64Marker) && Contains(v, ",")
  {
    if v == "" then Some("")
    else if StartsWith(v, DataScheme) then
      var base64Index := IndexOf(v, Base64Marker);
      if base64Index != -1 then
        Some(atob(v[base64Index + |Base64Marker|..]).GetOr(v))
      else
        var commaIndex := IndexOf(v, ",");
        if commaIndex != -1 then decodeUri(v[commaIndex + 1..]) else Some(v)
    else if LooksBase64(v) then Some(atob(v).GetOr(v))
    else Some(v)
  }

  /** The first occurrence of a marker that starts with a character the
      head lacks is right after the head. */
  lemma FirstAfterHead(head: string, m: string, tail: string)
    requires |m| > 0 && m[0] !in head
    ensures IndexOf(head + m + tail, m) == |head|
  {
    var s := head + m + tail;
    assert s[|head|..|head| + |m|] == m;
    assert OccursAt(s, m, |head|);
    forall j | 0 <= j < |head| ensures !OccursAt(s, m, j) {
      assert s[j..j + |m|][0] == head[j];
    }
  }

  /** Decoding the source the asset view builds gives back what decoding
      the stored value gives, as long as `atob` accepts the payload; when
      it does not, the `data:` URL itself comes back. */
  lemma DecodeAssetSrc(v: string, ext: string, atob: string -> Option<string>, decodeUri: string -> Option<string>)
    ensures LooksBase64(v) && atob(v).None? ==>
      DecodeSvg(AssetSrc(v, ext), atob, decodeUri) == Some(AssetSrc(v, ext))
    ensures !(LooksBase64(v) && atob(v).None?) ==>
      DecodeSvg(AssetSrc(v, ext), atob, decodeUri) == DecodeSvg(v, atob, decodeUri)
  {
    if LooksBase64(v) {
      var head := DataScheme + Mime(ext);
      assert ';' !in DataScheme;
      assert ';' !in head;
      var src := AssetSrc(v, ext);
      assert src == head + Base64Marker + v;
      FirstAfterHead(head, Base64Marker, v);
      AppendParts(DataScheme, Mime(ext));
      PrefixExtends(DataScheme, head, Base64Marker);
      PrefixExtends(DataScheme, head + Base64Marker, v);
      AppendParts(head + Base64Marker, v);
    }
  }
}
