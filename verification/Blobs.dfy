/**
 Large inline media leave a message for content-addressed files when it is persisted, and
 come back when it is read. base64 and SHA-256 are parameters.
 */
module Blobs {
  import opened Basics
  import opened Text

  type Bytes = seq<int>

  /**
   base64 decoding of arbitrary text, base64 encoding, the hexadecimal SHA-256 digest, and the
   byte strings that ever occur: there are more byte strings than digests, but those that occur are
   taken to have different ones.
   */
  datatype Codec = Codec(
    decode: string -> Option<Bytes>, encode: Bytes -> string, digest: Bytes -> string, occurs: Bytes -> bool)

  predicate IsHex(c: char) { '0' <= c <= '9' || 'a' <= c <= 'f' }

  predicate IsAlnum(c: char) { '0' <= c <= '9' || 'a' <= c <= 'z' }

  /** What is known of base64 and SHA-256. */
  ghost predicate Standard(c: Codec) {
    && (forall b :: c.decode(c.encode(b)) == Some(b))
    && (forall b :: |c.digest(b)| == 64 && forall i :: 0 <= i < 64 ==> IsHex(c.digest(b)[i]))
  }

  ghost predicate NoCollision(c: Codec) {
    forall a, b :: c.occurs(a) && c.occurs(b) && c.digest(a) == c.digest(b) ==> a == b
  }

  /**
   What is taken for granted: decoding undoes encoding and yields only bytes that occur, digests
   have 64 digits and do not collide among these. RestrictedIsLawful and RestrictedAgreesOnParts
   say why this is no loss.
   */
  ghost predicate Lawful(c: Codec) {
    && (forall b :: c.occurs(b) ==> c.decode(c.encode(b)) == Some(b))
    && (forall t :: c.decode(t).Some? ==> c.occurs(c.decode(t).value))
    && (forall b :: |c.digest(b)| == 64 && forall i :: 0 <= i < 64 ==> IsHex(c.digest(b)[i]))
    && NoCollision(c)
  }

  /** The blobs directory: file names to contents. */
  type Dir = map<string, Bytes>

  /** A content part; the media fields hold the url of the payload. */
  datatype Part = Part(text: Option<string>, think: Option<string>,
                       image: Option<string>, audio: Option<string>, video: Option<string>)

  const BLOBREF_SCHEME := "blobref:"
  const EXTERNALIZE_MIN_URL_LEN := 1024
  const DEFAULT_MIME := "application/octet-stream"
  const MISSING: Part := Part(Some("[media unavailable: blob file missing]"), None, None, None, None)

  function ExtByMime(mime: string): string {
    match mime
    case "image/png" => "png"
    case "image/jpeg" => "jpg"
    case "image/gif" => "gif"
    case "image/webp" => "webp"
    case "image/bmp" => "bmp"
    case "image/svg+xml" => "svg"
    case "audio/aac" => "aac"
    case "audio/mpeg" => "mp3"
    case "audio/wav" => "wav"
    case "audio/ogg" => "ogg"
    case "video/mp4" => "mp4"
    case "video/webm" => "webm"
    case "video/quicktime" => "mov"
    case _ => "bin"
  }

  function MimeByExt(ext: string): string {
    match ext
    case "png" => "image/png"
    case "jpg" => "image/jpeg"
    case "gif" => "image/gif"
    case "webp" => "image/webp"
    case "bmp" => "image/bmp"
    case "svg" => "image/svg+xml"
    case "aac" => "audio/aac"
    case "mp3" => "audio/mpeg"
    case "wav" => "audio/wav"
    case "ogg" => "audio/ogg"
    case "mp4" => "video/mp4"
    case "webm" => "video/webm"
    case "mov" => "video/quicktime"
    case _ => DEFAULT_MIME
  }

  // ----- one url -----

  lemma SchemeHasNoComma(url: string)
    requires StartsWith(url, "data:")
    ensures 5 <= Find(url, ',')
  {
    hide Find;
    var scheme := "data:";
    assert forall j :: 0 <= j < 5 ==> url[j] == url[..5][j] == scheme[j];
  }

  /** A data url taken apart: the media type it declares, normalised, and its payload. */
  datatype DataUrl = DataUrl(mime: string, payload: string)

  function ParseDataUrl(url: string): Option<DataUrl> {
    if |url| < EXTERNALIZE_MIN_URL_LEN || !StartsWith(url, "data:") then None
    else
      var comma := Find(url, ',');
      SchemeHasNoComma(url);
      if comma == |url| then None
      else
        var mime := DeclaredMime(url[5..comma]);
        if mime.None? then None else Some(DataUrl(mime.value, url[comma + 1..]))
  }

  /** The media type that the header of a data url declares, without its parameters and normalised. */
  function DeclaredMime(spec: string): Option<string> {
    if !EndsWith(Lower(spec), ";base64") then None
    else
      var declared := spec[..|spec| - 7];
      Some(Lower(Strip(declared[..Find(declared, ';')])))
  }

  function BlobName(digest: string, ext: string): string {
    digest + ['.'] + ext
  }

  /** Writes the blob unless a file of that name is already there. */
  function WriteBlob(dir: Dir, name: string, raw: Bytes): Dir {
    if name in dir then dir else dir[name := raw]
  }

  /** The bytes that _externalize_url moves out of the url, if it does. */
  function Payload(c: Codec, url: string): Option<Bytes> {
    var parsed := ParseDataUrl(url);
    if parsed.None? then None else c.decode(parsed.value.payload)
  }

  function ExternalizeUrl(c: Codec, dir: Dir, url: string): (string, Dir) {
    var raw := Payload(c, url);
    if raw.None? then (url, dir)
    else
      var name := BlobName(c.digest(raw.value), ExtByMime(ParseDataUrl(url).value.mime));
      (BLOBREF_SCHEME + name, WriteBlob(dir, name, raw.value))
  }

  /** The header of a rebuilt data url. */
  function Header(mime: string): string { "data:" + mime + ";base64" }

  predicate ValidName(name: string) {
    && 66 <= |name| <= 73 && name[64] == '.'
    && (forall i :: 0 <= i < 64 ==> IsHex(name[i]))
    && (forall i :: 65 <= i < |name| ==> IsAlnum(name[i]))
  }

  /** The data url for a blob, or None when the reference is malformed or the file is missing. */
  function RehydrateUrl(c: Codec, dir: Dir, url: string): Option<string>
    requires StartsWith(url, BLOBREF_SCHEME)
  {
    var name := url[|BLOBREF_SCHEME|..];
    if !ValidName(name) || name !in dir then None
    else Some(Header(MimeByExt(name[65..])) + [','] + c.encode(dir[name]))
  }

  // ----- one part -----

  function ExternalizeOption(c: Codec, dir: Dir, url: Option<string>): (Option<string>, Dir) {
    if url.None? then (None, dir)
    else var (u, d) := ExternalizeUrl(c, dir, url.value); (Some(u), d)
  }

  function ExternalizePart(c: Codec, dir: Dir, p: Part): (Part, Dir) {
    var (image, d1) := ExternalizeOption(c, dir, p.image);
    var (audio, d2) := ExternalizeOption(c, d1, p.audio);
    var (video, d3) := ExternalizeOption(c, d2, p.video);
    (p.(image := image, audio := audio, video := video), d3)
  }

  function RehydrateField(c: Codec, dir: Dir, url: string): Option<string> {
    if StartsWith(url, BLOBREF_SCHEME) then RehydrateUrl(c, dir, url) else Some(url)
  }

  /** Only the first media field is looked at. */
  function RehydratePart(c: Codec, dir: Dir, p: Part): Part {
    if p.image.Some? then
      var u := RehydrateField(c, dir, p.image.value);
      if u.None? then MISSING else p.(image := u)
    else if p.audio.Some? then
      var u := RehydrateField(c, dir, p.audio.value);
      if u.None? then MISSING else p.(audio := u)
    else if p.video.Some? then
      var u := RehydrateField(c, dir, p.video.value);
      if u.None? then MISSING else p.(video := u)
    else p
  }

  // ----- a message -----

  function ExternalizeParts(c: Codec, dir: Dir, ps: seq<Part>): (r: (seq<Part>, Dir))
    ensures |r.0| == |ps|
  {
    if ps == [] then ([], dir)
    else
      var (init, d1) := ExternalizeParts(c, dir, ps[..|ps| - 1]);
      var (last, d2) := ExternalizePart(c, d1, ps[|ps| - 1]);
      (init + [last], d2)
  }

  function RehydrateParts(c: Codec, dir: Dir, ps: seq<Part>): (r: seq<Part>)
    ensures |r| == |ps| && forall i :: 0 <= i < |ps| ==> r[i] == RehydratePart(c, dir, ps[i])
  {
    seq(|ps|, i requires 0 <= i < |ps| => RehydratePart(c, dir, ps[i]))
  }

  // ----- exactly what survives -----

  /** Every file holds the bytes that its name is the digest of. */
  ghost predicate Addressed(c: Codec, dir: Dir) {
    forall name :: name in dir ==> |name| >= 64 && name[..64] == c.digest(dir[name]) && c.occurs(dir[name])
  }

  predicate Known(mime: string) {
    MimeByExt(ExtByMime(mime)) == mime
  }

  /**
   A url comes back unchanged if it is not moved out and no reference itself; a url that is moved
   out must be "data:", a known media type, ";base64," and canonical base64.
   */
  ghost predicate UrlSurvives(c: Codec, url: string) {
    if Payload(c, url).None? then !StartsWith(url, BLOBREF_SCHEME)
    else
      && Known(ParseDataUrl(url).value.mime)
      && url[..Find(url, ',')] == Header(ParseDataUrl(url).value.mime)
      && c.encode(Payload(c, url).value) == ParseDataUrl(url).value.payload
  }

  lemma ExtPlain(mime: string)
    ensures 1 <= |ExtByMime(mime)| <= 8 && forall i :: 0 <= i < |ExtByMime(mime)| ==> IsAlnum(ExtByMime(mime)[i])
  {
  }

  /** A character of a media type in the table: a small letter, a digit, or one of + - / . */
  predicate Plain(ch: char) {
    'a' <= ch <= 'z' || ('+' <= ch <= '9' && ch != ',')
  }

  predicate AllPlain(s: string) {
    forall i :: 0 <= i < |s| ==> Plain(s[i])
  }

  lemma MimesPlain()
    ensures AllPlain("image/png") && AllPlain("image/jpeg") && AllPlain("image/gif") && AllPlain("image/webp")
    ensures AllPlain("image/bmp") && AllPlain("image/svg+xml") && AllPlain("audio/aac") && AllPlain("audio/mpeg")
  {
  }

  lemma MoreMimesPlain()
    ensures AllPlain("audio/wav") && AllPlain("audio/ogg") && AllPlain("video/mp4") && AllPlain("video/webm")
    ensures AllPlain("video/quicktime") && AllPlain(DEFAULT_MIME)
  {
  }

  lemma MimePlain(ext: string)
    ensures AllPlain(MimeByExt(ext)) && MimeByExt(ext) != []
  {
    MimesPlain();
    MoreMimesPlain();
  }

  lemma {:induction false} FindAbsent(s: string, ch: char)
    requires forall i :: 0 <= i < |s| ==> s[i] != ch
    ensures Find(s, ch) == |s|
  {
    if s == [] {
    } else {
      assert forall i :: 0 <= i < |s[1..]| ==> s[1..][i] == s[i + 1];
      FindAbsent(s[1..], ch);
    }
  }

  lemma {:induction false} FindAfter(s: string, ch: char, rest: string)
    requires forall i :: 0 <= i < |s| ==> s[i] != ch
    ensures Find(s + [ch] + rest, ch) == |s|
  {
    if s == [] {
    } else {
      assert forall i :: 0 <= i < |s[1..]| ==> s[1..][i] == s[i + 1];
      FindAfter(s[1..], ch, rest);
      assert (s + [ch] + rest)[1..] == s[1..] + [ch] + rest;
    }
  }

  lemma {:induction false} LowerPlain(m: string)
    requires AllPlain(m)
    ensures Lower(m) == m
  {
    if m == [] {
    } else {
      assert Plain(m[0]) && forall i :: 0 <= i < |m[1..]| ==> m[1..][i] == m[i + 1];
      LowerPlain(m[1..]);
    }
  }

  /** Normalising a media type of the table changes nothing. */
  lemma PlainNormalises(m: string)
    requires AllPlain(m)
    ensures Lower(Strip(m[..Find(m, ';')])) == m
  {
    FindAbsent(m, ';');
    assert m[..|m|] == m;
    if m != [] { assert Plain(m[0]) && Plain(m[|m| - 1]); }
    StripKeeps(m);
    LowerPlain(m);
  }

  /** The name of a blob is well formed, and its extension and digest can be read off it. */
  lemma NameReads(digest: string, ext: string)
    requires |digest| == 64 && (forall i :: 0 <= i < 64 ==> IsHex(digest[i]))
    requires 1 <= |ext| <= 8 && forall i :: 0 <= i < |ext| ==> IsAlnum(ext[i])
    ensures var name := BlobName(digest, ext); ValidName(name) && name[..64] == digest && name[65..] == ext
  {
  }

  /** A blob just written holds the bytes that were moved out: digests do not collide. */
  lemma WriteBlobHolds(c: Codec, dir: Dir, ext: string, raw: Bytes)
    requires Lawful(c) && Addressed(c, dir) && c.occurs(raw)
    ensures var name := BlobName(c.digest(raw), ext);
            && Addressed(c, WriteBlob(dir, name, raw))
            && name in WriteBlob(dir, name, raw) && WriteBlob(dir, name, raw)[name] == raw
  {
    var name := BlobName(c.digest(raw), ext);
    assert name[..64] == c.digest(raw);
  }

  /** A reference just written is found again. */
  lemma ReferenceResolves(c: Codec, dir: Dir, url: string)
    requires Lawful(c) && Addressed(c, dir) && Payload(c, url).Some?
    ensures var (u, d) := ExternalizeUrl(c, dir, url);
            && Addressed(c, d)
            && RehydrateField(c, d, u) == Some(Header(MimeByExt(ExtByMime(ParseDataUrl(url).value.mime)))
                                               + [','] + c.encode(Payload(c, url).value))
  {
    ExtPlain(ParseDataUrl(url).value.mime);
    ReferenceResolvesAs(c, dir, ExtByMime(ParseDataUrl(url).value.mime), Payload(c, url).value);
  }

  lemma ReferenceResolvesAs(c: Codec, dir: Dir, ext: string, raw: Bytes)
    requires Lawful(c) && Addressed(c, dir) && c.occurs(raw)
    requires 1 <= |ext| <= 8 && forall i :: 0 <= i < |ext| ==> IsAlnum(ext[i])
    ensures var name := BlobName(c.digest(raw), ext);
            && Addressed(c, WriteBlob(dir, name, raw))
            && RehydrateField(c, WriteBlob(dir, name, raw), BLOBREF_SCHEME + name)
               == Some(Header(MimeByExt(ext)) + [','] + c.encode(raw))
  {
    var name := BlobName(c.digest(raw), ext);
    var u := BLOBREF_SCHEME + name;
    NameReads(c.digest(raw), ext);
    WriteBlobHolds(c, dir, ext, raw);
    assert StartsWith(u, BLOBREF_SCHEME) && u[|BLOBREF_SCHEME|..] == name;
  }

  lemma HeaderHasNoComma(mime: string)
    requires AllPlain(mime)
    ensures forall j :: 0 <= j < |Header(mime)| ==> Header(mime)[j] != ','
  {
    forall j | 5 <= j < 5 + |mime| ensures Header(mime)[j] != ',' {
      assert Header(mime)[j] == mime[j - 5] && Plain(mime[j - 5]);
    }
  }

  /** Two urls are equal exactly when they agree up to and after the first comma. */
  lemma SplitAtComma(url: string, comma: nat, head: string, rest: string)
    requires comma < |url| && url[comma] == ',' && forall j :: 0 <= j < comma ==> url[j] != ','
    requires forall j :: 0 <= j < |head| ==> head[j] != ','
    ensures head + [','] + rest == url <==> url[..comma] == head && rest == url[comma + 1..]
  {
    var rebuilt := head + [','] + rest;
    assert url == url[..comma] + [','] + url[comma + 1..];
    assert rebuilt[..|head|] == head && rebuilt[|head| + 1..] == rest && rebuilt[|head|] == ',';
    assert forall j :: 0 <= j < |head| ==> rebuilt[j] == head[j];
  }

  lemma ParsedAt(url: string)
    requires ParseDataUrl(url).Some?
    ensures
      var comma, parsed := Find(url, ','), ParseDataUrl(url).value;
      5 <= comma < |url| && parsed.payload == url[comma + 1..] && DeclaredMime(url[5..comma]) == Some(parsed.mime)
  {
    hide DeclaredMime, Find, StartsWith;
    SchemeHasNoComma(url);
  }

  /** A header with a media type of the table declares that very type. */
  lemma HeaderDeclares(url: string, mime: string)
    requires ParseDataUrl(url).Some? && AllPlain(mime) && url[..Find(url, ',')] == Header(mime)
    ensures ParseDataUrl(url).value.mime == mime
  {
    hide ParseDataUrl, AllPlain, DeclaredMime;
    ParsedAt(url);
    assert url[5..Find(url, ',')] == Header(mime)[5..] == mime + ";base64";
    DeclaresItself(mime);
  }

  lemma DeclaresItself(mime: string)
    requires AllPlain(mime) && DeclaredMime(mime + ";base64").Some?
    ensures DeclaredMime(mime + ";base64") == Some(mime)
  {
    hide AllPlain, Strip;
    var spec := mime + ";base64";
    assert spec[..|spec| - 7] == mime;
    PlainNormalises(mime);
  }

  lemma MovedRoundTripAs(url: string, back: string, encoded: string)
    requires ParseDataUrl(url).Some? && AllPlain(back)
    ensures Header(back) + [','] + encoded == url <==>
              && back == ParseDataUrl(url).value.mime && url[..Find(url, ',')] == Header(back)
              && encoded == ParseDataUrl(url).value.payload
  {
    hide ParseDataUrl, Header, AllPlain;
    ParsedAt(url);
    HeaderHasNoComma(back);
    SplitAtComma(url, Find(url, ','), Header(back), encoded);
    if url[..Find(url, ',')] == Header(back) { HeaderDeclares(url, back); }
  }

  lemma MovedRoundTrip(url: string, encoded: string)
    requires ParseDataUrl(url).Some?
    ensures var DataUrl(mime, payload) := ParseDataUrl(url).value;
            Header(MimeByExt(ExtByMime(mime))) + [','] + encoded == url <==>
              Known(mime) && url[..Find(url, ',')] == Header(mime) && encoded == payload
  {
    var back := MimeByExt(ExtByMime(ParseDataUrl(url).value.mime));
    MimePlain(ExtByMime(ParseDataUrl(url).value.mime));
    MovedRoundTripAs(url, back, encoded);
  }

  /** A url comes back from the file exactly as it went in if and only if it is one of those. */
  lemma UrlRoundTripIff(c: Codec, dir: Dir, url: string)
    requires Lawful(c) && Addressed(c, dir)
    ensures var (u, d) := ExternalizeUrl(c, dir, url);
            RehydrateField(c, d, u) == Some(url) <==> UrlSurvives(c, url)
  {
    if Payload(c, url).None? {
      InlineRoundTrip(c, dir, url);
    } else {
      ReferenceResolves(c, dir, url);
      MovedRoundTrip(url, c.encode(Payload(c, url).value));
    }
  }

  /** An inline url is kept, unless it is a reference itself: that never comes back as it was. */
  lemma InlineRoundTrip(c: Codec, dir: Dir, url: string)
    ensures RehydrateField(c, dir, url) == Some(url) <==> !StartsWith(url, BLOBREF_SCHEME)
  {
    if StartsWith(url, BLOBREF_SCHEME) {
      assert url[0] == BLOBREF_SCHEME[0];
    }
  }

  // ----- what is taken for granted -----

  /** The codec whose decoding answers only for bytes that occur. */
  function Restricted(c: Codec): Codec {
    c.(decode := t => if c.decode(t).Some? && c.occurs(c.decode(t).value) then c.decode(t) else None)
  }

  /** base64 and a digest without collisions among the bytes that occur are lawful when restricted to these. */
  lemma RestrictedIsLawful(c: Codec)
    requires Standard(c) && NoCollision(c)
    ensures Lawful(Restricted(c))
  {
  }

  ghost predicate Occurs(c: Codec, url: Option<string>) {
    url.Some? && Payload(c, url.value).Some? ==> c.occurs(Payload(c, url.value).value)
  }

  /** And on messages whose payloads occur the restriction makes no difference, in either direction. */
  lemma RestrictedAgrees(c: Codec, dir: Dir, url: Option<string>)
    requires Occurs(c, url)
    ensures ExternalizeOption(Restricted(c), dir, url) == ExternalizeOption(c, dir, url)
    ensures url.Some? ==> RehydrateField(Restricted(c), dir, url.value) == RehydrateField(c, dir, url.value)
  {
  }

  lemma {:induction false} RestrictedAgreesOnParts(c: Codec, dir: Dir, ps: seq<Part>)
    requires forall p <- ps :: Occurs(c, p.image) && Occurs(c, p.audio) && Occurs(c, p.video)
    ensures ExternalizeParts(Restricted(c), dir, ps) == ExternalizeParts(c, dir, ps)
    ensures RehydrateParts(Restricted(c), dir, ps) == RehydrateParts(c, dir, ps)
  {
    hide Payload, RehydrateUrl, Occurs;
    if ps != [] {
      var most, p := ps[..|ps| - 1], ps[|ps| - 1];
      RestrictedAgreesOnParts(c, dir, most);
      var d0 := ExternalizeParts(c, dir, most).1;
      RestrictedAgrees(c, d0, p.image);
      var d1 := ExternalizeOption(c, d0, p.image).1;
      RestrictedAgrees(c, d1, p.audio);
      RestrictedAgrees(c, ExternalizeOption(c, d1, p.audio).1, p.video);
    }
    forall i | 0 <= i < |ps| ensures RehydratePart(Restricted(c), dir, ps[i]) == RehydratePart(c, dir, ps[i]) {
      RehydratesAlike(c, dir, ps[i]);
    }
  }

  lemma RehydratesAlike(c: Codec, dir: Dir, p: Part)
    ensures RehydratePart(Restricted(c), dir, p) == RehydratePart(c, dir, p)
  {
  }

  /** There are such codecs, and urls that are moved out and come back. */
  lemma LawfulExists() returns (c: Codec, url: string)
    ensures Lawful(c) && Payload(c, url).Some? && UrlSurvives(c, url)
  {
    hide MimeByExt, ExtByMime, ParseDataUrl;
    var zeros, body := seq(64, _ => '0'), seq(1024, _ => 'A');
    c := Codec(t => if t == body then Some([]) else None, b => body, b => zeros, b => b == []);
    url := CanonicalUrl("image/png", body);
    KnownIff("image/png");
    CanonicalParses("image/png", body);
  }

  /** The url for a payload in base64. */
  function CanonicalUrl(mime: string, body: string): string { "data:" + mime + ";base64," + body }

  /** The media types that have an extension of their own, and the one that blobs without such a type get. */
  lemma KnownIff(mime: string)
    ensures Known(mime) <==>
      mime in {"image/png", "image/jpeg", "image/gif", "image/webp", "image/bmp", "image/svg+xml", "audio/aac", "audio/mpeg",
               "audio/wav", "audio/ogg", "video/mp4", "video/webm", "video/quicktime", "application/octet-stream"}
    ensures Known(mime) ==> AllPlain(mime)
  {
    MimePlain(ExtByMime(mime));
  }

  lemma CanonicalParses(mime: string, body: string)
    requires AllPlain(mime) && |CanonicalUrl(mime, body)| >= 1024
    ensures ParseDataUrl(CanonicalUrl(mime, body)) == Some(DataUrl(mime, body))
    ensures CanonicalUrl(mime, body)[..Find(CanonicalUrl(mime, body), ',')] == Header(mime)
  {
    hide DeclaredMime, Find, AllPlain;
    var header, url := Header(mime), CanonicalUrl(mime, body);
    assert url == header + [','] + body;
    HeaderHasNoComma(mime);
    FindAfter(header, ',', body);
    assert url[..|header|] == header && url[|header| + 1..] == body;
    assert url[..5] == header[..5] == "data:";
    assert url[5..|header|] == header[5..] == mime + ";base64";
    Declares(mime);
  }

  lemma Declares(mime: string)
    requires AllPlain(mime)
    ensures DeclaredMime(mime + ";base64") == Some(mime)
  {
    hide AllPlain, Strip, Find, Lower, EndsWith;
    MarkerIsLower();
    LowerKeepsEnd(mime, ";base64");
    DeclaresItself(mime);
  }

  /** Media of a known type in canonical base64 survive; of another type, once they are long enough to be moved out, they do not. */
  lemma CanonicalSurvivesIff(c: Codec, mime: string, raw: Bytes)
    requires AllPlain(mime) && c.decode(c.encode(raw)) == Some(raw)
    ensures
      var url := CanonicalUrl(mime, c.encode(raw));
      && Payload(c, url) == (if |url| < 1024 then None else Some(raw))
      && (UrlSurvives(c, url) <==> |url| < 1024 || Known(mime))
  {
    hide AllPlain, Known, Find, Header;
    var url := CanonicalUrl(mime, c.encode(raw));
    assert url[0] == 'd' && BLOBREF_SCHEME[0] == 'b';
    if |url| >= 1024 { CanonicalParses(mime, c.encode(raw)); }
  }

  lemma MarkerIsLower()
    ensures forall i :: 0 <= i < 7 ==> LowerChar(";base64"[i]) == ";base64"[i]
  {
  }

  lemma LowerKeepsEnd(s: string, end: string)
    requires forall i :: 0 <= i < |end| ==> LowerChar(end[i]) == end[i]
    ensures EndsWith(Lower(s + end), end)
  {
    hide Lower, LowerChar;
    var low := Lower(s + end);
    forall i | 0 <= i < |end| ensures low[|s|..][i] == end[i] {
      assert (s + end)[|s| + i] == end[i];
    }
  }

  // ----- later directories, parts and messages -----

  /** Files are only ever added to the directory. */
  ghost predicate Extends(dir: Dir, later: Dir) {
    forall name :: name in dir ==> name in later && later[name] == dir[name]
  }

  lemma ExternalizeExtends(c: Codec, dir: Dir, url: Option<string>)
    requires Lawful(c) && Addressed(c, dir)
    ensures Extends(dir, ExternalizeOption(c, dir, url).1) && Addressed(c, ExternalizeOption(c, dir, url).1)
  {
    hide Lawful, Addressed, Payload, ParseDataUrl, ExtByMime, MimeByExt, RehydrateField, RehydrateUrl, BlobName;
    if url.Some? && Payload(c, url.value).Some? {
      ReferenceResolves(c, dir, url.value);
    }
  }

  lemma UrlRoundTripLater(c: Codec, dir: Dir, url: string, later: Dir)
    requires Lawful(c) && Addressed(c, dir) && Extends(ExternalizeUrl(c, dir, url).1, later)
    ensures RehydrateField(c, later, ExternalizeUrl(c, dir, url).0) == Some(url) <==> UrlSurvives(c, url)
  {
    var (u, d) := ExternalizeUrl(c, dir, url);
    if Payload(c, url).None? {
      InlineRoundTrip(c, later, url);
    } else {
      UrlRoundTripIff(c, dir, url);
      ReferenceResolves(c, dir, url);
      SameReference(c, d, later, u);
    }
  }

  lemma SameReference(c: Codec, dir: Dir, later: Dir, u: string)
    requires Extends(dir, later) && RehydrateField(c, dir, u).Some?
    ensures RehydrateField(c, later, u) == RehydrateField(c, dir, u)
  {
  }

  /** The first media field must survive; the later ones must not be moved out, for nobody brings them back. */
  ghost predicate PartSurvives(c: Codec, p: Part) {
    if p.image.Some? then UrlSurvives(c, p.image.value) && Stays(c, p.audio) && Stays(c, p.video)
    else if p.audio.Some? then UrlSurvives(c, p.audio.value) && Stays(c, p.video)
    else p.video.Some? ==> UrlSurvives(c, p.video.value)
  }

  predicate Stays(c: Codec, url: Option<string>) {
    url.None? || Payload(c, url.value).None?
  }

  lemma ParsedStarts(url: string)
    requires StartsWith(url, "data:")
    ensures url != [] && url[0] == 'd'
  {
    assert url[..|"data:"|][0] == url[0];
  }

  lemma ReferenceStarts(name: string)
    ensures BLOBREF_SCHEME + name != [] && (BLOBREF_SCHEME + name)[0] == 'b'
  {
  }

  /** A url that is moved out becomes a reference, which is never the url itself. */
  lemma StaysIff(c: Codec, dir: Dir, url: Option<string>)
    ensures ExternalizeOption(c, dir, url).0 == url <==> Stays(c, url)
  {
    if url.Some? {
      if Payload(c, url.value).Some? {
        ParsedStarts(url.value);
        ReferenceStarts(BlobName(c.digest(Payload(c, url.value).value), ExtByMime(ParseDataUrl(url.value).value.mime)));
      }
    }
  }

  /** Whether a part comes back is decided field by field. */
  lemma PartEquality(c: Codec, dir: Dir, p: Part, q: Part)
    requires q == p.(image := q.image, audio := q.audio, video := q.video)
    requires (q.image.Some? <==> p.image.Some?) && (q.audio.Some? <==> p.audio.Some?) && (q.video.Some? <==> p.video.Some?)
    ensures RehydratePart(c, dir, q) == p <==>
              if p.image.Some? then
                RehydrateField(c, dir, q.image.value) == Some(p.image.value) && q.audio == p.audio && q.video == p.video
              else if p.audio.Some? then
                RehydrateField(c, dir, q.audio.value) == Some(p.audio.value) && q.video == p.video
              else p.video.Some? ==> RehydrateField(c, dir, q.video.value) == Some(p.video.value)
  {
  }

  /** A content part survives being written and read back exactly under that condition. */
  lemma PartRoundTripIff(c: Codec, dir: Dir, p: Part, later: Dir)
    requires Lawful(c) && Addressed(c, dir) && Extends(ExternalizePart(c, dir, p).1, later)
    ensures RehydratePart(c, later, ExternalizePart(c, dir, p).0) == p <==> PartSurvives(c, p)
  {
    var (image, d1) := ExternalizeOption(c, dir, p.image);
    ExternalizeExtends(c, dir, p.image);
    var (audio, d2) := ExternalizeOption(c, d1, p.audio);
    ExternalizeExtends(c, d1, p.audio);
    var (video, d3) := ExternalizeOption(c, d2, p.video);
    ExternalizeExtends(c, d2, p.video);
    PartEquality(c, later, p, p.(image := image, audio := audio, video := video));
    OptionRoundTrip(c, dir, p.image, later);
    OptionRoundTrip(c, d1, p.audio, later);
    OptionRoundTrip(c, d2, p.video, later);
  }

  lemma OptionRoundTrip(c: Codec, dir: Dir, url: Option<string>, later: Dir)
    requires Lawful(c) && Addressed(c, dir) && Extends(ExternalizeOption(c, dir, url).1, later)
    ensures ExternalizeOption(c, dir, url).0.Some? <==> url.Some?
    ensures url.Some? ==>
              (RehydrateField(c, later, ExternalizeOption(c, dir, url).0.value) == Some(url.value) <==> UrlSurvives(c, url.value))
    ensures ExternalizeOption(c, dir, url).0 == url <==> Stays(c, url)
  {
    StaysIff(c, dir, url);
    if url.Some? { UrlRoundTripLater(c, dir, url.value, later); }
  }

  lemma ExternalizePartExtends(c: Codec, dir: Dir, p: Part)
    requires Lawful(c) && Addressed(c, dir)
    ensures Extends(dir, ExternalizePart(c, dir, p).1) && Addressed(c, ExternalizePart(c, dir, p).1)
  {
    ExternalizeExtends(c, dir, p.image);
    var d1 := ExternalizeOption(c, dir, p.image).1;
    ExternalizeExtends(c, d1, p.audio);
    ExternalizeExtends(c, ExternalizeOption(c, d1, p.audio).1, p.video);
  }

  lemma {:induction false} ExternalizePartsExtends(c: Codec, dir: Dir, ps: seq<Part>)
    requires Lawful(c) && Addressed(c, dir)
    ensures Extends(dir, ExternalizeParts(c, dir, ps).1) && Addressed(c, ExternalizeParts(c, dir, ps).1)
  {
    if ps == [] {
    } else {
      ExternalizePartsExtends(c, dir, ps[..|ps| - 1]);
      ExternalizePartExtends(c, ExternalizeParts(c, dir, ps[..|ps| - 1]).1, ps[|ps| - 1]);
    }
  }

  /** A message survives persistence if and only if each of its parts does, however the directory grows later. */
  lemma {:induction false} PartsRoundTripIff(c: Codec, dir: Dir, ps: seq<Part>, later: Dir)
    requires Lawful(c) && Addressed(c, dir) && Extends(ExternalizeParts(c, dir, ps).1, later)
    ensures RehydrateParts(c, later, ExternalizeParts(c, dir, ps).0) == ps <==> forall p <- ps :: PartSurvives(c, p)
  {
    hide Lawful, Addressed, PartSurvives, RehydratePart, ExternalizePart;
    if ps == [] {
    } else {
      var init, last := ps[..|ps| - 1], ps[|ps| - 1];
      assert ps == init + [last];
      var (before, d1) := ExternalizeParts(c, dir, init);
      ExternalizePartsExtends(c, dir, init);
      ExternalizePartExtends(c, d1, last);
      PartsRoundTripIff(c, dir, init, later);
      PartRoundTripIff(c, d1, last, later);
      var q := ExternalizePart(c, d1, last).0;
      RehydrateAppend(c, later, before, q);
      assert RehydrateParts(c, later, before) + [RehydratePart(c, later, q)] == init + [last] <==>
             RehydrateParts(c, later, before) == init && RehydratePart(c, later, q) == last by {
        SnocInjective(RehydrateParts(c, later, before), RehydratePart(c, later, q), init, last);
      }
    }
  }

  lemma RehydrateAppend(c: Codec, dir: Dir, ps: seq<Part>, p: Part)
    ensures RehydrateParts(c, dir, ps + [p]) == RehydrateParts(c, dir, ps) + [RehydratePart(c, dir, p)]
  {
  }

  lemma SnocInjective<T>(a: seq<T>, x: T, b: seq<T>, y: T)
    ensures a + [x] == b + [y] <==> a == b && x == y
  {
    if a + [x] == b + [y] {
      assert a == (a + [x])[..|a + [x]| - 1] && x == (a + [x])[|a + [x]| - 1];
    }
  }

  /** The blobs directory next to a context file; message contents are changed in place. */
  class BlobStore {
    var dir: Dir

    constructor ()
      ensures dir == map[]
    {
      dir := map[];
    }

    method ExternalizeField(c: Codec, url: Option<string>) returns (u: Option<string>)
      modifies this
      ensures (u, dir) == ExternalizeOption(c, old(dir), url)
    {
      if url.None? {
        return None;
      }
      var raw := Payload(c, url.value);
      if raw.None? {
        return url;
      }
      var name := BlobName(c.digest(raw.value), ExtByMime(ParseDataUrl(url.value).value.mime));
      if name !in dir {
        dir := dir[name := raw.value];
      }
      return Some(BLOBREF_SCHEME + name);
    }

    method Externalize(c: Codec, content: array<Part>)
      modifies this, content
      ensures (content[..], dir) == ExternalizeParts(c, old(dir), old(content[..]))
    {
      for i := 0 to content.Length
        invariant (content[..i], dir) == ExternalizeParts(c, old(dir), old(content[..])[..i])
        invariant content[i..] == old(content[..])[i..]
      {
        var part := content[i];
        assert part == old(content[..])[i] && old(content[..])[..i + 1][..i] == old(content[..])[..i];
        var image := ExternalizeField(c, part.image);
        var audio := ExternalizeField(c, part.audio);
        var video := ExternalizeField(c, part.video);
        content[i] := part.(image := image, audio := audio, video := video);
        assert content[..i + 1] == content[..i] + [content[i]];
      }
      assert content[..content.Length] == content[..] && old(content[..])[..content.Length] == old(content[..]);
    }

    method Rehydrate(c: Codec, content: array<Part>)
      modifies content
      ensures content[..] == RehydrateParts(c, dir, old(content[..]))
    {
      for i := 0 to content.Length
        invariant forall k :: 0 <= k < i ==> content[k] == RehydratePart(c, dir, old(content[k]))
        invariant forall k :: i <= k < content.Length ==> content[k] == old(content[k])
      {
        content[i] := RehydratePart(c, dir, content[i]);
      }
    }
  }

  /** A reference that is malformed or whose file is missing reads as a text in place of the whole part. */
  lemma MissingReads(c: Codec, dir: Dir, p: Part, name: string)
    requires p.image == Some("blobref:" + name)
      || (p.image.None? && p.audio == Some("blobref:" + name))
      || (p.image.None? && p.audio.None? && p.video == Some("blobref:" + name))
    requires !ValidName(name) || name !in dir
    ensures RehydratePart(c, dir, p) == Part(Some("[media unavailable: blob file missing]"), None, None, None, None)
  {
    hide ValidName, Header, MimeByExt;
    var url := "blobref:" + name;
    assert url[..|BLOBREF_SCHEME|] == BLOBREF_SCHEME && url[|BLOBREF_SCHEME|..] == name;
  }

  // ----- what a url declares -----

  /** The type declared in front of any parameters, and the mark of base64, in letters of either case. */
  lemma UrlDeclares(declared: string, parameters: string, mark: string, body: string)
    requires ';' !in declared && ',' !in declared && ',' !in parameters && ',' !in mark
    requires parameters == "" || parameters[0] == ';'
    requires Lower(mark) == ";base64"
    requires |"data:" + declared + parameters + mark + "," + body| >= 1024
    ensures ParseDataUrl("data:" + declared + parameters + mark + "," + body) == Some(DataUrl(Lower(Strip(declared)), body))
  {
    hide Find, DeclaredMime, Lower, Strip;
    var spec := declared + parameters + mark;
    var header, url := "data:" + spec, "data:" + declared + parameters + mark + "," + body;
    assert url == header + [','] + body;
    HeaderWithoutComma(spec, declared, parameters, mark);
    FindAfter(header, ',', body);
    assert url[..5] == "data:" && url[5..|header|] == spec && url[|header| + 1..] == body;
    SpecDeclares(declared, parameters, mark);
  }

  lemma HeaderWithoutComma(spec: string, a: string, b: string, c: string)
    requires spec == a + b + c && ',' !in a && ',' !in b && ',' !in c
    ensures forall i :: 0 <= i < |"data:" + spec| ==> ("data:" + spec)[i] != ','
  {
    assert ',' !in spec;
    var header := "data:" + spec;
    forall i | 0 <= i < |header| ensures header[i] != ',' {
      if i < 5 { assert header[i] == "data:"[i]; } else { assert header[i] == spec[i - 5]; }
    }
  }

  lemma SpecDeclares(declared: string, parameters: string, mark: string)
    requires ';' !in declared && (parameters == "" || parameters[0] == ';') && Lower(mark) == ";base64"
    ensures DeclaredMime(declared + parameters + mark) == Some(Lower(Strip(declared)))
  {
    hide Find, Lower, Strip, LowerChar;
    var front := declared + parameters;
    var spec := front + mark;
    var low := Lower(spec);
    assert |mark| == 7;
    forall i | 0 <= i < 7 ensures low[|front|..][i] == ";base64"[i] {
      assert spec[|front| + i] == mark[i];
    }
    assert low[|low| - 7..] == ";base64";
    assert spec[..|spec| - 7] == front;
    FirstSemicolon(declared, parameters);
    assert front[..|declared|] == declared;
  }

  lemma FirstSemicolon(declared: string, parameters: string)
    requires ';' !in declared && (parameters == "" || parameters[0] == ';')
    ensures Find(declared + parameters, ';') == |declared|
  {
    hide Find;
    if parameters == "" {
      assert declared + parameters == declared;
      FindAbsent(declared, ';');
    } else {
      assert parameters == [';'] + parameters[1..];
      assert declared + parameters == declared + [';'] + parameters[1..];
      FindAfter(declared, ';', parameters[1..]);
    }
  }

  /** A url that does not begin with the scheme, has no comma, or does not declare base64 stays in the message. */
  lemma OthersStay(c: Codec, dir: Dir, header: string, body: string)
    requires ',' !in header
    requires StartsWith(header, "data:") ==> !EndsWith(Lower(header[5..]), ";base64")
    ensures ExternalizeUrl(c, dir, header + "," + body) == (header + "," + body, dir)
    ensures ExternalizeUrl(c, dir, header) == (header, dir)
  {
    hide ParseDataUrl, WriteBlob, BlobName, ExtByMime;
    NotDeclared(header, body);
    NoComma(header);
  }

  lemma NoComma(header: string)
    requires ',' !in header
    ensures ParseDataUrl(header) == None
  {
    hide Find, DeclaredMime;
    FindAbsent(header, ',');
  }

  lemma NotDeclared(header: string, body: string)
    requires ',' !in header
    requires StartsWith(header, "data:") ==> !EndsWith(Lower(header[5..]), ";base64")
    ensures ParseDataUrl(header + "," + body) == None
  {
    hide Find, Lower, Strip;
    var url := header + "," + body;
    assert url == header + [','] + body;
    FindAfter(header, ',', body);
    if StartsWith(url, "data:") {
      SchemeHasNoComma(url);
      assert header[..5] == url[..5];
      assert url[5..|header|] == header[5..];
    }
  }
}
