/** The pure parts of the Drive-to-Firebase sync pass: the object key derived from a
    file name, the content type inferred from its extension, and the Firestore record
    written for it. */
module DriveKeys {
  import opened Wrappers

  const OgPrefix := "IMAGES/OG/"
  /** The bucket the pass uploads into (`storageBucket` of the app). */
  const UploadBucket := "cloudproject-bda5e.firebasestorage.app"
  /** The bucket URL the Firestore record's paths are written with: a different bucket,
      which the pass never writes. */
  const RecordedBucketUrl := "gs://cloudproject-bda5e.appspot.com/"
  const ThumbPrefix := "IMAGES/THUMBNAILS/"
  const ThumbSuffix := "_thumbnail.jpg"
  const OctetStream := "application/octet-stream"

  /** The object key `IMAGES/OG/<name>`: the name follows the prefix unchanged,
      with no extension added. */
  function BlobPath(name: string): (key: string)
    ensures |key| == |OgPrefix| + |name|
    ensures key[..|OgPrefix|] == OgPrefix && key[|OgPrefix|..] == name
  {
    OgPrefix + name
  }

  /** Distinct names never share an object key. */
  lemma BlobPathInjective(a: string, b: string)
    ensures BlobPath(a) == BlobPath(b) <==> a == b
  {
    if BlobPath(a) == BlobPath(b) {
      assert a == BlobPath(a)[|OgPrefix|..] == BlobPath(b)[|OgPrefix|..] == b;
    }
  }

  /** The Firestore document `METADATA/<name>`. */
  datatype MetadataDoc = MetadataDoc(
    imageId: string,     // IMAGE_ID
    pathOg: string,      // PATH_OG
    pathThumb: string,   // PATH_THUMB
    tags: string,        // TAGS
    uploadDate: string)  // UPLOAD_DATE

  /** The record written for `name`; `date` is the formatted `datetime.now()`. PATH_OG
      repeats the blob's key, but under `RecordedBucketUrl`, not under the bucket the
      blob was uploaded to. */
  function MetadataDocFor(name: string, date: string): (d: MetadataDoc)
    ensures d.imageId == name && d.tags == "" && d.uploadDate == date
    ensures d.pathOg == RecordedBucketUrl + BlobPath(name)
    ensures d.pathThumb == RecordedBucketUrl + ThumbPrefix + name + ThumbSuffix
  {
    MetadataDoc(name, RecordedBucketUrl + BlobPath(name), RecordedBucketUrl + ThumbPrefix + name + ThumbSuffix, "", date)
  }

  /** The paths recorded in the document name another bucket than the upload's. */
  lemma RecordedBucketIsNotUploadBucket()
    ensures RecordedBucketUrl != "gs://" + UploadBucket + "/"
  {
    assert RecordedBucketUrl[24] != ("gs://" + UploadBucket + "/")[24];
  }

  /** Python's `str.lower()` on one character, for the ASCII letters: no upper-case ASCII
      letter is left, and every other character stays. */
  function LowerChar(c: char): (r: char)
    ensures !('A' <= r <= 'Z')
    ensures !('A' <= c <= 'Z') ==> r == c
    ensures 'A' <= c <= 'Z' ==> 'a' <= r <= 'z'
  {
    if 'A' <= c <= 'Z' then (c as int + 32) as char else c
  }

  function Lower(s: string): (r: string)
    ensures |r| == |s|
    ensures forall i :: 0 <= i < |s| ==> r[i] == LowerChar(s[i])
  {
    seq(|s|, i requires 0 <= i < |s| => LowerChar(s[i]))
  }

  /** The position of the last '.' in `s`, the split point of `s.rsplit('.', 1)`. */
  function LastDot(s: string): (r: Option<nat>)
    ensures r.None? <==> '.' !in s
    ensures r.Some? ==> r.value < |s| && s[r.value] == '.' && '.' !in s[r.value + 1..]
  {
    if |s| == 0 then None
    else if s[|s| - 1] == '.' then Some(|s| - 1)
    else
      var r := LastDot(s[..|s| - 1]);
      assert r.Some? ==> s[r.value + 1..] == s[..|s| - 1][r.value + 1..] + [s[|s| - 1]];
      r
  }

  /** The extension, when the name has a '.': the text after the last '.'. */
  function Extension(name: string): (ext: Option<string>)
    ensures ext.None? <==> '.' !in name
    ensures ext.Some? ==> '.' !in ext.value
    ensures ext.Some? ==> exists stem :: name == stem + "." + ext.value
  {
    match LastDot(name)
    case None => None
    case Some(k) =>
      assert name == name[..k] + "." + name[k + 1..];
      Some(name[k + 1..])
  }

  /** The mapping of a lower-cased extension to a MIME type. */
  function MimeFor(ext: string): (mime: string)
    ensures mime in {"image/jpeg", "image/png", "image/gif", "application/octet-stream"}
  {
    if ext == "jpg" || ext == "jpeg" then "image/jpeg"
    else if ext == "png" then "image/png"
    else if ext == "gif" then "image/gif"
    else OctetStream
  }

  /** The content type the sync pass uploads `name` with. */
  function ContentTypeOf(name: string): (ct: string)
    ensures ct in {"image/jpeg", "image/png", "image/gif", "application/octet-stream"}
    ensures ct != OctetStream ==> Extension(name).Some? && ct == MimeFor(Lower(Extension(name).value))
  {
    match Extension(name)
    case None => OctetStream
    case Some(ext) => MimeFor(Lower(ext))
  }

  /** Splitting at a '.' that has no '.' after it finds exactly that position. */
  lemma {:induction false} LastDotOfSplit(stem: string, ext: string)
    requires '.' !in ext
    ensures LastDot(stem + "." + ext) == Some(|stem|)
    decreases |ext|
  {
    var s := stem + "." + ext;
    if |ext| == 0 {
      assert s[|s| - 1] == '.';
    } else {
      var n := |ext| - 1;
      assert s[|s| - 1] == ext[n];
      assert s[..|s| - 1] == stem + "." + ext[..n];
      LastDotOfSplit(stem, ext[..n]);
    }
  }

  /** Content type, stated on any name `stem.ext` whose `ext` holds no '.': the
      type is decided by the lower-cased text after the last '.' alone. */
  lemma ContentTypeOfSplit(stem: string, ext: string)
    requires '.' !in ext
    ensures ContentTypeOf(stem + "." + ext) == MimeFor(Lower(ext))
  {
    LastDotOfSplit(stem, ext);
    var s := stem + "." + ext;
    assert s[|stem| + 1..] == ext;
  }

  /** A name without a '.' is uploaded as application/octet-stream. */
  lemma ContentTypeWithoutDot(name: string)
    requires '.' !in name
    ensures ContentTypeOf(name) == "application/octet-stream"
  {
  }

  /** The four image types, each for exactly its extensions; every other extension
      (including the empty one after a trailing '.') is application/octet-stream. */
  lemma MimeForCases(ext: string)
    ensures MimeFor(ext) == "image/jpeg" <==> ext == "jpg" || ext == "jpeg"
    ensures MimeFor(ext) == "image/png" <==> ext == "png"
    ensures MimeFor(ext) == "image/gif" <==> ext == "gif"
    ensures MimeFor(ext) == "application/octet-stream" <==> ext !in {"jpg", "jpeg", "png", "gif"}
  {
  }

  /** The content type of a name given as stem, '.', and an extension whose lower-cased
      form is known. */
  lemma ContentTypeOfLowered(name: string, stem: string, ext: string, lowered: string)
    requires name == stem + "." + ext && '.' !in ext && Lower(ext) == lowered
    ensures ContentTypeOf(name) == MimeFor(lowered)
  {
    ContentTypeOfSplit(stem, ext);
  }

  /** The comparison ignores ASCII case. */
  lemma ContentTypeUpperCaseJpg()
    ensures ContentTypeOf("nebula.JPG") == "image/jpeg"
  {
    assert "nebula.JPG" == "nebula" + "." + "JPG";
    assert Lower("JPG") == "jpg" by {
      var l := Lower("JPG");
      assert l[0] == 'j' && l[1] == 'p' && l[2] == 'g';
    }
    ContentTypeOfLowered("nebula.JPG", "nebula", "JPG", "jpg");
  }

  /** Only the text after the last '.' counts. */
  lemma ContentTypeLastExtensionOnly()
    ensures ContentTypeOf("a.png.zip") == "application/octet-stream"
  {
    assert "a.png.zip" == "a.png" + "." + "zip";
    assert Lower("zip") == "zip" by {
      var l := Lower("zip");
      assert l[0] == 'z' && l[1] == 'i' && l[2] == 'p';
    }
    ContentTypeOfLowered("a.png.zip", "a.png", "zip", "zip");
  }

  /** A name that is only an extension still has one. */
  lemma ContentTypeDotFile()
    ensures ContentTypeOf(".gif") == "image/gif"
  {
    assert ".gif" == "" + "." + "gif";
    assert Lower("gif") == "gif" by {
      var l := Lower("gif");
      assert l[0] == 'g' && l[1] == 'i' && l[2] == 'f';
    }
    ContentTypeOfLowered(".gif", "", "gif", "gif");
  }
}
