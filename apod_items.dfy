/** The pure parts of the APOD ingest script: the JSON the API returns, `parse_json`,
    the per-item image test and the title sanitisation. */
module ApodItems {
  import opened Wrappers

  /** A decoded JSON value, as `response.json()` gives it. */
  datatype Json =
    | JNull
    | JBool(b: bool)
    | JNumber(n: int)
    | JString(s: string)
    | JArray(elems: seq<Json>)
    | JObject(fields: map<string, Json>)

  /** The exceptions that end the `try` block of `main`. */
  datatype Exception =
    | ValueError            // parse_json, unexpected JSON shape
    | KeyError(key: string) // item[key] on a dict without that key
    | TypeError             // item["media_type"] on a list or string, `in` on a scalar
    | AttributeError        // .replace on a title that is not a string
    | DownloadError
    | UploadError
    | WriteError

  /** `ApiService.parse_json`: a list as it is, a dict as a one-element list. */
  function ParseJson(j: Json): (r: Result<seq<Json>, Exception>)
    ensures r.Ok? <==> j.JArray? || j.JObject?
    ensures r.Err? ==> r.error == ValueError
    ensures j.JArray? ==> r.value == j.elems
    ensures j.JObject? ==> r.value == [j]
  {
    match j
    case JArray(elems) => Ok(elems)
    case JObject(_) => Ok([j])
    case _ => Err(ValueError)
  }

  /** Normalising is idempotent: the list parse_json returns parses to itself. */
  lemma ParseJsonIdempotent(j: Json)
    requires ParseJson(j).Ok?
    ensures ParseJson(JArray(ParseJson(j).value)) == ParseJson(j)
  {
  }

  /** `p` occurs in `s` starting at position `k`. */
  predicate OccursAt(s: string, p: string, k: nat)
  {
    k + |p| <= |s| && s[k..k + |p|] == p
  }

  /** Python's `p in s` on two strings. */
  function HasSubstring(s: string, p: string): (r: bool)
    ensures r <==> exists k: nat :: OccursAt(s, p, k)
    decreases |s|
  {
    if |p| > |s| then false
    else if s[..|p|] == p then
      assert OccursAt(s, p, 0);
      true
    else
      var r := HasSubstring(s[1..], p);
      assert forall k: nat :: OccursAt(s[1..], p, k) <==> OccursAt(s, p, k + 1) by {
        forall k: nat
          ensures OccursAt(s[1..], p, k) <==> OccursAt(s, p, k + 1)
        {
          if k + 1 + |p| <= |s| {
            assert s[1..][k..k + |p|] == s[k + 1..k + 1 + |p|];
          }
        }
      }
      assert !OccursAt(s, p, 0);
      assert (exists k: nat :: OccursAt(s, p, k)) ==> r by {
        if exists k: nat :: OccursAt(s, p, k) {
          var k: nat :| OccursAt(s, p, k);
          assert k > 0;
          assert OccursAt(s[1..], p, k - 1);
        }
      }
      r
  }

  /** `"url" in item and item["media_type"] == "image"` with Python's meaning for every
      shape of item: key membership on a dict, element membership on a list, substring
      on a string, and a raised exception where the expression cannot be evaluated. */
  function IsImageItem(item: Json): (r: Result<bool, Exception>)
    ensures r == Ok(true) <==>
      item.JObject? && "url" in item.fields && "media_type" in item.fields
      && item.fields["media_type"] == JString("image")
    ensures item.JObject? && "url" !in item.fields ==> r == Ok(false)
    ensures item.JObject? && "url" in item.fields && "media_type" !in item.fields ==>
      r == Err(KeyError("media_type"))
    ensures item.JNull? || item.JBool? || item.JNumber? ==> r == Err(TypeError)
  {
    match item
    case JObject(m) =>
      if "url" !in m then Ok(false)
      else if "media_type" !in m then Err(KeyError("media_type"))
      else Ok(m["media_type"] == JString("image"))
    case JArray(elems) =>
      if JString("url") in elems then Err(TypeError) else Ok(false)
    case JString(s) =>
      if HasSubstring(s, "url") then Err(TypeError) else Ok(false)
    case _ => Err(TypeError)
  }

  /** `s.replace(from, to)` for one-character `from` and `to`. */
  function ReplaceChar(s: string, from: char, to: char): (r: string)
    ensures |r| == |s|
    ensures forall i :: 0 <= i < |s| ==> r[i] == (if s[i] == from then to else s[i])
  {
    if |s| == 0 then ""
    else [if s[0] == from then to else s[0]] + ReplaceChar(s[1..], from, to)
  }

  /** The title as `.replace(" ", "_").replace("/", "-")` leaves it. */
  function SanitizeTitle(title: string): (r: string)
    ensures |r| == |title|
    ensures forall i :: 0 <= i < |title| && title[i] != ' ' && title[i] != '/' ==> r[i] == title[i]
  {
    ReplaceChar(ReplaceChar(title, ' ', '_'), '/', '-')
  }

  /** What sanitisation does to one character. */
  function SanitizeChar(c: char): char
  {
    if c == ' ' then '_' else if c == '/' then '-' else c
  }

  /** The two passes amount to one character-for-character substitution: every ' '
      becomes '_', every '/' becomes '-', everything else stays, and the length is kept. */
  lemma SanitizeTitleByChar(title: string)
    ensures |SanitizeTitle(title)| == |title|
    ensures forall i :: 0 <= i < |title| ==> SanitizeTitle(title)[i] == SanitizeChar(title[i])
  {
    var once := ReplaceChar(title, ' ', '_');
    forall i | 0 <= i < |title|
      ensures SanitizeTitle(title)[i] == SanitizeChar(title[i])
    {
      assert once[i] == if title[i] == ' ' then '_' else title[i];
    }
  }

  /** A sanitised title has neither a space nor a slash. */
  lemma SanitizedHasNoSpaceOrSlash(title: string)
    ensures ' ' !in SanitizeTitle(title) && '/' !in SanitizeTitle(title)
  {
    SanitizeTitleByChar(title);
    var r := SanitizeTitle(title);
    forall i | 0 <= i < |r|
      ensures r[i] != ' ' && r[i] != '/'
    {
      assert r[i] == SanitizeChar(title[i]);
    }
  }

  /** Sanitising again changes nothing. */
  lemma SanitizeIdempotent(title: string)
    ensures SanitizeTitle(SanitizeTitle(title)) == SanitizeTitle(title)
  {
    var r := SanitizeTitle(title);
    SanitizeTitleByChar(title);
    SanitizeTitleByChar(r);
    assert forall i :: 0 <= i < |r| ==> SanitizeChar(r[i]) == r[i];
  }

  /** Sanitisation is not injective: different titles can share an object key. */
  lemma SanitizeCollides()
    ensures SanitizeTitle("M31 Andromeda") == SanitizeTitle("M31_Andromeda")
    ensures SanitizeTitle("a/b") == SanitizeTitle("a-b")
  {
    SanitizeTitleByChar("M31 Andromeda");
    SanitizeTitleByChar("M31_Andromeda");
    SanitizeTitleByChar("a/b");
    SanitizeTitleByChar("a-b");
  }
}
