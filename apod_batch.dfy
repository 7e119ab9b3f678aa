/** The body of `main` in the APOD ingest script as a function of the bucket and the
    Realtime Database: the specification `ApodIngest.IngestApod` is proved against, and its
    properties. One `try` encloses the whole loop, so the first exception ends the batch. */
module ApodBatch {
  import opened Wrappers
  import opened Storage
  import opened ApodItems

  /** `FirebaseDatabaseHandler("images/")`: every record goes under this path. */
  const DbPath := "images/"

  /** The record written to the Realtime Database for one image. */
  datatype Record = Record(title: Json, description: Json, date: Json, url: string)

  /** The bucket (object name to blob) and the Realtime Database (path to record). */
  datatype Firebase = Firebase(bucket: map<string, Blob>, rtdb: map<string, Record>)

  /** What the services answer for one item, fixed in advance: the `uuid4` drawn for it,
      the downloaded bytes or a failed download, the public URL the upload returns or a
      failed upload, and whether `ref.set` succeeds. */
  datatype ItemAttempt = ItemAttempt(uid: string, download: Option<Bytes>, upload: Option<string>, writeOk: bool)

  /** The object name `image_title + ".jpg"` an item is uploaded under, when the item
      passes the image test and has a string title. */
  function BlobKeyOf(item: Json): (key: Option<string>)
    ensures key.Some? ==> IsImageItem(item) == Ok(true) && "title" in item.fields
    ensures key.Some? ==> |key.value| >= 4 && key.value[|key.value| - 4..] == ".jpg"
    ensures key.Some? ==> ' ' !in key.value[..|key.value| - 4] && '/' !in key.value[..|key.value| - 4]
  {
    if IsImageItem(item) == Ok(true) && "title" in item.fields && item.fields["title"].JString?
    then
      var t := SanitizeTitle(item.fields["title"].s);
      SanitizedHasNoSpaceOrSlash(item.fields["title"].s);
      assert (t + ".jpg")[..|t|] == t;
      Some(t + ".jpg")
    else None
  }

  /** The blob `upload_image` stores: JPEG content type and `{'id': uid}` metadata. */
  function ImageBlob(bytes: Bytes, uid: string): (b: Blob)
    ensures b.data == bytes && b.contentType == "image/jpeg"
    ensures b.metadata.Keys == {"id"} && b.metadata["id"] == uid
  {
    Blob(bytes, "image/jpeg", map["id" := uid])
  }

  /** One iteration of `for i, item in enumerate(data)`: the new state, and the exception
      it raised, if any. */
  function ProcessItem(fb: Firebase, item: Json, a: ItemAttempt): (r: (Firebase, Option<Exception>))
    ensures r.0 != fb ==> BlobKeyOf(item).Some? && BlobKeyOf(item).value in r.0.bucket
    ensures r.1.None? && IsImageItem(item) == Ok(true) ==> DbPath + a.uid in r.0.rtdb
    ensures r.1.None? ==> IsImageItem(item).Ok?
  {
    match IsImageItem(item)
    case Err(e) => (fb, Some(e))
    case Ok(isImage) =>
      if !isImage then (fb, None)
      else
        var m := item.fields;
        if "title" !in m then (fb, Some(KeyError("title")))
        else if "explanation" !in m then (fb, Some(KeyError("explanation")))
        else if "date" !in m then (fb, Some(KeyError("date")))
        else if !m["title"].JString? then (fb, Some(AttributeError))
        else
          var key := SanitizeTitle(m["title"].s) + ".jpg";
          match a.download
          case None => (fb, Some(DownloadError))
          case Some(bytes) =>
            match a.upload
            case None => (fb, Some(UploadError))
            case Some(url) =>
              var fb1 := fb.(bucket := fb.bucket[key := ImageBlob(bytes, a.uid)]);
              if !a.writeOk then (fb1, Some(WriteError))
              else
                var record := Record(m["title"], m["explanation"], m["date"], url);
                (fb1.(rtdb := fb1.rtdb[DbPath + a.uid := record]), None)
  }

  /** The loop under its enclosing `try`: once an item raises, the rest are not looked
      at. The error carries the index of the item that raised. */
  function Batch(fb: Firebase, items: seq<Json>, attempts: seq<ItemAttempt>): (r: (Firebase, Option<(nat, Exception)>))
    requires |attempts| == |items|
    ensures r.1.Some? ==> r.1.value.0 < |items|
    decreases |items|
  {
    if |items| == 0 then (fb, None)
    else
      var n := |items| - 1;
      var prev := Batch(fb, items[..n], attempts[..n]);
      if prev.1.Some? then prev
      else
        var next := ProcessItem(prev.0, items[n], attempts[n]);
        (next.0, if next.1.Some? then Some((n, next.1.value)) else None)
  }

  /** `main` from the API response on: `parse_json`, then the loop. */
  function Ingest(fb: Firebase, response: Json, attempts: seq<ItemAttempt>): (r: (Firebase, Option<Exception>))
    requires ParseJson(response).Ok? ==> |attempts| == |ParseJson(response).value|
    ensures ParseJson(response).Err? ==> r == (fb, Some(ValueError))
    ensures ParseJson(response).Ok? ==> r.1.None? == Batch(fb, ParseJson(response).value, attempts).1.None?
    ensures ParseJson(response).Ok? ==> var b := Batch(fb, ParseJson(response).value, attempts);
      r.0 == b.0 && (r.1.Some? ==> b.1.Some? && r.1.value == b.1.value.1)
  {
    match ParseJson(response)
    case Err(e) => (fb, Some(e))
    case Ok(items) =>
      var (fb', failure) := Batch(fb, items, attempts);
      (fb', if failure.Some? then Some(failure.value.1) else None)
  }

  // ---------------------------------------------------------------------------
  // One item

  /** Only items with a "url" key and media_type "image" cause a download, an upload or
      a write; any other item either passes untouched or raises. */
  lemma ProcessItemOnlyImagesWrite(fb: Firebase, item: Json, a: ItemAttempt)
    requires IsImageItem(item) != Ok(true)
    ensures ProcessItem(fb, item, a).0 == fb
    ensures IsImageItem(item) == Ok(false) ==> ProcessItem(fb, item, a).1 == None
    ensures IsImageItem(item).Err? ==> ProcessItem(fb, item, a).1 == Some(IsImageItem(item).error)
  {
  }

  /** A dict with a "url" but no "media_type" raises a KeyError. */
  lemma ProcessItemWithoutMediaType(fb: Firebase, m: map<string, Json>, a: ItemAttempt)
    requires "url" in m && "media_type" !in m
    ensures ProcessItem(fb, JObject(m), a) == (fb, Some(KeyError("media_type")))
  {
  }

  /** An image item missing "title", "explanation" or "date" raises KeyError for the
      first of them missing, before anything is downloaded. */
  lemma ProcessItemMissingField(fb: Firebase, item: Json, a: ItemAttempt)
    requires IsImageItem(item) == Ok(true)
    requires !("title" in item.fields && "explanation" in item.fields && "date" in item.fields)
    ensures ProcessItem(fb, item, a) == (fb, Some(KeyError(
      if "title" !in item.fields then "title"
      else if "explanation" !in item.fields then "explanation"
      else "date")))
  {
  }

  /** An image item whose stages all succeed: the bytes are stored under the sanitised
      title plus ".jpg" as image/jpeg with `{'id': uid}`, whatever was stored there
      before (there is no existence check), and the record with title, description
      (from "explanation"), date and the returned URL is written at "images/" + uid. */
  lemma ProcessItemStoresImage(fb: Firebase, item: Json, a: ItemAttempt, title: string, bytes: Bytes, url: string)
    requires IsImageItem(item) == Ok(true)
    requires "title" in item.fields && "explanation" in item.fields && "date" in item.fields
    requires item.fields["title"] == JString(title)
    requires a.download == Some(bytes) && a.upload == Some(url) && a.writeOk
    ensures var (fb', e) := ProcessItem(fb, item, a);
      && e == None
      && BlobKeyOf(item) == Some(SanitizeTitle(title) + ".jpg")
      && fb'.bucket == fb.bucket[SanitizeTitle(title) + ".jpg" := Blob(bytes, "image/jpeg", map["id" := a.uid])]
      && fb'.rtdb == fb.rtdb["images/" + a.uid :=
           Record(JString(title), item.fields["explanation"], item.fields["date"], url)]
  {
  }

  /** A failed download or upload raises and leaves both stores as they were. */
  lemma ProcessItemTransferFailure(fb: Firebase, item: Json, a: ItemAttempt)
    requires BlobKeyOf(item).Some?
    requires "explanation" in item.fields && "date" in item.fields
    requires a.download.None? || a.upload.None?
    ensures ProcessItem(fb, item, a) ==
      (fb, Some(if a.download.None? then DownloadError else UploadError))
  {
  }

  /** A failed `ref.set` raises after the upload: the blob stays, with no record. */
  lemma ProcessItemWriteFailure(fb: Firebase, item: Json, a: ItemAttempt)
    requires BlobKeyOf(item).Some?
    requires "explanation" in item.fields && "date" in item.fields
    requires a.download.Some? && a.upload.Some? && !a.writeOk
    ensures var (fb', e) := ProcessItem(fb, item, a);
      && e == Some(WriteError)
      && fb'.bucket == fb.bucket[BlobKeyOf(item).value := ImageBlob(a.download.value, a.uid)]
      && fb'.rtdb == fb.rtdb
  {
  }

  /** An item writes at most its own object name and its own database path, and removes
      nothing from either store. */
  lemma ProcessItemFrame(fb: Firebase, item: Json, a: ItemAttempt)
    ensures var (fb', e) := ProcessItem(fb, item, a);
      && fb.bucket.Keys <= fb'.bucket.Keys && fb.rtdb.Keys <= fb'.rtdb.Keys
      && (forall k :: k in fb.bucket && Some(k) != BlobKeyOf(item) ==> fb'.bucket[k] == fb.bucket[k])
      && (forall k :: k in fb'.bucket && k !in fb.bucket ==> Some(k) == BlobKeyOf(item))
      && (forall p :: p in fb.rtdb && p != DbPath + a.uid ==> fb'.rtdb[p] == fb.rtdb[p])
      && (forall p :: p in fb'.rtdb && p !in fb.rtdb ==> p == DbPath + a.uid)
  {
  }

  /** Two images whose titles sanitise alike go to the same object name, the second
      overwriting the first, but get distinct database paths when their ids differ, so
      both records stay and both point at whatever URLs the uploads returned. */
  lemma SameTitleSharesObjectNotPath(fb: Firebase, x: Json, y: Json, ax: ItemAttempt, ay: ItemAttempt)
    requires BlobKeyOf(x).Some? && BlobKeyOf(x) == BlobKeyOf(y)
    requires "explanation" in x.fields && "date" in x.fields
    requires "explanation" in y.fields && "date" in y.fields
    requires ax.download.Some? && ax.upload.Some? && ax.writeOk
    requires ay.download.Some? && ay.upload.Some? && ay.writeOk
    requires ax.uid != ay.uid
    ensures var (fb1, e1) := ProcessItem(fb, x, ax);
      var (fb2, e2) := ProcessItem(fb1, y, ay);
      && e1 == None && e2 == None
      && fb2.bucket[BlobKeyOf(x).value] == ImageBlob(ay.download.value, ay.uid)
      && DbPath + ax.uid in fb2.rtdb && DbPath + ay.uid in fb2.rtdb
      && fb2.rtdb[DbPath + ax.uid].url == ax.upload.value
      && fb2.rtdb[DbPath + ay.uid].url == ay.upload.value
  {
    PathInjective(ax.uid, ay.uid);
  }

  // ---------------------------------------------------------------------------
  // The batch

  /** After the first exception the batch is over: its result is that of the items up to
      and including the one that raised, whatever follows. */
  lemma {:induction false} BatchAbortIgnoresRest(fb: Firebase, items: seq<Json>, attempts: seq<ItemAttempt>,
                                                 more: seq<Json>, moreAttempts: seq<ItemAttempt>)
    requires |attempts| == |items| && |moreAttempts| == |more|
    requires Batch(fb, items, attempts).1.Some?
    ensures Batch(fb, items + more, attempts + moreAttempts) == Batch(fb, items, attempts)
    decreases |more|
  {
    if |more| > 0 {
      var n := |more| - 1;
      var all := items + more;
      var allAttempts := attempts + moreAttempts;
      assert all[..|all| - 1] == items + more[..n];
      assert allAttempts[..|all| - 1] == attempts + moreAttempts[..n];
      BatchAbortIgnoresRest(fb, items, attempts, more[..n], moreAttempts[..n]);
    } else {
      assert items + more == items && attempts + moreAttempts == attempts;
    }
  }

  /** Splitting a batch: once the items before position `i` raised nothing, the batch
      goes on from the state they left. */
  lemma {:induction false} BatchPrefix(fb: Firebase, items: seq<Json>, attempts: seq<ItemAttempt>, i: nat)
    requires |attempts| == |items| && i < |items|
    requires Batch(fb, items[..i + 1], attempts[..i + 1]).1.None?
    ensures Batch(fb, items[..i], attempts[..i]).1.None?
    ensures ProcessItem(Batch(fb, items[..i], attempts[..i]).0, items[i], attempts[i]).1.None?
  {
    assert items[..i + 1][..i] == items[..i] && attempts[..i + 1][..i] == attempts[..i];
  }

  /** The batch stops at the first exception: the item that raised is reached from the
      state all earlier items left, having raised nothing, and its partial effect is the
      final state; no later item is looked at. Items already written stay written. */
  lemma {:induction false} BatchStopsAtFirstError(fb: Firebase, items: seq<Json>, attempts: seq<ItemAttempt>)
    requires |attempts| == |items|
    requires Batch(fb, items, attempts).1.Some?
    ensures var (fb', failure) := Batch(fb, items, attempts);
      var i := failure.value.0;
      var before := Batch(fb, items[..i], attempts[..i]);
      && before.1.None?
      && ProcessItem(before.0, items[i], attempts[i]) == (fb', Some(failure.value.1))
      && Batch(fb, items[..i + 1], attempts[..i + 1]) == Batch(fb, items, attempts)
    decreases |items|
  {
    var n := |items| - 1;
    var prev := Batch(fb, items[..n], attempts[..n]);
    assert items[..n + 1] == items && attempts[..n + 1] == attempts;
    if prev.1.Some? {
      BatchStopsAtFirstError(fb, items[..n], attempts[..n]);
      var i := prev.1.value.0;
      assert items[..n][..i] == items[..i] && attempts[..n][..i] == attempts[..i];
      assert items[..n][..i + 1] == items[..i + 1] && attempts[..n][..i + 1] == attempts[..i + 1];
      assert items[..n][i] == items[i] && attempts[..n][i] == attempts[i];
    }
  }

  /** An image item without a title aborts the batch before a later, complete image
      item is reached: nothing at all is written. */
  lemma MissingTitleAbortsLaterImages(fb: Firebase, bad: map<string, Json>, good: Json,
                                      a0: ItemAttempt, a1: ItemAttempt)
    requires IsImageItem(JObject(bad)) == Ok(true) && "title" !in bad
    ensures Batch(fb, [JObject(bad), good], [a0, a1]) == (fb, Some((0, KeyError("title"))))
  {
    var items := [JObject(bad), good];
    var attempts := [a0, a1];
    assert items[..1] == [JObject(bad)] && attempts[..1] == [a0];
    assert items[..1][..0] == [] && attempts[..1][..0] == [];
    assert ProcessItem(fb, JObject(bad), a0) == (fb, Some(KeyError("title")));
    assert Batch(fb, items[..1], attempts[..1]) == (fb, Some((0, KeyError("title"))));
  }

  /** The batch removes nothing from either store. */
  lemma {:induction false} BatchKeepsKeys(fb: Firebase, items: seq<Json>, attempts: seq<ItemAttempt>)
    requires |attempts| == |items|
    ensures fb.bucket.Keys <= Batch(fb, items, attempts).0.bucket.Keys
    ensures fb.rtdb.Keys <= Batch(fb, items, attempts).0.rtdb.Keys
    decreases |items|
  {
    if |items| > 0 {
      var n := |items| - 1;
      var prev := Batch(fb, items[..n], attempts[..n]);
      BatchKeepsKeys(fb, items[..n], attempts[..n]);
      ProcessItemFrame(prev.0, items[n], attempts[n]);
    }
  }

  /** The ids drawn for a batch are pairwise distinct, as `uuid4` makes them. */
  ghost predicate DistinctIds(attempts: seq<ItemAttempt>)
  {
    forall i, j :: 0 <= i < j < |attempts| ==> attempts[i].uid != attempts[j].uid
  }

  lemma PathInjective(u: string, v: string)
    ensures DbPath + u == DbPath + v ==> u == v
  {
    if DbPath + u == DbPath + v {
      assert u == (DbPath + u)[|DbPath|..] == (DbPath + v)[|DbPath|..] == v;
    }
  }

  /** A batch without exceptions leaves, for every image item, its record at
      "images/" + its id, with its title, description, date and returned URL, when the
      ids are distinct: equal titles never make records collide. */
  lemma {:induction false} BatchRecordsEveryImage(fb: Firebase, items: seq<Json>, attempts: seq<ItemAttempt>, i: nat)
    requires |attempts| == |items| && i < |items|
    requires DistinctIds(attempts)
    requires Batch(fb, items, attempts).1.None?
    requires IsImageItem(items[i]) == Ok(true)
    ensures var fb' := Batch(fb, items, attempts).0;
      && attempts[i].upload.Some?
      && "title" in items[i].fields && "explanation" in items[i].fields && "date" in items[i].fields
      && DbPath + attempts[i].uid in fb'.rtdb
      && fb'.rtdb[DbPath + attempts[i].uid] == Record(
           items[i].fields["title"], items[i].fields["explanation"], items[i].fields["date"],
           attempts[i].upload.value)
    decreases |items|
  {
    var n := |items| - 1;
    var prev := Batch(fb, items[..n], attempts[..n]);
    assert items[..n + 1] == items && attempts[..n + 1] == attempts;
    BatchPrefix(fb, items, attempts, n);
    if i < n {
      assert items[..n][i] == items[i] && attempts[..n][i] == attempts[i];
      BatchRecordsEveryImage(fb, items[..n], attempts[..n], i);
      ProcessItemFrame(prev.0, items[n], attempts[n]);
      PathInjective(attempts[i].uid, attempts[n].uid);
    }
  }
}
