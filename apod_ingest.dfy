/** The APOD ingest script's services as objects whose state the calls update, and its
    `main` loop, proved to end in the state `ApodBatch.Ingest` gives. */
module ApodIngest {
  import opened Wrappers
  import opened Storage
  import opened ApodItems
  import opened ApodBatch

  /** `FirebaseUploader`: the bucket it uploads into. */
  class FirebaseUploader {
    var blobs: map<string, Blob>

    constructor (blobs0: map<string, Blob>)
      ensures blobs == blobs0
    {
      blobs := blobs0;
    }

    /** `upload_image`: store the bytes under `imageName` as image/jpeg with
        `{'id': uid}`; `outcome` is the public URL the service returns, or a failure. */
    method UploadImage(content: Bytes, imageName: string, uid: string, outcome: Option<string>)
      returns (r: Result<string, Exception>)
      modifies this
      ensures outcome.Some? ==> r == Ok(outcome.value) && blobs == old(blobs)[imageName := ImageBlob(content, uid)]
      ensures outcome.None? ==> r == Err(UploadError) && blobs == old(blobs)
    {
      if outcome.None? {
        return Err(UploadError);
      }
      blobs := blobs[imageName := ImageBlob(content, uid)];
      r := Ok(outcome.value);
    }
  }

  /** `FirebaseDatabaseHandler`: the path prefix it writes under and the Realtime
      Database it writes into. */
  class FirebaseDatabaseHandler {
    const path: string
    var records: map<string, Record>

    constructor (path: string, records0: map<string, Record>)
      ensures this.path == path && records == records0
    {
      this.path := path;
      records := records0;
    }

    /** `write_metadata`: `db.reference(path + id).set(metadata)`, an overwrite. */
    method WriteMetadata(metadata: Record, id: string, ok: bool) returns (r: Option<Exception>)
      modifies this
      ensures ok ==> r == None && records == old(records)[path + id := metadata]
      ensures !ok ==> r == Some(WriteError) && records == old(records)
    {
      if !ok {
        return Some(WriteError);
      }
      records := records[path + id := metadata];
      r := None;
    }
  }

  /** The state of both services as one value. */
  function State(uploader: FirebaseUploader, database: FirebaseDatabaseHandler): Firebase
    reads uploader, database
  {
    Firebase(uploader.blobs, database.records)
  }

  /** One iteration of the loop in `main`: the image test, the metadata fields, the
      sanitised title, then download, upload and write, the first exception ending it. */
  method HandleItem(uploader: FirebaseUploader, database: FirebaseDatabaseHandler, item: Json, a: ItemAttempt)
    returns (e: Option<Exception>)
    requires database.path == DbPath
    modifies uploader, database
    ensures (State(uploader, database), e) == ProcessItem(old(State(uploader, database)), item, a)
  {
    var test := IsImageItem(item);
    if test.Err? {
      return Some(test.error);
    }
    if !test.value {
      return None;
    }
    var m := item.fields;
    if "title" !in m {
      return Some(KeyError("title"));
    }
    if "explanation" !in m {
      return Some(KeyError("explanation"));
    }
    if "date" !in m {
      return Some(KeyError("date"));
    }
    if !m["title"].JString? {
      return Some(AttributeError);
    }
    var imageTitle := SanitizeTitle(m["title"].s);
    if a.download.None? {
      return Some(DownloadError);
    }
    var image := a.download.value;
    var url := uploader.UploadImage(image, imageTitle + ".jpg", a.uid, a.upload);
    if url.Err? {
      return Some(url.error);
    }
    var metadata := Record(m["title"], m["explanation"], m["date"], url.value);
    e := database.WriteMetadata(metadata, a.uid, a.writeOk);
  }

  /** `main` from the fetched response on: parse it, then handle every item in order
      inside the one `try`, so the first exception ends the batch; what was written
      before it stays written. */
  method IngestApod(uploader: FirebaseUploader, database: FirebaseDatabaseHandler, response: Json, attempts: seq<ItemAttempt>)
    returns (failure: Option<Exception>)
    requires database.path == DbPath
    requires ParseJson(response).Ok? ==> |attempts| == |ParseJson(response).value|
    modifies uploader, database
    ensures (State(uploader, database), failure) == Ingest(old(State(uploader, database)), response, attempts)
  {
    var parsed := ParseJson(response);
    if parsed.Err? {
      return Some(parsed.error);
    }
    var data := parsed.value;
    var raised: Option<(nat, Exception)> := None;
    var i := 0;
    while i < |data| && raised.None?
      invariant 0 <= i <= |data|
      invariant (State(uploader, database), raised) == Batch(old(State(uploader, database)), data[..i], attempts[..i])
    {
      var e := HandleItem(uploader, database, data[i], attempts[i]);
      if e.Some? {
        raised := Some((i, e.value));
      }
      assert data[..i + 1][..i] == data[..i] && attempts[..i + 1][..i] == attempts[..i];
      i := i + 1;
    }
    if i < |data| {
      BatchAbortIgnoresRest(old(State(uploader, database)), data[..i], attempts[..i], data[i..], attempts[i..]);
      assert data[..i] + data[i..] == data && attempts[..i] + attempts[i..] == attempts;
    } else {
      assert data[..i] == data && attempts[..i] == attempts;
    }
    failure := if raised.Some? then Some(raised.value.1) else None;
  }
}
