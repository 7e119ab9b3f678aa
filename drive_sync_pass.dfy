/** The sync pass `upload_files_to_firebase` as a loop over the Drive listing that updates
    the three stores step by step, proved to end in the state `DriveSync.Run` gives. */
module DriveSyncPass {
  import opened Wrappers
  import opened Storage
  import opened DriveKeys
  import opened DriveSync

  /** How a pass ended: the listing call raised, the folder was empty
      ("No files found"), or every listed file got an outcome. */
  datatype PassResult = ListFailed | NoFiles | Processed(outcomes: seq<FileOutcome>)

  /** The pass as a function of the stores: the listing is the folder itself. */
  function SyncOnce(c: Cloud, listOk: bool, attempts: seq<Attempt>): (r: (Cloud, PassResult))
    requires |attempts| == |c.drive|
    ensures !listOk ==> r == (c, ListFailed)
    ensures listOk && c.drive == [] ==> r == (c, NoFiles)
    ensures listOk && c.drive != [] ==> r.1.Processed? && |r.1.outcomes| == |c.drive|
    ensures r.1.Processed? ==> Extends(c, r.0)
  {
    if !listOk then (c, ListFailed)
    else if c.drive == [] then (c, NoFiles)
    else
      var (c', outs) := Run(c, c.drive, attempts);
      RunExtends(c, c.drive, attempts);
      (c', Processed(outs))
  }

  /** The scheduler runs the pass again and again. Once a pass got every listed file
      past its download and upload, the next pass, which lists whatever is left in the
      folder, changes nothing, whatever the services answer. */
  lemma SecondPassChangesNothing(c: Cloud, first: seq<Attempt>, listOk: bool, second: seq<Attempt>)
    requires |first| == |c.drive|
    requires SyncOnce(c, true, first).1.Processed?
    requires forall i :: 0 <= i < |c.drive| ==> Settled(SyncOnce(c, true, first).1.outcomes[i])
    requires |second| == |SyncOnce(c, true, first).0.drive|
    ensures var c1 := SyncOnce(c, true, first).0;
      SyncOnce(c1, listOk, second).0 == c1
  {
    var c1 := Run(c, c.drive, first).0;
    RunExtends(c, c.drive, first);
    forall j | 0 <= j < |c1.drive|
      ensures Known(c1, c1.drive[j].name)
    {
      var d := c1.drive[j];
      assert d in c.drive;
      var i :| 0 <= i < |c.drive| && c.drive[i] == d;
      RunSettledNamesKnown(c, c.drive, first, i);
    }
    RunOverKnownNames(c1, c1.drive, second);
  }

  /** The Cloud Storage bucket, the Firestore METADATA collection and the Drive folder,
      as the pass sees them through the SDK clients. */
  class SyncService {
    var blobs: map<string, Blob>
    var docs: map<string, MetadataDoc>
    var drive: seq<DriveFile>

    function Snapshot(): Cloud
      reads this
    {
      Cloud(blobs, docs, drive)
    }

    constructor (c: Cloud)
      ensures Snapshot() == c
    {
      blobs, docs, drive := c.blobs, c.docs, c.drive;
    }

    /** `bucket.blob(key).exists()` */
    method BlobExists(key: string) returns (b: bool)
      ensures b <==> key in blobs
    {
      b := key in blobs;
    }

    /** `db.collection("METADATA").document(name).get().exists` */
    method DocExists(name: string) returns (b: bool)
      ensures b <==> name in docs
    {
      b := name in docs;
    }

    /** `blob.upload_from_file(data, content_type=ct)`; `ok` is the service's answer. */
    method UploadFromFile(key: string, data: Bytes, contentType: string, ok: bool) returns (success: bool)
      modifies this
      ensures success == ok
      ensures blobs == if ok then old(blobs)[key := Blob(data, contentType, map[])] else old(blobs)
      ensures docs == old(docs) && drive == old(drive)
    {
      success := ok;
      if ok {
        blobs := blobs[key := Blob(data, contentType, map[])];
      }
    }

    /** `db.collection("METADATA").document(name).set(doc)`: an unconditional overwrite. */
    method SetDoc(name: string, doc: MetadataDoc, ok: bool) returns (success: bool)
      modifies this
      ensures success == ok
      ensures docs == if ok then old(docs)[name := doc] else old(docs)
      ensures blobs == old(blobs) && drive == old(drive)
    {
      success := ok;
      if ok {
        docs := docs[name := doc];
      }
    }

    /** `drive_service.files().delete(fileId=id).execute()` */
    method DeleteFile(id: string, ok: bool) returns (success: bool)
      modifies this
      ensures success == ok
      ensures drive == if ok then RemoveById(old(drive), id) else old(drive)
      ensures blobs == old(blobs) && docs == old(docs)
    {
      success := ok;
      if ok {
        drive := RemoveById(drive, id);
      }
    }

    /** One iteration of the loop: the two existence checks, then download, upload,
        record and delete, the first failure ending the file's turn. */
    method ProcessFile(f: DriveFile, a: Attempt) returns (o: FileOutcome)
      modifies this
      ensures (Snapshot(), o) == Step(old(Snapshot()), f, a)
    {
      var key := BlobPath(f.name);
      var blobFound := BlobExists(key);
      if blobFound {
        return SkippedBlobExists;
      }
      var docFound := DocExists(f.name);
      if docFound {
        return SkippedDocExists;
      }
      if a.download.None? {
        return Failed(Download);
      }
      var data := a.download.value;
      var contentType := ContentTypeOf(f.name);
      var ok := UploadFromFile(key, data, contentType, a.uploadOk);
      if !ok {
        return Failed(Upload);
      }
      ok := SetDoc(f.name, MetadataDocFor(f.name, a.now), a.setOk);
      if !ok {
        return Failed(SetMetadata);
      }
      ok := DeleteFile(f.id, a.deleteOk);
      if !ok {
        return Failed(DeleteFromDrive);
      }
      o := Uploaded;
    }

    /** `upload_files_to_firebase`: list the folder, then process every listed file in
        order, each file's failure caught on its own. */
    method UploadFilesToFirebase(listOk: bool, attempts: seq<Attempt>) returns (r: PassResult)
      requires |attempts| == |drive|
      modifies this
      ensures (Snapshot(), r) == SyncOnce(old(Snapshot()), listOk, attempts)
    {
      if !listOk {
        return ListFailed;
      }
      var files := drive;
      if files == [] {
        return NoFiles;
      }
      var outcomes: seq<FileOutcome> := [];
      var i := 0;
      while i < |files|
        invariant 0 <= i <= |files|
        invariant (Snapshot(), outcomes) == Run(old(Snapshot()), files[..i], attempts[..i])
      {
        var o := ProcessFile(files[i], attempts[i]);
        outcomes := outcomes + [o];
        assert files[..i + 1][..i] == files[..i] && attempts[..i + 1][..i] == attempts[..i];
        i := i + 1;
      }
      assert files[..i] == files && attempts[..i] == attempts;
      r := Processed(outcomes);
      assert SyncOnce(old(Snapshot()), listOk, attempts)
          == (Run(old(Snapshot()), files, attempts).0, Processed(Run(old(Snapshot()), files, attempts).1));
    }
  }
}
