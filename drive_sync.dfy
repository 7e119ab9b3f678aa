/** The Drive-to-Firebase sync pass as a function of the three stores: the specification
    that `DriveSyncPass.SyncService.UploadFilesToFirebase` is proved against, and the
    properties of that specification. */
module DriveSync {
  import opened Wrappers
  import opened Storage
  import opened DriveKeys

  /** One entry of the Drive folder listing, `{id, name}`. */
  datatype DriveFile = DriveFile(id: string, name: string)

  /** What the services answer for one listed file, fixed in advance: the downloaded
      bytes (or a failed download), whether the upload, the Firestore `set` and the
      Drive `delete` succeed, and the formatted `datetime.now()` of line 112. */
  datatype Attempt = Attempt(download: Option<Bytes>, uploadOk: bool, setOk: bool, deleteOk: bool, now: string)

  datatype Stage = Download | Upload | SetMetadata | DeleteFromDrive

  /** What happened to one listed file; each corresponds to one log line of the pass. */
  datatype FileOutcome = SkippedBlobExists | SkippedDocExists | Uploaded | Failed(stage: Stage)

  /** The object store (key to blob), the METADATA collection (name to document)
      and the Drive folder. */
  datatype Cloud = Cloud(blobs: map<string, Blob>, docs: map<string, MetadataDoc>, drive: seq<DriveFile>)

  /** The Drive folder after `files().delete(fileId=id)`. */
  function RemoveById(drive: seq<DriveFile>, id: string): (r: seq<DriveFile>)
    ensures forall f :: f in r <==> f in drive && f.id != id
  {
    if |drive| == 0 then []
    else if drive[0].id == id then RemoveById(drive[1..], id)
    else [drive[0]] + RemoveById(drive[1..], id)
  }

  /** True of outcomes after which the file's blob is in the store: the upload ran. */
  predicate Wrote(o: FileOutcome)
  {
    o == Uploaded || o == Failed(SetMetadata) || o == Failed(DeleteFromDrive)
  }

  /** True of outcomes the file reached through the existence checks or the upload:
      everything but a failed download or a failed upload. */
  predicate Settled(o: FileOutcome)
  {
    o != Failed(Download) && o != Failed(Upload)
  }

  /** A name either store already knows: the pass will skip it. */
  predicate Known(c: Cloud, name: string)
  {
    BlobPath(name) in c.blobs || name in c.docs
  }

  /** One iteration of the `for file in files` loop. */
  function Step(c: Cloud, f: DriveFile, a: Attempt): (r: (Cloud, FileOutcome))
    ensures Known(c, f.name) ==> r.0 == c && r.1 in {SkippedBlobExists, SkippedDocExists}
    ensures Settled(r.1) <==> Known(r.0, f.name)
    ensures r.1 == Uploaded ==> f !in r.0.drive
    ensures r.1 != Uploaded ==> r.0.drive == c.drive
  {
    var key := BlobPath(f.name);
    if key in c.blobs then (c, SkippedBlobExists)
    else if f.name in c.docs then (c, SkippedDocExists)
    else match a.download
      case None => (c, Failed(Download))
      case Some(bytes) =>
        if !a.uploadOk then (c, Failed(Upload))
        else
          var c1 := c.(blobs := c.blobs[key := Blob(bytes, ContentTypeOf(f.name), map[])]);
          if !a.setOk then (c1, Failed(SetMetadata))
          else
            var c2 := c1.(docs := c1.docs[f.name := MetadataDocFor(f.name, a.now)]);
            if !a.deleteOk then (c2, Failed(DeleteFromDrive))
            else (c2.(drive := RemoveById(c2.drive, f.id)), Uploaded)
  }

  /** The loop over the whole listing, one outcome per listed file. */
  function Run(c: Cloud, files: seq<DriveFile>, attempts: seq<Attempt>): (r: (Cloud, seq<FileOutcome>))
    requires |attempts| == |files|
    ensures |r.1| == |files|
    decreases |files|
  {
    if |files| == 0 then (c, [])
    else
      var n := |files| - 1;
      var prev := Run(c, files[..n], attempts[..n]);
      var next := Step(prev.0, files[n], attempts[n]);
      (next.0, prev.1 + [next.1])
  }

  /** `c1` keeps every blob and every document of `c0` unchanged, and the Drive
      folder of `c1` is part of that of `c0`. */
  ghost predicate Extends(c0: Cloud, c1: Cloud)
  {
    && (forall k :: k in c0.blobs ==> k in c1.blobs && c1.blobs[k] == c0.blobs[k])
    && (forall n :: n in c0.docs ==> n in c1.docs && c1.docs[n] == c0.docs[n])
    && (forall d :: d in c1.drive ==> d in c0.drive)
  }

  // ---------------------------------------------------------------------------
  // One file

  /** A blob at the key skips the file, and nothing changes. */
  lemma StepSkipsExistingBlob(c: Cloud, f: DriveFile, a: Attempt)
    requires "IMAGES/OG/" + f.name in c.blobs
    ensures Step(c, f, a) == (c, SkippedBlobExists)
  {
  }

  /** A document `METADATA/<name>` alone blocks the upload too. */
  lemma StepSkipsExistingDoc(c: Cloud, f: DriveFile, a: Attempt)
    requires "IMAGES/OG/" + f.name !in c.blobs && f.name in c.docs
    ensures Step(c, f, a) == (c, SkippedDocExists)
  {
  }

  /** A new file whose stages all succeed: its blob is added at `IMAGES/OG/<name>`, the
      document `<name>` is written with the five fields, the file leaves the Drive
      folder, and no other entry of any store changes. */
  lemma StepUploadsNewFile(c: Cloud, f: DriveFile, a: Attempt, bytes: Bytes)
    requires !Known(c, f.name)
    requires a.download == Some(bytes) && a.uploadOk && a.setOk && a.deleteOk
    ensures var (c', o) := Step(c, f, a);
      && o == Uploaded
      && c'.blobs == c.blobs["IMAGES/OG/" + f.name := Blob(bytes, ContentTypeOf(f.name), map[])]
      && c'.docs == c.docs[f.name := MetadataDoc(
           f.name,
           "gs://cloudproject-bda5e.appspot.com/IMAGES/OG/" + f.name,
           "gs://cloudproject-bda5e.appspot.com/IMAGES/THUMBNAILS/" + f.name + "_thumbnail.jpg",
           "",
           a.now)]
      && (forall d :: d in c'.drive <==> d in c.drive && d.id != f.id)
  {
    assert RecordedBucketUrl + BlobPath(f.name) == "gs://cloudproject-bda5e.appspot.com/IMAGES/OG/" + f.name;
    assert RecordedBucketUrl + ThumbPrefix + f.name + ThumbSuffix
        == "gs://cloudproject-bda5e.appspot.com/IMAGES/THUMBNAILS/" + f.name + "_thumbnail.jpg";
  }

  /** A failed download or upload leaves all three stores as they were: no document is
      written and the file stays in Drive. */
  lemma StepTransferFailureChangesNothing(c: Cloud, f: DriveFile, a: Attempt)
    requires !Known(c, f.name)
    requires a.download.None? || !a.uploadOk
    ensures Step(c, f, a) == (c, if a.download.None? then Failed(Download) else Failed(Upload))
  {
  }

  /** A failed document write leaves an orphaned blob: the blob is stored, no record
      exists for the name, and the file stays in Drive. */
  lemma StepSetFailureOrphansBlob(c: Cloud, f: DriveFile, a: Attempt)
    requires !Known(c, f.name)
    requires a.download.Some? && a.uploadOk && !a.setOk
    ensures var (c', o) := Step(c, f, a);
      && o == Failed(SetMetadata)
      && BlobPath(f.name) in c'.blobs && f.name !in c'.docs
      && c'.drive == c.drive
  {
  }

  /** A failed Drive delete keeps the blob and the record, and the file stays in Drive,
      so the next pass skips it. */
  lemma StepDeleteFailureKeepsFile(c: Cloud, f: DriveFile, a: Attempt)
    requires !Known(c, f.name)
    requires a.download.Some? && a.uploadOk && a.setOk && !a.deleteOk
    ensures var (c', o) := Step(c, f, a);
      && o == Failed(DeleteFromDrive)
      && BlobPath(f.name) in c'.blobs && f.name in c'.docs
      && c'.drive == c.drive
  {
  }

  /** A step touches only its own key, its own document and Drive entries with its own id,
      never overwrites an existing blob or document, and its outcome tells which stores it
      wrote. */
  lemma StepFrame(c: Cloud, f: DriveFile, a: Attempt)
    ensures var (c', o) := Step(c, f, a);
      && Extends(c, c')
      && (forall k :: k != BlobPath(f.name) ==> (k in c'.blobs <==> k in c.blobs))
      && (forall n :: n != f.name ==> (n in c'.docs <==> n in c.docs))
      && (forall d :: d in c.drive && d.id != f.id ==> d in c'.drive)
      && (Wrote(o) <==> BlobPath(f.name) in c'.blobs && BlobPath(f.name) !in c.blobs)
      && (Settled(o) <==> Known(c', f.name))
      && (o == Uploaded || o == Failed(DeleteFromDrive) ==> f.name in c'.docs && f.name !in c.docs)
      && (f in c'.drive <==> f in c.drive && o != Uploaded)
  {
  }

  // ---------------------------------------------------------------------------
  // The whole listing

  lemma ExtendsTransitive(c0: Cloud, c1: Cloud, c2: Cloud)
    requires Extends(c0, c1) && Extends(c1, c2)
    ensures Extends(c0, c2)
  {
  }

  /** The pass never removes or overwrites a blob or a document, and never adds a file
      to Drive: every blob and record, once created, stays as created. */
  lemma {:induction false} RunExtends(c: Cloud, files: seq<DriveFile>, attempts: seq<Attempt>)
    requires |attempts| == |files|
    ensures Extends(c, Run(c, files, attempts).0)
    decreases |files|
  {
    if |files| > 0 {
      var n := |files| - 1;
      var prev := Run(c, files[..n], attempts[..n]);
      RunExtends(c, files[..n], attempts[..n]);
      StepFrame(prev.0, files[n], attempts[n]);
      ExtendsTransitive(c, prev.0, Run(c, files, attempts).0);
    }
  }

  /** Running the first `j` files is the prefix of running them all. */
  lemma {:induction false} RunPrefix(c: Cloud, files: seq<DriveFile>, attempts: seq<Attempt>, j: nat)
    requires |attempts| == |files| && j <= |files|
    ensures Run(c, files[..j], attempts[..j]).1 == Run(c, files, attempts).1[..j]
    ensures Extends(Run(c, files[..j], attempts[..j]).0, Run(c, files, attempts).0)
    decreases |files| - j
  {
    if j == |files| {
      assert files[..j] == files && attempts[..j] == attempts;
      RunExtends(c, files, attempts);
    } else {
      var n := |files| - 1;
      assert files[..n][..j] == files[..j] && attempts[..n][..j] == attempts[..j];
      RunPrefix(c, files[..n], attempts[..n], j);
      var prev := Run(c, files[..n], attempts[..n]);
      StepFrame(prev.0, files[n], attempts[n]);
      ExtendsTransitive(Run(c, files[..j], attempts[..j]).0, prev.0, Run(c, files, attempts).0);
    }
  }

  /** The outcome of file `j` is that of its step from the state the files before it left. */
  lemma RunOutcomeAt(c: Cloud, files: seq<DriveFile>, attempts: seq<Attempt>, j: nat)
    requires |attempts| == |files| && j < |files|
    ensures var before := Run(c, files[..j], attempts[..j]).0;
      Run(c, files, attempts).1[j] == Step(before, files[j], attempts[j]).1
      && Extends(Step(before, files[j], attempts[j]).0, Run(c, files, attempts).0)
  {
    var fs, ats := files[..j + 1], attempts[..j + 1];
    assert fs[..j] == files[..j] && ats[..j] == attempts[..j];
    var prev := Run(c, files[..j], attempts[..j]);
    var step := Step(prev.0, files[j], attempts[j]);
    assert Run(c, fs, ats) == (step.0, prev.1 + [step.1]);
    RunPrefix(c, files, attempts, j + 1);
    assert Run(c, files, attempts).1[j] == Run(c, fs, ats).1[j];
  }

  /** An empty listing changes no store. */
  lemma RunEmpty(c: Cloud)
    ensures Run(c, [], []) == (c, [])
  {
  }

  /** Within one listing a name is uploaded at most once: after the upload of file `i`,
      a later file with the same name finds the blob and is skipped. */
  lemma RunUploadsNameOnce(c: Cloud, files: seq<DriveFile>, attempts: seq<Attempt>, i: nat, j: nat)
    requires |attempts| == |files| && i < j < |files|
    requires files[i].name == files[j].name
    requires Wrote(Run(c, files, attempts).1[i])
    ensures Run(c, files, attempts).1[j] == SkippedBlobExists
  {
    var outs := Run(c, files, attempts).1;
    RunPrefix(c, files, attempts, j);
    var fj := files[..j];
    var aj := attempts[..j];
    assert fj[i] == files[i] && aj[i] == attempts[i];
    RunOutcomeAt(c, fj, aj, i);
    assert Run(c, fj, aj).1[i] == outs[i];
    var before := Run(c, fj[..i], aj[..i]).0;
    StepFrame(before, fj[i], aj[i]);
    RunOutcomeAt(c, files, attempts, j);
  }

  /** The names of a listing. */
  function Names(files: seq<DriveFile>): (s: set<string>)
    ensures forall n :: n in s <==> exists i :: 0 <= i < |files| && files[i].name == n
  {
    set i | 0 <= i < |files| :: files[i].name
  }

  /** The ids of a listing. */
  function Ids(files: seq<DriveFile>): (s: set<string>)
    ensures forall id :: id in s <==> exists i :: 0 <= i < |files| && files[i].id == id
  {
    set i | 0 <= i < |files| :: files[i].id
  }

  /** Nothing else changes: keys of names outside the listing, documents of names outside
      it and Drive files whose id is not listed are left exactly as they were. */
  lemma {:induction false} RunFrame(c: Cloud, files: seq<DriveFile>, attempts: seq<Attempt>)
    requires |attempts| == |files|
    ensures var c' := Run(c, files, attempts).0;
      && (forall n :: n !in Names(files) ==> (BlobPath(n) in c'.blobs <==> BlobPath(n) in c.blobs))
      && (forall k :: (forall n :: k != BlobPath(n)) ==> (k in c'.blobs <==> k in c.blobs))
      && (forall n :: n !in Names(files) ==> (n in c'.docs <==> n in c.docs))
      && (forall d :: d in c.drive && d.id !in Ids(files) ==> d in c'.drive)
    decreases |files|
  {
    if |files| > 0 {
      var n := |files| - 1;
      var f := files[n];
      var prev := Run(c, files[..n], attempts[..n]);
      var next := Step(prev.0, f, attempts[n]);
      assert Run(c, files, attempts).0 == next.0;
      RunFrame(c, files[..n], attempts[..n]);
      StepFrame(prev.0, f, attempts[n]);
      forall m | m !in Names(files)
        ensures m !in Names(files[..n]) && m != f.name
      {
      }
      forall d: DriveFile | d.id !in Ids(files)
        ensures d.id !in Ids(files[..n]) && d.id != f.id
      {
      }
      forall m | m != f.name
        ensures BlobPath(m) != BlobPath(f.name)
      {
        BlobPathInjective(m, f.name);
      }
    }
  }

  /** Per-file failure isolation: a listed file whose name no store knows and no earlier
      listed file carries, and whose own stages succeed, is uploaded, recorded and
      removed from Drive whatever happened to the files around it. */
  lemma RunUploadsFreshFile(c: Cloud, files: seq<DriveFile>, attempts: seq<Attempt>, j: nat, bytes: Bytes)
    requires |attempts| == |files| && j < |files|
    requires !Known(c, files[j].name)
    requires forall i :: 0 <= i < j ==> files[i].name != files[j].name
    requires attempts[j].download == Some(bytes)
    requires attempts[j].uploadOk && attempts[j].setOk && attempts[j].deleteOk
    ensures var (c', outs) := Run(c, files, attempts);
      && outs[j] == Uploaded
      && BlobPath(files[j].name) in c'.blobs
      && c'.blobs[BlobPath(files[j].name)] == Blob(bytes, ContentTypeOf(files[j].name), map[])
      && files[j].name in c'.docs
      && c'.docs[files[j].name] == MetadataDocFor(files[j].name, attempts[j].now)
      && files[j] !in c'.drive
  {
    var f := files[j];
    var before := Run(c, files[..j], attempts[..j]).0;
    RunFrame(c, files[..j], attempts[..j]);
    assert f.name !in Names(files[..j]);
    assert !Known(before, f.name);
    RunOutcomeAt(c, files, attempts, j);
    StepUploadsNewFile(before, f, attempts[j], bytes);
  }

  /** After a pass, every listed file that got past its download and upload has a name
      one of the stores knows. */
  lemma RunSettledNamesKnown(c: Cloud, files: seq<DriveFile>, attempts: seq<Attempt>, i: nat)
    requires |attempts| == |files| && i < |files|
    requires Settled(Run(c, files, attempts).1[i])
    ensures Known(Run(c, files, attempts).0, files[i].name)
  {
    var before := Run(c, files[..i], attempts[..i]).0;
    RunOutcomeAt(c, files, attempts, i);
    StepFrame(before, files[i], attempts[i]);
  }

  /** A listing whose every name is known is a pass that skips everything and changes
      nothing. */
  lemma {:induction false} RunOverKnownNames(c: Cloud, files: seq<DriveFile>, attempts: seq<Attempt>)
    requires |attempts| == |files|
    requires forall i :: 0 <= i < |files| ==> Known(c, files[i].name)
    ensures Run(c, files, attempts).0 == c
    ensures forall i :: 0 <= i < |files| ==>
      Run(c, files, attempts).1[i] in {SkippedBlobExists, SkippedDocExists}
    decreases |files|
  {
    if |files| > 0 {
      var n := |files| - 1;
      RunOverKnownNames(c, files[..n], attempts[..n]);
    }
  }

  /** Idempotence: re-running the pass over the same listing, whatever the services
      answer the second time, adds and changes nothing, once every file of the first
      run got past its download and upload. */
  lemma RerunChangesNothing(c: Cloud, files: seq<DriveFile>, first: seq<Attempt>, second: seq<Attempt>)
    requires |first| == |files| && |second| == |files|
    requires forall i :: 0 <= i < |files| ==> Settled(Run(c, files, first).1[i])
    ensures var c1 := Run(c, files, first).0;
      Run(c1, files, second).0 == c1
  {
    var c1 := Run(c, files, first).0;
    forall i | 0 <= i < |files|
      ensures Known(c1, files[i].name)
    {
      RunSettledNamesKnown(c, files, first, i);
    }
    RunOverKnownNames(c1, files, second);
  }

  /** No document without its blob: every record the pass writes has its blob stored. */
  lemma {:induction false} RunRecordsHaveBlobs(c: Cloud, files: seq<DriveFile>, attempts: seq<Attempt>)
    requires |attempts| == |files|
    ensures var c' := Run(c, files, attempts).0;
      forall n :: n in c'.docs && n !in c.docs ==> BlobPath(n) in c'.blobs
    decreases |files|
  {
    if |files| > 0 {
      var n := |files| - 1;
      var prev := Run(c, files[..n], attempts[..n]);
      var c' := Run(c, files, attempts).0;
      assert c' == Step(prev.0, files[n], attempts[n]).0;
      RunRecordsHaveBlobs(c, files[..n], attempts[..n]);
      StepFrame(prev.0, files[n], attempts[n]);
      forall m | m in c'.docs && m !in c.docs
        ensures BlobPath(m) in c'.blobs
      {
        if m in prev.0.docs {
          assert BlobPath(m) in prev.0.blobs;
        }
      }
    }
  }

  /** No data loss: a file leaves the Drive folder only after its blob and its record
      are both stored. */
  lemma {:induction false} RunDeletesOnlyRecorded(c: Cloud, files: seq<DriveFile>, attempts: seq<Attempt>)
    requires |attempts| == |files|
    ensures var c' := Run(c, files, attempts).0;
      forall d :: d in c.drive && d !in c'.drive ==>
        (exists i :: 0 <= i < |files| && files[i].id == d.id
           && BlobPath(files[i].name) in c'.blobs && files[i].name in c'.docs)
    decreases |files|
  {
    if |files| > 0 {
      var n := |files| - 1;
      var prev := Run(c, files[..n], attempts[..n]);
      var c' := Run(c, files, attempts).0;
      RunDeletesOnlyRecorded(c, files[..n], attempts[..n]);
      StepFrame(prev.0, files[n], attempts[n]);
      forall d | d in c.drive && d !in c'.drive
        ensures (exists i :: 0 <= i < |files| && files[i].id == d.id
                   && BlobPath(files[i].name) in c'.blobs && files[i].name in c'.docs)
      {
        if d in prev.0.drive {
          assert files[n].id == d.id;
          assert BlobPath(files[n].name) in c'.blobs && files[n].name in c'.docs;
        } else {
          var i :| 0 <= i < n && files[..n][i].id == d.id
            && BlobPath(files[..n][i].name) in prev.0.blobs && files[..n][i].name in prev.0.docs;
          assert files[i] == files[..n][i];
        }
      }
    }
  }
}
