/**
 * Adding a remark to a ticket: the remark row first, then each attached
 * file uploaded under a generated path and recorded as an image row, and
 * when the "Add Remark" button is enabled. The store, the file storage and
 * the identifier generator are parameters: `uuid(i)` is the identifier
 * drawn for the `i`-th file, `uploadError(i)` and `imageError(i)` what the
 * upload and the image insert for it report.
 */
module TicketRemarks {
  import opened Wrappers
  import Text
  import FileUpload

  /** The size limit the remark form gives the picker: twenty-five mebibytes. */
  const RemarkMaxSize: nat := 25 * FileUpload.MiB

  datatype RemarkInsert = RemarkInsert(ticketId: string, technicianId: string, remarkText: string)

  datatype ImageRow = ImageRow(ticketId: string, name: string, path: string)

  /** The file's extension: the text after its last dot, or the whole name when it has none. */
  function Extension(name: string): (r: string)
    ensures |r| <= |name| && r == name[|name| - |r|..]
    ensures |r| < |name| ==> name[|name| - |r| - 1] == '.'
  {
    match Text.SplitLast(name, '.')
    case None => name
    case Some((stem, ext)) =>
      assert name == stem + ['.'] + ext;
      assert name[|name| - |ext|..] == ext && name[|name| - |ext| - 1] == '.';
      ext
  }

  /**
   * The extension holds no dot; a name without a dot is its own extension,
   * and a name with one is some stem, a dot and the extension.
   */
  lemma ExtensionParts(name: string)
    ensures '.' !in Extension(name)
    ensures '.' !in name ==> Extension(name) == name
    ensures '.' in name ==> exists stem :: name == stem + "." + Extension(name)
  {
    match Text.SplitLast(name, '.')
    case None =>
    case Some((stem, ext)) => assert name == stem + "." + ext;
  }

  /** Where an attachment is stored: the ticket's folder, the drawn identifier, the name's extension. */
  function AttachmentPath(ticketId: string, id: string, name: string): (r: string)
    ensures Text.StartsWith(r, ticketId + "/" + id + ".")
    ensures r[|ticketId + "/" + id + "."|..] == Extension(name)
  {
    var r := ticketId + "/" + id + "." + Extension(name);
    assert r[..|ticketId + "/" + id + "."|] == ticketId + "/" + id + ".";
    assert r[|ticketId + "/" + id + "."|..] == Extension(name);
    r
  }

  /**
   * A stored path starts with the ticket's folder, and splitting it at its
   * last dot gives back the folder and identifier, and the file's extension.
   */
  lemma PathParts(ticketId: string, id: string, name: string)
    ensures Text.StartsWith(AttachmentPath(ticketId, id, name), ticketId + "/")
    ensures Text.SplitLast(AttachmentPath(ticketId, id, name), '.') == Some((ticketId + "/" + id, Extension(name)))
    ensures Extension(AttachmentPath(ticketId, id, name)) == Extension(name)
  {
    ExtensionParts(name);
    JoinedPath(ticketId + "/", id, Extension(name));
  }

  /** A folder, an identifier, a dot and a dot-free extension, joined, split back into their parts. */
  lemma JoinedPath(dir: string, id: string, e: string)
    requires '.' !in e
    ensures Text.StartsWith(dir + id + "." + e, dir)
    ensures Text.SplitLast(dir + id + "." + e, '.') == Some((dir + id, e))
    ensures Extension(dir + id + "." + e) == e
  {
    var r := dir + id + "." + e;
    assert r == dir + (id + "." + e);
    assert r[..|dir|] == dir;
    assert r == (dir + id) + ['.'] + e;
    Text.SplitLastConcat(dir + id, '.', e);
  }

  /** The paths drawn for the files, in order. */
  function Paths(ticketId: string, files: seq<FileUpload.File>, uuid: nat -> string): (r: seq<string>)
    ensures |r| == |files|
    ensures forall j :: 0 <= j < |files| ==> r[j] == AttachmentPath(ticketId, uuid(j), files[j].name)
  {
    seq(|files|, j requires 0 <= j < |files| => AttachmentPath(ticketId, uuid(j), files[j].name))
  }

  /** The uploads done and image rows written for files `i..`, and the error that stopped them, if any. */
  datatype UploadRun = UploadRun(uploaded: seq<string>, images: seq<ImageRow>, error: Option<string>)

  /** Files `lo..hi` upload and record without error. */
  predicate AllSucceed(lo: nat, hi: nat, uploadError: nat -> Option<string>, imageError: nat -> Option<string>) {
    forall j :: lo <= j < hi ==> uploadError(j).None? && imageError(j).None?
  }

  /**
   * The upload loop from file `i` on: each file is uploaded to its path,
   * then recorded; the first failure of either stops the loop with that
   * error.
   */
  function Upload(ticketId: string, files: seq<FileUpload.File>, paths: seq<string>, i: nat,
                  uploadError: nat -> Option<string>, imageError: nat -> Option<string>): (r: UploadRun)
    requires |paths| == |files| && i <= |files|
    decreases |files| - i
    ensures |r.images| <= |r.uploaded| <= |r.images| + 1 && i + |r.uploaded| <= |files|
    ensures r.error.None? ==> |r.images| == |r.uploaded| == |files| - i
  {
    if i == |files| then UploadRun([], [], None)
    else if uploadError(i).Some? then UploadRun([], [], uploadError(i))
    else if imageError(i).Some? then UploadRun([paths[i]], [], imageError(i))
    else
      var rest := Upload(ticketId, files, paths, i + 1, uploadError, imageError);
      UploadRun([paths[i]] + rest.uploaded, [ImageRow(ticketId, files[i].name, paths[i])] + rest.images, rest.error)
  }

  /** The run's uploads go to the paths of files `i..`, and its image rows record those files' names and paths. */
  predicate WritesMatch(ticketId: string, files: seq<FileUpload.File>, paths: seq<string>, i: nat, r: UploadRun)
    requires |paths| == |files|
  {
    i + |r.uploaded| <= |files| && |r.images| <= |r.uploaded| &&
    r.uploaded == paths[i..i + |r.uploaded|] &&
    (forall k :: 0 <= k < |r.images| ==> r.images[k] == ImageRow(ticketId, files[i + k].name, r.uploaded[k]))
  }

  /** Each upload goes to its file's path, and each image row records that file's name and path. */
  lemma {:induction false} UploadWrites(ticketId: string, files: seq<FileUpload.File>, paths: seq<string>, i: nat,
                                        uploadError: nat -> Option<string>, imageError: nat -> Option<string>)
    requires |paths| == |files| && i <= |files|
    decreases |files| - i
    ensures WritesMatch(ticketId, files, paths, i, Upload(ticketId, files, paths, i, uploadError, imageError))
  {
    if i < |files| && uploadError(i).None? && imageError(i).None? {
      UploadWrites(ticketId, files, paths, i + 1, uploadError, imageError);
      var rest := Upload(ticketId, files, paths, i + 1, uploadError, imageError);
      var r := Upload(ticketId, files, paths, i, uploadError, imageError);
      assert r.uploaded == [paths[i]] + rest.uploaded && r.images == [ImageRow(ticketId, files[i].name, paths[i])] + rest.images;
      var j := i + 1 + |rest.uploaded|;
      assert rest.uploaded == paths[i + 1..j];
      assert paths[i..j] == [paths[i]] + paths[i + 1..j];
      forall k | 1 <= k < |r.images|
        ensures r.images[k] == ImageRow(ticketId, files[i + k].name, r.uploaded[k])
      {
        assert r.images[k] == rest.images[k - 1] && r.uploaded[k] == rest.uploaded[k - 1];
        assert i + k == (i + 1) + (k - 1);
      }
    }
  }

  /**
   * The loop ends without error exactly when every file uploads and
   * records; otherwise it stops at the first file that fails, after the
   * upload when only the image row failed, with that failure's error.
   */
  lemma {:induction false} UploadStops(ticketId: string, files: seq<FileUpload.File>, paths: seq<string>, i: nat,
                                       uploadError: nat -> Option<string>, imageError: nat -> Option<string>)
    requires |paths| == |files| && i <= |files|
    decreases |files| - i
    ensures var r := Upload(ticketId, files, paths, i, uploadError, imageError);
      AllSucceed(i, i + |r.images|, uploadError, imageError) &&
      (r.error.None? <==> AllSucceed(i, |files|, uploadError, imageError)) &&
      (r.error.Some? ==>
         var f := i + |r.images|;
         f < |files| &&
         ((|r.uploaded| == |r.images| && r.error == uploadError(f)) ||
          (|r.uploaded| == |r.images| + 1 && uploadError(f).None? && r.error == imageError(f))))
  {
    if i < |files| && uploadError(i).None? && imageError(i).None? {
      UploadStops(ticketId, files, paths, i + 1, uploadError, imageError);
    }
  }

  /** The whole upload loop, from the first file, with the drawn paths. */
  lemma UploadFromStart(ticketId: string, files: seq<FileUpload.File>, uuid: nat -> string,
                        uploadError: nat -> Option<string>, imageError: nat -> Option<string>)
    ensures var r := Upload(ticketId, files, Paths(ticketId, files, uuid), 0, uploadError, imageError);
      && |r.uploaded| <= |files| && |r.images| <= |r.uploaded| <= |r.images| + 1
      && (forall k :: 0 <= k < |r.uploaded| ==> r.uploaded[k] == AttachmentPath(ticketId, uuid(k), files[k].name))
      && (forall k :: 0 <= k < |r.images| ==> r.images[k] == ImageRow(ticketId, files[k].name, r.uploaded[k]))
      && (r.error.None? <==> AllSucceed(0, |files|, uploadError, imageError))
      && (r.error.None? ==> |r.images| == |files|)
  {
    var paths := Paths(ticketId, files, uuid);
    var r := Upload(ticketId, files, paths, 0, uploadError, imageError);
    UploadStops(ticketId, files, paths, 0, uploadError, imageError);
    UploadWrites(ticketId, files, paths, 0, uploadError, imageError);
    assert r.uploaded == paths[0..|r.uploaded|];
    forall k | 0 <= k < |r.uploaded|
      ensures r.uploaded[k] == AttachmentPath(ticketId, uuid(k), files[k].name)
    {
      assert r.uploaded[k] == paths[k];
    }
    forall k | 0 <= k < |r.images|
      ensures r.images[k] == ImageRow(ticketId, files[k].name, r.uploaded[k])
    {
      assert r.images[k] == ImageRow(ticketId, files[0 + k].name, r.uploaded[k]);
    }
  }

  /** The form after a submit: what was written, the text and files left in it, and the toast. */
  datatype Outcome = Outcome(
    remark: Option<RemarkInsert>, uploaded: seq<string>, images: seq<ImageRow>,
    remarkAfter: string, filesAfter: seq<FileUpload.File>, toast: string)

  /**
   * The add-remark mutation: the remark row is inserted first and its
   * failure stops everything; the files follow in order; only a run without
   * any error clears the form.
   */
  function Submit(ticketId: string, technicianId: string, remark: string, files: seq<FileUpload.File>,
                  insertError: Option<string>, uuid: nat -> string,
                  uploadError: nat -> Option<string>, imageError: nat -> Option<string>): (r: Outcome)
    ensures insertError.Some? ==>
              r == Outcome(None, [], [], remark, files, "Failed to add remark: " + insertError.value)
    ensures insertError.None? ==> r.remark == Some(RemarkInsert(ticketId, technicianId, remark))
    ensures insertError.None? ==>
              |r.uploaded| <= |files| && |r.images| <= |r.uploaded| <= |r.images| + 1 &&
              (forall k :: 0 <= k < |r.uploaded| ==> r.uploaded[k] == AttachmentPath(ticketId, uuid(k), files[k].name)) &&
              (forall k :: 0 <= k < |r.images| ==> r.images[k] == ImageRow(ticketId, files[k].name, r.uploaded[k]))
    ensures r.toast == "Remark added successfully" <==> insertError.None? && AllSucceed(0, |files|, uploadError, imageError)
    ensures r.toast == "Remark added successfully" ==> r.remarkAfter == "" && r.filesAfter == [] && |r.images| == |files|
    ensures r.toast != "Remark added successfully" ==> r.remarkAfter == remark && r.filesAfter == files
  {
    if insertError.Some? then
      assert ("Failed to add remark: " + insertError.value)[0] == 'F';
      Outcome(None, [], [], remark, files, "Failed to add remark: " + insertError.value)
    else
      var row := RemarkInsert(ticketId, technicianId, remark);
      var run := Upload(ticketId, files, Paths(ticketId, files, uuid), 0, uploadError, imageError);
      UploadFromStart(ticketId, files, uuid, uploadError, imageError);
      match run.error
      case Some(e) =>
        assert ("Failed to add remark: " + e)[0] == 'F';
        Outcome(Some(row), run.uploaded, run.images, remark, files, "Failed to add remark: " + e)
      case None => Outcome(Some(row), run.uploaded, run.images, "", [], "Remark added successfully")
  }

  /** "Add Remark" is enabled when there is remark text or at least one file. */
  predicate CanSubmit(remark: string, files: seq<FileUpload.File>): (r: bool)
    ensures r <==> |files| > 0 || exists i :: 0 <= i < |remark| && !Text.IsSpace(remark[i])
  {
    !Text.IsBlank(remark) || |files| > 0
  }

  /** A successful submit leaves the button disabled until something new is entered. */
  lemma SuccessDisables(ticketId: string, technicianId: string, remark: string, files: seq<FileUpload.File>,
                        uuid: nat -> string, uploadError: nat -> Option<string>, imageError: nat -> Option<string>)
    requires AllSucceed(0, |files|, uploadError, imageError)
    ensures var r := Submit(ticketId, technicianId, remark, files, None, uuid, uploadError, imageError);
      !CanSubmit(r.remarkAfter, r.filesAfter)
  {
  }

  /** A failed remark insert touches no file: nothing is uploaded and no image row is written. */
  lemma InsertFirst(ticketId: string, technicianId: string, remark: string, files: seq<FileUpload.File>, e: string,
                    uuid: nat -> string, uploadError: nat -> Option<string>, imageError: nat -> Option<string>)
    ensures var r := Submit(ticketId, technicianId, remark, files, Some(e), uuid, uploadError, imageError);
      r.remark.None? && r.uploaded == [] && r.images == []
  {
  }
}
