/**
 * The attachment picker: which chosen files are accepted, the warning about
 * the rest, and removing a file from the list. A file is its name and its
 * size in bytes; the contents never matter here.
 */
module FileUpload {
  import opened Wrappers
  import Seqs
  import Text

  datatype File = File(name: string, size: nat)

  const MiB: nat := 1024 * 1024

  /** The size limit when the caller gives none: five mebibytes. */
  const DefaultMaxSize: nat := 5 * MiB

  /** The files the size check lets through, in the order chosen. */
  function Accepted(selected: seq<File>, maxSize: nat): (r: seq<File>)
    ensures forall i :: 0 <= i < |r| ==> r[i] in selected && r[i].size <= maxSize
    ensures forall i :: 0 <= i < |selected| && selected[i].size <= maxSize ==> selected[i] in r
  {
    Seqs.Filter(selected, (f: File) => f.size <= maxSize)
  }

  /**
   * The warning's text. The limit is shown in whole mebibytes, which is
   * what both uses of the picker pass.
   */
  function TooLargeMessage(maxSize: nat): (r: string)
    ensures Text.StartsWith(r, TooLargePrefix)
    ensures Text.EndsWith(r, "MB")
    ensures |r| > |TooLargePrefix| + 2
    ensures var mid := r[|TooLargePrefix|..|r| - 2];
      (forall i :: 0 <= i < |mid| ==> Text.IsDigit(mid[i])) && Text.DecimalValue(mid) == maxSize / MiB
  {
    var r := TooLargePrefix + Text.Decimal(maxSize / MiB) + "MB";
    assert r[|TooLargePrefix|..|r| - 2] == Text.Decimal(maxSize / MiB);
    Text.DecimalRoundTrip(maxSize / MiB);
    r
  }

  const TooLargePrefix: string := "Some files were too large. Maximum size is "

  /** Without a limit from the caller the warning names five megabytes. */
  lemma DefaultTooLargeMessage()
    ensures TooLargeMessage(DefaultMaxSize) == "Some files were too large. Maximum size is 5MB"
  {
    assert DefaultMaxSize / MiB == 5;
  }

  /** The list after a choice, and the warning shown with it, if any. */
  datatype Choice = Choice(files: seq<File>, warning: Option<string>)

  /**
   * `handleFileChange`: the accepted files are appended to the list; the
   * warning is shown when the check dropped at least one.
   */
  function Choose(files: seq<File>, selected: seq<File>, maxSize: nat): (r: Choice)
    ensures r.files == files + Accepted(selected, maxSize)
    ensures r.files[..|files|] == files
    ensures r.warning.Some? ==> r.warning.value == TooLargeMessage(maxSize)
  {
    var ok := Accepted(selected, maxSize);
    Choice(files + ok, if |ok| < |selected| then Some(TooLargeMessage(maxSize)) else None)
  }

  /** The warning appears exactly when some chosen file is over the limit. */
  lemma WarningIffTooLarge(files: seq<File>, selected: seq<File>, maxSize: nat)
    ensures Choose(files, selected, maxSize).warning.Some? <==>
            exists i :: 0 <= i < |selected| && selected[i].size > maxSize
  {
  }

  /** A choice of files that all fit adds all of them, in order, with no warning. */
  lemma AllFitAllAdded(files: seq<File>, selected: seq<File>, maxSize: nat)
    requires forall i :: 0 <= i < |selected| ==> selected[i].size <= maxSize
    ensures Choose(files, selected, maxSize) == Choice(files + selected, None)
  {
    Seqs.FilterAll(selected, (f: File) => f.size <= maxSize);
  }

  /**
   * `removeFile`: removes the file at `index` and keeps the others in order;
   * an index past the end removes nothing.
   */
  function Remove(files: seq<File>, index: nat): (r: seq<File>)
    ensures index < |files| ==> |r| == |files| - 1
    ensures index >= |files| ==> r == files
    ensures forall j :: 0 <= j < |r| ==> r[j] == (if j < index then files[j] else files[j + 1])
  {
    if index < |files| then files[..index] + files[index + 1..] else files
  }

  /** Removing the file just added restores the list. */
  lemma RemoveUndoesAdd(files: seq<File>, f: File)
    ensures Remove(files + [f], |files|) == files
  {
  }

  /** A removed file leaves the count of that file one lower, so no other entry is lost. */
  lemma RemoveOne(files: seq<File>, index: nat)
    requires index < |files|
    ensures multiset(Remove(files, index)) + multiset{files[index]} == multiset(files)
  {
    assert files == files[..index] + [files[index]] + files[index + 1..];
  }
}
