/**
 The submission creator: where the student IDs come from, the archive it
 writes (`<first ID>.zip` holding `ids.txt` and the copied `ex4` files), the
 structure check it runs on that archive, and its exit status. Copying the
 source tree and writing the archive are not modelled; the files the copy
 step produced are an input.
 */
module Submission {
  import opened Wrappers
  import opened Text
  import opened Archive
  import opened StudentIds
  import Harness

  /** The ID options of the creator's command line: `--id` and `--ids`. */
  datatype IdArgs = IdArgs(id: Option<string>, ids: Option<seq<string>>)

  /** The IDs before validation: `--id` when non-empty, else `--ids` when
      non-empty, else what the user types (given as the lines typed). */
  method ReadStudentIds(args: IdArgs, lines: seq<string>) returns (raw: seq<string>)
    ensures Truthy(args.id) ==> raw == [args.id.value]
    ensures !Truthy(args.id) && args.ids.Some? && args.ids.value != [] ==> raw == args.ids.value
    ensures !Truthy(args.id) && (args.ids.None? || args.ids.value == []) ==> raw == Collected(lines)
  {
    if Truthy(args.id) {
      raw := [args.id.value];
    } else if args.ids.Some? && args.ids.value != [] {
      raw := args.ids.value;
    } else {
      raw := CollectInteractive(lines);
    }
  }

  /** The IDs the creator ends up with, after validation. */
  function ChosenIds(args: IdArgs, lines: seq<string>): (ids: seq<string>)
    ensures |ids| <= if Truthy(args.id) then 1
                     else if args.ids.Some? && args.ids.value != [] then |args.ids.value|
                     else |lines|
  {
    if Truthy(args.id) then ValidIds([args.id.value])
    else if args.ids.Some? && args.ids.value != [] then ValidIds(args.ids.value)
    else ValidIds(Collected(lines))
  }

  /** A single `--id` is kept, stripped, exactly when it is all digits. */
  lemma SingleIdChosen(args: IdArgs, lines: seq<string>)
    requires Truthy(args.id)
    ensures IsDigits(Strip(args.id.value)) ==> ChosenIds(args, lines) == [Strip(args.id.value)]
    ensures !IsDigits(Strip(args.id.value)) ==> ChosenIds(args, lines) == []
  {
    var one := [args.id.value];
    assert one[1..] == [];
  }

  /** Validating interactively collected IDs changes nothing. */
  lemma InteractiveIdsUnchanged(args: IdArgs, lines: seq<string>)
    requires !Truthy(args.id) && (args.ids.None? || args.ids.value == [])
    ensures ChosenIds(args, lines) == Collected(lines)
  {
    CollectedIsValid(lines);
  }

  /** The IDs the creator ends up with are digit strings. */
  lemma ChosenIdsAreNumeric(args: IdArgs, lines: seq<string>)
    ensures AllNumeric(ChosenIds(args, lines))
  {
    if Truthy(args.id) {
      ValidIdsAreNumeric([args.id.value]);
    } else if args.ids.Some? && args.ids.value != [] {
      ValidIdsAreNumeric(args.ids.value);
    } else {
      ValidIdsAreNumeric(Collected(lines));
    }
  }

  /** The archive's file name: the first ID with `.zip` appended. */
  function ArchiveName(primary: string): (name: string)
    ensures |name| == |primary| + 4 && name[..|primary|] == primary && name[|primary|..] == ".zip"
  {
    primary + ".zip"
  }

  /** The archive entries: `ids.txt`, then every copied file under `ex4/`. */
  function Entries(copied: seq<string>): (names: seq<string>)
    ensures |names| == |copied| + 1 && names[0] == IdsFile
    ensures forall k :: 0 <= k < |copied| ==> names[k + 1] == SourceDir + copied[k]
  {
    [IdsFile] + seq(|copied|, k requires 0 <= k < |copied| => SourceDir + copied[k])
  }

  /** A created archive: its file name, its `ids.txt` and its entry names. */
  datatype CreatedZip = CreatedZip(name: string, idsText: string, names: seq<string>)

  /** Why the archive could not be created. */
  datatype CreateError = NoStudentIds

  /** Writing the archive: refused for an empty ID list, otherwise named after
      the first ID, with one `ids.txt` line per ID and the copied files. */
  method CreateSubmissionZip(ids: seq<string>, copied: seq<string>) returns (r: Result<CreatedZip, CreateError>)
    ensures r.Failure? <==> ids == []
    ensures r.Success? ==>
      && r.value.name == ArchiveName(ids[0])
      && r.value.idsText == IdsFileText(ids)
      && r.value.names == Entries(copied)
  {
    if ids == [] {
      return Failure(NoStudentIds);
    }
    var text := "";
    for i := 0 to |ids|
      invariant text + IdsFileText(ids[i..]) == IdsFileText(ids)
    {
      assert ids[i..][1..] == ids[i + 1..];
      text := text + ids[i] + "\n";
    }
    assert ids[|ids|..] == [];
    var names := [IdsFile];
    for k := 0 to |copied|
      invariant names == Entries(copied[..k])
    {
      names := names + [SourceDir + copied[k]];
    }
    assert copied[..|copied|] == copied;
    return Success(CreatedZip(ArchiveName(ids[0]), text, names));
  }

  /** The creator's check of the archive it wrote: the same three conditions,
      in the same order, as the test runner's. */
  function VerifyZipContents(names: seq<string>): (ok: bool)
    ensures ok <==>
      && IdsFile in names
      && (exists n :: n in names && StartsWith(n, SourceDir))
      && Makefile in names
  {
    CheckStructure(names).Valid?
  }

  /** A copied top-level `Makefile` becomes the entry `ex4/Makefile`. */
  lemma MakefileCopied(copied: seq<string>)
    requires "Makefile" in copied
    ensures Makefile in Entries(copied)
  {
    var k :| 0 <= k < |copied| && copied[k] == "Makefile";
    assert Entries(copied)[k + 1] == Makefile;
  }

  /** The entry `ex4/Makefile` comes from a copied top-level `Makefile`. */
  lemma MakefileFromCopy(copied: seq<string>)
    requires Makefile in Entries(copied)
    ensures "Makefile" in copied
  {
    var names := Entries(copied);
    var j :| 0 <= j < |names| && names[j] == Makefile;
    assert names[0] == IdsFile != Makefile;
    assert names[j] == SourceDir + copied[j - 1];
    assert copied[j - 1] == Makefile[|SourceDir|..] == "Makefile";
  }

  /** A freshly written archive passes the check iff the copy step produced a
      top-level `Makefile`. */
  lemma CreatedArchiveVerifies(copied: seq<string>)
    ensures VerifyZipContents(Entries(copied)) <==> "Makefile" in copied
  {
    var names := Entries(copied);
    assert names[0] == IdsFile;
    if "Makefile" in copied {
      MakefileCopied(copied);
      MakefileImpliesSourceDir(names);
    }
    if Makefile in names {
      MakefileFromCopy(copied);
    }
  }

  /** What the test runner sees when it is given an archive the creator wrote
      for a non-empty list of numeric IDs, with a Makefile among the copied
      files: it accepts the archive and lists exactly those IDs. */
  lemma SubmissionAcceptedByRunner(ids: seq<string>, copied: seq<string>)
    requires ids != [] && AllNumeric(ids) && "Makefile" in copied
    ensures Harness.ExtractSubmission(Harness.ZipArchive(Entries(copied), Some(IdsFileText(ids)))) == Success(ids)
  {
    var names := Entries(copied);
    CreatedArchiveVerifies(copied);
    assert CheckStructure(names).Valid?;
    Harness.ExtractAccepted(names, IdsFileText(ids));
    ShownIdsRoundTrip(ids);
  }

  /** The creator's `main`, from the point where the `ex4` directory has been
      checked: 0 when the archive was written and passed its check, or when
      the user declined to overwrite an existing archive; 1 otherwise. */
  method CreateSubmission(directoryValid: bool, args: IdArgs, lines: seq<string>,
                          overwriteDeclined: bool, copied: seq<string>)
    returns (code: int, created: Option<CreatedZip>)
    ensures code == 0 || code == 1
    ensures code == 0 <==>
      directoryValid && ChosenIds(args, lines) != [] && (overwriteDeclined || "Makefile" in copied)
    ensures created.Some? <==> directoryValid && ChosenIds(args, lines) != [] && !overwriteDeclined
    ensures created.Some? ==>
      && created.value.name == ArchiveName(ChosenIds(args, lines)[0])
      && created.value.idsText == IdsFileText(ChosenIds(args, lines))
      && created.value.names == Entries(copied)
  {
    if !directoryValid {
      return 1, None;
    }
    var raw := ReadStudentIds(args, lines);
    var ids := ValidateStudentIds(raw);
    assert ids == ChosenIds(args, lines);
    if ids == [] {
      return 1, None;
    }
    if overwriteDeclined {
      return 0, None;
    }
    var r := CreateSubmissionZip(ids, copied);
    if r.Failure? {
      return 1, None;
    }
    created := Some(r.value);
    CreatedArchiveVerifies(copied);
    if !VerifyZipContents(r.value.names) {
      return 1, created;
    }
    return 0, created;
  }
}
