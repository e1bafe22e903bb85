/**
 The structural check both scripts apply to a submission archive's list of
 entry names before anything is extracted or reported as valid: the ID
 manifest `ids.txt` at the root, at least one entry under `ex4/`, and the
 build descriptor `ex4/Makefile`, tested in that order.
 */
module Archive {
  import opened Text

  const IdsFile := "ids.txt"
  const SourceDir := "ex4/"
  const Makefile := SourceDir + "Makefile"

  /** Why an archive was rejected; one per check, in the order they are made. */
  datatype StructureError = IdsFileMissing | SourceDirMissing | MakefileMissing

  datatype Verdict = Valid | Invalid(error: StructureError)

  /** The entries under `ex4/`, in archive order (the list the scripts build
      with a comprehension and then count). */
  function SourceEntries(names: seq<string>): (r: seq<string>)
    ensures |r| <= |names|
    ensures forall k :: 0 <= k < |r| ==> StartsWith(r[k], SourceDir) && r[k] in names
    ensures forall n :: n in names && StartsWith(n, SourceDir) ==> n in r
  {
    if names == [] then []
    else
      var rest := SourceEntries(names[1..]);
      if StartsWith(names[0], SourceDir) then [names[0]] + rest else rest
  }

  /** The three checks, in order; the first that fails decides the error. */
  function CheckStructure(names: seq<string>): (v: Verdict)
    ensures v.Valid? <==>
      && IdsFile in names
      && (exists n :: n in names && StartsWith(n, SourceDir))
      && Makefile in names
    ensures v == Invalid(IdsFileMissing) <==> IdsFile !in names
  {
    if IdsFile !in names then Invalid(IdsFileMissing)
    else if |SourceEntries(names)| == 0 then Invalid(SourceDirMissing)
    else if Makefile !in names then Invalid(MakefileMissing)
    else Valid
  }

  /** The `ex4/` check is implied by the Makefile check: an archive holding
      `ex4/Makefile` is never rejected for lacking the `ex4/` directory. */
  lemma MakefileImpliesSourceDir(names: seq<string>)
    requires Makefile in names
    ensures CheckStructure(names) != Invalid(SourceDirMissing)
  {
    assert StartsWith(Makefile, SourceDir);
  }

  /** Each rejection names exactly the first of the three conditions that fails. */
  lemma RejectionReasons(names: seq<string>)
    ensures CheckStructure(names) == Invalid(SourceDirMissing) <==>
      IdsFile in names && !(exists n :: n in names && StartsWith(n, SourceDir))
    ensures CheckStructure(names) == Invalid(MakefileMissing) <==>
      IdsFile in names && (exists n :: n in names && StartsWith(n, SourceDir)) && Makefile !in names
  {
    var entries := SourceEntries(names);
    if |entries| > 0 {
      assert entries[0] in names && StartsWith(entries[0], SourceDir);
    }
    if Makefile in names {
      MakefileImpliesSourceDir(names);
    }
  }
}
