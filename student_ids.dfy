/**
 Student IDs: the filter applied to IDs given on the command line, the
 interactive collection (over the lines the user types, in order), and the
 `ids.txt` manifest format: the text written into a submission and the two
 ways the scripts read it back.
 */
module StudentIds {
  import opened Text

  predicate AllNumeric(ids: seq<string>) {
    forall k :: 0 <= k < |ids| ==> IsDigits(ids[k])
  }

  /** The IDs that survive validation, in input order: each entry stripped,
      and dropped when that leaves it empty or not all digits (an empty
      string is not all digits, so one test covers both). */
  function ValidIds(ids: seq<string>): (valid: seq<string>)
    ensures |valid| <= |ids|
    decreases |ids|
  {
    if ids == [] then []
    else
      var id := Strip(ids[0]);
      if IsDigits(id) then [id] + ValidIds(ids[1..]) else ValidIds(ids[1..])
  }

  method ValidateStudentIds(ids: seq<string>) returns (valid: seq<string>)
    ensures valid == ValidIds(ids)
  {
    valid := [];
    for i := 0 to |ids|
      invariant valid + ValidIds(ids[i..]) == ValidIds(ids)
    {
      assert ids[i..][1..] == ids[i + 1..];
      var id := Strip(ids[i]);
      if id == "" {
        assert ValidIds(ids[i..]) == ValidIds(ids[i + 1..]);
        continue;
      }
      if !IsDigits(id) {
        assert ValidIds(ids[i..]) == ValidIds(ids[i + 1..]);
        continue;
      }
      assert ValidIds(ids[i..]) == [id] + ValidIds(ids[i + 1..]);
      valid := valid + [id];
    }
  }

  /** Every ID that survives validation is a digit string. */
  lemma {:induction false} ValidIdsAreNumeric(ids: seq<string>)
    ensures AllNumeric(ValidIds(ids))
    decreases |ids|
  {
    if ids != [] {
      ValidIdsAreNumeric(ids[1..]);
    }
  }

  /** Validation works entry by entry: it distributes over concatenation. */
  lemma {:induction false} ValidIdsAppend(a: seq<string>, b: seq<string>)
    ensures ValidIds(a + b) == ValidIds(a) + ValidIds(b)
    decreases |a|
  {
    if a != [] {
      assert (a + b)[0] == a[0];
      assert (a + b)[1..] == a[1..] + b;
      ValidIdsAppend(a[1..], b);
    } else {
      assert a + b == b;
    }
  }

  /** Every entry, stripped. */
  function StrippedEntries(ids: seq<string>): (stripped: seq<string>)
    ensures |stripped| == |ids|
    ensures forall i :: 0 <= i < |ids| ==> stripped[i] == Strip(ids[i])
    decreases |ids|
  {
    if ids == [] then [] else [Strip(ids[0])] + StrippedEntries(ids[1..])
  }

  /** A string is kept iff it is all digits and the stripped form of some entry. */
  lemma {:induction false} ValidIdsMembership(ids: seq<string>, x: string)
    ensures x in ValidIds(ids) <==> IsDigits(x) && x in StrippedEntries(ids)
    decreases |ids|
  {
    if ids != [] {
      ValidIdsMembership(ids[1..], x);
      var id := Strip(ids[0]);
      assert StrippedEntries(ids) == [id] + StrippedEntries(ids[1..]);
      if IsDigits(id) {
        assert ValidIds(ids) == [id] + ValidIds(ids[1..]);
      } else {
        assert ValidIds(ids) == ValidIds(ids[1..]);
      }
    }
  }

  /** A list of digit strings passes validation unchanged. */
  lemma {:induction false} ValidIdsKeepsValid(ids: seq<string>)
    requires AllNumeric(ids)
    ensures ValidIds(ids) == ids
    decreases |ids|
  {
    if ids != [] {
      StripDigits(ids[0]);
      ValidIdsKeepsValid(ids[1..]);
    }
  }

  /** Validating twice is validating once. */
  lemma ValidIdsIdempotent(ids: seq<string>)
    ensures ValidIds(ValidIds(ids)) == ValidIds(ids)
  {
    ValidIdsAreNumeric(ids);
    ValidIdsKeepsValid(ValidIds(ids));
  }

  /** Interactive collection: the stripped lines up to the first line that is
      blank after stripping, keeping the numeric ones in order. Running out
      of input ends the collection like a blank line. */
  function Collected(lines: seq<string>): (ids: seq<string>)
    ensures |ids| <= |lines|
    decreases |lines|
  {
    if lines == [] then []
    else
      var id := Strip(lines[0]);
      if id == "" then []
      else if !IsDigits(id) then Collected(lines[1..])
      else [id] + Collected(lines[1..])
  }

  method CollectInteractive(lines: seq<string>) returns (ids: seq<string>)
    ensures ids == Collected(lines)
  {
    ids := [];
    var i := 0;
    while i < |lines|
      invariant 0 <= i <= |lines|
      invariant ids + Collected(lines[i..]) == Collected(lines)
    {
      assert lines[i..][1..] == lines[i + 1..];
      var id := Strip(lines[i]);
      if id == "" {
        break;
      }
      i := i + 1;
      if !IsDigits(id) {
        continue;
      }
      ids := ids + [id];
    }
  }

  /** The index of the first line that is blank after stripping, or the number of lines. */
  function FirstBlank(lines: seq<string>): (n: nat)
    ensures n <= |lines|
    ensures forall i :: 0 <= i < n ==> Strip(lines[i]) != ""
    ensures n < |lines| ==> Strip(lines[n]) == ""
    decreases |lines|
  {
    if lines == [] || Strip(lines[0]) == "" then 0 else 1 + FirstBlank(lines[1..])
  }

  /** Interactive collection validates exactly the lines before the first blank one. */
  lemma {:induction false} CollectedIsValidatedPrefix(lines: seq<string>)
    ensures Collected(lines) == ValidIds(lines[..FirstBlank(lines)])
    decreases |lines|
  {
    if lines == [] || Strip(lines[0]) == "" {
      assert lines[..FirstBlank(lines)] == [];
    } else {
      var n := FirstBlank(lines);
      var prefix := lines[..n];
      CollectedIsValidatedPrefix(lines[1..]);
      assert n == 1 + FirstBlank(lines[1..]);
      assert prefix[0] == lines[0];
      assert prefix[1..] == lines[1..][..n - 1];
      var id := Strip(lines[0]);
      if IsDigits(id) {
        assert Collected(lines) == [id] + Collected(lines[1..]);
        assert ValidIds(prefix) == [id] + ValidIds(prefix[1..]);
      } else {
        assert Collected(lines) == Collected(lines[1..]);
        assert ValidIds(prefix) == ValidIds(prefix[1..]);
      }
    }
  }


  /** What interactive collection returns already passes validation unchanged. */
  lemma CollectedIsValid(lines: seq<string>)
    ensures ValidIds(Collected(lines)) == Collected(lines)
  {
    CollectedIsValidatedPrefix(lines);
    ValidIdsIdempotent(lines[..FirstBlank(lines)]);
  }

  /** The content of `ids.txt`: each ID followed by a newline. */
  function IdsFileText(ids: seq<string>): (text: string)
    ensures text == "" <==> ids == []
    ensures ids != [] ==> StartsWith(text, ids[0]) && text[|text| - 1] == '\n'
    decreases |ids|
  {
    if ids == [] then "" else ids[0] + "\n" + IdsFileText(ids[1..])
  }

  /** How both scripts read `ids.txt` back: strip the text, split it at newlines. */
  function ParseIds(text: string): (lines: seq<string>)
    ensures |lines| >= 1
  {
    SplitLines(Strip(text))
  }

  /** The stripped non-blank lines, in order. */
  function NonBlank(lines: seq<string>): (ids: seq<string>)
    ensures |ids| <= |lines|
    ensures forall k :: 0 <= k < |ids| ==> ids[k] != "" && Strip(ids[k]) == ids[k]
    decreases |lines|
  {
    if lines == [] then []
    else
      var id := Strip(lines[0]);
      if id == "" then NonBlank(lines[1..])
      else (StripIdempotent(lines[0]); [id] + NonBlank(lines[1..]))
  }

  /** Listing splits over concatenation: the lines are listed one by one, in order. */
  lemma {:induction false} NonBlankAppend(a: seq<string>, b: seq<string>)
    ensures NonBlank(a + b) == NonBlank(a) + NonBlank(b)
    decreases |a|
  {
    if a != [] {
      assert (a + b)[0] == a[0];
      assert (a + b)[1..] == a[1..] + b;
      NonBlankAppend(a[1..], b);
    } else {
      assert a + b == b;
    }
  }

  /** A string is listed iff it is non-empty and the stripped form of some line. */
  lemma {:induction false} NonBlankMembership(lines: seq<string>, x: string)
    ensures x in NonBlank(lines) <==> x != "" && x in StrippedEntries(lines)
    decreases |lines|
  {
    if lines != [] {
      NonBlankMembership(lines[1..], x);
      var id := Strip(lines[0]);
      assert StrippedEntries(lines) == [id] + StrippedEntries(lines[1..]);
      if id == "" {
        assert NonBlank(lines) == NonBlank(lines[1..]);
      } else {
        assert NonBlank(lines) == [id] + NonBlank(lines[1..]);
      }
    }
  }

  /** The IDs the test runner lists after extracting a submission: non-empty,
      already stripped, at most one per line of the stripped manifest. */
  function ShownIds(text: string): (ids: seq<string>)
    ensures |ids| <= |ParseIds(text)|
    ensures forall k :: 0 <= k < |ids| ==> ids[k] != "" && Strip(ids[k]) == ids[k]
  {
    NonBlank(ParseIds(text))
  }

  lemma {:induction false} IdsFileTextIsJoin(ids: seq<string>)
    requires |ids| >= 1
    ensures IdsFileText(ids) == JoinLines(ids) + "\n"
    decreases |ids|
  {
    if |ids| > 1 {
      IdsFileTextIsJoin(ids[1..]);
    }
  }

  /** The joined IDs begin with the first ID's first character and end with
      the last ID's last character. */
  lemma {:induction false} JoinLinesEnds(ids: seq<string>)
    requires |ids| >= 1
    requires forall k :: 0 <= k < |ids| ==> |ids[k]| > 0
    ensures |JoinLines(ids)| >= 1
    ensures JoinLines(ids)[0] == ids[0][0]
    ensures JoinLines(ids)[|JoinLines(ids)| - 1] == ids[|ids| - 1][|ids[|ids| - 1]| - 1]
    decreases |ids|
  {
    if |ids| > 1 {
      JoinLinesEnds(ids[1..]);
    }
  }

  /** Stripping the manifest removes exactly its final newline. */
  lemma StripIdsFileText(ids: seq<string>)
    requires |ids| >= 1
    requires forall k :: 0 <= k < |ids| ==> |ids[k]| > 0
    requires !IsSpace(ids[0][0]) && !IsSpace(ids[|ids| - 1][|ids[|ids| - 1]| - 1])
    ensures Strip(IdsFileText(ids)) == JoinLines(ids)
  {
    var joined := JoinLines(ids);
    JoinLinesEnds(ids);
    IdsFileTextIsJoin(ids);
    StripNewlineTerminated(joined);
  }

  /** Reading back the `ids.txt` written for a non-empty list of numeric IDs
      gives exactly that list. */
  lemma IdsFileRoundTrip(ids: seq<string>)
    requires |ids| >= 1
    requires AllNumeric(ids)
    ensures ParseIds(IdsFileText(ids)) == ids
  {
    forall k | 0 <= k < |ids|
      ensures |ids[k]| > 0 && '\n' !in ids[k]
    {
      DigitsHaveNoNewline(ids[k]);
    }
    var first, last := ids[0], ids[|ids| - 1];
    assert IsDigits(first) && IsDigits(last);
    DigitIsNotSpace(first[0]);
    DigitIsNotSpace(last[|last| - 1]);
    StripIdsFileText(ids);
    SplitJoinLines(ids);
  }

  lemma {:induction false} NonBlankKeepsIds(ids: seq<string>)
    requires AllNumeric(ids)
    ensures NonBlank(ids) == ids
    decreases |ids|
  {
    if ids != [] {
      StripDigits(ids[0]);
      NonBlankKeepsIds(ids[1..]);
    }
  }

  /** The test runner lists exactly the numeric IDs the manifest was written
      with (none for an empty list). */
  lemma ShownIdsRoundTrip(ids: seq<string>)
    requires AllNumeric(ids)
    ensures ShownIds(IdsFileText(ids)) == ids
  {
    if ids == [] {
      assert Strip("") == "";
      assert ParseIds("") == [""];
    } else {
      IdsFileRoundTrip(ids);
      NonBlankKeepsIds(ids);
    }
  }
}
