/**
 * GetAbsoluteFilepathFromRelative: resolving a file name against a
 * reference path. A reference without any '.' is taken to be a folder and
 * the name is appended to it (with a '/' between them when the folder does
 * not already end in one); a reference with a '.' is taken to be a file,
 * and the name replaces everything after its last '/' or '\'.
 *
 * `AbsoluteFromRelativeAsWritten` follows the code as it stands;
 * `AbsoluteFromRelative` is the corrected helper (see README, Findings).
 */
module Filepath {
  import opened Wrappers

  /** string::rfind(c): the last position holding c, if any. */
  function RFind(s: string, c: char): (r: Option<nat>)
    ensures r.None? <==> c !in s
    ensures r.Some? ==> r.value < |s| && s[r.value] == c
    ensures r.Some? ==> forall k :: r.value < k < |s| ==> s[k] != c
  {
    if |s| == 0 then None
    else if s[|s| - 1] == c then Some(|s| - 1)
    else
      var r := RFind(s[..|s| - 1], c);
      assert s == s[..|s| - 1] + [s[|s| - 1]];
      r
  }

  /**
   * The sign of comparing one character with another, as string::compare
   * on one-character substrings reports it: -1, 0 or 1.
   */
  function CompareChar(a: char, b: char): (r: int)
    ensures r == 0 <==> a == b
    ensures r == 1 <==> a > b
    ensures r == -1 <==> a < b
  {
    if a < b then -1 else if a == b then 0 else 1
  }

  predicate IsSeparator(ch: char) {
    ch == '/' || ch == '\\'
  }

  /** The position after the last separator of `s`; 1 when `s` has no separator (the code's fallback to index 0). */
  function FolderEndAsWritten(s: string): (n: nat)
    requires |s| > 0
    ensures 0 < n <= |s|
  {
    var back := match RFind(s, '\\') case None => 0 case Some(i) => i;
    var forward := match RFind(s, '/') case None => 0 case Some(i) => i;
    (if back < forward then forward else back) + 1
  }

  /**
   * The code as it stands. An empty reference reaches compare at position
   * length - 1, which wraps around and throws out_of_range.
   */
  function AbsoluteFromRelativeAsWritten(relative: string, reference: string): (r: Result<string>)
    ensures r.Err? <==> reference == ""
    ensures r.Err? ==> r.error == OutOfRange
  {
    if '.' !in reference then
      if reference == "" then Err(OutOfRange)
      else
        var last := reference[|reference| - 1];
        var folder := if CompareChar(last, '\\') == 1 && CompareChar(last, '/') == 1 then reference + "/" else reference;
        Ok(folder + relative)
    else
      Ok(reference[..FolderEndAsWritten(reference)] + relative)
  }

  /** The result of a successful resolution always ends with the relative name. */
  lemma AsWrittenEndsWithRelative(relative: string, reference: string)
    requires reference != ""
    ensures var r := AbsoluteFromRelativeAsWritten(relative, reference);
      r.Ok? && |r.value| >= |relative| && r.value[|r.value| - |relative|..] == relative
  {
  }

  /** A folder reference that already ends in a separator is used as it is. */
  lemma AsWrittenFolderWithSeparator(relative: string, reference: string)
    requires reference != "" && '.' !in reference && IsSeparator(reference[|reference| - 1])
    ensures AbsoluteFromRelativeAsWritten(relative, reference) == Ok(reference + relative)
  {
  }

  /**
   * A folder reference gets a '/' exactly when its last character sorts
   * after both '\' and '/' -- not whenever it lacks a separator.
   */
  lemma AsWrittenFolderSlash(relative: string, reference: string)
    requires reference != "" && '.' !in reference
    ensures var last := reference[|reference| - 1];
      AbsoluteFromRelativeAsWritten(relative, reference)
        == if last > '\\' then Ok(reference + "/" + relative) else Ok(reference + relative)
  {
  }

  /** A file reference with separators keeps everything up to and including the last one. */
  lemma AsWrittenFileReference(relative: string, reference: string, k: nat)
    requires '.' in reference && k < |reference| && IsSeparator(reference[k])
    requires forall j :: k < j < |reference| ==> !IsSeparator(reference[j])
    ensures AbsoluteFromRelativeAsWritten(relative, reference) == Ok(reference[..k + 1] + relative)
  {
    var back, forward := RFind(reference, '\\'), RFind(reference, '/');
    if reference[k] == '/' {
      assert forward == Some(k);
    } else {
      assert back == Some(k);
    }
  }

  /** A file reference without any separator keeps its first character. */
  lemma AsWrittenFileWithoutSeparator(relative: string, reference: string)
    requires '.' in reference && '/' !in reference && '\\' !in reference
    ensures AbsoluteFromRelativeAsWritten(relative, reference) == Ok([reference[0]] + relative)
  {
    assert FolderEndAsWritten(reference) == 1;
    assert reference[..1] == [reference[0]];
  }

  /** A folder whose last character sorts below '\' (here the digit '1') gets no separator before the name. */
  lemma AsWrittenFolderEndingBelowBackslash()
    ensures AbsoluteFromRelativeAsWritten("x.bin", "data/RUN1") == Ok("data/RUN1x.bin")
  {
    var reference := "data/RUN1";
    assert '.' !in reference by {
      forall k | 0 <= k < |reference| ensures reference[k] != '.' {
      }
    }
    assert reference[|reference| - 1] == '1';
    AsWrittenFolderSlash("x.bin", reference);
    assert reference + "x.bin" == "data/RUN1x.bin";
  }

  /** A bare file name as reference leaves its first character in front of the name. */
  lemma AsWrittenBareFileName()
    ensures AbsoluteFromRelativeAsWritten("a.bin", "file.txt") == Ok("fa.bin")
  {
    var reference := "file.txt";
    assert reference[4] == '.';
    assert '/' !in reference && '\\' !in reference by {
      forall k | 0 <= k < |reference| ensures !IsSeparator(reference[k]) {
      }
    }
    AsWrittenFileWithoutSeparator("a.bin", reference);
    assert [reference[0]] + "a.bin" == "fa.bin";
  }

  /** The position after the last separator of `s`, or 0 when it has none. */
  function FolderEnd(s: string): (n: nat)
    ensures n <= |s|
    ensures n > 0 ==> IsSeparator(s[n - 1])
    ensures forall j :: n <= j < |s| ==> !IsSeparator(s[j])
  {
    if |s| == 0 then 0
    else if IsSeparator(s[|s| - 1]) then |s|
    else FolderEnd(s[..|s| - 1])
  }

  /**
   * The helper as evidently intended: a folder reference gets a '/' unless
   * it ends in a separator, and a file reference without any separator is
   * refused with logic_error, as the unreachable branch of the code means
   * to do.
   */
  function AbsoluteFromRelative(relative: string, reference: string): (r: Result<string>)
    ensures r.Err? <==> reference == "" || ('.' in reference && '/' !in reference && '\\' !in reference)
    ensures reference == "" ==> r == Err(OutOfRange)
    ensures r.Err? && reference != "" ==> r == Err(LogicError)
  {
    if '.' !in reference then
      if reference == "" then Err(OutOfRange)
      else if IsSeparator(reference[|reference| - 1]) then Ok(reference + relative)
      else Ok(reference + "/" + relative)
    else if FolderEnd(reference) == 0 then Err(LogicError)
    else Ok(reference[..FolderEnd(reference)] + relative)
  }

  /** The folder part a resolution keeps in front of the name. */
  function FolderPart(path: string, relative: string): string
    requires |path| >= |relative|
  {
    path[..|path| - |relative|]
  }

  /**
   * The corrected helper succeeds on every non-empty reference except a
   * file reference without separators; it then puts the name right after a
   * separator, keeping a folder reference whole and a file reference up to
   * and including its last separator.
   */
  lemma {:induction false} ResolvedAfterSeparator(relative: string, reference: string)
    requires reference != ""
    ensures var r := AbsoluteFromRelative(relative, reference);
      && (r.Ok? <==> '.' !in reference || '/' in reference || '\\' in reference)
      && (r.Ok? ==>
        && |r.value| > |relative| && r.value[|r.value| - |relative|..] == relative
        && var folder := FolderPart(r.value, relative);
           && IsSeparator(folder[|folder| - 1])
           && ('.' !in reference ==> folder == reference || folder == reference + "/")
           && ('.' in reference ==> folder <= reference && forall j :: |folder| <= j < |reference| ==> !IsSeparator(reference[j])))
  {
    var r := AbsoluteFromRelative(relative, reference);
    if '.' !in reference {
      if IsSeparator(reference[|reference| - 1]) {
        assert r.value == reference + relative;
        assert FolderPart(r.value, relative) == reference;
      } else {
        assert r.value == (reference + "/") + relative;
        assert FolderPart(r.value, relative) == reference + "/";
      }
    } else if r.Ok? {
      var folder := reference[..FolderEnd(reference)];
      assert r.value == folder + relative;
      assert FolderPart(r.value, relative) == folder;
    }
  }

  /** The two counterexamples once corrected: a '/' is added, and a bare file name is refused. */
  lemma CorrectedExamples()
    ensures AbsoluteFromRelative("x.bin", "data/RUN1") == Ok("data/RUN1/x.bin")
    ensures AbsoluteFromRelative("a.bin", "file.txt") == Err(LogicError)
  {
    var folder := "data/RUN1";
    assert '.' !in folder by {
      forall k | 0 <= k < |folder| ensures folder[k] != '.' {
      }
    }
    assert folder + "/" + "x.bin" == "data/RUN1/x.bin";
    var file := "file.txt";
    assert file[4] == '.';
    assert FolderEnd(file) == 0 by {
      forall k | 0 <= k < |file| ensures !IsSeparator(file[k]) {
      }
    }
  }

  /** Where the code works as intended, the corrected helper agrees with it. */
  lemma {:induction false} CorrectionAgrees(relative: string, reference: string)
    requires reference != ""
    requires '.' !in reference ==> reference[|reference| - 1] > '\\' || IsSeparator(reference[|reference| - 1])
    requires '.' in reference ==> '/' in reference || '\\' in reference
    ensures AbsoluteFromRelative(relative, reference) == AbsoluteFromRelativeAsWritten(relative, reference)
  {
    if '.' in reference {
      var n := FolderEnd(reference);
      var k :| 0 <= k < |reference| && IsSeparator(reference[k]);
      assert n > 0;
      AsWrittenFileReference(relative, reference, n - 1);
    } else {
      AsWrittenFolderSlash(relative, reference);
    }
  }
}
