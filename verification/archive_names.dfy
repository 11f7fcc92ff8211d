/**
  The names of archive files (`src/archived_projects.rs`): a name no file in the
  directory has, and the names that are accepted when an archive is read back.
*/
module ArchiveNames {
  import opened Utf8Text

  const SUFFIX := ".lific.tar.gz"
  const MAX_FILE_NAME := 160

  predicate NameChar(c: char) { Alnum(c) || c == '.' || c == '_' || c == '-' }

  predicate AllNameChars(s: string) { forall i :: 0 <= i < |s| ==> NameChar(s[i]) }

  /** `valid_file_name` */
  predicate ValidFileName(name: string) {
    && |name| >= |SUFFIX| && name[|name| - |SUFFIX|..] == SUFFIX
    && Size(name) <= MAX_FILE_NAME
    && var stem := name[..|name| - |SUFFIX|];
       stem != "" && Alnum(stem[0]) && AllNameChars(stem)
  }

  /** The time as the name carries it: eight digits, a dash, six digits. */
  predicate IsStamp(s: string) {
    |s| == 15 && s[8] == '-' && forall i :: 0 <= i < 15 && i != 8 ==> '0' <= s[i] <= '9'
  }

  function Sanitized(identifier: string): string {
    seq(|identifier|, i requires 0 <= i < |identifier| => if Alnum(identifier[i]) then identifier[i] else '_')
  }

  function Base(identifier: string, stamp: string): string {
    var ident := Sanitized(identifier);
    (if ident != "" && Alnum(ident[0]) then ident else "project" + ident) + "-" + stamp
  }

  /** The names in the order they are tried: without a counter, then with 2, 3 and so on. */
  function Candidate(base: string, k: nat): string {
    if k == 0 then base + SUFFIX else base + "-" + Decimal(k + 1) + SUFFIX
  }

  lemma CandidatesDiffer(base: string, j: nat, k: nat)
    requires j != k
    ensures Candidate(base, j) != Candidate(base, k)
  {
    var x, y := Candidate(base, j), Candidate(base, k);
    if j == 0 {
      assert x[|base|] == '.' && y[|base|] == '-';
    } else if k == 0 {
      assert x[|base|] == '-' && y[|base|] == '.';
    } else if x == y {
      var n := |base| + 1;
      assert Decimal(j + 1) == x[n..|x| - |SUFFIX|] == y[n..|y| - |SUFFIX|] == Decimal(k + 1);
      DecimalIsInjective(j + 1, k + 1);
    }
  }

  /** Tried names are distinct, so a directory can hold only so many of them. */
  lemma TriedFits(dir: set<string>, tried: set<string>)
    requires tried <= dir
    ensures |tried| <= |dir|
  {
    if tried != {} {
      var s :| s in tried;
      TriedFits(dir - {s}, tried - {s});
    }
  }

  /**
    `fresh_file_name`: the first candidate the directory does not have, found
    within one try more than the directory has files; and it will be accepted
    when read back exactly when it is short enough.
  */
  method FreshFileName(dir: set<string>, identifier: string, stamp: string) returns (name: string, ghost tries: nat)
    requires IsStamp(stamp)
    ensures name !in dir
    ensures tries <= |dir| && name == Candidate(Base(identifier, stamp), tries)
    ensures forall j :: 0 <= j < tries ==> Candidate(Base(identifier, stamp), j) in dir
    ensures ValidFileName(name) <==> |name| <= MAX_FILE_NAME
  {
    hide Base, ValidFileName, Decimal;
    var base := Base(identifier, stamp);
    name := base + SUFFIX;
    tries := 0;
    var n := 2;
    ghost var tried: set<string> := {};
    while name in dir
      invariant n == tries + 2 && name == Candidate(base, tries)
      invariant forall j :: 0 <= j < tries ==> Candidate(base, j) in dir
      invariant forall s :: s in tried <==> s in dir && exists j :: 0 <= j < tries && s == Candidate(base, j)
      invariant tried <= dir && |tried| == tries
      decreases dir - tried
    {
      assert name !in tried by {
        forall j | 0 <= j < tries ensures name != Candidate(base, j) { CandidatesDiffer(base, j, tries); }
      }
      tried := tried + {name};
      name := base + "-" + Decimal(n) + SUFFIX;
      n := n + 1;
      tries := tries + 1;
    }
    TriedFits(dir, tried);
    CandidateIsWellFormed(identifier, stamp, tries);
  }

  predicate LetterOrDigit(c: char) { 'a' <= c <= 'z' || 'A' <= c <= 'Z' || '0' <= c <= '9' }

  /** A letter or digit, then letters, digits, dots, underscores and dashes. */
  predicate IsStem(stem: string) {
    && stem != "" && LetterOrDigit(stem[0])
    && forall i :: 0 <= i < |stem| ==> LetterOrDigit(stem[i]) || stem[i] == '.' || stem[i] == '_' || stem[i] == '-'
  }

  lemma StemIsNamed(stem: string)
    ensures IsStem(stem) <==> stem != "" && Alnum(stem[0]) && AllNameChars(stem)
  {
  }

  /** The names that are read back: such a stem and the suffix, in at most 160 bytes. */
  lemma ValidNamesAreThese(name: string)
    ensures ValidFileName(name) <==> Size(name) <= 160 && exists stem :: IsStem(stem) && name == stem + ".lific.tar.gz"
  {
    hide IsStem, AllNameChars, Alnum, Size;
    if ValidFileName(name) {
      var stem := name[..|name| - |SUFFIX|];
      StemIsNamed(stem);
      assert name == stem + SUFFIX;
    }
    if stem :| IsStem(stem) && name == stem + ".lific.tar.gz" {
      StemIsNamed(stem);
      assert name[..|name| - |SUFFIX|] == stem && name[|name| - |SUFFIX|..] == SUFFIX;
    }
  }

  /** The identifier of a project stands unchanged at the start of the name of its file. */
  lemma IdentifierStaysReadable(identifier: string, stamp: string)
    requires identifier != "" && forall i :: 0 <= i < |identifier| ==> LetterOrDigit(identifier[i])
    ensures Base(identifier, stamp) == identifier + "-" + stamp
  {
    assert Sanitized(identifier) == identifier;
  }

  lemma DecimalIsName(n: nat)
    ensures AllNameChars(Decimal(n))
  {
  }

  lemma BaseIsName(identifier: string, stamp: string)
    requires IsStamp(stamp)
    ensures var base := Base(identifier, stamp);
            base != "" && Alnum(base[0]) && AllNameChars(base)
  {
  }

  lemma NameIsValid(stem: string)
    requires stem != "" && Alnum(stem[0]) && AllNameChars(stem)
    ensures ValidFileName(stem + SUFFIX) <==> |stem + SUFFIX| <= MAX_FILE_NAME
  {
    var name := stem + SUFFIX;
    assert name[|name| - |SUFFIX|..] == SUFFIX && name[..|name| - |SUFFIX|] == stem;
    SizeOfAscii(name);
  }

  lemma CandidateIsWellFormed(identifier: string, stamp: string, k: nat)
    requires IsStamp(stamp)
    ensures var name := Candidate(Base(identifier, stamp), k);
            ValidFileName(name) <==> |name| <= MAX_FILE_NAME
  {
    hide Base, ValidFileName, Decimal;
    var base := Base(identifier, stamp);
    BaseIsName(identifier, stamp);
    if k == 0 {
      NameIsValid(base);
    } else {
      DecimalIsName(k + 1);
      NameIsValid(base + "-" + Decimal(k + 1));
    }
  }

  /** For an identifier of a project, in any directory with fewer than ten to the hundredth files, it is short enough. */
  lemma ShortIdentifiersFit(dir: set<string>, identifier: string, stamp: string, tries: nat)
    requires IsStamp(stamp) && |identifier| <= 5 && tries <= |dir| && |dir| + 1 < TenTo(100)
    ensures ValidFileName(Candidate(Base(identifier, stamp), tries))
  {
    hide TenTo;
    DecimalLength(tries + 1, 100);
    CandidateIsWellFormed(identifier, stamp, tries);
  }
}
