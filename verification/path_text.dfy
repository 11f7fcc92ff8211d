/** Paths as text: pieces between slashes, and the components `std::path` reads from them on Unix. */
module PathText {
  import opened Common

  function Split(s: string, sep: char): (parts: seq<string>)
    ensures parts != []
    ensures forall i :: 0 <= i < |parts| ==> sep !in parts[i]
  {
    if s == [] then [[]]
    else
      var parts, c := Split(s[..|s| - 1], sep), s[|s| - 1];
      if c == sep then parts + [[]] else parts[..|parts| - 1] + [parts[|parts| - 1] + [c]]
  }

  function Join(parts: seq<string>, sep: char): string {
    if parts == [] then []
    else if |parts| == 1 then parts[0]
    else Join(parts[..|parts| - 1], sep) + [sep] + parts[|parts| - 1]
  }

  lemma SplitSnoc(s: string, c: char, sep: char)
    ensures var parts := Split(s, sep);
            Split(s + [c], sep) ==
            if c == sep then parts + [[]] else parts[..|parts| - 1] + [parts[|parts| - 1] + [c]]
  {
  }

  lemma {:induction false} SplitPiece(a: string, b: string, sep: char)
    requires sep !in b
    ensures var parts := Split(a, sep);
            Split(a + b, sep) == parts[..|parts| - 1] + [parts[|parts| - 1] + b]
  {
    hide Split;
    var parts := Split(a, sep);
    if b == [] {
      assert a + b == a;
      assert parts[|parts| - 1] + b == parts[|parts| - 1];
    } else {
      var front, c := b[..|b| - 1], b[|b| - 1];
      assert b == front + [c];
      SplitPiece(a, front, sep);
      SplitSnoc(a + front, c, sep);
      assert a + b == a + front + [c];
      assert parts[|parts| - 1] + front + [c] == parts[|parts| - 1] + b;
    }
  }

  lemma SplitAtSeparator(a: string, b: string, sep: char)
    requires sep !in b
    ensures Split(a + [sep] + b, sep) == Split(a, sep) + [b]
  {
    hide Split;
    SplitSnoc(a, sep, sep);
    SplitPiece(a + [sep], b, sep);
    assert [] + b == b;
  }

  /** A separator splits a text into the pieces on its two sides. */
  lemma {:induction false} SplitAround(a: string, b: string, sep: char)
    ensures Split(a + [sep] + b, sep) == Split(a, sep) + Split(b, sep)
  {
    hide Split;
    SplitOfEmpty(sep);
    if b == [] {
      SplitSnoc(a, sep, sep);
      assert a + [sep] + b == a + [sep];
    } else {
      var front, c := b[..|b| - 1], b[|b| - 1];
      assert b == front + [c] && a + [sep] + b == a + [sep] + front + [c];
      SplitAround(a, front, sep);
      SplitSnoc(a + [sep] + front, c, sep);
      SplitSnoc(front, c, sep);
      var x, y := Split(a, sep), Split(front, sep);
      assert (x + y)[..|x + y| - 1] == x + y[..|y| - 1];
    }
  }

  /** Appended text goes to the last piece, up to its own first separator. */
  lemma {:induction false} SplitAppend(a: string, b: string, sep: char)
    ensures var x, y := Split(a, sep), Split(b, sep);
            Split(a + b, sep) == x[..|x| - 1] + [x[|x| - 1] + y[0]] + y[1..]
  {
    hide Split;
    SplitOfEmpty(sep);
    var x := Split(a, sep);
    if b == [] {
      assert a + b == a && x[|x| - 1] + [] == x[|x| - 1];
    } else {
      var front, c := b[..|b| - 1], b[|b| - 1];
      var y := Split(front, sep);
      assert b == front + [c] && a + b == a + front + [c];
      SplitAppend(a, front, sep);
      SplitSnoc(a + front, c, sep);
      SplitSnoc(front, c, sep);
      var whole := x[..|x| - 1] + [x[|x| - 1] + y[0]] + y[1..];
      if |y| == 1 {
        assert whole[|whole| - 1] == x[|x| - 1] + y[0] && whole[..|whole| - 1] == x[..|x| - 1];
        if c != sep { assert x[|x| - 1] + y[0] + [c] == x[|x| - 1] + (y[0] + [c]); }
      } else {
        assert whole[|whole| - 1] == y[|y| - 1];
        assert whole[..|whole| - 1] == x[..|x| - 1] + [x[|x| - 1] + y[0]] + y[1..|y| - 1];
      }
    }
  }

  /** Splitting undoes joining. */
  lemma {:induction false} SplitOfJoin(parts: seq<string>, sep: char)
    requires parts != [] && forall i :: 0 <= i < |parts| ==> sep !in parts[i]
    ensures Split(Join(parts, sep), sep) == parts
  {
    hide Split;
    var last := parts[|parts| - 1];
    if |parts| == 1 {
      SplitPiece([], last, sep);
      assert [] + last == last;
      SplitOfEmpty(sep);
    } else {
      SplitOfJoin(parts[..|parts| - 1], sep);
      SplitAtSeparator(Join(parts[..|parts| - 1], sep), last, sep);
    }
  }

  lemma SplitOfEmpty(sep: char)
    ensures Split([], sep) == [[]]
  {
  }

  // ---- Components ----

  datatype PathError = Outside | NoFileName

  /** A component that names a directory entry. */
  predicate Ordinary(part: string) { part != "" && part != "." && part != ".." && '/' !in part }

  /** Empty pieces and `.` name nothing. */
  function Normal(parts: seq<string>): seq<string> {
    if parts == [] then []
    else
      var last := parts[|parts| - 1];
      Normal(parts[..|parts| - 1]) + if last == "" || last == "." then [] else [last]
  }

  /** The relative components of `name`; a rooted path and a `..` anywhere are refused. */
  function Components(name: string): Result<seq<string>, PathError> {
    if (name != [] && name[0] == '/') || ".." in Split(name, '/') then Err(Outside)
    else if Normal(Split(name, '/')) == [] then Err(NoFileName)
    else Ok(Normal(Split(name, '/')))
  }

  /** Nothing in the path names an entry. */
  ghost predicate NamesNothing(parts: seq<string>) { forall i :: 0 <= i < |parts| ==> parts[i] == "" || parts[i] == "." }

  lemma NamesNothingStep(parts: seq<string>)
    requires parts != []
    ensures NamesNothing(parts) <==>
            NamesNothing(parts[..|parts| - 1]) && (parts[|parts| - 1] == "" || parts[|parts| - 1] == ".")
  {
    assert forall i :: 0 <= i < |parts| - 1 ==> parts[..|parts| - 1][i] == parts[i];
  }

  lemma {:induction false} NormalIsEmpty(parts: seq<string>)
    ensures Normal(parts) == [] <==> NamesNothing(parts)
  {
    if parts != [] {
      hide NamesNothing;
      NamesNothingStep(parts);
      NormalIsEmpty(parts[..|parts| - 1]);
    }
  }

  /** Refused are exactly the paths from the root, those with a `..` anywhere, and those that name nothing. */
  lemma RefusedExactly(name: string, parts: seq<string>)
    requires parts == Split(name, '/')
    ensures Components(name) == Err(Outside) <==>
            (name != "" && name[0] == '/') || (exists i :: 0 <= i < |parts| && parts[i] == "..")
    ensures Components(name) == Err(NoFileName) <==>
            (name == "" || name[0] != '/') && (forall i :: 0 <= i < |parts| ==> parts[i] == "" || parts[i] == ".")
  {
    NormalIsEmpty(parts);
    hide Split, Normal;
  }

  lemma {:induction false} NormalKeeps(parts: seq<string>)
    ensures forall i :: 0 <= i < |Normal(parts)| ==>
              Normal(parts)[i] in parts && Normal(parts)[i] != "" && Normal(parts)[i] != "."
    ensures (forall i :: 0 <= i < |parts| ==> parts[i] != "" && parts[i] != ".") ==> Normal(parts) == parts
  {
    if parts != [] {
      var front := parts[..|parts| - 1];
      NormalKeeps(front);
      assert parts == front + [parts[|parts| - 1]];
      assert forall x :: x in front ==> x in parts;
    }
  }

  /** Accepted components are ordinary names, at least one. */
  lemma ComponentsAreOrdinary(name: string)
    requires Components(name).Ok?
    ensures var q := Components(name).value;
            q != [] && forall i :: 0 <= i < |q| ==> Ordinary(q[i])
  {
    NormalKeeps(Split(name, '/'));
  }

  /** Any ordinary components can be asked for, and come back as they are. */
  lemma ComponentsOfJoin(q: seq<string>)
    requires q != [] && forall i :: 0 <= i < |q| ==> Ordinary(q[i])
    ensures Components(Join(q, '/')) == Ok(q)
  {
    SplitOfJoin(q, '/');
    NormalKeeps(q);
    JoinStart(q, '/');
  }

  lemma {:induction false} JoinStart(q: seq<string>, sep: char)
    requires q != [] && q[0] != ""
    ensures Join(q, sep) != [] && Join(q, sep)[0] == q[0][0]
  {
    if |q| > 1 { JoinStart(q[..|q| - 1], sep); }
  }

  /** `contained_path` */
  method ContainedPath(name: string) returns (r: Result<seq<string>, PathError>)
    ensures r == Components(name)
  {
    if name != [] && name[0] == '/' { return Err(Outside); } // the root directory is its own component
    var parts := Split(name, '/');
    var contained: seq<string> := [];
    for i := 0 to |parts|
      invariant contained == Normal(parts[..i])
      invariant ".." !in parts[..i]
    {
      assert parts[..i + 1][..i] == parts[..i] && parts[..i + 1] == parts[..i] + [parts[i]];
      if parts[i] == ".." {
        assert parts[i] in parts;
        return Err(Outside);
      }
      if parts[i] != "" && parts[i] != "." { contained := contained + [parts[i]]; }
    }
    assert parts[..|parts|] == parts;
    if contained == [] { return Err(NoFileName); }
    return Ok(contained);
  }
}
