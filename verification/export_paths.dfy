/**
  The paths of a project export (`src/export.rs`): slugs, the walk from a folder
  to its root, and the two path shapes. Within one project no two paths meet.
*/
module ExportPaths {
  import opened PathText
  import opened Utf8Text

  // ---- Words ----

  /** Words so far, and whether the last one may still grow. */
  datatype Scanned = Scanned(words: seq<string>, open: bool)

  function Extend(r: Scanned, c: char): Scanned
    requires r.open ==> r.words != []
  {
    if !Alnum(c) then Scanned(r.words, false)
    else if r.open then Scanned(r.words[..|r.words| - 1] + [r.words[|r.words| - 1] + [Lower(c)]], true)
    else Scanned(r.words + [[Lower(c)]], true)
  }

  predicate IsWord(w: string) { w != [] && forall j :: 0 <= j < |w| ==> LowerAlnum(w[j]) }

  /** The words of a text: its maximal runs of letters and digits, in lower case. */
  function Scan(s: string): (r: Scanned)
    ensures r.open ==> r.words != []
    ensures r.open <==> s != [] && Alnum(s[|s| - 1])
    ensures forall i :: 0 <= i < |r.words| ==> IsWord(r.words[i])
  {
    if s == [] then Scanned([], false) else Extend(Scan(s[..|s| - 1]), s[|s| - 1])
  }

  function Words(s: string): seq<string> { Scan(s).words }

  /** Words joined by single dashes. */
  function Dashed(words: seq<string>): string { Join(words, '-') }

  function Slug(s: string): string { Dashed(Words(s)) }

  // ---- slugify ----

  function TrimStart(s: string): string
    decreases |s|
  {
    if s != [] && s[0] == '-' then TrimStart(s[1..]) else s
  }

  function TrimEnd(s: string): string
    decreases |s|
  {
    if s != [] && s[|s| - 1] == '-' then TrimEnd(s[..|s| - 1]) else s
  }

  /** A dash for what comes before the first word. */
  function Lead(s: string): string { if s != [] && !Alnum(s[0]) then "-" else "" }

  /** A dash for what comes after the last word. */
  function Tail(s: string): string { if s != [] && !Alnum(s[|s| - 1]) && Words(s) != [] then "-" else "" }

  /** What the loop has written. */
  function Written(s: string): string { Lead(s) + Dashed(Words(s)) + Tail(s) }

  lemma DashedSnoc(words: seq<string>, w: string)
    ensures Dashed(words + [w]) == if words == [] then w else Dashed(words) + "-" + w
  {
  }

  lemma DashedGrow(words: seq<string>, c: char)
    requires words != []
    ensures Dashed(words[..|words| - 1] + [words[|words| - 1] + [c]]) == Dashed(words) + [c]
  {
  }

  /** Before the first word everything is one dash. */
  lemma {:induction false} NoWords(s: string)
    requires s != [] && Words(s) == []
    ensures !Alnum(s[0]) && !Alnum(s[|s| - 1])
  {
    if |s| > 1 { NoWords(s[..|s| - 1]); }
  }

  lemma WrittenStep(s: string, c: char)
    ensures Written(s + [c]) ==
            if Alnum(c) then Written(s) + [Lower(c)]
            else if s != [] && !Alnum(s[|s| - 1]) then Written(s)
            else Written(s) + "-"
  {
    hide Scan, Dashed, Lower, LowerAlnum;
    var t := s + [c];
    var words := Words(s);
    ScanSnoc(s, c);
    if s == [] {
      NoTextNoWords();
      assert t == [c];
      if Alnum(c) { DashedSnoc([], [Lower(c)]); }
    } else {
      assert t[0] == s[0] && Lead(t) == Lead(s);
      if words == [] { NoWords(s); }
      if Alnum(c) {
        if Scan(s).open {
          DashedGrow(words, Lower(c));
        } else {
          NoTextNoWords();
          DashedSnoc(words, [Lower(c)]);
          assert Dashed(words) + Tail(s) + [Lower(c)] == Dashed(words + [[Lower(c)]]);
        }
      }
    }
  }

  lemma NoTextNoWords()
    ensures Scan([]) == Scanned([], false) && Dashed([]) == []
  {
  }

  lemma ScanSnoc(s: string, c: char)
    ensures Scan(s + [c]) == Extend(Scan(s), c)
  {
  }

  lemma {:induction false} DashedEnds(words: seq<string>)
    requires words != [] && forall i :: 0 <= i < |words| ==> IsWord(words[i])
    ensures Dashed(words) != [] && Dashed(words)[0] != '-' && Dashed(words)[|Dashed(words)| - 1] != '-'
  {
    if |words| > 1 { DashedEnds(words[..|words| - 1]); }
  }

  /** Trimming takes off a dash at either end, and nothing of a text without them. */
  lemma TrimAround(lead: string, body: string, tail: string)
    requires lead in {"", "-"} && tail in {"", "-"}
    requires body != [] && body[0] != '-' && body[|body| - 1] != '-'
    ensures TrimEnd(TrimStart(lead + body + tail)) == body
  {
  }

  lemma TrimmedIsSlug(s: string)
    ensures TrimEnd(TrimStart(Written(s))) == Slug(s)
  {
    hide Scan, Dashed, Alnum;
    if Words(s) == [] {
      NoTextNoWords();
      assert Tail(s) == [] && Written(s) == Lead(s);
      assert TrimStart("-") == TrimStart("-"[1..]) == [] && TrimStart([]) == [] && TrimEnd([]) == [];
    } else {
      DashedEnds(Words(s));
      TrimAround(Lead(s), Dashed(Words(s)), Tail(s));
    }
  }

  lemma NothingWrittenFirst()
    ensures Written([]) == []
  {
  }

  /** `slugify`: one pass, then the dashes at the ends go. */
  method Slugify(input: string) returns (slug: string)
    ensures slug == Slug(input)
  {
    hide Written, Slug, Lower, LowerAlnum;
    var out := "";
    var prevDash := false;
    NothingWrittenFirst();
    assert input[..0] == [];
    for i := 0 to |input|
      invariant out == Written(input[..i])
      invariant prevDash <==> i > 0 && !Alnum(input[i - 1])
    {
      var c := Lower(input[i]);
      WrittenStep(input[..i], input[i]);
      assert input[..i + 1] == input[..i] + [input[i]];
      if LowerAlnum(c) {
        out := out + [c];
        prevDash := false;
      } else if !prevDash {
        out := out + "-";
        prevDash := true;
      }
    }
    assert input[..|input|] == input;
    TrimmedIsSlug(input);
    slug := TrimEnd(TrimStart(out));
  }

  // ---- What a slug keeps ----

  lemma ExtendAfter(before: seq<string>, r: Scanned, c: char)
    requires r.open ==> r.words != []
    ensures Extend(Scanned(before + r.words, r.open), c) == Scanned(before + Extend(r, c).words, Extend(r, c).open)
  {
  }

  /** A character that is no letter or digit separates the words on its two sides. */
  lemma {:induction false} WordsAround(a: string, sep: char, b: string)
    requires !Alnum(sep)
    ensures Scan(a + [sep] + b) == Scanned(Words(a) + Words(b), Scan(b).open)
  {
    if b == [] {
      ScanSnoc(a, sep);
      assert a + [sep] + b == a + [sep] && Words(a) + [] == Words(a);
    } else {
      hide Scan, Extend;
      var front, c := b[..|b| - 1], b[|b| - 1];
      WordsAround(a, sep, front);
      ScanSnoc(a + [sep] + front, c);
      ScanSnoc(front, c);
      assert b == front + [c] && a + [sep] + b == a + [sep] + front + [c];
      ExtendAfter(Words(a), Scan(front), c);
    }
  }

  function LowerCase(s: string): string { seq(|s|, i requires 0 <= i < |s| => Lower(s[i])) }

  lemma {:induction false} OneWord(w: string)
    requires w != [] && forall i :: 0 <= i < |w| ==> Alnum(w[i])
    ensures Scan(w) == Scanned([LowerCase(w)], true)
  {
    var front, c := w[..|w| - 1], w[|w| - 1];
    assert w == front + [c];
    ScanSnoc(front, c);
    if front == [] {
      assert Scan([]) == Scanned([], false);
      assert LowerCase(w) == [Lower(c)];
    } else {
      OneWord(front);
      assert LowerCase(w) == LowerCase(front) + [Lower(c)];
    }
  }

  /** A slug is its words again, split at the dashes. */
  lemma SlugSplits(s: string)
    ensures Words(s) == [] ==> Slug(s) == []
    ensures Words(s) != [] ==> Slug(s) != [] && Split(Slug(s), '-') == Words(s)
  {
    if Words(s) != [] {
      forall i | 0 <= i < |Words(s)| ensures '-' !in Words(s)[i] { assert IsWord(Words(s)[i]); }
      SplitOfJoin(Words(s), '-');
      DashedEnds(Words(s));
    }
  }

  /** Equal slugs come from equal words. */
  lemma SlugTellsWords(s: string, t: string)
    requires Slug(s) == Slug(t)
    ensures Words(s) == Words(t)
  {
    SlugSplits(s);
    SlugSplits(t);
  }
}
