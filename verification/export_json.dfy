/**
  An export as JSON (`src/export.rs`): the compact encoding of a bundle, the
  writer that refuses to pass its byte limit, and the arithmetic behind the
  promise that the limit never refuses a bundle the ZIP format accepts.
*/
module ExportJson {
  import opened Common
  import opened ExportBudget
  import opened Utf8Text

  const MAX_EXPORT_JSON_BYTES := MAX_EXPORT_TOTAL_BYTES * 6 + 64 * 1024

  // ---- The encoding ----

  function HexDigit(n: nat): char
    requires n < 16
  {
    if n < 10 then '0' + n as char else 'a' + (n - 10) as char
  }

  /** How JSON spells one character inside a string (section 7 of RFC 8259, short escapes where they exist). */
  function Escape(c: char): string {
    var code := c as int;
    if c == '"' then "\\\""
    else if c == '\\' then "\\\\"
    else if code == 8 then "\\b"
    else if code == 9 then "\\t"
    else if code == 10 then "\\n"
    else if code == 12 then "\\f"
    else if code == 13 then "\\r"
    else if code < 0x20 then "\\u00" + [HexDigit(code / 16), HexDigit(code % 16)]
    else [c]
  }

  function Escaped(s: string): string {
    if s == [] then [] else Escaped(s[..|s| - 1]) + Escape(s[|s| - 1])
  }

  function Quoted(s: string): string { "\"" + Escaped(s) + "\"" }

  function EncodeFile(f: File): string {
    "{\"path\":" + Quoted(f.path) + ",\"content\":" + Quoted(f.content) + "}"
  }

  function EncodeFiles(files: seq<File>): string {
    if files == [] then []
    else if |files| == 1 then EncodeFile(files[0])
    else EncodeFiles(files[..|files| - 1]) + "," + EncodeFile(files[|files| - 1])
  }

  function Encode(b: Bundle): string {
    "{\"root\":" + Quoted(b.root) + ",\"files\":[" + EncodeFiles(b.files) + "]}"
  }

  // ---- Its length ----

  /** Encoded bytes of a text. */
  function Cost(s: string): nat { Size(Escaped(s)) }

  /** A character JSON copies. */
  predicate Plain(c: char) { c != '"' && c != '\\' && c as int >= 0x20 }

  /** Source bytes of `s` that need no escape. */
  function PlainBytes(s: string): nat {
    if s == [] then 0
    else PlainBytes(s[..|s| - 1]) + if Plain(s[|s| - 1]) then Width(s[|s| - 1]) else 0
  }

  lemma EscapeSize(c: char)
    ensures Plain(c) ==> Size(Escape(c)) == Width(c)
    ensures !Plain(c) ==> Width(c) == 1 && 2 <= Size(Escape(c)) <= 6
    ensures c as int < 8 ==> Size(Escape(c)) == 6
  {
    if Plain(c) {
      assert Escape(c) == [c] && [c][..0] == [];
    } else {
      SizeOfAscii(Escape(c));
    }
  }

  /** A byte costs at most six bytes, and a plain byte exactly one. */
  lemma {:induction false} CostOfText(s: string)
    ensures Size(s) <= Cost(s)
    ensures Cost(s) + 5 * PlainBytes(s) <= 6 * Size(s)
  {
    if s != [] {
      CostOfText(s[..|s| - 1]);
      EscapeSize(s[|s| - 1]);
      SizeOfConcat(Escaped(s[..|s| - 1]), Escape(s[|s| - 1]));
    }
  }

  lemma QuotedSize(s: string)
    ensures Size(Quoted(s)) == Cost(s) + 2
  {
    SizeOfAscii("\"");
    SizeOfConcat("\"", Escaped(s));
    SizeOfConcat("\"" + Escaped(s), "\"");
  }

  const FILE_OVERHEAD := 24

  lemma EncodedFileSize(f: File)
    ensures Size(EncodeFile(f)) == FILE_OVERHEAD + Cost(f.path) + Cost(f.content)
  {
    hide Size, Escaped, Cost, Quoted;
    var a, b, c, d, e := "{\"path\":", Quoted(f.path), ",\"content\":", Quoted(f.content), "}";
    QuotedSize(f.path);
    QuotedSize(f.content);
    SizeOfAscii(a);
    SizeOfAscii(c);
    SizeOfAscii(e);
    SizeOfConcat(a, b);
    SizeOfConcat(a + b, c);
    SizeOfConcat(a + b + c, d);
    SizeOfConcat(a + b + c + d, e);
  }

  function FilesCost(files: seq<File>): nat {
    if files == [] then 0
    else FilesCost(files[..|files| - 1]) + Cost(files[|files| - 1].path) + Cost(files[|files| - 1].content)
  }

  /** Each file but the first brings a comma and the frame around its two texts. */
  lemma {:induction false} EncodedFilesSize(files: seq<File>)
    ensures files != [] ==> Size(EncodeFiles(files)) == FilesCost(files) + (FILE_OVERHEAD + 1) * |files| - 1
  {
    hide Size, Cost, EncodeFile;
    if |files| == 1 {
      EncodedFileSize(files[0]);
      assert FilesCost(files[..0]) == 0;
    } else if |files| > 1 {
      var front, last := files[..|files| - 1], files[|files| - 1];
      EncodedFilesSize(front);
      EncodedFileSize(last);
      SizeOfAscii(",");
      SizeOfConcat(EncodeFiles(front), ",");
      SizeOfConcat(EncodeFiles(front) + ",", EncodeFile(last));
    }
  }

  /** The exact size of the encoded bundle. */
  lemma EncodedSize(b: Bundle)
    ensures Size(Encode(b)) ==
            22 + Cost(b.root) + FilesCost(b.files) + if b.files == [] then 0 else (FILE_OVERHEAD + 1) * |b.files| - 1
  {
    hide Size, Cost, Quoted, EncodeFiles, FilesCost;
    var x, y, z := "{\"root\":", ",\"files\":[", "]}";
    QuotedSize(b.root);
    EncodedFilesSize(b.files);
    SizeOfAscii(x);
    SizeOfAscii(y);
    SizeOfAscii(z);
    SizeOfConcat(x, Quoted(b.root));
    SizeOfConcat(x + Quoted(b.root), y);
    SizeOfConcat(x + Quoted(b.root) + y, EncodeFiles(b.files));
    SizeOfConcat(x + Quoted(b.root) + y + EncodeFiles(b.files), z);
    if b.files == [] { EmptyText(); }
  }

  lemma EmptyText()
    ensures Size([]) == 0 && EncodeFiles([]) == [] && FilesCost([]) == 0
  {
  }

  // ---- JSON never refuses what ZIP accepts ----

  /** Every path pays for its own frame: five plain bytes save the 25 bytes around the file's two texts. */
  ghost predicate PathsArePlain(files: seq<File>) { forall f :: f in files ==> PlainBytes(f.path) >= 5 }

  lemma {:induction false} PlainPathsPayForFrames(files: seq<File>)
    requires PathsArePlain(files)
    ensures FilesCost(files) + (FILE_OVERHEAD + 1) * |files| <= 6 * TotalSize(files)
  {
    hide Size, Cost, PlainBytes;
    if files != [] {
      var last := files[|files| - 1];
      PlainPathsPayForFrames(files[..|files| - 1]);
      CostOfText(last.path);
      CostOfText(last.content);
    }
  }

  lemma JsonFitsWhereZipDoes(b: Bundle)
    requires WithinBudget(b) && PathsArePlain(b.files)
    ensures Size(Encode(b)) <= MAX_EXPORT_JSON_BYTES
  {
    hide Size, Cost, Encode, FilesCost;
    EncodedSize(b);
    CostOfText(b.root);
    PlainPathsPayForFrames(b.files);
  }

  // ---- The plain bytes are needed ----

  function Repeat<T>(t: T, n: nat): (r: seq<T>)
    ensures |r| == n && forall i :: 0 <= i < n ==> r[i] == t
  {
    seq(n, _ => t)
  }

  lemma {:induction false} RepeatedFiles(f: File, n: nat)
    ensures TotalSize(Repeat(f, n)) == n * FileSize(f)
    ensures FilesCost(Repeat(f, n)) == n * (Cost(f.path) + Cost(f.content))
  {
    hide Size, Cost;
    if n == 0 {
      assert Repeat(f, 0) == [];
    } else {
      RepeatedFiles(f, n - 1);
      assert Repeat(f, n)[..n - 1] == Repeat(f, n - 1);
      assert n * FileSize(f) == (n - 1) * FileSize(f) + FileSize(f);
    }
  }

  lemma {:induction false} ControlText(n: nat)
    ensures Size(Repeat(1 as char, n)) == n && Cost(Repeat(1 as char, n)) == 6 * n
  {
    if n == 0 {
      assert Repeat(1 as char, 0) == [];
    } else {
      ControlText(n - 1);
      var s := Repeat(1 as char, n);
      assert s[..n - 1] == Repeat(1 as char, n - 1);
      EscapeSize(s[n - 1]);
      SizeOfConcat(Escaped(s[..n - 1]), Escape(s[n - 1]));
    }
  }

  lemma {:induction false} FilesCostAtMostSix(files: seq<File>)
    ensures FilesCost(files) <= 6 * TotalSize(files)
  {
    hide Size, Cost;
    if files != [] {
      FilesCostAtMostSix(files[..|files| - 1]);
      CostOfText(files[|files| - 1].path);
      CostOfText(files[|files| - 1].content);
    }
  }

  /** As many files as the slack of the limit has frames for, whatever their paths. */
  const UNCONDITIONAL_FILES := 2620

  lemma FewFilesFit(b: Bundle)
    requires WithinBudget(b) && |b.files| <= UNCONDITIONAL_FILES
    ensures Size(Encode(b)) <= MAX_EXPORT_JSON_BYTES
  {
    hide Size, Cost, Encode, FilesCost;
    EncodedSize(b);
    CostOfText(b.root);
    FilesCostAtMostSix(b.files);
  }

  /** `n` nameless files of control characters under a root of control characters. */
  function Dense(rest: nat, n: nat, each: nat): Bundle {
    Bundle(Repeat(1 as char, rest), Repeat(File("", Repeat(1 as char, each)), n))
  }

  lemma DenseFile(each: nat)
    ensures var f := File("", Repeat(1 as char, each));
            FileSize(f) == each && Cost(f.path) + Cost(f.content) == 6 * each
  {
    ControlText(each);
  }

  lemma DenseSizes(rest: nat, n: nat, each: nat)
    ensures var b := Dense(rest, n, each);
            && Size(b.root) == rest && Cost(b.root) == 6 * rest
            && TotalSize(b.files) == n * each && FilesCost(b.files) == 6 * (n * each)
  {
    hide Size, Cost, Repeat, FileSize;
    ControlText(rest);
    DenseFile(each);
    RepeatedFiles(File("", Repeat(1 as char, each)), n);
    SixTimes(n, each);
  }

  lemma SixTimes(n: nat, each: nat)
    ensures n * (6 * each) == 6 * (n * each)
  {
  }

  lemma DenseWithinBudget(rest: nat, n: nat, each: nat)
    requires n <= MAX_EXPORT_FILES && rest <= MAX_EXPORT_FILE_BYTES && each <= MAX_EXPORT_FILE_BYTES
    requires n * each + rest <= MAX_EXPORT_TOTAL_BYTES
    ensures WithinBudget(Dense(rest, n, each))
  {
    hide Size, FileSize, TotalSize;
    DenseSizes(rest, n, each);
    DenseFile(each);
  }

  lemma DenseSize(rest: nat, n: nat, each: nat)
    requires n > 0
    ensures Size(Encode(Dense(rest, n, each))) == 21 + 6 * (n * each + rest) + 25 * n
  {
    var b := Dense(rest, n, each);
    assert |b.files| == n && b.files != [];
    hide Size, Cost, Encode, FilesCost, TotalSize, Dense;
    DenseSizes(rest, n, each);
    EncodedSize(b);
  }

  /** What the total allows each of `n` files, and what is left of it for the root. */
  lemma Shares(n: nat) returns (each: nat, rest: nat)
    requires n > UNCONDITIONAL_FILES
    ensures n * each + rest == MAX_EXPORT_TOTAL_BYTES && rest < n && each <= MAX_EXPORT_FILE_BYTES
  {
    each, rest := MAX_EXPORT_TOTAL_BYTES / n, MAX_EXPORT_TOTAL_BYTES % n;
    Divided(MAX_EXPORT_TOTAL_BYTES, n);
    Product(UNCONDITIONAL_FILES, n, each);
  }

  lemma Divided(total: nat, n: nat)
    requires n > 0
    ensures n * (total / n) + total % n == total && total % n < n
  {
  }

  lemma Product(m: nat, n: nat, each: nat)
    requires m <= n
    ensures m * each <= n * each
  {
  }

  lemma ManyFilesPass(n: nat) returns (b: Bundle)
    requires UNCONDITIONAL_FILES < n <= MAX_EXPORT_FILES
    ensures WithinBudget(b) && |b.files| == n && Size(Encode(b)) > MAX_EXPORT_JSON_BYTES
  {
    var each, rest := Shares(n);
    b := Dense(rest, n, each);
    assert |b.files| == n;
    hide WithinBudget, Encode, Size, Dense;
    DenseWithinBudget(rest, n, each);
    DenseSize(rest, n, each);
  }

  /**
    The limit is promised for every bundle the budgets accept. Without a condition
    on paths the promise depends on the number of files alone, and the number is exact.
  */
  lemma FilesTheLimitAlwaysTakes(n: nat)
    requires n <= MAX_EXPORT_FILES
    ensures (forall b :: WithinBudget(b) && |b.files| == n ==> Size(Encode(b)) <= MAX_EXPORT_JSON_BYTES) <==>
            n <= UNCONDITIONAL_FILES
  {
    hide WithinBudget, Size, Encode;
    if n <= UNCONDITIONAL_FILES {
      forall b | WithinBudget(b) && |b.files| == n ensures Size(Encode(b)) <= MAX_EXPORT_JSON_BYTES { FewFilesFit(b); }
    } else {
      var b := ManyFilesPass(n);
    }
  }

  /** So at the most files a bundle may have, some bundle within every budget is refused as JSON. */
  lemma NamelessFilesPassTheLimit()
    ensures exists b :: WithinBudget(b) && Size(Encode(b)) > MAX_EXPORT_JSON_BYTES
  {
    hide WithinBudget, Size, Encode;
    var b := ManyFilesPass(MAX_EXPORT_FILES);
  }

  // ---- The writer ----

  datatype WriteError = PastLimit | InnerFailed

  /**
    The writer inside: offered `n` bytes when it holds `at`, it fails or takes
    some of them, at least one.
  */
  type Inner = (nat, nat) -> Option<nat>

  ghost predicate Reliable(inner: Inner) { forall at, n :: inner(at, n).Some? }

  function Taken(reply: nat, n: nat): (k: nat)
    ensures k <= n && (n > 0 ==> k > 0)
  {
    if n == 0 then 0 else if 1 <= reply <= n then reply else n
  }

  /** `LimitedWriter`; `out` is what the writer inside has accepted. */
  class LimitedWriter<T> {
    const inner: Inner
    var out: seq<T>
    var remaining: nat

    constructor (inner: Inner, limit: nat)
      ensures this.inner == inner && out == [] && remaining == limit
    {
      this.inner, out, remaining := inner, [], limit;
    }

    method Write(bytes: seq<T>) returns (r: Result<nat, WriteError>)
      modifies this
      ensures r == Err(PastLimit) <==> |bytes| > old(remaining)
      ensures r == Err(InnerFailed) ==> !Reliable(inner)
      ensures r.Err? ==> out == old(out) && remaining == old(remaining)
      ensures r.Ok? ==>
                && r.value <= |bytes| && (bytes != [] ==> r.value > 0)
                && out == old(out) + bytes[..r.value] && remaining == old(remaining) - r.value
    {
      if |bytes| > remaining { return Err(PastLimit); }
      var reply := inner(|out|, |bytes|);
      if reply == None { return Err(InnerFailed); }
      var written := Taken(reply.value, |bytes|);
      out := out + bytes[..written];
      remaining := remaining - written;
      return Ok(written);
    }

    /** `write_all`: the rest is offered again after a partial write. */
    method WriteAll(bytes: seq<T>) returns (r: Result<(), WriteError>)
      modifies this
      ensures Reliable(inner) ==> (r.Ok? <==> |bytes| <= old(remaining))
      ensures r == Err(PastLimit) ==> |bytes| > old(remaining)
      ensures r.Ok? ==> |bytes| <= old(remaining) && out == old(out) + bytes && remaining == old(remaining) - |bytes|
      ensures r == Err(InnerFailed) ==> !Reliable(inner)
      ensures |out| + remaining == |old(out)| + old(remaining)
      ensures old(out) <= out <= old(out) + bytes
    {
      var at := 0;
      while at < |bytes|
        invariant 0 <= at <= |bytes|
        invariant out == old(out) + bytes[..at] && remaining == old(remaining) - at
      {
        var step := Write(bytes[at..]);
        if step.Err? {
          match step.error
          case PastLimit => return Err(PastLimit);
          case InnerFailed => return Err(InnerFailed);
        }
        assert bytes[..at] + bytes[at..][..step.value] == bytes[..at + step.value];
        at := at + step.value;
      }
      assert bytes[..|bytes|] == bytes;
      return Ok(());
    }
  }

  function Flatten<T>(chunks: seq<seq<T>>): seq<T> {
    if chunks == [] then [] else Flatten(chunks[..|chunks| - 1]) + chunks[|chunks| - 1]
  }

  lemma {:induction false} FlattenPrefix<T>(chunks: seq<seq<T>>, n: nat)
    requires n <= |chunks|
    ensures Flatten(chunks[..n]) <= Flatten(chunks)
  {
    if n == |chunks| {
      assert chunks[..n] == chunks;
    } else {
      FlattenPrefix(chunks[..|chunks| - 1], n);
      assert chunks[..|chunks| - 1][..n] == chunks[..n];
    }
  }

  /**
    Serializing through the writer, in whatever pieces: with a reliable writer
    inside it succeeds exactly when the whole output fits, what was written is
    then the whole output, and never more than the limit is written.
  */
  method WriteLimited<T>(chunks: seq<seq<T>>, inner: Inner, limit: nat) returns (r: Result<(), WriteError>, out: seq<T>)
    ensures Reliable(inner) ==> (r.Ok? <==> |Flatten(chunks)| <= limit)
    ensures r == Err(PastLimit) ==> |Flatten(chunks)| > limit
    ensures r == Err(InnerFailed) ==> !Reliable(inner)
    ensures r.Ok? ==> |Flatten(chunks)| <= limit && out == Flatten(chunks)
    ensures |out| <= limit && out <= Flatten(chunks)
  {
    var writer := new LimitedWriter<T>(inner, limit);
    for i := 0 to |chunks|
      invariant writer.out == Flatten(chunks[..i]) && |writer.out| + writer.remaining == limit
    {
      assert chunks[..i + 1][..i] == chunks[..i];
      FlattenPrefix(chunks, i + 1);
      var step := writer.WriteAll(chunks[i]);
      if step.Err? { return Err(step.error), writer.out; }
    }
    assert chunks[..|chunks|] == chunks;
    return Ok(()), writer.out;
  }

  datatype ExportError = Refused(budget: BudgetError) | Stopped(write: WriteError)

  /** `bundle_to_json_file_with_limit`; `pieces` are the serializer's calls to the writer. */
  method BundleToJson(b: Bundle, pieces: seq<seq<byte>>, inner: Inner, limit: nat)
    returns (r: Result<(), ExportError>, out: seq<byte>)
    requires Flatten(pieces) == Utf8(Encode(b))
    ensures r.Err? && r.error.Refused? <==> !WithinBudget(b)
    ensures r.Ok? ==> out == Utf8(Encode(b)) && |out| <= limit
    ensures r == Err(Stopped(PastLimit)) ==> Size(Encode(b)) > limit
    ensures r == Err(Stopped(InnerFailed)) ==> !Reliable(inner)
    ensures Reliable(inner) && WithinBudget(b) ==> (r.Ok? <==> Size(Encode(b)) <= limit)
    ensures limit == MAX_EXPORT_JSON_BYTES && PathsArePlain(b.files) ==> r != Err(Stopped(PastLimit))
    ensures |out| <= limit
  {
    hide Encode, PathsArePlain;
    out := [];
    var valid := ValidateBundle(b);
    if valid.Err? { return Err(Refused(valid.error)), []; }
    var written: Result<(), WriteError>;
    written, out := WriteLimited(pieces, inner, limit);
    if limit == MAX_EXPORT_JSON_BYTES && PathsArePlain(b.files) { JsonFitsWhereZipDoes(b); }
    if written.Err? { return Err(Stopped(written.error)), out; }
    return Ok(()), out;
  }
}
