/**
  The byte and file budgets of an export (`src/export.rs`): the builder that
  meets them file by file, and the validation that repeats them on a bundle
  that came from elsewhere.
*/
module ExportBudget {
  import opened Common
  import opened Utf8Text

  const MAX_EXPORT_FILES := 10_000
  const MAX_EXPORT_FILE_BYTES := 8 * 1024 * 1024
  const MAX_EXPORT_TOTAL_BYTES := 128 * 1024 * 1024
  const USIZE_MAX := 0xFFFF_FFFF_FFFF_FFFF

  datatype File = File(path: string, content: string)

  datatype Bundle = Bundle(root: string, files: seq<File>)

  datatype BudgetError = RootTooLarge | TooManyFiles | FileTooLarge | ExportTooLarge | SizeOverflow

  function FileSize(f: File): nat { Size(f.path) + Size(f.content) }

  function TotalSize(files: seq<File>): nat {
    if files == [] then 0 else TotalSize(files[..|files| - 1]) + FileSize(files[|files| - 1])
  }

  /** What the limits mean, for a bundle as a whole. */
  ghost predicate WithinBudget(b: Bundle) {
    && Size(b.root) <= MAX_EXPORT_FILE_BYTES
    && |b.files| <= MAX_EXPORT_FILES
    && (forall f :: f in b.files ==> FileSize(f) <= MAX_EXPORT_FILE_BYTES)
    && Size(b.root) + TotalSize(b.files) <= MAX_EXPORT_TOTAL_BYTES
  }

  lemma {:induction false} TotalOfPrefix(files: seq<File>, n: nat)
    requires n <= |files|
    ensures TotalSize(files[..n]) <= TotalSize(files)
  {
    if n == |files| {
      assert files[..n] == files;
    } else {
      TotalOfPrefix(files[..|files| - 1], n);
      assert files[..|files| - 1][..n] == files[..n];
    }
  }

  lemma BudgetOfPrefix(b: Bundle, n: nat)
    requires WithinBudget(b) && n <= |b.files|
    ensures WithinBudget(b.(files := b.files[..n]))
  {
    TotalOfPrefix(b.files, n);
  }

  lemma RootAlone(root: string)
    ensures TotalSize([]) == 0
    ensures WithinBudget(Bundle(root, [])) <==> Size(root) <= MAX_EXPORT_FILE_BYTES
  {
  }

  lemma RootMustFit(b: Bundle)
    requires Size(b.root) > MAX_EXPORT_FILE_BYTES
    ensures !WithinBudget(b)
  {
  }

  /** One more file fits exactly when it fits beside the totals so far. */
  lemma OneMoreFile(root: string, files: seq<File>, f: File)
    requires WithinBudget(Bundle(root, files))
    ensures TotalSize(files + [f]) == TotalSize(files) + FileSize(f)
    ensures WithinBudget(Bundle(root, files + [f])) <==>
              && |files| < MAX_EXPORT_FILES && FileSize(f) <= MAX_EXPORT_FILE_BYTES
              && Size(root) + TotalSize(files) + FileSize(f) <= MAX_EXPORT_TOTAL_BYTES
  {
    hide Size, FileSize;
    var grown := files + [f];
    assert grown[..|grown| - 1] == files && grown[|grown| - 1] == f && f in grown;
  }

  /** The running totals. They are unsigned machine words, so sums are checked. */
  class Budget {
    var files: nat
    var bytes: nat

    constructor (rootSize: nat)
      ensures files == 0 && bytes == rootSize
    {
      files, bytes := 0, rootSize;
    }

    /** After an error the budget is spent: the whole export is abandoned. */
    method Add(f: File) returns (r: Result<(), BudgetError>)
      modifies this
      ensures r.Ok? <==>
                && old(files) < MAX_EXPORT_FILES && FileSize(f) <= MAX_EXPORT_FILE_BYTES
                && old(bytes) + FileSize(f) <= MAX_EXPORT_TOTAL_BYTES
      ensures r.Ok? ==> files == old(files) + 1 && bytes == old(bytes) + FileSize(f)
      ensures r == Err(TooManyFiles) <==> old(files) >= MAX_EXPORT_FILES
      ensures r == Err(FileTooLarge) ==> FileSize(f) > MAX_EXPORT_FILE_BYTES
      ensures r == Err(ExportTooLarge) ==> old(bytes) + FileSize(f) > MAX_EXPORT_TOTAL_BYTES
      ensures r.Err? && r.error == SizeOverflow ==> old(bytes) + FileSize(f) > USIZE_MAX
    {
      files := files + 1;
      if files > MAX_EXPORT_FILES { return Err(TooManyFiles); }
      var size := Size(f.path) + Size(f.content);
      if size > USIZE_MAX { return Err(SizeOverflow); }
      if size > MAX_EXPORT_FILE_BYTES { return Err(FileTooLarge); }
      if bytes + size > USIZE_MAX { return Err(SizeOverflow); }
      bytes := bytes + size;
      if bytes > MAX_EXPORT_TOTAL_BYTES { return Err(ExportTooLarge); }
      return Ok(());
    }
  }

  /** `BundleBuilder`: the files so far and the budget they have used. */
  class Builder {
    const root: string
    var files: seq<File>
    const budget: Budget

    ghost predicate Valid()
      reads this, budget
    {
      && budget.files == |files| && budget.bytes == Size(root) + TotalSize(files)
      && WithinBudget(Bundle(root, files))
    }

    constructor (root: string)
      requires Size(root) <= MAX_EXPORT_FILE_BYTES
      ensures Valid() && this.root == root && files == [] && fresh(budget)
    {
      this.root, files := root, [];
      budget := new Budget(Size(root));
    }

    /** A file is taken exactly when the bundle with it is still within budget. */
    method Push(path: string, content: string) returns (r: Result<(), BudgetError>)
      requires Valid()
      modifies this, budget
      ensures r.Ok? <==> WithinBudget(Bundle(root, old(files) + [File(path, content)]))
      ensures r.Ok? ==> Valid() && files == old(files) + [File(path, content)]
      ensures r.Err? ==> files == old(files)
    {
      var f := File(path, content);
      r := budget.Add(f);
      OneMoreFile(root, files, f);
      if r.Ok? {
        files := files + [f];
      }
    }

    method Finish() returns (b: Bundle)
      requires Valid()
      ensures b == Bundle(root, files) && WithinBudget(b)
    {
      b := Bundle(root, files);
    }
  }

  /** `BundleBuilder::new` refuses a root over the text limit. */
  method NewBuilder(root: string) returns (r: Result<Builder, BudgetError>)
    ensures r.Ok? <==> WithinBudget(Bundle(root, []))
    ensures r.Ok? ==> fresh(r.value) && fresh(r.value.budget) && r.value.Valid() && r.value.root == root && r.value.files == []
  {
    if Size(root) > MAX_EXPORT_FILE_BYTES { return Err(RootTooLarge); }
    var builder := new Builder(root);
    return Ok(builder);
  }

  /** `validate_bundle` accepts exactly the bundles a builder could have finished. */
  method ValidateBundle(b: Bundle) returns (r: Result<(), BudgetError>)
    ensures r.Ok? <==> WithinBudget(b)
  {
    hide WithinBudget, TotalSize, FileSize, Size;
    if Size(b.root) > MAX_EXPORT_FILE_BYTES {
      RootMustFit(b);
      return Err(RootTooLarge);
    }
    RootAlone(b.root);
    var budget := new Budget(Size(b.root));
    assert b.files[..0] == [];
    for i := 0 to |b.files|
      invariant budget.files == i && budget.bytes == Size(b.root) + TotalSize(b.files[..i])
      invariant WithinBudget(b.(files := b.files[..i]))
    {
      var added := budget.Add(b.files[i]);
      assert b.files[..i + 1] == b.files[..i] + [b.files[i]];
      OneMoreFile(b.root, b.files[..i], b.files[i]);
      if added.Err? {
        if WithinBudget(b) { BudgetOfPrefix(b, i + 1); }
        return added;
      }
    }
    assert b.files[..|b.files|] == b.files;
    return Ok(());
  }
}
