/** Stock types and set and map helpers shared by the modules of this project. */
module Common {
  datatype Option<+T> = None | Some(value: T)

  datatype Result<+T, +E> = Ok(value: T) | Err(error: E)

  type byte = b: int | 0 <= b < 256

  /** Any element of a set: the order a directory or a table is read in is not fixed. */
  method Pick<T>(s: set<T>) returns (t: T)
    requires s != {}
    ensures t in s
  {
    t :| t in s;
  }

  lemma Associative<T>(a: seq<T>, b: seq<T>, c: seq<T>)
    ensures (a + b) + c == a + (b + c)
  {
  }

  /** Maps with the same entries are equal. */
  lemma SameMap<K, V>(a: map<K, V>, b: map<K, V>)
    requires forall k :: k in a <==> k in b
    requires forall k :: k in a ==> a[k] == b[k]
    ensures a == b
  {
  }

  ghost function Member<T>(s: set<T>): (t: T)
    requires s != {}
    ensures t in s
  {
    var t :| t in s; t
  }

  lemma NotEmpty<T>(s: set<T>, t: T)
    requires t in s
    ensures s != {}
  {
  }

  /** Whatever ids are taken, one is free. */
  lemma FreshNat(taken: set<nat>) returns (n: nat)
    ensures forall m :: m in taken ==> m < n
  {
    if taken == {} {
      n := 0;
      forall m ensures m !in taken {
        if m in taken { NotEmpty(taken, m); }
      }
    } else {
      var top := Member(taken);
      var rest := FreshNat(taken - {top});
      n := if rest > top then rest else top + 1;
      forall m | m in taken ensures m < n {
        if m != top { assert m in taken - {top}; }
      }
    }
  }

  /** Whatever names are taken, one is free. */
  lemma FreshString(taken: set<string>) returns (name: string)
    ensures name !in taken
    ensures forall s :: s in taken ==> |s| < |name|
  {
    if taken == {} {
      name := "";
    } else {
      var s := Member(taken);
      name := FreshString(taken - {s});
      if |name| <= |s| { name := s + "-"; }
    }
  }
}
