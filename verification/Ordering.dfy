/** Sorted lists without repetition under any strict total order, and sorting followed by compaction. */
module Ordering {

  ghost predicate StrictOrder<T(!new)>(less: (T, T) -> bool) {
    && (forall a :: !less(a, a))
    && (forall a, b, c :: less(a, b) && less(b, c) ==> less(a, c))
    && (forall a, b :: a == b || less(a, b) || less(b, a))
  }

  ghost predicate Ascending<T(!new)>(less: (T, T) -> bool, s: seq<T>) { forall i, j | 0 <= i < j < |s| :: less(s[i], s[j]) }

  ghost predicate SameItems<T(!new)>(s: seq<T>, t: seq<T>) { forall x :: x in s <==> x in t }

  // ----- Canonical lists

  function Insert<T(==)>(less: (T, T) -> bool, x: T, s: seq<T>): seq<T> {
    if s == [] || less(x, s[0]) then [x] + s
    else if x == s[0] then s
    else [s[0]] + Insert(less, x, s[1..])
  }

  /** The items of a list, each once, in order. */
  function Canonical<T(==)>(less: (T, T) -> bool, s: seq<T>): seq<T> {
    if s == [] then [] else Insert(less, s[0], Canonical(less, s[1..]))
  }

  lemma {:induction false} InsertKeeps<T(!new)>(less: (T, T) -> bool, x: T, s: seq<T>)
    requires StrictOrder(less) && Ascending(less, s)
    ensures var r := Insert(less, x, s);
      Ascending(less, r) && |r| <= |s| + 1 && forall y :: y in r <==> y == x || y in s
    decreases |s|
  {
    if s != [] && !less(x, s[0]) && x != s[0] {
      InsertKeeps(less, x, s[1..]);
      var tail := Insert(less, x, s[1..]);
      forall j | 0 <= j < |tail| ensures less(s[0], tail[j]) {
        assert tail[j] in tail;
        assert tail[j] == x || tail[j] in s[1..];
      }
      assert forall y :: y in s <==> y == s[0] || y in s[1..];
    }
  }

  lemma {:induction false} CanonicalAscends<T(!new)>(less: (T, T) -> bool, s: seq<T>)
    requires StrictOrder(less)
    ensures Ascending(less, Canonical(less, s)) && SameItems(s, Canonical(less, s)) && |Canonical(less, s)| <= |s|
    decreases |s|
  {
    if s != [] {
      CanonicalAscends(less, s[1..]);
      InsertKeeps(less, s[0], Canonical(less, s[1..]));
      assert forall y :: y in s <==> y == s[0] || y in s[1..];
    }
  }

  lemma BothEmpty<T(!new)>(s: seq<T>, t: seq<T>)
    requires SameItems(s, t)
    ensures s == [] <==> t == []
  {
    var i: nat :| i == 0;
    assert i < |s| ==> s[i] in s;
    assert i < |t| ==> t[i] in t;
  }

  /** There is one ascending list with given items. */
  lemma {:induction false} AscendingIsUnique<T(!new)>(less: (T, T) -> bool, s: seq<T>, t: seq<T>)
    requires StrictOrder(less) && Ascending(less, s) && Ascending(less, t) && SameItems(s, t)
    ensures s == t
    decreases |s|
  {
    BothEmpty(s, t);
    if s != [] {
      assert s[0] in s && s[0] in t;
      assert t[0] in t && t[0] in s;
      FirstIsLeast(less, s, t[0]);
      FirstIsLeast(less, t, s[0]);
      TailItems(less, s);
      TailItems(less, t);
      AscendingIsUnique(less, s[1..], t[1..]);
    }
  }

  lemma FirstIsLeast<T(!new)>(less: (T, T) -> bool, s: seq<T>, x: T)
    requires StrictOrder(less) && Ascending(less, s) && x in s
    ensures x == s[0] || less(s[0], x)
  {
  }

  lemma TailItems<T(!new)>(less: (T, T) -> bool, s: seq<T>)
    requires StrictOrder(less) && Ascending(less, s) && s != []
    ensures forall x :: x in s[1..] <==> x in s && x != s[0]
  {
  }

  /** Normal forms: equal for lists with the same items, and a fixed point. */
  lemma CanonicalOfItems<T(!new)>(less: (T, T) -> bool, s: seq<T>, t: seq<T>)
    requires StrictOrder(less)
    ensures SameItems(s, t) <==> Canonical(less, s) == Canonical(less, t)
    ensures Ascending(less, s) ==> Canonical(less, s) == s
  {
    CanonicalAscends(less, s);
    CanonicalAscends(less, t);
    if SameItems(s, t) { AscendingIsUnique(less, Canonical(less, s), Canonical(less, t)); }
    if Ascending(less, s) { AscendingIsUnique(less, Canonical(less, s), s); }
  }

  // ----- Sorting, then dropping repetitions

  ghost predicate Sorted<T(!new)>(less: (T, T) -> bool, s: seq<T>) { forall i, j | 0 <= i < j < |s| :: !less(s[j], s[i]) }

  /** Stands for the library's sort: an ordered permutation. */
  method Sort<T(!new)>(less: (T, T) -> bool, s: seq<T>) returns (r: seq<T>)
    requires StrictOrder(less)
    ensures Sorted(less, r) && SameItems(s, r) && |r| == |s|
  {
    r := [];
    for i := 0 to |s|
      invariant Sorted(less, r) && |r| == i && forall x :: x in r <==> x in s[..i]
    {
      var k := i;
      while k > 0 && less(s[i], r[k - 1])
        invariant 0 <= k <= i && forall j | k <= j < i :: less(s[i], r[j])
      {
        k := k - 1;
      }
      Placed(less, r, k, s[i]);
      assert s[..i + 1] == s[..i] + [s[i]];
      r := r[..k] + [s[i]] + r[k..];
    }
    assert s[..|s|] == s;
  }

  lemma Placed<T(!new)>(less: (T, T) -> bool, r: seq<T>, k: nat, x: T)
    requires StrictOrder(less) && Sorted(less, r) && k <= |r| && (k > 0 ==> !less(x, r[k - 1]))
    requires forall j | k <= j < |r| :: less(x, r[j])
    ensures Sorted(less, r[..k] + [x] + r[k..]) && forall y :: y in r[..k] + [x] + r[k..] <==> y == x || y in r
  {
    var p := r[..k] + [x] + r[k..];
    assert forall y :: y in r <==> y in r[..k] || y in r[k..] by { assert r == r[..k] + r[k..]; }
    forall j | 0 <= j < k ensures !less(x, r[j]) { assert j == k - 1 || !less(r[k - 1], r[j]); }
    forall i, j | 0 <= i < j < |p| ensures !less(p[j], p[i]) {
      if j < k {
        assert p[i] == r[i] && p[j] == r[j];
      } else if i > k {
        assert p[i] == r[i - 1] && p[j] == r[j - 1];
      } else if i == k {
        assert p[j] == r[j - 1];
      } else if j > k {
        assert p[i] == r[i] && p[j] == r[j - 1];
      }
    }
  }

  /** `slices.Compact`: of equal neighbours only the first stays. */
  method Compact<T(==, !new)>(less: (T, T) -> bool, s: seq<T>) returns (r: seq<T>)
    requires StrictOrder(less) && Sorted(less, s)
    ensures r == Canonical(less, s)
  {
    r := [];
    for i := 0 to |s|
      invariant Ascending(less, r) && forall x :: x in r <==> x in s[..i]
      invariant i == 0 ==> r == []
      invariant i > 0 ==> r != [] && r[|r| - 1] == s[i - 1]
    {
      assert s[..i + 1] == s[..i] + [s[i]];
      if i == 0 || s[i] != s[i - 1] {
        if i > 0 {
          assert !less(s[i], s[i - 1]);
          forall j | 0 <= j < |r| ensures less(r[j], s[i]) {
            assert r[j] == r[|r| - 1] || less(r[j], r[|r| - 1]);
          }
        }
        r := r + [s[i]];
      } else {
        assert s[i] in r;
      }
    }
    assert s[..|s|] == s;
    CanonicalAscends(less, s);
    AscendingIsUnique(less, r, Canonical(less, s));
  }

  method SortAndCompact<T(==, !new)>(less: (T, T) -> bool, s: seq<T>) returns (r: seq<T>)
    requires StrictOrder(less)
    ensures r == Canonical(less, s)
  {
    var sorted := Sort(less, s);
    CanonicalOfItems(less, s, sorted);
    r := Compact(less, sorted);
  }

  // ----- Lexicographic order

  predicate LexLess<T(==)>(less: (T, T) -> bool, a: seq<T>, b: seq<T>) {
    b != [] && (a == [] || less(a[0], b[0]) || (a[0] == b[0] && LexLess(less, a[1..], b[1..])))
  }

  function Lex<T(==)>(less: (T, T) -> bool): (seq<T>, seq<T>) -> bool { (a, b) => LexLess(less, a, b) }

  lemma {:induction false} LexTotal<T(!new)>(less: (T, T) -> bool, a: seq<T>, b: seq<T>)
    requires StrictOrder(less)
    ensures !LexLess(less, a, a) && (a == b || LexLess(less, a, b) || LexLess(less, b, a))
    decreases |a|
  {
    if a != [] {
      LexTotal(less, a[1..], if b == [] then [] else b[1..]);
      if b != [] && a[0] == b[0] && a[1..] == b[1..] {
        assert a == [a[0]] + a[1..] && b == [b[0]] + b[1..];
      }
    }
  }

  lemma {:induction false} LexTransitive<T(!new)>(less: (T, T) -> bool, a: seq<T>, b: seq<T>, c: seq<T>)
    requires StrictOrder(less) && LexLess(less, a, b) && LexLess(less, b, c)
    ensures LexLess(less, a, c)
    decreases |a|
  {
    if a != [] && a[0] == b[0] && b[0] == c[0] { LexTransitive(less, a[1..], b[1..], c[1..]); }
  }

  lemma LexIsStrict<T(!new)>(less: (T, T) -> bool)
    requires StrictOrder(less)
    ensures StrictOrder(Lex(less))
  {
    forall a, b ensures !Lex(less)(a, a) && (a == b || Lex(less)(a, b) || Lex(less)(b, a)) { LexTotal(less, a, b); }
    forall a, b, c | Lex(less)(a, b) && Lex(less)(b, c) ensures Lex(less)(a, c) { LexTransitive(less, a, b, c); }
  }
}
