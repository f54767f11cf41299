/** Python's deterministic orderings: `sorted(...)` over a set of keys, and the
    stable `sorted(..., key=...)` over a list. */
module Ordering {

  ghost predicate TotalPreorder<T(!new)>(le: (T, T) -> bool) {
    && (forall x, y :: le(x, y) || le(y, x))
    && (forall x, y, z :: le(x, y) && le(y, z) ==> le(x, z))
  }

  ghost predicate TotalOrder<T(!new)>(le: (T, T) -> bool) {
    TotalPreorder(le) && (forall x, y :: le(x, y) && le(y, x) ==> x == y)
  }

  ghost predicate SortedBy<T(!new)>(le: (T, T) -> bool, s: seq<T>) {
    forall i, j :: 0 <= i < j < |s| ==> le(s[i], s[j])
  }

  ghost predicate NoDuplicates<T(!new)>(s: seq<T>) {
    forall i, j :: 0 <= i < j < |s| ==> s[i] != s[j]
  }

  // ---------- sorted(set) ----------

  function LeastOf<T(==,!new)>(s: set<T>, le: (T, T) -> bool): (m: T)
    requires TotalOrder(le) && s != {}
    ensures m in s && forall x :: x in s ==> le(m, x)
  {
    assert exists m :: m in s && forall x :: x in s ==> le(m, x) by {
      LeastExists(s, le);
      var m :| IsLeast(m, s, le);
    }
    var m :| m in s && forall x :: x in s ==> le(m, x);
    m
  }

  /** The elements of `s`, each once, in ascending order. */
  function SortedElements<T(==,!new)>(s: set<T>, le: (T, T) -> bool): (r: seq<T>)
    requires TotalOrder(le)
    ensures forall x :: x in r <==> x in s
    ensures SortedBy(le, r) && NoDuplicates(r)
    ensures |r| == |s|
  {
    if s == {} then []
    else
      var m := LeastOf(s, le);
      [m] + SortedElements(s - {m}, le)
  }

  ghost predicate IsLeast<T(!new)>(m: T, s: set<T>, le: (T, T) -> bool) {
    m in s && forall x :: x in s ==> le(m, x)
  }

  lemma {:induction false} LeastExists<T(!new)>(s: set<T>, le: (T, T) -> bool)
    requires TotalOrder(le) && s != {}
    ensures exists m :: IsLeast(m, s, le)
  {
    var y :| y in s;
    assert le(y, y);
    if s == {y} {
      assert IsLeast(y, s, le);
    } else {
      LeastExists(s - {y}, le);
      var m :| IsLeast(m, s - {y}, le);
      if le(m, y) {
        assert IsLeast(m, s, le);
      } else {
        forall x | x in s ensures le(y, x) {
          if x != y { assert le(y, m) && le(m, x); }
        }
        assert IsLeast(y, s, le);
      }
    }
  }

  predicate IntLe(x: int, y: int) { x <= y }

  function SortedInts(s: set<int>): (r: seq<int>)
    ensures forall x :: x in r <==> x in s
    ensures SortedBy(IntLe, r) && NoDuplicates(r)
    ensures |r| == |s|
  {
    SortedElements(s, IntLe)
  }

  /** Python's `<=` on strings: lexicographic by code point. */
  predicate NameLe(a: string, b: string) {
    if a == [] then true
    else if b == [] then false
    else if a[0] != b[0] then a[0] < b[0]
    else NameLe(a[1..], b[1..])
  }

  lemma NameLeTotal(a: string, b: string)
    ensures NameLe(a, b) || NameLe(b, a)
    ensures NameLe(a, b) && NameLe(b, a) ==> a == b
  {
    if a != [] && b != [] && a[0] == b[0] {
      NameLeTotal(a[1..], b[1..]);
      assert a == [a[0]] + a[1..] && b == [b[0]] + b[1..];
    }
  }

  lemma NameLeTransitive(a: string, b: string, c: string)
    requires NameLe(a, b) && NameLe(b, c)
    ensures NameLe(a, c)
  {
    if a != [] && b != [] && c != [] && a[0] == b[0] == c[0] {
      NameLeTransitive(a[1..], b[1..], c[1..]);
    }
  }

  /** Both names agree before position `k`, where the first one ends or has the smaller character. */
  predicate SmallerAt(a: string, b: string, k: nat) {
    && k <= |a| && k <= |b| && a[..k] == b[..k]
    && (k == |a| || (k < |b| && a[k] < b[k]))
  }

  /** Lexicographic by code point, a name coming before its extensions. */
  lemma {:induction false} NameLeExactly(a: string, b: string)
    ensures NameLe(a, b) <==> exists k: nat :: SmallerAt(a, b, k)
  {
    if a == [] {
      assert SmallerAt(a, b, 0);
    } else if b != [] && a[0] == b[0] {
      NameLeExactly(a[1..], b[1..]);
      if k: nat :| SmallerAt(a[1..], b[1..], k) { PrependSame(a, b, k); }
      if k: nat :| SmallerAt(a, b, k) { DropSame(a, b, k); }
    } else if b != [] && a[0] < b[0] {
      assert SmallerAt(a, b, 0);
    } else {
      forall k: nat ensures !SmallerAt(a, b, k) {
        if 0 < k <= |a| && k <= |b| { assert a[..k][0] == a[0] && b[..k][0] == b[0]; }
      }
    }
  }

  lemma PrependSame(a: string, b: string, k: nat)
    requires a != [] && b != [] && a[0] == b[0] && SmallerAt(a[1..], b[1..], k)
    ensures SmallerAt(a, b, k + 1)
  {
    assert a[..k + 1] == [a[0]] + a[1..][..k] && b[..k + 1] == [b[0]] + b[1..][..k];
  }

  lemma DropSame(a: string, b: string, k: nat)
    requires a != [] && b != [] && a[0] == b[0] && SmallerAt(a, b, k)
    ensures k > 0 && SmallerAt(a[1..], b[1..], k - 1)
  {
    assert a[1..][..k - 1] == a[..k][1..] && b[1..][..k - 1] == b[..k][1..];
  }

  lemma NameOrder()
    ensures TotalOrder(NameLe)
  {
    forall a, b ensures (NameLe(a, b) || NameLe(b, a)) && (NameLe(a, b) && NameLe(b, a) ==> a == b) {
      NameLeTotal(a, b);
    }
    forall a, b, c | NameLe(a, b) && NameLe(b, c) ensures NameLe(a, c) {
      NameLeTransitive(a, b, c);
    }
  }

  function SortedNames(s: set<string>): (r: seq<string>)
    ensures forall x :: x in r <==> x in s
    ensures NoDuplicates(r)
    ensures |r| == |s|
  {
    NameOrder();
    SortedElements(s, NameLe)
  }

  // ---------- stable sort of a list ----------

  /** `x` goes in front of the first element it does not exceed, so equal elements keep their order. */
  function InsertSorted<T>(le: (T, T) -> bool, x: T, s: seq<T>): (r: seq<T>)
    ensures multiset(r) == multiset{x} + multiset(s)
    ensures |r| == |s| + 1
  {
    if s == [] then [x]
    else if le(x, s[0]) then
      assert [x] + s == [x] + s;
      [x] + s
    else
      assert s == [s[0]] + s[1..];
      [s[0]] + InsertSorted(le, x, s[1..])
  }

  function StableSort<T>(le: (T, T) -> bool, s: seq<T>): (r: seq<T>)
    ensures multiset(r) == multiset(s)
    ensures |r| == |s|
  {
    if s == [] then []
    else
      assert s == [s[0]] + s[1..];
      InsertSorted(le, s[0], StableSort(le, s[1..]))
  }

  lemma InsertKeepsSorted<T(!new)>(le: (T, T) -> bool, x: T, s: seq<T>)
    requires TotalPreorder(le) && SortedBy(le, s)
    ensures SortedBy(le, InsertSorted(le, x, s))
  {
    if s != [] && !le(x, s[0]) {
      InsertKeepsSorted(le, x, s[1..]);
      var r := InsertSorted(le, x, s[1..]);
      forall j | 0 <= j < |r| ensures le(s[0], r[j]) {
        assert r[j] in multiset(r);
        assert r[j] == x || r[j] in s[1..];
      }
    }
  }

  lemma StableSortSorts<T(!new)>(le: (T, T) -> bool, s: seq<T>)
    requires TotalPreorder(le)
    ensures SortedBy(le, StableSort(le, s))
  {
    if s != [] {
      StableSortSorts(le, s[1..]);
      InsertKeepsSorted(le, s[0], StableSort(le, s[1..]));
    }
  }

  /** Membership in six parts joined. */
  lemma InSix<T>(a: seq<T>, b: seq<T>, c: seq<T>, d: seq<T>, e: seq<T>, f: seq<T>, x: T)
    ensures x in a + b + c + d + e + f <==> x in a || x in b || x in c || x in d || x in e || x in f
  {
    assert x in a + b + c <==> x in a || x in b || x in c;
    assert x in a + b + c + d + e <==> x in a + b + c || x in d || x in e;
  }

  /** Two sorted arrangements of the same integers are the same list. */
  lemma {:induction false} SortedIntsUnique(a: seq<int>, b: seq<int>)
    requires multiset(a) == multiset(b)
    requires SortedBy(IntLe, a) && SortedBy(IntLe, b)
    ensures a == b
  {
    assert |a| == |multiset(a)| == |multiset(b)| == |b|;
    if a != [] {
      assert a[0] in multiset(b) && b[0] in multiset(a);
      assert a[0] == b[0];
      assert a == [a[0]] + a[1..];
      assert b == [b[0]] + b[1..];
      assert multiset(a[1..]) == multiset(a) - multiset{a[0]};
      assert multiset(b[1..]) == multiset(b) - multiset{b[0]};
      SortedIntsUnique(a[1..], b[1..]);
    }
  }

  // ---------- sequences and multisets ----------

  lemma MembersOfPermutation<T>(a: seq<T>, b: seq<T>)
    requires multiset(a) == multiset(b)
    ensures forall x :: x in a <==> x in b
    ensures |a| == |b|
  {
    forall x ensures x in a <==> x in b {
      assert x in a <==> x in multiset(a);
      assert x in b <==> x in multiset(b);
    }
    assert |multiset(a)| == |a| && |multiset(b)| == |b|;
  }

  function Mapped<T, U>(f: T -> U, s: seq<T>): (r: seq<U>)
    ensures |r| == |s|
    ensures forall i :: 0 <= i < |s| ==> r[i] == f(s[i])
  {
    if s == [] then [] else [f(s[0])] + Mapped(f, s[1..])
  }

  lemma {:induction false} MappedConcat<T, U>(f: T -> U, a: seq<T>, b: seq<T>)
    ensures Mapped(f, a + b) == Mapped(f, a) + Mapped(f, b)
  {
    hide Mapped;
    assert forall i :: 0 <= i < |a + b| ==> Mapped(f, a + b)[i] == (Mapped(f, a) + Mapped(f, b))[i];
  }

  /** Taking the first element of one arrangement out of the other. */
  lemma TakeOut<T>(a: seq<T>, b: seq<T>) returns (i: nat)
    requires multiset(a) == multiset(b) && a != []
    ensures i < |b| && b[i] == a[0]
    ensures multiset(a[1..]) == multiset(b[..i] + b[i + 1..])
  {
    assert a[0] in multiset(b);
    i :| i < |b| && b[i] == a[0];
    assert a == [a[0]] + a[1..];
    assert b == b[..i] + [b[i]] + b[i + 1..];
    assert multiset(a[1..]) == multiset(a) - multiset{a[0]};
    assert multiset(b[..i] + b[i + 1..]) == multiset(b) - multiset{b[i]};
  }

  lemma {:induction false} MappedPermutation<T, U>(f: T -> U, a: seq<T>, b: seq<T>)
    requires multiset(a) == multiset(b)
    ensures multiset(Mapped(f, a)) == multiset(Mapped(f, b))
  {
    MembersOfPermutation(a, b);
    if a != [] {
      var i := TakeOut(a, b);
      MappedPermutation(f, a[1..], b[..i] + b[i + 1..]);
      MappedConcat(f, b[..i], b[i + 1..]);
      MappedSplit(f, b, i);
    }
  }

  lemma MappedSplit<T, U>(f: T -> U, b: seq<T>, i: nat)
    requires i < |b|
    ensures Mapped(f, b) == Mapped(f, b[..i]) + [f(b[i])] + Mapped(f, b[i + 1..])
  {
    hide Mapped;
    var whole, parts := Mapped(f, b), Mapped(f, b[..i]) + [f(b[i])] + Mapped(f, b[i + 1..]);
    assert |whole| == |parts|;
    assert forall j :: 0 <= j < |b| ==> whole[j] == parts[j];
  }

  function Kept<T>(p: T -> bool, s: seq<T>): seq<T> {
    if s == [] then [] else (if p(s[0]) then [s[0]] else []) + Kept(p, s[1..])
  }

  lemma {:induction false} InKept<T>(p: T -> bool, s: seq<T>, x: T)
    ensures x in Kept(p, s) <==> x in s && p(x)
  {
    if s != [] {
      InKept(p, s[1..], x);
      assert s == [s[0]] + s[1..];
    }
  }

  lemma KeptOne<T>(p: T -> bool, x: T)
    ensures Kept(p, [x]) == if p(x) then [x] else []
  {
    assert [x][1..] == [];
  }

  lemma {:induction false} KeptConcat<T>(p: T -> bool, a: seq<T>, b: seq<T>)
    ensures Kept(p, a + b) == Kept(p, a) + Kept(p, b)
  {
    if a == [] {
      assert a + b == b;
    } else {
      var first := if p(a[0]) then [a[0]] else [];
      assert (a + b)[0] == a[0] && (a + b)[1..] == a[1..] + b;
      assert Kept(p, a + b) == first + Kept(p, a[1..] + b) && Kept(p, a) == first + Kept(p, a[1..]);
      hide Kept;
      KeptConcat(p, a[1..], b);
      assert first + (Kept(p, a[1..]) + Kept(p, b)) == first + Kept(p, a[1..]) + Kept(p, b);
    }
  }

  // ---------- counting ----------

  function Count<T>(p: T -> bool, s: seq<T>): nat {
    if s == [] then 0 else (if p(s[0]) then 1 else 0) + Count(p, s[1..])
  }

  lemma {:induction false} CountConcat<T>(p: T -> bool, a: seq<T>, b: seq<T>)
    ensures Count(p, a + b) == Count(p, a) + Count(p, b)
  {
    if a == [] {
      assert a + b == b;
    } else {
      CountConcat(p, a[1..], b);
      assert (a + b)[1..] == a[1..] + b;
    }
  }

  lemma CountAppend<T>(p: T -> bool, a: seq<T>, x: T)
    ensures Count(p, a + [x]) == Count(p, a) + if p(x) then 1 else 0
  {
    CountConcat(p, a, [x]);
    assert [x][1..] == [];
  }

  lemma {:induction false} CountPermutation<T>(p: T -> bool, a: seq<T>, b: seq<T>)
    requires multiset(a) == multiset(b)
    ensures Count(p, a) == Count(p, b)
  {
    MembersOfPermutation(a, b);
    if a != [] {
      var i := TakeOut(a, b);
      CountPermutation(p, a[1..], b[..i] + b[i + 1..]);
      assert b == b[..i] + [b[i]] + b[i + 1..];
      CountConcat(p, b[..i] + [b[i]], b[i + 1..]);
      CountConcat(p, b[..i], b[i + 1..]);
      CountAppend(p, b[..i], b[i]);
    }
  }

  lemma {:induction false} CountImplies<T>(p: T -> bool, q: T -> bool, s: seq<T>)
    requires forall x :: x in s && p(x) ==> q(x)
    ensures Count(p, s) <= Count(q, s)
  {
    if s != [] {
      assert forall x :: x in s[1..] ==> x in s;
      CountImplies(p, q, s[1..]);
    }
  }

  lemma {:induction false} CountSplit<T>(p: T -> bool, q: T -> bool, r: T -> bool, s: seq<T>)
    requires forall x :: x in s ==> (p(x) <==> q(x) || r(x)) && !(q(x) && r(x))
    ensures Count(p, s) == Count(q, s) + Count(r, s)
  {
    if s != [] {
      assert forall x :: x in s[1..] ==> x in s;
      CountSplit(p, q, r, s[1..]);
    }
  }

  lemma {:induction false} CountAcross<T, U>(p: T -> bool, f: U -> T, q: U -> bool, s: seq<U>)
    requires forall x :: x in s ==> p(f(x)) == q(x)
    ensures Count(p, Mapped(f, s)) == Count(q, s)
  {
    if s != [] {
      assert forall x :: x in s[1..] ==> x in s;
      CountAcross(p, f, q, s[1..]);
    }
  }

  lemma {:induction false} CountSome<T>(p: T -> bool, s: seq<T>)
    ensures Count(p, s) > 0 <==> exists x :: x in s && p(x)
  {
    if s != [] {
      CountSome(p, s[1..]);
      assert s == [s[0]] + s[1..];
    }
  }

  lemma {:induction false} CountAll<T>(p: T -> bool, s: seq<T>)
    requires forall x :: x in s ==> p(x)
    ensures Count(p, s) == |s|
  {
    if s != [] {
      assert forall x :: x in s[1..] ==> x in s;
      CountAll(p, s[1..]);
    }
  }
}
