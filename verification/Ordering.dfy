/** Sorting and compacting a list into the one strictly ordered list of its
    elements, by which two lists are compared as sets. */
module Ordering {
  ghost predicate TotalOrder<T(!new)>(le: (T, T) -> bool) {
    && (forall x :: le(x, x))
    && (forall x, y :: le(x, y) || le(y, x))
    && (forall x, y :: le(x, y) && le(y, x) ==> x == y)
    && (forall x, y, z :: le(x, y) && le(y, z) ==> le(x, z))
  }

  function Insert<T>(s: seq<T>, x: T, le: (T, T) -> bool): seq<T> {
    if s == [] then [x] else if le(x, s[0]) then [x] + s else [s[0]] + Insert(s[1..], x, le)
  }

  function Sort<T>(s: seq<T>, le: (T, T) -> bool): seq<T> {
    if s == [] then [] else Insert(Sort(s[1..], le), s[0], le)
  }

  // Equal neighbours become one.
  function Compact<T(==)>(s: seq<T>): seq<T> {
    if |s| <= 1 then s
    else if s[0] == s[1] then Compact(s[1..])
    else [s[0]] + Compact(s[1..])
  }

  function Canonical<T(==)>(s: seq<T>, le: (T, T) -> bool): seq<T> {
    Compact(Sort(s, le))
  }

  predicate Sorted<T>(s: seq<T>, le: (T, T) -> bool) {
    forall i, j :: 0 <= i < j < |s| ==> le(s[i], s[j])
  }

  predicate NoDuplicates<T(==)>(s: seq<T>) {
    forall i, j :: 0 <= i < j < |s| ==> s[i] != s[j]
  }

  predicate SameElements<T(==)>(a: seq<T>, b: seq<T>) {
    (forall x :: x in a ==> x in b) && (forall x :: x in b ==> x in a)
  }

  lemma {:induction false} InsertSorted<T(!new)>(s: seq<T>, x: T, le: (T, T) -> bool)
    requires TotalOrder(le) && Sorted(s, le)
    ensures Sorted(Insert(s, x, le), le)
    ensures forall y :: y in Insert(s, x, le) <==> y == x || y in s
  {
    if s != [] && !le(x, s[0]) {
      InsertSorted(s[1..], x, le);
      var rest := Insert(s[1..], x, le);
      forall i | 0 <= i < |rest| ensures le(s[0], rest[i]) {
        assert rest[i] in rest;
      }
    }
  }

  lemma {:induction false} SortSorts<T(!new)>(s: seq<T>, le: (T, T) -> bool)
    requires TotalOrder(le)
    ensures Sorted(Sort(s, le), le)
    ensures forall y :: y in Sort(s, le) <==> y in s
  {
    if s != [] {
      SortSorts(s[1..], le);
      InsertSorted(Sort(s[1..], le), s[0], le);
      assert s == [s[0]] + s[1..];
    }
  }

  lemma {:induction false} CompactCompacts<T(!new)>(s: seq<T>, le: (T, T) -> bool)
    requires TotalOrder(le) && Sorted(s, le)
    ensures Sorted(Compact(s), le) && NoDuplicates(Compact(s))
    ensures forall y :: y in Compact(s) <==> y in s
    ensures s != [] ==> Compact(s) != [] && Compact(s)[0] == s[0]
  {
    if |s| > 1 {
      var rest := Compact(s[1..]);
      CompactCompacts(s[1..], le);
      assert s == [s[0]] + s[1..];
      if s[0] != s[1] {
        forall i | 0 <= i < |rest| ensures le(s[0], rest[i]) && rest[i] != s[0] {
          assert rest[i] in s[1..];
          assert le(s[1], rest[i]);
          assert le(s[0], s[1]) && !le(s[1], s[0]);
        }
      }
    }
  }

  lemma CanonicalIs<T(!new)>(s: seq<T>, le: (T, T) -> bool)
    requires TotalOrder(le)
    ensures var c := Canonical(s, le); Sorted(c, le) && NoDuplicates(c) && forall y :: y in c <==> y in s
  {
    SortSorts(s, le);
    CompactCompacts(Sort(s, le), le);
  }

  // There is one such list of given elements.
  lemma {:induction false} CanonicalIsUnique<T(!new)>(a: seq<T>, b: seq<T>, le: (T, T) -> bool)
    requires TotalOrder(le) && Sorted(a, le) && Sorted(b, le) && NoDuplicates(a) && NoDuplicates(b)
    requires SameElements(a, b)
    ensures a == b
  {
    assert a != [] ==> a[0] in b;
    assert b != [] ==> b[0] in a;
    if a != [] {
      assert a[0] in b && b[0] in a;
      assert le(a[0], b[0]) && le(b[0], a[0]);
      forall x | x in a[1..] ensures x in b[1..] {
        assert x in a && x in b;
        var i :| 0 <= i < |a[1..]| && a[1..][i] == x;
        assert a[i + 1] == x && x != a[0];
      }
      forall x | x in b[1..] ensures x in a[1..] {
        assert x in b && x in a;
        var i :| 0 <= i < |b[1..]| && b[1..][i] == x;
        assert b[i + 1] == x && x != b[0];
      }
      CanonicalIsUnique(a[1..], b[1..], le);
    }
  }

  // Sorting, compacting and comparing decides exactly whether two lists hold the same elements.
  lemma CanonicalDecides<T(!new)>(a: seq<T>, b: seq<T>, le: (T, T) -> bool)
    requires TotalOrder(le)
    ensures Canonical(a, le) == Canonical(b, le) <==> SameElements(a, b)
  {
    CanonicalIs(a, le);
    CanonicalIs(b, le);
    if SameElements(a, b) { CanonicalIsUnique(Canonical(a, le), Canonical(b, le), le); }
  }

  /********** The two orders in use **********/

  predicate NatLe(x: nat, y: nat) {
    x <= y
  }

  // Bytes from the left, a prefix first.
  predicate StringLe(a: string, b: string) {
    a == "" || (b != "" && (a[0] < b[0] || (a[0] == b[0] && StringLe(a[1..], b[1..]))))
  }

  lemma NatLeTotal()
    ensures TotalOrder(NatLe)
  {
  }

  lemma {:induction false} StringLeRefl(a: string)
    ensures StringLe(a, a)
  {
    if a != "" { StringLeRefl(a[1..]); }
  }

  lemma {:induction false} StringLeBoth(a: string, b: string)
    ensures StringLe(a, b) || StringLe(b, a)
    ensures StringLe(a, b) && StringLe(b, a) ==> a == b
  {
    if a != "" && b != "" && a[0] == b[0] {
      StringLeBoth(a[1..], b[1..]);
      assert a == [a[0]] + a[1..] && b == [b[0]] + b[1..];
    }
  }

  lemma {:induction false} StringLeTrans(a: string, b: string, c: string)
    requires StringLe(a, b) && StringLe(b, c)
    ensures StringLe(a, c)
  {
    if a != "" && a[0] == b[0] == c[0] { StringLeTrans(a[1..], b[1..], c[1..]); }
  }

  lemma StringLeTotal()
    ensures TotalOrder(StringLe)
  {
    forall x: string ensures StringLe(x, x) { StringLeRefl(x); }
    forall x: string, y: string ensures (StringLe(x, y) || StringLe(y, x)) && (StringLe(x, y) && StringLe(y, x) ==> x == y) {
      StringLeBoth(x, y);
    }
    forall x: string, y: string, z: string | StringLe(x, y) && StringLe(y, z) ensures StringLe(x, z) { StringLeTrans(x, y, z); }
  }
}
