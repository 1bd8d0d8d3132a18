/**
 Sorting by a pair of integers: ascending in the first, then in the second; elements with equal
 keys keep their original order.
 */
module StableSort {

  datatype Key = Key(major: int, minor: int)

  predicate Leq(a: Key, b: Key) {
    a.major < b.major || (a.major == b.major && a.minor <= b.minor)
  }

  function Insert<T>(key: T -> Key, x: T, s: seq<T>): (r: seq<T>)
    ensures multiset(r) == multiset([x]) + multiset(s)
  {
    if s == [] || Leq(key(x), key(s[0])) then [x] + s
    else
      assert s == [s[0]] + s[1..];
      [s[0]] + Insert(key, x, s[1..])
  }

  function Sort<T>(key: T -> Key, s: seq<T>): (r: seq<T>)
    ensures multiset(r) == multiset(s)
  {
    if s == [] then []
    else
      assert s == [s[0]] + s[1..];
      Insert(key, s[0], Sort(key, s[1..]))
  }

  ghost predicate Sorted<T>(key: T -> Key, s: seq<T>) {
    forall i, j :: 0 <= i < j < |s| ==> Leq(key(s[i]), key(s[j]))
  }

  lemma {:induction false} InsertKeepsSorted<T>(key: T -> Key, x: T, s: seq<T>)
    requires Sorted(key, s)
    ensures Sorted(key, Insert(key, x, s))
  {
    if s != [] && !Leq(key(x), key(s[0])) {
      InsertKeepsSorted(key, x, s[1..]);
      var tail := Insert(key, x, s[1..]);
      forall j | 0 <= j < |tail| ensures Leq(key(s[0]), key(tail[j])) {
        MembersComeFrom(tail, [x] + s[1..], j);
      }
    }
  }

  /** The result of `Sort` is in ascending key order. */
  lemma {:induction false} SortIsSorted<T>(key: T -> Key, s: seq<T>)
    ensures Sorted(key, Sort(key, s))
  {
    if s != [] {
      SortIsSorted(key, s[1..]);
      InsertKeepsSorted(key, s[0], Sort(key, s[1..]));
    }
  }

  /** Elements of a permutation are elements of the original. */
  lemma MembersComeFrom<T>(a: seq<T>, b: seq<T>, j: nat)
    requires multiset(a) == multiset(b) && j < |a|
    ensures a[j] in b
  {
    assert a[j] in multiset(a);
  }

  lemma SameMembers<T(!new)>(a: seq<T>, b: seq<T>)
    requires multiset(a) == multiset(b)
    ensures forall x :: x in a <==> x in b
  {
    forall x ensures x in a <==> x in b {
      assert x in a <==> x in multiset(a);
      assert x in b <==> x in multiset(b);
    }
  }

  /** Different elements have different keys. */
  ghost predicate KeyInjective<T(!new)>(key: T -> Key, s: seq<T>) {
    forall x, y :: x in s && y in s && key(x) == key(y) ==> x == y
  }

  /** A sorted arrangement is unique once keys identify elements. */
  lemma {:induction false} SortedIsUnique<T(!new)>(key: T -> Key, a: seq<T>, b: seq<T>)
    requires Sorted(key, a) && Sorted(key, b) && multiset(a) == multiset(b) && KeyInjective(key, a)
    ensures a == b
  {
    assert |multiset(a)| == |multiset(b)|;
    if a != [] {
      SameHead(key, a, b);
      TailsMatch(a, b);
      SortedIsUnique(key, a[1..], b[1..]);
      assert a == [a[0]] + a[1..] && b == [b[0]] + b[1..];
    }
  }

  lemma SameHead<T(!new)>(key: T -> Key, a: seq<T>, b: seq<T>)
    requires Sorted(key, a) && Sorted(key, b) && multiset(a) == multiset(b) && KeyInjective(key, a)
    requires a != [] && b != []
    ensures a[0] == b[0]
  {
    SameMembers(a, b);
    assert a[0] in b && b[0] in a;
    var i :| 0 <= i < |a| && a[i] == b[0];
    var j :| 0 <= j < |b| && b[j] == a[0];
    assert Leq(key(a[0]), key(a[i])) && Leq(key(b[0]), key(b[j]));
  }

  lemma TailsMatch<T>(a: seq<T>, b: seq<T>)
    requires a != [] && b != [] && a[0] == b[0] && multiset(a) == multiset(b)
    ensures multiset(a[1..]) == multiset(b[1..])
  {
    assert a == [a[0]] + a[1..] && b == [b[0]] + b[1..];
    assert multiset(a[1..]) == multiset(a) - multiset([a[0]]);
    assert multiset(b[1..]) == multiset(b) - multiset([b[0]]);
  }

  /** Sorting does not depend on the input order once keys identify elements. */
  lemma SortIgnoresInputOrder<T(!new)>(key: T -> Key, a: seq<T>, b: seq<T>)
    requires multiset(a) == multiset(b) && KeyInjective(key, a)
    ensures Sort(key, a) == Sort(key, b)
  {
    SortIsSorted(key, a);
    SortIsSorted(key, b);
    SameMembers(Sort(key, a), a);
    var sa := Sort(key, a);
    forall x, y | x in sa && y in sa && key(x) == key(y) ensures x == y {
      assert x in a && y in a;
    }
    SortedIsUnique(key, Sort(key, a), Sort(key, b));
  }
}
