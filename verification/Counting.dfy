/** SQL's `COUNT` over a table held as a sequence of rows. */
module Counting {

  function Bit(b: bool): nat { if b then 1 else 0 }

  function Count<T>(rows: seq<T>, p: T -> bool): nat {
    if rows == [] then 0 else Count(rows[..|rows| - 1], p) + Bit(p(rows[|rows| - 1]))
  }

  /** Replacing one row changes a count by that row alone. */
  lemma {:induction false} CountUpdate<T>(rows: seq<T>, i: nat, r: T, p: T -> bool)
    requires i < |rows|
    ensures Count(rows[i := r], p) + Bit(p(rows[i])) == Count(rows, p) + Bit(p(r))
  {
    var n := |rows| - 1;
    if i == n {
      assert rows[i := r][..n] == rows[..n];
    } else {
      assert rows[i := r][..n] == rows[..n][i := r];
      CountUpdate(rows[..n], i, r, p);
    }
  }

  lemma CountAppend<T>(rows: seq<T>, r: T, p: T -> bool)
    ensures Count(rows + [r], p) == Count(rows, p) + Bit(p(r))
  {
    assert (rows + [r])[..|rows|] == rows;
  }

  lemma {:induction false} CountZero<T>(rows: seq<T>, p: T -> bool)
    requires forall r :: r in rows ==> !p(r)
    ensures Count(rows, p) == 0
  {
    if rows != [] {
      CountZero(rows[..|rows| - 1], p);
    }
  }

  lemma {:induction false} CountSame<T>(rows: seq<T>, p: T -> bool, q: T -> bool)
    requires forall r :: r in rows ==> p(r) == q(r)
    ensures Count(rows, p) == Count(rows, q)
  {
    if rows != [] {
      CountSame(rows[..|rows| - 1], p, q);
    }
  }

  /** The positions whose row qualifies. */
  function Positions<T>(rows: seq<T>, p: T -> bool): (positions: set<int>)
    ensures forall i :: i in positions <==> 0 <= i < |rows| && p(rows[i])
  {
    if rows == [] then {}
    else
      var n := |rows| - 1;
      Positions(rows[..n], p) + if p(rows[n]) then {n} else {}
  }

  lemma {:induction false} CountIsSize<T>(rows: seq<T>, p: T -> bool)
    ensures Count(rows, p) == |Positions(rows, p)|
  {
    if rows != [] {
      CountIsSize(rows[..|rows| - 1], p);
    }
  }
}
