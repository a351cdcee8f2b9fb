/**
 * Database tables as sequences of rows, in the order the database returns
 * them, and the four repository primitives the services use: `findOne`
 * (first matching row), `find` (all matching rows), `update` by criteria and
 * `delete` by criteria.
 */
module Tables {
  import opened Common

  /** Position of the first row satisfying `p`: the row `findOne` returns. */
  function FindIndex<T>(rows: seq<T>, p: T -> bool): (r: Option<nat>)
    ensures r.Some? ==> r.value < |rows| && p(rows[r.value])
    ensures r.Some? ==> forall j :: 0 <= j < r.value ==> !p(rows[j])
    ensures r.None? ==> forall j :: 0 <= j < |rows| ==> !p(rows[j])
    decreases |rows|
  {
    if |rows| == 0 then None
    else if p(rows[0]) then Some(0)
    else match FindIndex(rows[1..], p)
      case None => None
      case Some(i) => Some(i + 1)
  }

  /** `findOne`: the first row satisfying `p`, if any. */
  function Find<T>(rows: seq<T>, p: T -> bool): (r: Option<T>)
    ensures r.Some? <==> exists i :: 0 <= i < |rows| && p(rows[i])
    ensures r.Some? ==> p(r.value)
    ensures r.Some? ==> exists i :: 0 <= i < |rows| && rows[i] == r.value
  {
    match FindIndex(rows, p)
    case None => None
    case Some(i) => Some(rows[i])
  }

  /** `find`: every row satisfying `p`, in table order. */
  function Where<T(==)>(rows: seq<T>, p: T -> bool): (r: seq<T>)
    ensures |r| <= |rows|
    ensures forall i :: 0 <= i < |r| ==> p(r[i])
    ensures forall i :: 0 <= i < |rows| && p(rows[i]) ==> rows[i] in r
    ensures forall x :: x in r ==> x in rows
    decreases |rows|
  {
    if |rows| == 0 then []
    else if p(rows[0]) then [rows[0]] + Where(rows[1..], p)
    else Where(rows[1..], p)
  }

  /** `find` by a criterion no row meets finds nothing. */
  lemma {:induction false} WhereNone<T>(rows: seq<T>, p: T -> bool)
    requires forall i :: 0 <= i < |rows| ==> !p(rows[i])
    ensures Where(rows, p) == []
    decreases |rows|
  {
    if |rows| > 0 {
      WhereNone(rows[1..], p);
    }
  }

  /** `delete(criteria)`: the table without the rows satisfying `p`. */
  function Delete<T(==)>(rows: seq<T>, p: T -> bool): (r: seq<T>)
    ensures forall i :: 0 <= i < |r| ==> !p(r[i])
    ensures forall i :: 0 <= i < |rows| && !p(rows[i]) ==> rows[i] in r
    ensures forall x :: x in r ==> x in rows
  {
    Where(rows, x => !p(x))
  }

  /** `update(criteria, values)`: every row satisfying `p` rewritten by `f`,
      every other row untouched, positions kept. */
  function Update<T>(rows: seq<T>, p: T -> bool, f: T -> T): (r: seq<T>)
    ensures |r| == |rows|
    ensures forall i :: 0 <= i < |rows| ==> r[i] == (if p(rows[i]) then f(rows[i]) else rows[i])
    decreases |rows|
  {
    if |rows| == 0 then []
    else [if p(rows[0]) then f(rows[0]) else rows[0]] + Update(rows[1..], p, f)
  }

  /** Number of rows satisfying `p` (what `findAndCount` reports). */
  function Count<T>(rows: seq<T>, p: T -> bool): nat
    decreases |rows|
  {
    if |rows| == 0 then 0
    else (if p(rows[0]) then 1 else 0) + Count(rows[1..], p)
  }

  /** Deleting rows no row satisfies leaves the table as it was. */
  lemma {:induction false} DeleteNothing<T>(rows: seq<T>, p: T -> bool)
    requires forall i :: 0 <= i < |rows| ==> !p(rows[i])
    ensures Delete(rows, p) == rows
    decreases |rows|
  {
    if |rows| > 0 {
      DeleteNothing(rows[1..], p);
      assert Where(rows, x => !p(x)) == [rows[0]] + Where(rows[1..], x => !p(x));
    }
  }

  /** Deleting from a table extended by rows that all satisfy `p` gives the
      same result as deleting from the original table. */
  lemma {:induction false} DeleteAppended<T>(rows: seq<T>, extra: seq<T>, p: T -> bool)
    requires forall i :: 0 <= i < |extra| ==> p(extra[i])
    ensures Delete(rows + extra, p) == Delete(rows, p)
    decreases |rows|
  {
    if |rows| == 0 {
      DeleteAllMatching(extra, p);
      assert rows + extra == extra;
    } else {
      assert (rows + extra)[1..] == rows[1..] + extra;
      DeleteAppended(rows[1..], extra, p);
    }
  }

  /** Rows appended to a table none of whose rows `p` selects, all selected
      by `p`, are exactly what deleting by `p` removes. */
  lemma DeleteFresh<T>(rows: seq<T>, extra: seq<T>, p: T -> bool)
    requires forall i :: 0 <= i < |rows| ==> !p(rows[i])
    requires forall i :: 0 <= i < |extra| ==> p(extra[i])
    ensures Delete(rows + extra, p) == rows
  {
    DeleteAppended(rows, extra, p);
    DeleteNothing(rows, p);
  }

  lemma {:induction false} DeleteAllMatching<T>(rows: seq<T>, p: T -> bool)
    requires forall i :: 0 <= i < |rows| ==> p(rows[i])
    ensures Delete(rows, p) == []
    decreases |rows|
  {
    if |rows| > 0 {
      DeleteAllMatching(rows[1..], p);
    }
  }

  /** The length of `Where` is the number of matching rows. */
  lemma {:induction false} WhereCount<T>(rows: seq<T>, p: T -> bool)
    ensures |Where(rows, p)| == Count(rows, p)
    decreases |rows|
  {
    if |rows| > 0 {
      WhereCount(rows[1..], p);
    }
  }

  /** Deleting by a criterion exactly one row satisfies removes just that
      row and keeps the others in order. */
  lemma {:induction false} DeleteAt<T>(rows: seq<T>, k: nat, p: T -> bool)
    requires k < |rows|
    requires p(rows[k])
    requires forall i :: 0 <= i < |rows| && i != k ==> !p(rows[i])
    ensures Delete(rows, p) == rows[..k] + rows[k + 1..]
    decreases |rows|
  {
    if k == 0 {
      DeleteNothing(rows[1..], p);
      assert rows[..0] + rows[1..] == rows[1..];
    } else {
      DeleteAt(rows[1..], k - 1, p);
      assert rows[1..][..k - 1] + rows[1..][k..] == rows[1..k] + rows[k + 1..];
      assert rows[..k] + rows[k + 1..] == [rows[0]] + (rows[1..k] + rows[k + 1..]);
    }
  }

  /** A rewrite that keeps the search criterion's verdict on every row does
      not move the first match. */
  lemma {:induction false} FindIndexAfterUpdate<T>(rows: seq<T>, p: T -> bool, f: T -> T, q: T -> bool)
    requires forall i :: 0 <= i < |rows| ==> q(if p(rows[i]) then f(rows[i]) else rows[i]) == q(rows[i])
    ensures FindIndex(Update(rows, p, f), q) == FindIndex(rows, q)
    decreases |rows|
  {
    if |rows| > 0 {
      assert Update(rows, p, f)[1..] == Update(rows[1..], p, f);
      FindIndexAfterUpdate(rows[1..], p, f, q);
    }
  }

  /** Two criteria that agree on every row find the same first match. */
  lemma {:induction false} FindIndexAgrees<T>(rows: seq<T>, p: T -> bool, q: T -> bool)
    requires forall i :: 0 <= i < |rows| ==> p(rows[i]) == q(rows[i])
    ensures FindIndex(rows, p) == FindIndex(rows, q)
    decreases |rows|
  {
    if |rows| > 0 {
      FindIndexAgrees(rows[1..], p, q);
    }
  }

  /** A row that satisfies `q` with no earlier row doing so is the first match. */
  lemma FindIndexIs<T>(rows: seq<T>, q: T -> bool, i: nat)
    requires i < |rows| && q(rows[i])
    requires forall k :: 0 <= k < i ==> !q(rows[k])
    ensures FindIndex(rows, q) == Some(i)
  {
  }

  /** A row appended to a table in which nothing satisfies `p` is the
      first match when it satisfies `p` itself. */
  lemma {:induction false} FindIndexAppended<T>(rows: seq<T>, x: T, p: T -> bool)
    requires forall i :: 0 <= i < |rows| ==> !p(rows[i])
    requires p(x)
    ensures FindIndex(rows + [x], p) == Some(|rows|)
    decreases |rows|
  {
    if |rows| > 0 {
      assert (rows + [x])[1..] == rows[1..] + [x];
      FindIndexAppended(rows[1..], x, p);
    }
  }

  /** The same through `findOne`: the appended row is the one found. */
  lemma FindAppended<T>(rows: seq<T>, x: T, p: T -> bool)
    requires forall i :: 0 <= i < |rows| ==> !p(rows[i])
    requires p(x)
    ensures Find(rows + [x], p) == Some(x)
  {
    FindIndexAppended(rows, x, p);
  }

  /** Rewriting rows by an `f` that keeps them selected and is settled on
      its own results a second time changes nothing more. */
  lemma UpdateIdempotent<T>(rows: seq<T>, p: T -> bool, f: T -> T)
    requires forall i :: 0 <= i < |rows| && p(rows[i]) ==> p(f(rows[i])) && f(f(rows[i])) == f(rows[i])
    ensures Update(Update(rows, p, f), p, f) == Update(rows, p, f)
  {
    var once := Update(rows, p, f);
    var twice := Update(once, p, f);
    forall i | 0 <= i < |rows| ensures twice[i] == once[i] {
      if p(rows[i]) {
        assert once[i] == f(rows[i]);
      }
    }
  }

  /** Rewriting the same rows by `f` and then by an inverse `g` restores the
      table, provided `f` keeps the rows selected. */
  lemma UpdateInverse<T>(rows: seq<T>, p: T -> bool, f: T -> T, g: T -> T)
    requires forall i :: 0 <= i < |rows| && p(rows[i]) ==> p(f(rows[i])) && g(f(rows[i])) == rows[i]
    ensures Update(Update(rows, p, f), p, g) == rows
  {
    var once := Update(rows, p, f);
    var twice := Update(once, p, g);
    assert forall i :: 0 <= i < |rows| ==> twice[i] == rows[i] by {
      forall i | 0 <= i < |rows| ensures twice[i] == rows[i] {
        if p(rows[i]) {
          assert once[i] == f(rows[i]);
        } else {
          assert once[i] == rows[i];
        }
      }
    }
  }

  /** Sum of `f` over the rows, in table order. */
  function Sum<T>(rows: seq<T>, f: T -> int): int
    decreases |rows|
  {
    if |rows| == 0 then 0 else f(rows[0]) + Sum(rows[1..], f)
  }

  /** `f` on the rows satisfying `p`, zero elsewhere. */
  function Masked<T>(p: T -> bool, f: T -> int): T -> int
  {
    (x: T) => if p(x) then f(x) else 0
  }

  /** Summing over the matching rows is summing over all rows with the
      others counted as zero. */
  lemma {:induction false} SumWhere<T>(rows: seq<T>, p: T -> bool, f: T -> int)
    ensures Sum(Where(rows, p), f) == Sum(rows, Masked(p, f))
    decreases |rows|
  {
    if |rows| > 0 {
      SumWhere(rows[1..], p, f);
      if p(rows[0]) {
        assert Where(rows, p) == [rows[0]] + Where(rows[1..], p);
        assert ([rows[0]] + Where(rows[1..], p))[1..] == Where(rows[1..], p);
      }
    }
  }
}
