/** The LINQ query shapes the data context runs against its tables. A table is
    a sequence of rows in the order the database happens to scan them; where
    SQL leaves an order unspecified, the model uses that scan order. */
module Tables {
  import opened Primitives

  /** The position of the first row satisfying p. */
  function IndexWhere<T>(s: seq<T>, p: T -> bool): (r: Option<nat>)
    ensures r.None? <==> forall i :: 0 <= i < |s| ==> !p(s[i])
    ensures r.Some? ==> r.value < |s| && p(s[r.value]) && forall j :: 0 <= j < r.value ==> !p(s[j])
  {
    if |s| == 0 then None
    else if p(s[0]) then Some(0)
    else
      var r := IndexWhere(s[1..], p);
      assert forall j :: 1 <= j < |s| ==> s[j] == s[1..][j - 1];
      if r.None? then None else Some(r.value + 1)
  }

  /** The search depends only on which rows satisfy the predicate. */
  lemma {:induction false} IndexWhereCongruent<T>(s: seq<T>, p: T -> bool, q: T -> bool)
    requires forall i :: 0 <= i < |s| ==> (p(s[i]) <==> q(s[i]))
    ensures IndexWhere(s, p) == IndexWhere(s, q)
  {
    if |s| > 0 && !p(s[0]) {
      assert forall j :: 1 <= j < |s| ==> s[j] == s[1..][j - 1];
      IndexWhereCongruent(s[1..], p, q);
    }
  }

  /** `table.Where(p).FirstOrDefault()`: the first row satisfying p. */
  function FirstWhere<T>(s: seq<T>, p: T -> bool): (r: Option<T>)
    ensures r.None? <==> forall i :: 0 <= i < |s| ==> !p(s[i])
    ensures r.Some? ==>
      exists i :: 0 <= i < |s| && s[i] == r.value && p(s[i]) &&
        forall j :: 0 <= j < i ==> !p(s[j])
  {
    var i := IndexWhere(s, p);
    if i.None? then None else Some(s[i.value])
  }

  /** The table without its j-th row, the others in their order. */
  function RemoveAt<T>(s: seq<T>, j: int): (r: seq<T>)
    requires 0 <= j < |s|
    ensures |r| == |s| - 1
    ensures forall i :: 0 <= i < j ==> r[i] == s[i]
    ensures forall i :: j <= i < |r| ==> r[i] == s[i + 1]
  {
    s[..j] + s[j + 1..]
  }

  /** `table.Where(p).OrderBy(key).FirstOrDefault()`: a row satisfying p whose
      key is least; among rows with that key, the first in scan order. */
  function FirstByKey<T>(s: seq<T>, key: T -> int, p: T -> bool): (r: Option<T>)
    ensures r.None? <==> forall i :: 0 <= i < |s| ==> !p(s[i])
    ensures r.Some? ==> p(r.value)
    ensures r.Some? ==> forall i :: 0 <= i < |s| && p(s[i]) ==> key(r.value) <= key(s[i])
    ensures r.Some? ==>
      exists i :: 0 <= i < |s| && s[i] == r.value &&
        forall j :: 0 <= j < i && p(s[j]) ==> key(r.value) < key(s[j])
  {
    if |s| == 0 then None
    else
      var rest := FirstByKey(s[1..], key, p);
      assert forall j :: 1 <= j < |s| ==> s[j] == s[1..][j - 1];
      if p(s[0]) && (rest.None? || key(s[0]) <= key(rest.value)) then Some(s[0])
      else rest
  }

  /** `table.Where(p).Count()`. */
  function CountWhere<T>(s: seq<T>, p: T -> bool): (n: nat)
    ensures n <= |s|
    ensures n == 0 <==> forall i :: 0 <= i < |s| ==> !p(s[i])
    ensures n == |s| <==> forall i :: 0 <= i < |s| ==> p(s[i])
  {
    if |s| == 0 then 0
    else
      var n := CountWhere(s[1..], p);
      assert forall j :: 1 <= j < |s| ==> s[j] == s[1..][j - 1];
      (if p(s[0]) then 1 else 0) + n
  }

  /** CountWhere counts exactly the indices of the rows satisfying p, from lo
      on. */
  lemma {:induction false} CountWhereCountsIndices<T>(s: seq<T>, p: T -> bool, lo: nat)
    requires lo <= |s|
    ensures CountWhere(s[lo..], p) == |set k | lo <= k < |s| && p(s[k])|
    decreases |s| - lo
  {
    if lo < |s| {
      CountWhereCountsIndices(s, p, lo + 1);
      assert s[lo..][1..] == s[lo + 1..];
      var all := set k | lo <= k < |s| && p(s[k]);
      var rest := set k | lo + 1 <= k < |s| && p(s[k]);
      if p(s[lo]) {
        assert all == rest + {lo};
      } else {
        assert all == rest;
      }
    }
  }

  /** The indices of the rows satisfying p. */
  function IndicesWhere<T>(s: seq<T>, p: T -> bool): set<int> {
    set k | 0 <= k < |s| && p(s[k])
  }

  /** `table.Where(p).Count()` is the number of indices whose row satisfies p. */
  lemma CountWhereIsIndexCount<T>(s: seq<T>, p: T -> bool)
    ensures CountWhere(s, p) == |IndicesWhere(s, p)|
  {
    CountWhereCountsIndices(s, p, 0);
    assert s[0..] == s;
    assert IndicesWhere(s, p) == set k | 0 <= k < |s| && p(s[k]);
  }

  /** `table.Where(p).Select(f).ToList()`: f of every row satisfying p, in
      scan order. */
  function SelectWhere<T, U(!new)>(s: seq<T>, p: T -> bool, f: T -> U): (r: seq<U>)
    ensures |r| == CountWhere(s, p)
    ensures forall y :: y in r <==> exists i :: 0 <= i < |s| && p(s[i]) && f(s[i]) == y
  {
    if |s| == 0 then []
    else
      var rest := SelectWhere(s[1..], p, f);
      assert forall j :: 1 <= j < |s| ==> s[j] == s[1..][j - 1];
      if p(s[0]) then [f(s[0])] + rest else rest
  }

  /** Narrowing the filter to a predicate that the first row still satisfies
      does not change which row comes first. */
  lemma FirstByKeyNarrow<T>(s: seq<T>, key: T -> int, p: T -> bool, q: T -> bool)
    requires forall x :: q(x) ==> p(x)
    requires FirstByKey(s, key, p).Some? && q(FirstByKey(s, key, p).value)
    ensures FirstByKey(s, key, q) == FirstByKey(s, key, p)
  {
    var r := FirstByKey(s, key, p).value;
    var i :| 0 <= i < |s| && s[i] == r && forall j :: 0 <= j < i && p(s[j]) ==> key(r) < key(s[j]);
    var r' := FirstByKey(s, key, q);
    assert r'.Some?;
    var i' :| 0 <= i' < |s| && s[i'] == r'.value && forall j :: 0 <= j < i' && q(s[j]) ==> key(r'.value) < key(s[j]);
    assert key(r) <= key(s[i']) && key(r'.value) <= key(s[i]);
    assert i == i';
  }

  /** With no filter, SelectWhere projects every row, in order. */
  lemma {:induction false} SelectAllIsProjection<T, U(!new)>(s: seq<T>, p: T -> bool, f: T -> U)
    requires forall i :: 0 <= i < |s| ==> p(s[i])
    ensures |SelectWhere(s, p, f)| == |s|
    ensures forall i :: 0 <= i < |s| ==> SelectWhere(s, p, f)[i] == f(s[i])
  {
    if |s| > 0 {
      assert forall j :: 1 <= j < |s| ==> s[j] == s[1..][j - 1];
      SelectAllIsProjection(s[1..], p, f);
    }
  }

  /** Appending a row whose key is no smaller than every matching row's key
      does not change which row comes first, once some row already matches:
      the ordering prefers the earlier of two equal keys. */
  lemma {:induction false} FirstByKeyAppendLater<T>(s: seq<T>, key: T -> int, p: T -> bool, y: T)
    requires exists i :: 0 <= i < |s| && p(s[i])
    requires forall i :: 0 <= i < |s| && p(s[i]) ==> key(s[i]) <= key(y)
    ensures FirstByKey(s + [y], key, p) == FirstByKey(s, key, p)
  {
    assert (s + [y])[0] == s[0];
    assert (s + [y])[1..] == s[1..] + [y];
    if exists i :: 1 <= i < |s| && p(s[i]) {
      var i :| 1 <= i < |s| && p(s[i]);
      assert s[1..][i - 1] == s[i];
      FirstByKeyAppendLater(s[1..], key, p, y);
    } else {
      assert p(s[0]);
      assert forall j :: 0 <= j < |s| - 1 ==> !p(s[1..][j]);
    }
  }

  /** Looking a key up in a table that gained one row: when no old row
      matches, the new row is found exactly when it matches. */
  lemma {:induction false} FirstWhereAppend<T>(s: seq<T>, p: T -> bool, y: T)
    requires forall i :: 0 <= i < |s| ==> !p(s[i])
    ensures FirstWhere(s + [y], p) == if p(y) then Some(y) else None
  {
    var t := s + [y];
    assert forall i :: 0 <= i < |s| ==> t[i] == s[i];
    assert t[|s|] == y;
  }
}
