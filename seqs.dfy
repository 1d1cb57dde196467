/** Order-preserving selection from a sequence, the shape of a boolean-mask
    row selection on a table. */
module Seqs {

  /** The elements of `s` that `keep` accepts, in their order in `s`. */
  function Where<T(==, !new)>(s: seq<T>, keep: T -> bool): (r: seq<T>)
    ensures |r| <= |s|
    ensures forall x :: x in r <==> x in s && keep(x)
    ensures forall x :: multiset(r)[x] == if keep(x) then multiset(s)[x] else 0
  {
    if s == [] then []
    else
      assert s == [s[0]] + s[1..];
      (if keep(s[0]) then [s[0]] else []) + Where(s[1..], keep)
  }

  /** Selection distributes over concatenation: the kept elements of a
      prefix come before those of the rest, so the selection keeps the
      order of `s`. */
  lemma {:induction false} WhereAppend<T(!new)>(a: seq<T>, b: seq<T>, keep: T -> bool)
    ensures Where(a + b, keep) == Where(a, keep) + Where(b, keep)
  {
    if a == [] {
      assert a + b == b;
    } else {
      assert (a + b)[1..] == a[1..] + b;
      WhereAppend(a[1..], b, keep);
    }
  }

  /** A single element is kept exactly when `keep` accepts it. With
      `WhereAppend` this fixes the selection of any sequence: the accepted
      elements, each in its place in `s`. */
  lemma WhereSingle<T(!new)>(x: T, keep: T -> bool)
    ensures Where([x], keep) == if keep(x) then [x] else []
  {
    assert [x][1..] == [];
  }

  /** Selection keeps a whole sequence exactly when it accepts every element. */
  lemma {:induction false} WhereKeepsAll<T(!new)>(s: seq<T>, keep: T -> bool)
    ensures Where(s, keep) == s <==> forall i :: 0 <= i < |s| ==> keep(s[i])
  {
    if s != [] {
      WhereKeepsAll(s[1..], keep);
    }
  }

  /** Two predicates that agree on every element select the same elements. */
  lemma {:induction false} WhereAgrees<T(!new)>(s: seq<T>, keep1: T -> bool, keep2: T -> bool)
    requires forall x :: keep1(x) == keep2(x)
    ensures Where(s, keep1) == Where(s, keep2)
  {
    if s != [] {
      WhereAgrees(s[1..], keep1, keep2);
    }
  }
}
