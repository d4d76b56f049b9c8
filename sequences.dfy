/** The bulk table operations the cleaning is built from: boolean-mask row selection,
    column-wise maps, and duplicate removal that keeps the first occurrence. */
module Sequences {

  /** s is obtained from t by deleting elements; the order of what remains is unchanged. */
  predicate Subseq<T(==)>(s: seq<T>, t: seq<T>)
    decreases |t|
  {
    |s| == 0 || (|t| > 0 && ((s[0] == t[0] && Subseq(s[1..], t[1..])) || Subseq(s, t[1..])))
  }

  /** No element occurs twice. */
  predicate Distinct<T(==)>(s: seq<T>)
  {
    forall i, j :: 0 <= i < j < |s| ==> s[i] != s[j]
  }

  /** The head of a distinct sequence does not recur in its tail, which is distinct too. */
  lemma DistinctTail<T>(t: seq<T>)
    requires Distinct(t) && |t| > 0
    ensures t[0] !in t[1..] && Distinct(t[1..])
  {
  }

  lemma {:induction false} SubseqLength<T>(s: seq<T>, t: seq<T>)
    requires Subseq(s, t)
    ensures |s| <= |t|
    decreases |t|
  {
    if |s| > 0 {
      if s[0] == t[0] && Subseq(s[1..], t[1..]) {
        SubseqLength(s[1..], t[1..]);
      } else {
        SubseqLength(s, t[1..]);
      }
    }
  }

  /** Deleting from a deletion of c is a deletion of c. */
  lemma {:induction false} SubseqTrans<T>(a: seq<T>, b: seq<T>, c: seq<T>)
    requires Subseq(a, b) && Subseq(b, c)
    ensures Subseq(a, c)
    decreases |c|
  {
    if |a| > 0 {
      SubseqLength(a, b);
      if b[0] == c[0] && Subseq(b[1..], c[1..]) {
        if a[0] == b[0] && Subseq(a[1..], b[1..]) {
          SubseqTrans(a[1..], b[1..], c[1..]);
        } else {
          SubseqTrans(a, b[1..], c[1..]);
        }
      } else {
        SubseqTrans(a, b, c[1..]);
      }
    }
  }

  /** The first k elements, as `iloc[:k]` takes them. */
  lemma {:induction false} PrefixIsSubseq<T>(t: seq<T>, k: nat)
    requires k <= |t|
    ensures Subseq(t[..k], t)
    decreases |t|
  {
    if k > 0 {
      assert t[..k][1..] == t[1..][..k - 1];
      PrefixIsSubseq(t[1..], k - 1);
    }
  }

  /** The rows of t for which the mask p holds, in their original order. */
  function Filter<T(!new)>(t: seq<T>, p: T -> bool): (r: seq<T>)
    ensures forall x :: x in r <==> x in t && p(x)
    ensures Subseq(r, t)
    decreases |t|
  {
    if |t| == 0 then []
    else
      assert t == [t[0]] + t[1..];
      if p(t[0]) then [t[0]] + Filter(t[1..], p) else Filter(t[1..], p)
  }

  /** Each selected row occurs in the result as often as in the input, and the others
      not at all. */
  lemma {:induction false} FilterMultiplicity<T(!new)>(t: seq<T>, p: T -> bool, x: T)
    ensures multiset(Filter(t, p))[x] == if p(x) then multiset(t)[x] else 0
    decreases |t|
  {
    if |t| > 0 {
      assert t == [t[0]] + t[1..];
      FilterMultiplicity(t[1..], p, x);
    }
  }

  /** The column-wise map: row i of the result is f applied to row i. */
  function Map<T, U>(t: seq<T>, f: T -> U): (r: seq<U>)
  {
    seq(|t|, i requires 0 <= i < |t| => f(t[i]))
  }

  /** A mask that holds everywhere removes nothing. */
  lemma {:induction false} FilterKeepsAll<T(!new)>(t: seq<T>, p: T -> bool)
    requires forall x :: x in t ==> p(x)
    ensures Filter(t, p) == t
    decreases |t|
  {
    if |t| > 0 {
      assert t == [t[0]] + t[1..];
      FilterKeepsAll(t[1..], p);
    }
  }

  /** A mask that holds nowhere removes everything. */
  lemma {:induction false} FilterKeepsNone<T(!new)>(t: seq<T>, p: T -> bool)
    requires forall x :: x in t ==> !p(x)
    ensures Filter(t, p) == []
    decreases |t|
  {
    if |t| > 0 {
      assert t[0] in t;
      FilterKeepsNone(t[1..], p);
    }
  }

  /** Selecting rows twice with the same mask selects nothing more. */
  lemma FilterIdempotent<T(!new)>(t: seq<T>, p: T -> bool)
    ensures Filter(Filter(t, p), p) == Filter(t, p)
  {
    FilterKeepsAll(Filter(t, p), p);
  }

  /** Selecting from a table with one more row at the end: that row is kept exactly when
      the mask holds for it, and the rows before are selected as before. */
  lemma {:induction false} FilterSnoc<T(!new)>(a: seq<T>, x: T, p: T -> bool)
    ensures Filter(a + [x], p) == Filter(a, p) + (if p(x) then [x] else [])
    decreases |a|
  {
    if |a| > 0 {
      assert (a + [x])[1..] == a[1..] + [x];
      FilterSnoc(a[1..], x, p);
    } else {
      assert a + [x] == [x];
    }
  }

  /** Two selections in a row are one selection by the conjunction pq of their masks. */
  lemma {:induction false} FilterFilter<T(!new)>(t: seq<T>, p: T -> bool, q: T -> bool, pq: T -> bool)
    requires forall x :: pq(x) == (p(x) && q(x))
    ensures Filter(Filter(t, p), q) == Filter(t, pq)
    decreases |t|
  {
    if |t| > 0 {
      FilterFilter(t[1..], p, q, pq);
    }
  }

  /** Mapping a table with a row in front maps that row and then the rest. */
  lemma MapCons<T, U>(x: T, t: seq<T>, f: T -> U)
    ensures Map([x] + t, f) == [f(x)] + Map(t, f)
  {
  }

  /** A mask that only reads what f leaves alone can be applied before or after f. */
  lemma {:induction false} FilterMap<T(!new), U(!new)>(t: seq<T>, f: T -> U, p: U -> bool, q: T -> bool)
    requires forall x :: p(f(x)) == q(x)
    ensures Filter(Map(t, f), p) == Map(Filter(t, q), f)
    decreases |t|
  {
    if |t| > 0 {
      assert t == [t[0]] + t[1..];
      MapCons(t[0], t[1..], f);
      FilterMap(t[1..], f, p, q);
      if q(t[0]) {
        MapCons(t[0], Filter(t[1..], q), f);
      }
    }
  }

  /** drop_duplicates(keep='first'): a row is kept when it is not in `seen` and has not
      been kept before. */
  function DropDuplicatesFrom<T(==,!new)>(t: seq<T>, seen: set<T>): (r: seq<T>)
    ensures forall x :: x in r <==> x in t && x !in seen
    ensures Subseq(r, t)
    ensures Distinct(r)
    decreases |t|
  {
    if |t| == 0 then []
    else
      assert t == [t[0]] + t[1..];
      if t[0] in seen then DropDuplicatesFrom(t[1..], seen)
      else
        var rest := DropDuplicatesFrom(t[1..], seen + {t[0]});
        assert t[0] !in rest;
        [t[0]] + rest
  }

  function DropDuplicates<T(==,!new)>(t: seq<T>): seq<T>
  {
    DropDuplicatesFrom(t, {})
  }

  lemma {:induction false} DropDuplicatesFromSnoc<T(!new)>(a: seq<T>, x: T, seen: set<T>)
    ensures DropDuplicatesFrom(a + [x], seen)
         == if x in a || x in seen then DropDuplicatesFrom(a, seen)
            else DropDuplicatesFrom(a, seen) + [x]
    decreases |a|
  {
    if |a| == 0 {
      assert a + [x] == [x];
      assert [x][1..] == [];
    } else {
      assert (a + [x])[0] == a[0];
      assert (a + [x])[1..] == a[1..] + [x];
      assert a == [a[0]] + a[1..];
      if a[0] in seen {
        DropDuplicatesFromSnoc(a[1..], x, seen);
      } else {
        DropDuplicatesFromSnoc(a[1..], x, seen + {a[0]});
      }
    }
  }

  /** Keeping the first occurrence, stated one appended row at a time: a row is kept
      exactly when no earlier row equals it. */
  lemma DropDuplicatesSnoc<T(!new)>(a: seq<T>, x: T)
    ensures DropDuplicates(a + [x])
         == if x in a then DropDuplicates(a) else DropDuplicates(a) + [x]
  {
    DropDuplicatesFromSnoc(a, x, {});
  }

  lemma {:induction false} DropDuplicatesFromDistinct<T(!new)>(t: seq<T>, seen: set<T>)
    requires Distinct(t)
    requires forall x :: x in t ==> x !in seen
    ensures DropDuplicatesFrom(t, seen) == t
    decreases |t|
  {
    if |t| > 0 {
      assert t == [t[0]] + t[1..];
      DistinctTail(t);
      DropDuplicatesFromDistinct(t[1..], seen + {t[0]});
    }
  }

  /** A second drop_duplicates removes nothing. */
  lemma DropDuplicatesIdempotent<T(!new)>(t: seq<T>)
    ensures DropDuplicates(DropDuplicates(t)) == DropDuplicates(t)
  {
    DropDuplicatesFromDistinct(DropDuplicates(t), {});
  }

  /** Selecting rows keeps distinct rows distinct. */
  lemma {:induction false} FilterDistinct<T(!new)>(t: seq<T>, p: T -> bool)
    requires Distinct(t)
    ensures Distinct(Filter(t, p))
    decreases |t|
  {
    if |t| > 0 {
      assert t == [t[0]] + t[1..];
      assert Distinct(t[1..]);
      FilterDistinct(t[1..], p);
      DistinctTail(t);
    }
  }

  /** A mask gives equal rows equal answers, so selecting before or after duplicate
      removal gives the same rows in the same order. */
  lemma {:induction false} FilterDropDuplicates<T(!new)>(t: seq<T>, p: T -> bool)
    ensures Filter(DropDuplicates(t), p) == DropDuplicates(Filter(t, p))
    decreases |t|
  {
    if |t| > 0 {
      var a, x := t[..|t| - 1], t[|t| - 1];
      assert t == a + [x];
      FilterDropDuplicates(a, p);
      FilterDropDuplicatesSnoc(a, x, p);
    }
  }

  lemma FilterDropDuplicatesSnoc<T(!new)>(a: seq<T>, x: T, p: T -> bool)
    requires Filter(DropDuplicates(a), p) == DropDuplicates(Filter(a, p))
    ensures Filter(DropDuplicates(a + [x]), p) == DropDuplicates(Filter(a + [x], p))
  {
    var d, fa := DropDuplicates(a), Filter(a, p);
    DropDuplicatesSnoc(a, x);
    FilterSnoc(a, x, p);
    if x in a {
      if p(x) {
        assert x in fa;
        DropDuplicatesSnoc(fa, x);
      } else {
        assert fa + [] == fa;
      }
    } else {
      FilterSnoc(d, x, p);
      if p(x) {
        assert x !in fa;
        DropDuplicatesSnoc(fa, x);
      } else {
        assert fa + [] == fa;
        assert Filter(d, p) + [] == Filter(d, p);
      }
    }
  }
}
