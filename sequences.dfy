/**
  Generic facts about sequences used by the caption filter: removal of
  adjacent repeats and the subsequence order.
 */
module Sequences {
  /** `s` with every element equal to its predecessor removed. */
  function Dedup<T(==)>(s: seq<T>): seq<T>
  {
    if |s| <= 1 then s
    else
      var j := |s| - 1;
      Dedup(s[..j]) + (if s[j] == s[j - 1] then [] else [s[j]])
  }

  /** `Dedup` of a sequence of two or more elements, one step unfolded. */
  lemma DedupUnfold<T>(t: seq<T>)
    requires |t| >= 2
    ensures Dedup(t) == Dedup(t[..|t| - 1]) + (if t[|t| - 1] == t[|t| - 2] then [] else [t[|t| - 1]])
  {
  }

  /** Appending an element keeps it unless it repeats the last one. */
  lemma DedupSnoc<T>(s: seq<T>, x: T)
    ensures Dedup(s + [x]) == Dedup(s) + (if s != [] && s[|s| - 1] == x then [] else [x])
  {
    var t := s + [x];
    if s == [] {
      assert t == [x];
    } else {
      DedupUnfold(t);
      assert t[..|t| - 1] == s;
    }
  }

  /** Deduplication keeps the last element and empties only the empty
      sequence. */
  lemma {:induction false} DedupLast<T>(s: seq<T>)
    ensures (Dedup(s) == []) == (s == [])
    ensures s != [] ==> Dedup(s)[|Dedup(s)| - 1] == s[|s| - 1]
    decreases |s|
  {
    if |s| > 1 {
      DedupLast(s[..|s| - 1]);
    }
  }

  // ---------------------------------------------------------------------
  // Subsequences

  /** `s` can be obtained from `t` by deleting elements. */
  predicate Subseq<T(==)>(s: seq<T>, t: seq<T>)
    decreases |t|
  {
    || s == []
    || (&& t != []
        && (|| (s[|s| - 1] == t[|t| - 1] && Subseq(s[..|s| - 1], t[..|t| - 1]))
            || Subseq(s, t[..|t| - 1])))
  }

  lemma SubseqExtend<T>(s: seq<T>, t: seq<T>, x: T)
    requires Subseq(s, t)
    ensures Subseq(s, t + [x])
  {
    assert (t + [x])[..|t|] == t;
  }

  lemma SubseqSnoc<T>(s: seq<T>, t: seq<T>, x: T)
    requires Subseq(s, t)
    ensures Subseq(s + [x], t + [x])
  {
    assert (t + [x])[..|t|] == t;
    assert (s + [x])[..|s|] == s;
  }

  lemma {:induction false} SubseqMembers<T>(s: seq<T>, t: seq<T>)
    requires Subseq(s, t)
    ensures |s| <= |t|
    ensures forall e | e in s :: e in t
    decreases |t|
  {
    if s != [] {
      var ti, si := t[..|t| - 1], s[..|s| - 1];
      assert t == ti + [t[|t| - 1]];
      if s[|s| - 1] == t[|t| - 1] && Subseq(si, ti) {
        SubseqMembers(si, ti);
        assert s == si + [s[|s| - 1]];
      } else {
        SubseqMembers(s, ti);
      }
    }
  }

  lemma {:induction false} SubseqTrans<T>(a: seq<T>, b: seq<T>, c: seq<T>)
    requires Subseq(a, b) && Subseq(b, c)
    ensures Subseq(a, c)
    decreases |c|
  {
    if a != [] {
      SubseqMembers(a, b);
      SubseqMembers(b, c);
      var ai, bi, ci := a[..|a| - 1], b[..|b| - 1], c[..|c| - 1];
      if b[|b| - 1] == c[|c| - 1] && Subseq(bi, ci) {
        if a[|a| - 1] == b[|b| - 1] && Subseq(ai, bi) {
          SubseqTrans(ai, bi, ci);
        } else {
          SubseqTrans(a, bi, ci);
          assert Subseq(a, ci);
        }
      } else {
        SubseqTrans(a, b, ci);
      }
    }
  }

  lemma {:induction false} DedupSubseq<T>(s: seq<T>)
    ensures Subseq(Dedup(s), s)
    decreases |s|
  {
    if |s| == 1 {
      assert s[..0] == [];
    } else if |s| > 1 {
      var init, x := s[..|s| - 1], s[|s| - 1];
      assert s == init + [x];
      DedupSubseq(init);
      DedupSnoc(init, x);
      if init[|init| - 1] == x {
        assert Dedup(s) == Dedup(init);
        SubseqExtend(Dedup(init), init, x);
      } else {
        assert Dedup(s) == Dedup(init) + [x];
        SubseqSnoc(Dedup(init), init, x);
      }
    }
  }

  /** No two adjacent elements of `Dedup(s)` are equal. */
  lemma {:induction false} DedupNoAdjacentRepeats<T>(s: seq<T>)
    ensures forall k | 0 <= k < |Dedup(s)| - 1 :: Dedup(s)[k] != Dedup(s)[k + 1]
    decreases |s|
  {
    if |s| > 1 {
      var init, x := s[..|s| - 1], s[|s| - 1];
      assert s == init + [x];
      DedupNoAdjacentRepeats(init);
      DedupLast(init);
      DedupSnoc(init, x);
    }
  }

  /** Deduplication changes a sequence exactly when it has adjacent repeats:
      equal elements with a different one between them are both kept. */
  lemma {:induction false} DedupFixedPoint<T>(s: seq<T>)
    ensures Dedup(s) == s <==> forall k | 0 <= k < |s| - 1 :: s[k] != s[k + 1]
    decreases |s|
  {
    DedupNoAdjacentRepeats(s);
    if |s| > 1 {
      var init, x := s[..|s| - 1], s[|s| - 1];
      assert s == init + [x];
      DedupSnoc(init, x);
      DedupFixedPoint(init);
      if forall k | 0 <= k < |s| - 1 :: s[k] != s[k + 1] {
        assert forall k | 0 <= k < |init| - 1 :: init[k] != init[k + 1];
      }
    }
  }

  /** Only the previous element is compared: `x, y, x` keeps both `x`s. */
  lemma SeparatedRepeatsKept<T>(x: T, y: T)
    requires x != y
    ensures Dedup([x, y, x]) == [x, y, x]
  {
    DedupFixedPoint([x, y, x]);
  }
}
