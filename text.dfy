/**
  The Python string built-ins that the caption pipeline relies on:
  `str.strip()`, `str.split(sep)`, `sep.join(xs)`, `str.replace(c, d)` and
  the `in` test for a substring.
 */
module Text {

  /** Python's `str.isspace()` for one code point: the characters `str.strip()`
      with no argument removes. */
  predicate IsSpace(c: char)
  {
    || c == ' '
    || '\U{9}' <= c <= '\U{D}'
    || '\U{1C}' <= c <= '\U{1F}'
    || c == '\U{85}' || c == '\U{A0}' || c == '\U{1680}'
    || '\U{2000}' <= c <= '\U{200A}'
    || c == '\U{2028}' || c == '\U{2029}' || c == '\U{202F}'
    || c == '\U{205F}' || c == '\U{3000}'
  }

  /** Neither end of `s` is whitespace. */
  predicate IsStripped(s: string)
  {
    s == [] || (!IsSpace(s[0]) && !IsSpace(s[|s| - 1]))
  }

  /** `r` sits at offset `i` of `s` with only whitespace around it. */
  predicate SpacePadded(s: string, i: int, r: string)
  {
    && 0 <= i && i + |r| <= |s| && s[i..i + |r|] == r
    && (forall k | 0 <= k < i :: IsSpace(s[k]))
    && (forall k | i + |r| <= k < |s| :: IsSpace(s[k]))
  }

  /** Python's `s.strip()`: whitespace is removed from both ends. */
  function Strip(s: string): (r: string)
    ensures IsStripped(r)
    ensures |r| <= |s|
    decreases |s|
  {
    if s == [] then s
    else if IsSpace(s[0]) then Strip(s[1..])
    else if IsSpace(s[|s| - 1]) then Strip(s[..|s| - 1])
    else s
  }

  /** What `Strip` keeps is an infix of its argument with only whitespace
      around it. */
  lemma {:induction false} StripPadded(s: string)
    ensures exists i :: SpacePadded(s, i, Strip(s))
    decreases |s|
  {
    var r := Strip(s);
    if s == [] {
      assert SpacePadded(s, 0, r);
    } else if IsSpace(s[0]) {
      StripPadded(s[1..]);
      var i :| SpacePadded(s[1..], i, r);
      PaddedAfterSpace(s, i, r);
    } else if IsSpace(s[|s| - 1]) {
      StripPadded(s[..|s| - 1]);
      var i :| SpacePadded(s[..|s| - 1], i, r);
      PaddedBeforeSpace(s, i, r);
    } else {
      assert SpacePadded(s, 0, r);
    }
  }

  lemma PaddedAfterSpace(s: string, i: int, r: string)
    requires s != [] && IsSpace(s[0]) && SpacePadded(s[1..], i, r)
    ensures SpacePadded(s, i + 1, r)
  {
    var t := s[1..];
    assert forall k | 1 <= k < |s| :: s[k] == t[k - 1];
    assert s[i + 1..i + 1 + |r|] == t[i..i + |r|];
  }

  lemma PaddedBeforeSpace(s: string, i: int, r: string)
    requires s != [] && IsSpace(s[|s| - 1]) && SpacePadded(s[..|s| - 1], i, r)
    ensures SpacePadded(s, i, r)
  {
    var t := s[..|s| - 1];
    assert s[i..i + |r|] == t[i..i + |r|];
  }

  /** `Strip(s)` is the only stripped infix of `s` with only whitespace
      around it. */
  lemma StripUnique(s: string, i: int, r: string)
    requires IsStripped(r) && SpacePadded(s, i, r)
    ensures r == Strip(s)
  {
    StripPadded(s);
    var r' := Strip(s);
    var i' :| SpacePadded(s, i', r');
    assert r != [] ==> s[i] == r[0];
    assert r' != [] ==> s[i'] == r'[0];
    if r != [] && r' != [] {
      assert i == i';
      assert s[i + |r| - 1] == r[|r| - 1] && s[i' + |r'| - 1] == r'[|r'| - 1];
      assert |r| == |r'|;
    }
  }

  lemma StripKeepsOut(s: string, c: char)
    requires c !in s
    ensures c !in Strip(s)
  {
    var r := Strip(s);
    StripPadded(s);
    var i :| SpacePadded(s, i, r);
    forall k | 0 <= k < |r| ensures r[k] != c {
      assert r[k] == s[i + k];
    }
  }

  /** A string that is already stripped is its own strip. */
  lemma StripOfStripped(s: string)
    requires IsStripped(s)
    ensures Strip(s) == s
  {
    assert SpacePadded(s, 0, s);
    StripUnique(s, 0, s);
  }

  /** Index of the first `c` in `s`, or `|s|` when there is none. */
  function IndexOf(s: string, c: char): (i: nat)
    ensures i <= |s|
    ensures i < |s| ==> s[i] == c
    ensures forall k | 0 <= k < i :: s[k] != c
  {
    if s == [] then 0
    else if s[0] == c then 0
    else 1 + IndexOf(s[1..], c)
  }

  /** Python's `sep.join(xs)`. */
  function Join(xs: seq<string>, sep: string): (r: string)
    ensures xs == [] ==> r == []
    ensures xs != [] ==> |xs[0]| <= |r| && r[..|xs[0]|] == xs[0]
  {
    if |xs| == 0 then ""
    else if |xs| == 1 then xs[0]
    else xs[0] + sep + Join(xs[1..], sep)
  }

  /** Python's `s.split(sep)` for a one-character separator: the pieces
      between separators, none of which holds the separator, and which
      join back into `s`. */
  function Split(s: string, sep: char): (pieces: seq<string>)
    ensures |pieces| >= 1
    ensures forall k | 0 <= k < |pieces| :: sep !in pieces[k]
    ensures Join(pieces, [sep]) == s
    decreases |s|
  {
    var i := IndexOf(s, sep);
    if i == |s| then
      assert s[..i] == s;
      [s]
    else
      var rest := Split(s[i + 1..], sep);
      var pieces := [s[..i]] + rest;
      assert pieces[1..] == rest;
      assert s == s[..i] + [sep] + s[i + 1..];
      pieces
  }

  /** Splitting undoes joining when no piece holds the separator. */
  lemma {:induction false} SplitOfJoin(xs: seq<string>, sep: char)
    requires |xs| >= 1
    requires forall k | 0 <= k < |xs| :: sep !in xs[k]
    ensures Split(Join(xs, [sep]), sep) == xs
    decreases |xs|
  {
    var s := Join(xs, [sep]);
    if |xs| == 1 {
      assert s == xs[0];
    } else {
      var head, rest := xs[0], xs[1..];
      var tail := Join(rest, [sep]);
      assert s == head + [sep] + tail;
      IndexOfFirst(head, sep, tail);
      SplitUnfold(s, sep);
      assert s[..|head|] == head;
      assert s[|head| + 1..] == tail;
      forall k | 0 <= k < |rest| ensures sep !in rest[k] {
        assert rest[k] == xs[k + 1];
      }
      SplitOfJoin(rest, sep);
      assert xs == [head] + rest;
    }
  }

  /** `Split` at the first separator, one step unfolded. */
  lemma SplitUnfold(s: string, sep: char)
    requires IndexOf(s, sep) < |s|
    ensures Split(s, sep) == [s[..IndexOf(s, sep)]] + Split(s[IndexOf(s, sep) + 1..], sep)
  {
  }

  /** The first separator of `p + [sep] + t` is the one after `p`, when `p`
      holds none. */
  lemma IndexOfFirst(p: string, sep: char, t: string)
    requires sep !in p
    ensures IndexOf(p + [sep] + t, sep) == |p|
  {
    var s := p + [sep] + t;
    assert s[|p|] == sep;
    assert forall k | 0 <= k < |p| :: s[k] == p[k];
  }

  /** Python's `s.replace(from, to)` for one character by one character. */
  function ReplaceChar(s: string, from: char, to: char): (r: string)
    ensures |r| == |s|
    ensures forall k | 0 <= k < |s| :: r[k] == (if s[k] == from then to else s[k])
  {
    if s == [] then []
    else [if s[0] == from then to else s[0]] + ReplaceChar(s[1..], from, to)
  }

  /** Python's `s.replace(c, '')`: every other character is kept, in order. */
  function RemoveChar(s: string, c: char): (r: string)
    ensures c !in r
    ensures |r| <= |s|
  {
    if s == [] then []
    else (if s[0] == c then [] else [s[0]]) + RemoveChar(s[1..], c)
  }

  /** Every character other than `c` survives the removal. */
  lemma {:induction false} RemoveCharKeeps(s: string, c: char, d: char)
    requires d != c
    ensures d in RemoveChar(s, c) <==> d in s
    decreases |s|
  {
    if s != [] {
      RemoveCharKeeps(s[1..], c, d);
      assert s == [s[0]] + s[1..];
    }
  }

  lemma ReplaceCharConcat(a: string, b: string, from: char, to: char)
    ensures ReplaceChar(a + b, from, to) == ReplaceChar(a, from, to) + ReplaceChar(b, from, to)
  {
    var ra, rb := ReplaceChar(a, from, to), ReplaceChar(b, from, to);
    var l, r := ReplaceChar(a + b, from, to), ra + rb;
    forall k | 0 <= k < |l| ensures l[k] == r[k] {
      if k < |a| {
        assert r[k] == ra[k] && (a + b)[k] == a[k];
      } else {
        assert r[k] == rb[k - |a|] && (a + b)[k] == b[k - |a|];
      }
    }
  }

  /** `RemoveChar` of a non-empty string, one step unfolded. */
  lemma RemoveCharUnfold(s: string, c: char)
    requires s != []
    ensures RemoveChar(s, c) == (if s[0] == c then [] else [s[0]]) + RemoveChar(s[1..], c)
  {
  }

  /** A string without `c` is left as it is. */
  lemma {:induction false} RemoveCharAbsent(s: string, c: char)
    requires c !in s
    ensures RemoveChar(s, c) == s
    decreases |s|
  {
    if s != [] {
      RemoveCharUnfold(s, c);
      RemoveCharAbsent(s[1..], c);
      assert s == [s[0]] + s[1..];
    }
  }

  /** Removal distributes over concatenation. */
  lemma {:induction false} RemoveCharConcat(a: string, b: string, c: char)
    ensures RemoveChar(a + b, c) == RemoveChar(a, c) + RemoveChar(b, c)
    decreases |a|
  {
    if a == [] {
      assert a + b == b;
    } else {
      var ab := a + b;
      assert ab[0] == a[0];
      assert ab[1..] == a[1..] + b;
      RemoveCharUnfold(ab, c);
      RemoveCharUnfold(a, c);
      RemoveCharConcat(a[1..], b, c);
    }
  }

  /** `pat` occurs in `s` at offset `i`. */
  predicate OccursAt(s: string, pat: string, i: int)
  {
    0 <= i && i + |pat| <= |s| && s[i..i + |pat|] == pat
  }

  /** Python's `pat in s` for strings. */
  predicate Contains(s: string, pat: string)
  {
    exists i | 0 <= i <= |s| - |pat| :: OccursAt(s, pat, i)
  }
}
