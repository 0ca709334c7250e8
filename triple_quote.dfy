/**
  `extract_string` of `app.py`: `re.search(r'\"\"\"(.*?)\"\"\"', s, re.DOTALL)`
  returns the text between the first `"""` and the next `"""` that starts
  at least three characters later, or `None` when there is no such pair.

  The regular expression is modelled as an explicit scanner. With
  `re.DOTALL` the lazy group may span any character, line breaks included.
 */
module TripleQuote {
  import opened Wrappers

  /** The delimiter `"""`. */
  const QUOTES: string := "\"\"\""

  /** A `"""` starts at offset `i` of `s`. */
  predicate TripleAt(s: string, i: int)
  {
    0 <= i && i + 3 <= |s| && s[i] == '"' && s[i + 1] == '"' && s[i + 2] == '"'
  }

  /** `i` is the first `"""` of `s`. */
  predicate FirstTriple(s: string, i: int)
  {
    TripleAt(s, i) && forall k | 0 <= k < i :: !TripleAt(s, k)
  }

  /** `r` is what the lazy group captures for an opening `"""` at `i`: the
      text up to the first `"""` that starts after the opening one. */
  predicate Enclosed(s: string, i: int, r: string)
  {
    && TripleAt(s, i)
    && TripleAt(s, i + 3 + |r|)
    && s[i + 3..i + 3 + |r|] == r
    && forall k | i + 3 <= k < i + 3 + |r| :: !TripleAt(s, k)
  }

  /** The first `"""` at or after `from`. */
  function FindTriple(s: string, from: nat): (r: Option<nat>)
    ensures r.None? ==> forall k | from <= k :: !TripleAt(s, k)
    ensures r.Some? ==> from <= r.value && TripleAt(s, r.value)
    ensures r.Some? ==> forall k | from <= k < r.value :: !TripleAt(s, k)
    decreases |s| - from
  {
    if from + 3 > |s| then None
    else if TripleAt(s, from) then Some(from)
    else FindTriple(s, from + 1)
  }

  /** `extract_string(s)`. */
  function ExtractString(s: string): (r: Option<string>)
    ensures r.None? <==> !exists i, j | 0 <= i && i + 3 <= j :: TripleAt(s, i) && TripleAt(s, j)
    ensures r.Some? ==> exists i :: FirstTriple(s, i) && Enclosed(s, i, r.value)
    ensures r.Some? ==> forall k | 0 <= k < |r.value| :: !TripleAt(r.value, k)
  {
    match FindTriple(s, 0)
    case None => None
    case Some(i) =>
      match FindTriple(s, i + 3)
      case None => None
      case Some(j) =>
        var r := s[i + 3..j];
        assert Enclosed(s, i, r);
        assert forall k | 0 <= k < |r| :: TripleAt(r, k) ==> TripleAt(s, i + 3 + k);
        Some(r)
  }

  /** The text between two delimiters comes back out when it holds no `"""`
      that would close the group early. */
  lemma ExtractEnclosed(r: string, rest: string)
    requires forall k | 0 <= k < |r| :: !TripleAt(r + QUOTES, k)
    ensures ExtractString(QUOTES + r + QUOTES + rest) == Some(r)
  {
    var s := QUOTES + r + QUOTES + rest;
    var t := r + QUOTES;
    assert TripleAt(s, 0);
    assert forall m | 3 <= m < 6 + |r| :: s[m] == t[m - 3];
    forall k | 3 <= k < 3 + |r| ensures !TripleAt(s, k) {
      assert !TripleAt(t, k - 3);
    }
    assert TripleAt(s, 3 + |r|);
    assert s[3..3 + |r|] == r;
  }

  /** Two delimiters in a row enclose the empty string. */
  lemma EmptyEnclosed(s: string)
    requires s == "\"\"\"\"\"\""
    ensures ExtractString(s) == Some("")
  {
    assert s == QUOTES + "" + QUOTES + "";
    ExtractEnclosed("", "");
  }

  /** The group is lazy: it ends at the first closing `"""`. */
  lemma LazyGroup(s: string)
    requires s == "\"\"\"a\"\"\"b\"\"\""
    ensures ExtractString(s) == Some("a")
  {
    assert s == QUOTES + "a" + QUOTES + "b\"\"\"";
    var t := "a" + QUOTES;
    assert !TripleAt(t, 0);
    ExtractEnclosed("a", "b\"\"\"");
  }

  /** Of four opening quotes the first three open the group, so the fourth
      belongs to the text. */
  lemma FourQuotes(s: string)
    requires s == "\"\"\"\"x\"\"\""
    ensures ExtractString(s) == Some("\"x")
  {
    assert s == QUOTES + "\"x" + QUOTES + "";
    var t := "\"x" + QUOTES;
    assert !TripleAt(t, 0) && !TripleAt(t, 1);
    ExtractEnclosed("\"x", "");
  }
}
