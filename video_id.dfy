/**
  `extract_video_id` of `app.py`: `re.search(r"(?<=v=)[\w-]+", url_or_id)`
  returns the longest run of word characters and hyphens that starts right
  after the leftmost `v=` followed by such a character; with no such `v=`
  the input is returned as it is.

  The regular expression is modelled as an explicit scanner. `\w` is taken
  to be the ASCII word class: letters, digits and underscore.
 */
module VideoId {
  import opened Wrappers

  /** `\w` restricted to ASCII. */
  predicate IsWordChar(c: char)
  {
    ('a' <= c <= 'z') || ('A' <= c <= 'Z') || ('0' <= c <= '9') || c == '_'
  }

  /** The character class `[\w-]`. */
  predicate IsIdChar(c: char)
  {
    IsWordChar(c) || c == '-'
  }

  /** The pattern matches at `p`: the look-behind sees `v=` and at least
      one character of the class follows. */
  predicate MatchStart(s: string, p: int)
  {
    2 <= p < |s| && s[p - 2] == 'v' && s[p - 1] == '=' && IsIdChar(s[p])
  }

  /** `p` is where `re.search` finds its match: the leftmost match. */
  predicate FirstMatch(s: string, p: int)
  {
    MatchStart(s, p) && forall q | 0 <= q < p :: !MatchStart(s, q)
  }

  /** `r` is the greedy `[\w-]+` run starting at `p`. */
  predicate MaximalRunAt(s: string, p: int, r: string)
  {
    && r != []
    && 0 <= p && p + |r| <= |s| && s[p..p + |r|] == r
    && (forall k | 0 <= k < |r| :: IsIdChar(r[k]))
    && (p + |r| == |s| || !IsIdChar(s[p + |r|]))
  }

  /** The scanner behind `re.search`: the first match at or after `from`. */
  function FirstMatchFrom(s: string, from: nat): (r: Option<nat>)
    ensures r.None? ==> forall p | from <= p < |s| :: !MatchStart(s, p)
    ensures r.Some? ==> from <= r.value < |s| && MatchStart(s, r.value)
    ensures r.Some? ==> forall p | from <= p < r.value :: !MatchStart(s, p)
    decreases |s| - from
  {
    if from >= |s| then None
    else if MatchStart(s, from) then Some(from)
    else FirstMatchFrom(s, from + 1)
  }

  /** Where the greedy run starting at `p` ends. */
  function RunEnd(s: string, p: nat): (e: nat)
    requires p <= |s|
    ensures p <= e <= |s|
    ensures forall k | p <= k < e :: IsIdChar(s[k])
    ensures e == |s| || !IsIdChar(s[e])
    decreases |s| - p
  {
    if p < |s| && IsIdChar(s[p]) then RunEnd(s, p + 1) else p
  }

  /** `extract_video_id(url_or_id)`. */
  function ExtractVideoId(urlOrId: string): (r: string)
    ensures (forall p | 0 <= p < |urlOrId| :: !MatchStart(urlOrId, p)) ==> r == urlOrId
    ensures forall p | FirstMatch(urlOrId, p) :: MaximalRunAt(urlOrId, p, r)
  {
    match FirstMatchFrom(urlOrId, 0)
    case None => urlOrId
    case Some(p) =>
      var e := RunEnd(urlOrId, p);
      assert forall k | 0 <= k < e - p :: urlOrId[p..e][k] == urlOrId[p + k];
      urlOrId[p..e]
  }

  /** The watch URL the page embeds for a video id: the id follows the
      `v=` of a fixed 32-character prefix. */
  function WatchUrl(id: string): (url: string)
    ensures |url| == 32 + |id|
    ensures url[..32] == "https://www.youtube.com/watch?v="
    ensures url[30] == 'v' && url[31] == '='
    ensures url[32..] == id
  {
    "https://www.youtube.com/watch?v=" + id
  }

  /** A string made only of id characters holds no `v=` and comes back
      unchanged. */
  lemma PlainIdUnchanged(id: string)
    requires forall k | 0 <= k < |id| :: IsIdChar(id[k])
    ensures ExtractVideoId(id) == id
  {
    forall p | 0 <= p < |id| ensures !MatchStart(id, p) {
      if 1 <= p {
        assert IsIdChar(id[p - 1]);
      }
    }
  }

  /** Extraction is idempotent: the id it returns extracts to itself. */
  lemma ExtractIdempotent(urlOrId: string)
    ensures ExtractVideoId(ExtractVideoId(urlOrId)) == ExtractVideoId(urlOrId)
  {
    var r := ExtractVideoId(urlOrId);
    match FirstMatchFrom(urlOrId, 0)
    case None =>
    case Some(p) =>
      assert FirstMatch(urlOrId, p);
      PlainIdUnchanged(r);
  }

  /** The id of the watch URL built from a non-empty id is that id. */
  lemma WatchUrlRoundTrip(id: string)
    requires id != []
    requires forall k | 0 <= k < |id| :: IsIdChar(id[k])
    ensures ExtractVideoId(WatchUrl(id)) == id
  {
    var url := WatchUrl(id);
    NoEarlierMatch(url);
    assert MatchStart(url, 32);
    assert url[32..] == id;
  }

  /** Up to the `=` of `watch?v=` no match can start. */
  lemma NoEarlierMatch(url: string)
    requires |url| >= 32 && url[..32] == "https://www.youtube.com/watch?v="
    ensures forall q | 0 <= q < 32 :: !MatchStart(url, q)
  {
    var host := "https://www.youtube.com/watch?v";
    assert '=' !in host;
    assert url[..31] == host;
    forall k | 1 <= k < 31 ensures url[k] != '=' {
      assert url[k] == url[..31][k];
    }
  }

  /** The two forms of input the page suggests give the same id. */
  lemma PageExamples(id: string)
    requires id == "HbuOu9zq2UE"
    ensures ExtractVideoId("https://www.youtube.com/watch?v=" + id) == id
    ensures ExtractVideoId(id) == id
  {
    assert forall k | 0 <= k < |id| :: IsIdChar(id[k]);
    WatchUrlRoundTrip(id);
    PlainIdUnchanged(id);
  }

  /** The run stops at the first character outside `[\w-]`, so whatever
      follows the id from such a character on (`&t=42s`, `#frag`) is not part
      of it. */
  lemma ExtraParameterDropped(id: string, query: string)
    requires id != []
    requires forall k | 0 <= k < |id| :: IsIdChar(id[k])
    requires query == [] || !IsIdChar(query[0])
    ensures ExtractVideoId(WatchUrl(id) + query) == id
  {
    var url := WatchUrl(id) + query;
    assert url[..32] == WatchUrl(id)[..32];
    NoEarlierMatch(url);
    assert MatchStart(url, 32);
    assert FirstMatch(url, 32);
    assert url[32..32 + |id|] == id;
    assert 32 + |id| < |url| ==> url[32 + |id|] == query[0];
    assert MaximalRunAt(url, 32, id);
  }

  /** An input without `=`, such as a short link, holds no `v=` and is
      passed on whole. */
  lemma ShortLinkUnchanged(url: string)
    requires forall k | 0 <= k < |url| :: url[k] != '='
    ensures ExtractVideoId(url) == url
  {
  }
}
