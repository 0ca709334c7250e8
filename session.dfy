/**
  The session-state rules of the page script in `app.py`. Streamlit runs
  the whole script again on every interaction; what survives from one run
  to the next is `st.session_state` with the fields `previous_url_or_id`,
  `subtitles` and `formatted_text`.

  One run reads the input box and at most one button click:
  - a changed input resets both derived fields;
  - captions are fetched only for a non-empty input while `subtitles` is
    falsy;
  - "Punctuate Script" is offered only while `subtitles` is truthy, and
    its result replaces `formatted_text`;
  - "Generate title and description" is offered only while
    `formatted_text` is truthy, and what it generates is shown, never
    stored.

  The caption download and the model call are parameters: `download` maps
  a video id to the caption file's text (`None` when the download or the
  read raises), and `call` is the model call of `ModelClient`.
 */
module Session {
  import opened Wrappers
  import opened Captions
  import opened VideoId
  import opened ModelClient

  /** The three session fields, as a value. */
  datatype Snapshot = Snapshot(previousUrlOrId: Option<string>, subtitles: Option<string>, formattedText: Option<string>)

  /** The button whose click caused this run, if any. */
  datatype Click = NoClick | PunctuateClick | GenerateClick

  /** What one run puts on the page. */
  datatype Page = Page(
    videoUrl: Option<string>,
    fetchAttempted: bool,
    fetchFailed: bool,
    shownSubtitles: Option<string>,
    punctuateOffered: bool,
    shownFormatted: Option<string>,
    generateOffered: bool,
    generated: Option<Option<string>>,
    crashed: bool)

  // ---------------------------------------------------------------------
  // The rules, step by step, on values

  /** Remembers the input; a changed input discards both derived fields. */
  function Track(s: Snapshot, urlOrId: string): (t: Snapshot)
    ensures t.previousUrlOrId == Some(urlOrId)
    ensures t == s || (t.subtitles == None && t.formattedText == None)
  {
    if s.previousUrlOrId != Some(urlOrId) then Snapshot(Some(urlOrId), None, None)
    else s
  }

  /** The guard of the fetch: an input is given and `subtitles` is falsy. */
  predicate ShouldFetch(urlOrId: string, subtitles: Option<string>)
  {
    urlOrId != "" && !Truthy(subtitles)
  }

  /** A fetch that succeeds stores the cleaned transcript; one that fails
      changes nothing. */
  function AfterFetch(s: Snapshot, urlOrId: string, content: Option<string>): (f: Snapshot)
    ensures f.previousUrlOrId == s.previousUrlOrId && f.formattedText == s.formattedText
    ensures f.subtitles != s.subtitles ==>
      ShouldFetch(urlOrId, s.subtitles) && content.Some? && f.subtitles == Some(Transcript(content.value))
  {
    if ShouldFetch(urlOrId, s.subtitles) && content.Some? then
      s.(subtitles := Some(Transcript(content.value)))
    else s
  }

  /** The model call a click on "Punctuate Script" makes, when the button is
      there to click. */
  predicate Punctuates(s: Snapshot, click: Click)
  {
    Truthy(s.subtitles) && click == PunctuateClick
  }

  /** The result of the punctuation call replaces `formatted_text`, `None`
      included; a call that raises stops the run before the assignment. */
  function AfterPunctuate(s: Snapshot, click: Click, env: Option<string>, secret: Option<string>,
                          call: (string, string) -> Option<Response>): (p: Snapshot)
    ensures p.previousUrlOrId == s.previousUrlOrId && p.subtitles == s.subtitles
    ensures p.formattedText != s.formattedText ==> Punctuates(s, click)
    ensures Punctuates(s, click) && FormatWithModel(s.subtitles.value, FORMAT_PROMPT, env, secret, call).Returned? ==>
      p.formattedText == FormatWithModel(s.subtitles.value, FORMAT_PROMPT, env, secret, call).text
    ensures !Punctuates(s, click) || FormatWithModel(s.subtitles.value, FORMAT_PROMPT, env, secret, call).Raised? ==>
      p == s
  {
    if Punctuates(s, click) then
      match FormatWithModel(s.subtitles.value, FORMAT_PROMPT, env, secret, call)
      case Raised => s
      case Returned(t) => s.(formattedText := t)
    else s
  }

  /** What holds between runs: subtitles exist only for a non-empty input,
      and formatted text only while the subtitles are truthy. */
  predicate Consistent(s: Snapshot)
  {
    && (s.subtitles != None ==> s.previousUrlOrId.Some? && s.previousUrlOrId.value != "")
    && (!Truthy(s.subtitles) ==> s.formattedText == None)
  }

  // ---------------------------------------------------------------------
  // Properties of the rules

  /** After tracking, the input is remembered; when it changed, both
      derived fields are gone and a non-empty input will be fetched. */
  lemma TrackResets(s: Snapshot, urlOrId: string)
    ensures Track(s, urlOrId).previousUrlOrId == Some(urlOrId)
    ensures s.previousUrlOrId != Some(urlOrId) ==>
      Track(s, urlOrId).subtitles == None && Track(s, urlOrId).formattedText == None
      && (urlOrId != "" ==> ShouldFetch(urlOrId, Track(s, urlOrId).subtitles))
    ensures s.previousUrlOrId == Some(urlOrId) ==> Track(s, urlOrId) == s
  {
  }

  /** Tracking the same input twice is tracking it once. */
  lemma TrackIdempotent(s: Snapshot, urlOrId: string)
    ensures Track(Track(s, urlOrId), urlOrId) == Track(s, urlOrId)
  {
  }

  /** Once truthy subtitles are stored for an input, further runs with the
      same input keep them and never fetch again. */
  lemma NoRefetch(s: Snapshot, urlOrId: string, content: Option<string>)
    requires Truthy(s.subtitles) && s.previousUrlOrId == Some(urlOrId)
    ensures AfterFetch(Track(s, urlOrId), urlOrId, content) == s
    ensures !ShouldFetch(urlOrId, Track(s, urlOrId).subtitles)
  {
  }

  /** A failed fetch leaves `subtitles` as it was, which is falsy whenever a
      fetch was attempted. */
  lemma FailedFetchKeeps(s: Snapshot, urlOrId: string)
    ensures AfterFetch(s, urlOrId, None) == s
    ensures ShouldFetch(urlOrId, s.subtitles) ==> !Truthy(AfterFetch(s, urlOrId, None).subtitles)
  {
  }

  /** A fetched transcript is one line: no `\n` and no `\r`. */
  lemma FetchedIsOneLine(s: Snapshot, urlOrId: string, content: string)
    requires ShouldFetch(urlOrId, s.subtitles)
    ensures AfterFetch(s, urlOrId, Some(content)).subtitles == Some(Transcript(content))
    ensures '\n' !in Transcript(content) && '\r' !in Transcript(content)
  {
    TranscriptShape(content);
  }

  /** Tracking the input keeps the state consistent. */
  lemma TrackKeepsConsistent(s: Snapshot, urlOrId: string)
    requires Consistent(s)
    ensures Consistent(Track(s, urlOrId))
  {
  }

  /** Fetching for the tracked input keeps the state consistent: subtitles
      are stored only for a non-empty input, and only while `formatted_text`
      is still empty. */
  lemma FetchKeepsConsistent(s: Snapshot, urlOrId: string, content: Option<string>)
    requires Consistent(s) && s.previousUrlOrId == Some(urlOrId)
    ensures Consistent(AfterFetch(s, urlOrId, content))
  {
    var f := AfterFetch(s, urlOrId, content);
    assert f.subtitles != s.subtitles ==> ShouldFetch(urlOrId, s.subtitles);
  }

  /** The punctuate step keeps the state consistent. */
  lemma PunctuateKeepsConsistent(s: Snapshot, click: Click, env: Option<string>, secret: Option<string>,
                                 call: (string, string) -> Option<Response>)
    requires Consistent(s)
    ensures Consistent(AfterPunctuate(s, click, env, secret, call))
  {
  }

  /** A punctuation call that the service answers with a failure status
      clears `formatted_text`: the function returns `None` and the page
      stores it. */
  lemma FailedPunctuateClears(s: Snapshot, click: Click, env: Option<string>, secret: Option<string>,
                              call: (string, string) -> Option<Response>, detail: string, raw: string)
    requires Punctuates(s, click)
    requires ResolveToken(env, secret).Some?
    requires call("Key " + ResolveToken(env, secret).value, FullPrompt(FORMAT_PROMPT, s.subtitles.value))
             == Some(Response(false, detail, raw))
    ensures AfterPunctuate(s, click, env, secret, call).formattedText == None
  {
    var o := FormatWithModel(s.subtitles.value, FORMAT_PROMPT, env, secret, call);
    assert o == Returned(None);
  }

  // ---------------------------------------------------------------------
  // The session state, updated in place

  class SessionState {
    var previousUrlOrId: Option<string>
    var subtitles: Option<string>
    var formattedText: Option<string>

    function Snap(): Snapshot
      reads this
    {
      Snapshot(previousUrlOrId, subtitles, formattedText)
    }

    predicate Valid()
      reads this
    {
      Consistent(Snap())
    }

    /** The state once the first run has initialised the missing fields. */
    constructor ()
      ensures Snap() == Snapshot(None, None, None)
      ensures Valid()
    {
      previousUrlOrId := None;
      subtitles := None;
      formattedText := None;
    }

    /** `if st.session_state.previous_url_or_id != url_or_id: …`. */
    method TrackInput(urlOrId: string)
      requires Valid()
      modifies this
      ensures Valid()
      ensures Snap() == Track(old(Snap()), urlOrId)
    {
      TrackKeepsConsistent(Snap(), urlOrId);
      if previousUrlOrId != Some(urlOrId) {
        previousUrlOrId := Some(urlOrId);
        subtitles := None;
        formattedText := None;
      }
    }

    /** The fetch, or the redisplay of what was fetched before. */
    method FetchSubtitles(urlOrId: string, download: string -> Option<string>)
      returns (videoUrl: Option<string>, attempted: bool, failed: bool, shown: Option<string>)
      requires Valid() && previousUrlOrId == Some(urlOrId)
      modifies this
      ensures Valid()
      ensures Snap() == AfterFetch(old(Snap()), urlOrId, download(ExtractVideoId(urlOrId)))
      ensures videoUrl == (if urlOrId != "" then Some(WatchUrl(ExtractVideoId(urlOrId))) else None)
      ensures attempted == ShouldFetch(urlOrId, old(subtitles))
      ensures failed <==> attempted && download(ExtractVideoId(urlOrId)).None?
      ensures shown == (if (attempted && !failed) || (!attempted && urlOrId != "") then subtitles else None)
    {
      FetchKeepsConsistent(Snap(), urlOrId, download(ExtractVideoId(urlOrId)));
      videoUrl, failed, shown := None, false, None;
      attempted := urlOrId != "" && !Truthy(subtitles);
      if attempted {
        var videoId := ExtractVideoId(urlOrId);
        videoUrl := Some(WatchUrl(videoId));
        var content := download(videoId);
        if content.Some? {
          var transcript := CleanSubtitles(content.value);
          subtitles := Some(transcript);
          shown := subtitles;
        } else {
          failed := true;
        }
      } else if urlOrId != "" {
        var videoId := ExtractVideoId(urlOrId);
        videoUrl := Some(WatchUrl(videoId));
        if Truthy(subtitles) {
          shown := subtitles;
        }
      }
    }

    /** The two buttons: punctuation, then title and description. */
    method Buttons(click: Click, env: Option<string>, secret: Option<string>,
                   call: (string, string) -> Option<Response>)
      returns (punctuateOffered: bool, shownFormatted: Option<string>, generateOffered: bool,
               generated: Option<Option<string>>, crashed: bool)
      requires Valid()
      modifies this
      ensures Valid()
      ensures Snap() == AfterPunctuate(old(Snap()), click, env, secret, call)
      ensures punctuateOffered == Truthy(old(subtitles))
      ensures var punctuateRaised := Punctuates(old(Snap()), click)
                && FormatWithModel(old(subtitles).value, FORMAT_PROMPT, env, secret, call).Raised?;
              && generateOffered == (punctuateOffered && !punctuateRaised && Truthy(formattedText))
              && shownFormatted == (if generateOffered then formattedText else None)
              && (crashed <==>
                    (punctuateRaised
                     || (generateOffered && click == GenerateClick
                         && FormatWithModel(formattedText.value, VIDEO_PROMPT, env, secret, call).Raised?)))
      ensures generated.Some? <==> generateOffered && click == GenerateClick && !crashed
      ensures generated.Some? ==> generated.value == FormatWithModel(formattedText.value, VIDEO_PROMPT, env, secret, call).text
    {
      PunctuateKeepsConsistent(Snap(), click, env, secret, call);
      punctuateOffered := Truthy(subtitles);
      shownFormatted, generateOffered, generated, crashed := None, false, None, false;
      if punctuateOffered {
        if click == PunctuateClick {
          var outcome := FormatWithModel(subtitles.value, FORMAT_PROMPT, env, secret, call);
          if outcome.Raised? {
            crashed := true;
            return;
          }
          formattedText := outcome.text;
        }
        if Truthy(formattedText) {
          shownFormatted := formattedText;
          generateOffered := true;
          if click == GenerateClick {
            var outcome := FormatWithModel(formattedText.value, VIDEO_PROMPT, env, secret, call);
            if outcome.Raised? {
              crashed := true;
              return;
            }
            generated := Some(outcome.text);
          }
        }
      }
    }

    /** One run of the page script. */
    method Rerun(urlOrId: string, click: Click, download: string -> Option<string>,
                 env: Option<string>, secret: Option<string>,
                 call: (string, string) -> Option<Response>) returns (page: Page)
      requires Valid()
      modifies this
      ensures Valid()
      ensures previousUrlOrId == Some(urlOrId)
      ensures var fetched := AfterFetch(Track(old(Snap()), urlOrId), urlOrId, download(ExtractVideoId(urlOrId)));
              && Snap() == AfterPunctuate(fetched, click, env, secret, call)
              && page.fetchAttempted == ShouldFetch(urlOrId, Track(old(Snap()), urlOrId).subtitles)
              && page.punctuateOffered == Truthy(fetched.subtitles)
      ensures page.generateOffered ==> Truthy(subtitles) && Truthy(formattedText)
      ensures page.generated.Some? ==> click == GenerateClick && page.generateOffered
      ensures var content := download(ExtractVideoId(urlOrId));
              var fetched := AfterFetch(Track(old(Snap()), urlOrId), urlOrId, content);
              && page.videoUrl == (if urlOrId != "" then Some(WatchUrl(ExtractVideoId(urlOrId))) else None)
              && (page.fetchFailed <==> page.fetchAttempted && content.None?)
              && page.shownSubtitles ==
                   (if (page.fetchAttempted && !page.fetchFailed) || (!page.fetchAttempted && urlOrId != "")
                    then fetched.subtitles else None)
      ensures var fetched := AfterFetch(Track(old(Snap()), urlOrId), urlOrId, download(ExtractVideoId(urlOrId)));
              var punctuateRaised := Punctuates(fetched, click)
                && FormatWithModel(fetched.subtitles.value, FORMAT_PROMPT, env, secret, call).Raised?;
              && page.generateOffered == (page.punctuateOffered && !punctuateRaised && Truthy(formattedText))
              && page.shownFormatted == (if page.generateOffered then formattedText else None)
              && (page.crashed <==>
                    (punctuateRaised
                     || (page.generateOffered && click == GenerateClick
                         && FormatWithModel(formattedText.value, VIDEO_PROMPT, env, secret, call).Raised?)))
      ensures page.generated.Some? <==> page.generateOffered && click == GenerateClick && !page.crashed
      ensures page.generated.Some? ==>
        page.generated.value == FormatWithModel(formattedText.value, VIDEO_PROMPT, env, secret, call).text
    {
      TrackInput(urlOrId);
      var videoUrl, attempted, failed, shownSubtitles := FetchSubtitles(urlOrId, download);
      var punctuateOffered, shownFormatted, generateOffered, generated, crashed := Buttons(click, env, secret, call);
      page := Page(videoUrl, attempted, failed, shownSubtitles, punctuateOffered, shownFormatted,
                   generateOffered, generated, crashed);
    }
  }
}
