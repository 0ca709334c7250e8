# YouTube script helper: caption and session model

A Dafny model of the text-processing core of `app.py`, a Streamlit page. The page:

- downloads a YouTube video's automatically generated English captions (WebVTT);
- reduces them to a one-line transcript;
- has a language model punctuate the transcript;
- has it propose a title and a description.

The model covers:

- **Caption filter** (`Captions`). `filter_subtitles` scans the stripped lines of the caption file with the flags `past_header` and `capture_next`. After each cue header (a line holding the WebVTT cue-timing arrow `-->`, section 4.1 of the W3C WebVTT specification) it keeps the first line that is non-empty and free of `<` and `>`. A kept line equal to the previous kept line is dropped. `download_subtitles` then turns `\n` into a space and deletes `\r`.
  - The loop is a `method`. It is proved against a declarative description:
    - `Pending`: the last header still waits for its line;
    - `Captured`: which lines the scan takes;
    - `Candidates`: those lines in order;
    - `Dedup` (in `Sequences`): removal of adjacent repeats.
- **Python string built-ins** (`Text`): `str.strip()` with Python's whitespace set, `split` on one character, `join`, and one-character `replace`.
- **Video id** (`VideoId`): `extract_video_id`'s regular expression `(?<=v=)[\w-]+`, as an explicit scanner.
- **Triple-quoted text** (`TripleQuote`): `extract_string`'s lazy regular expression `"""(.*?)"""` with `re.DOTALL`, as an explicit scanner.
- **Model call** (`ModelClient`): the prompt assembly `prompt + '\n' + raw_text + '\n'`, the token lookup, and the handling of the reply in `format_with_clarifai_api`. The gRPC call is a function parameter.
- **Session** (`Session`): the three `st.session_state` fields and one run of the page script.
  - The fields are a class `SessionState`, whose methods update them in place.
  - The same rules are also given as functions on a `Snapshot` value, with lemmas about them.
  - The caption download and the model call are parameters.

Where the code and its description differ, the model follows the code:

- Kept lines are joined with `\n`, which the caller then replaces by a space. The transcript therefore has its lines separated by single spaces, not glued together.
- A "Punctuate Script" call that returns `None` overwrites `formatted_text` with `None`; the old text is not kept.
- A failed caption fetch leaves `subtitles` as it was. That value is falsy but not always `None`: it is `""` when an earlier fetch for the same input produced an empty transcript.

## Model

| member | source | states |
|---|---|---|
| Captions.FilterSubtitles | app.py:58-82 | the result is the kept lines of the document's stripped lines, joined with `\n` |
| Captions.ScanCueLines | app.py:61-80 | the flag-driven loop keeps exactly `Kept` of the stripped lines: after each header, the first qualifying line, minus adjacent repeats |
| Captions.ScanStep | app.py:65-80 | one line of the scan: a header sets both flags; before any header nothing changes; a qualifying line while a cue waits is appended unless it equals the last kept line, and clears `capture_next`; any other line changes nothing |
| Captions.HeaderNeverQualifies | app.py:68-77 | a line holding `-->` holds `>`, so a header is never captured |
| Captions.PendingSnoc | app.py:68-80 | a cue waits for its line after a header, stops waiting at a qualifying line, and is unchanged by any other line |
| Captions.CandidatesSnoc | app.py:77-79 | a line is captured exactly when a cue waits and the line qualifies |
| Captions.CandidatesQualify | app.py:77 | every captured line is non-empty and free of `<` and `>` |
| Captions.KeptLinesClean | app.py:59-79 | the kept lines are a subsequence of the input lines (each is an input line, in input order); none is empty, holds `<` or `>`, or is a header |
| Captions.NoAdjacentRepeats | app.py:78-79 | no two adjacent kept lines are equal |
| Captions.PreambleIgnored | app.py:61-74 | lines before the first header never change the output, whatever they hold |
| Captions.KeptAtMostHeaders | app.py:68-80 | the number of kept lines is at most the number of header lines |
| Captions.TrailingIgnored | app.py:73-80 | once no cue waits, lines that are not headers capture nothing |
| Captions.CueCaptured | app.py:65-80 | a well-formed cue block (header, text, non-header lines) adds exactly its text line and leaves nothing pending, whatever preceded it |
| Captions.CuesCaptured | app.py:65-80 | a preamble followed by well-formed cue blocks captures every cue's text line, in order |
| Captions.CuesKept | app.py:58-82 | with distinct neighbouring texts, the filter keeps exactly the cue texts |
| Captions.CleanSubtitles | app.py:113 | the transcript is the flattened filter output and holds no `\n` and no `\r` |
| Captions.Flatten | app.py:113 | `.replace('\n', ' ').replace('\r', '')`: the result holds no `\n` and no `\r` and is no longer than the input |
| Captions.FlattenConcat | app.py:113 | flattening distributes over concatenation |
| Captions.FlattenLine | app.py:113 | a string without `\n` only loses its `\r` characters |
| Captions.FlattenNewline | app.py:113 | a `\n` between two parts becomes one space |
| Captions.FlattenJoin | app.py:82-113 | flattening `\n`-joined lines joins those lines, without their `\r`, with single spaces |
| Captions.KeptLinesOfDocument | app.py:59-79 | every kept line is one of the document's stripped lines, is non-empty, is stripped and holds no `\n` |
| Captions.TranscriptShape | app.py:82-113 | the transcript holds no line break; it is the kept lines, without `\r`, separated by single spaces; with no header it is empty |
| Sequences.DedupSnoc | app.py:78-79 | appending to the kept list keeps the new element unless it equals the last one |
| Sequences.DedupLast | app.py:78 | deduplication keeps the last element, and only the empty sequence deduplicates to empty |
| Sequences.DedupSubseq | app.py:78-79 | deduplication only deletes elements |
| Sequences.DedupNoAdjacentRepeats | app.py:78-79 | the result has no adjacent repeats |
| Sequences.DedupFixedPoint | app.py:78-79 | a sequence is left unchanged exactly when it has no adjacent repeats |
| Sequences.SeparatedRepeatsKept | app.py:78-79 | `x, y, x` with `x != y` keeps both `x`s, since only the last kept element is compared |
| Sequences.SubseqTrans | app.py:78-79 | the subsequence order is transitive: kept-from-captured-from-input is kept-from-input |
| Text.Strip | app.py:59-66 | `str.strip()`: the result has no whitespace at either end and is no longer than the input |
| Text.StripPadded | app.py:59-66 | the result is an infix of the input with only whitespace around it |
| Text.StripUnique | app.py:59-66 | it is the only stripped infix with only whitespace around it |
| Text.StripOfStripped | app.py:66 | stripping is idempotent: a stripped line is its own strip |
| Text.StripKeepsOut | app.py:59-66 | a character absent from the input is absent from its strip |
| Text.IndexOf | app.py:59 | the index of the first separator, or the length when there is none |
| Text.Join | app.py:82 | `sep.join(xs)`: an empty list joins to the empty string, and a joined string begins with the first element; `Text.SplitOfJoin` shows splitting undoes it |
| Text.Split | app.py:59 | `split("\n")`: at least one piece, no piece holds the separator, and the pieces joined with it give back the input |
| Text.SplitOfJoin | app.py:59-82 | for a non-empty list of pieces none of which holds the separator, splitting the joined string gives the list back |
| Text.ReplaceChar | app.py:113 | `.replace('\n', ' ')`: same length, each separator replaced, every other character kept in place |
| Text.RemoveChar | app.py:113 | `.replace('\r', '')`: no `\r` remains and the result is no longer |
| Text.RemoveCharKeeps | app.py:113 | every other character occurs in the result exactly when it occurs in the input |
| Text.RemoveCharAbsent | app.py:113 | a string without `\r` is unchanged |
| Text.ReplaceCharConcat | app.py:113 | replacement distributes over concatenation |
| Text.RemoveCharConcat | app.py:113 | removal distributes over concatenation |
| VideoId.FirstMatchFrom | app.py:88 | finds the leftmost `v=` followed by a `[\w-]` character at or after a position, or reports that there is none |
| VideoId.RunEnd | app.py:88 | the greedy `[\w-]+` run ends at the first character outside the class |
| VideoId.ExtractVideoId | app.py:84-89 | with no match the input comes back unchanged; otherwise the result is the maximal `[\w-]` run after the first matching `v=` |
| VideoId.PlainIdUnchanged | app.py:86-89 | a string made only of id characters is returned as it is |
| VideoId.ExtractIdempotent | app.py:84-89 | extracting from the extracted id changes nothing |
| VideoId.NoEarlierMatch | app.py:214 | in the page's watch URL no match starts before the `v=` |
| VideoId.WatchUrl | app.py:214 | the watch URL is `https://www.youtube.com/watch?v=` followed by the id |
| VideoId.WatchUrlRoundTrip | app.py:213-214 | the id extracted from the watch URL built for a non-empty id made of `[\w-]` characters is that id |
| VideoId.PageExamples | app.py:178 | `https://www.youtube.com/watch?v=HbuOu9zq2UE` and `HbuOu9zq2UE` both give `HbuOu9zq2UE` |
| VideoId.ExtraParameterDropped | app.py:88 | for a non-empty `[\w-]` id, whatever follows the watch URL from a character outside `[\w-]` on (`&t=42s`, say) is not part of the extracted id |
| VideoId.ShortLinkUnchanged | app.py:89 | any input without `=`, a short link for instance, is passed on whole |
| TripleQuote.FindTriple | app.py:165 | finds the first `"""` at or after a position, or reports that there is none |
| TripleQuote.ExtractString | app.py:163-166 | `None` exactly when no `"""` is followed by another one three or more characters later; otherwise the result lies between the first `"""` and the next and holds no `"""` |
| TripleQuote.ExtractEnclosed | app.py:165-166 | text with no `"""` inside that does not end in `"` comes back out from between two delimiters |
| TripleQuote.EmptyEnclosed | app.py:165 | six quotes enclose the empty string |
| TripleQuote.LazyGroup | app.py:165 | example: `"""a"""b"""` gives `a`, the group ending at the first closing `"""` |
| TripleQuote.FourQuotes | app.py:165 | example: `""""x"""` gives `"x`, the fourth quote belonging to the text |
| ModelClient.FullPrompt | app.py:117 | the prompt is the instruction, a line break, the text and a final line break, at those positions |
| ModelClient.PayloadOf | app.py:117 | a payload read back from a prompt rebuilds that prompt |
| ModelClient.PayloadRoundTrip | app.py:117 | every payload, line breaks included, is recovered from its prompt, so distinct payloads give distinct prompts |
| ModelClient.ResolveToken | app.py:118-125 | the environment's token when set and non-empty, otherwise the secret store's, or none when that lacks the key |
| ModelClient.Interpret | app.py:155-161 | the call raising makes the function raise; a failure status or an empty text gives `None`; otherwise the stripped text |
| ModelClient.FormatWithModel | app.py:115-161 | with no token the function raises at `'Key ' + PAT`; otherwise it sends `Key <token>` and the assembled prompt, and any text it returns is stripped |
| Session.Track | app.py:194-197 | the input is remembered, and the state is either unchanged or has both derived fields cleared |
| Session.AfterFetch | app.py:212-223 | only `subtitles` can change, and only to the transcript of successfully downloaded content when the fetch guard holds |
| Session.AfterPunctuate | app.py:238-240 | the input and `subtitles` are kept; `formatted_text` changes only when the button is offered and clicked; then it becomes the call's result, `None` included, and a raising call leaves the state as it was |
| Session.TrackResets | app.py:194-197 | after tracking, the input is remembered; a changed input clears both derived fields, so a non-empty input will be fetched; an unchanged input changes nothing |
| Session.TrackIdempotent | app.py:194-197 | tracking the same input twice is tracking it once |
| Session.FailedPunctuateClears | app.py:240 | a punctuation call answered with a failure status (the `return None` at app.py:155-157) clears `formatted_text` |
| Session.NoRefetch | app.py:212 | once truthy subtitles are stored for an input, the track and fetch steps of a run with the same input neither fetch nor change the state |
| Session.FailedFetchKeeps | app.py:219-223 | a failed fetch leaves the state as it was, with falsy subtitles whenever a fetch was attempted |
| Session.FetchedIsOneLine | app.py:220 | a successful fetch stores the transcript, which holds no `\n` and no `\r` |
| Session.TrackKeepsConsistent | app.py:194-197 | tracking keeps the state consistent |
| Session.FetchKeepsConsistent | app.py:212-223 | fetching for the tracked input keeps the state consistent |
| Session.PunctuateKeepsConsistent | app.py:238-240 | the punctuate step keeps the state consistent |
| Session.SessionState.constructor | app.py:190-191 | the first run starts with all three fields `None`, a consistent state |
| Session.SessionState.TrackInput | app.py:194-197 | from a consistent state, the fields become `Track` of the old ones and stay consistent |
| Session.SessionState.FetchSubtitles | app.py:211-233 | from a consistent state whose input is this one, the fields become `AfterFetch` of the old ones and stay consistent; the video is shown for any non-empty input; a fetch is attempted exactly when the input is non-empty and `subtitles` is falsy; it fails exactly when the download does; subtitles are shown after a successful fetch, or when already truthy |
| Session.SessionState.Buttons | app.py:238-250 | from a consistent state, the fields become `AfterPunctuate` of the old ones and stay consistent; "Punctuate Script" is offered exactly when `subtitles` is truthy; "Generate title and description" exactly when it is and `formatted_text` is truthy after the punctuate step; the generated text is shown, never stored; a raising model call ends the run |
| Session.SessionState.Rerun | app.py:187-250 | one run keeps the state consistent, remembers the input, applies the three steps in order, and offers generation only with truthy subtitles and formatted text; every page field (video URL, fetch attempt and failure, shown subtitles and formatted text, both buttons, the generated text, a crash) is stated in terms of the fetched state and the model calls |

## Left out

- The Streamlit page itself is not modelled: the title, the explanatory text, the containers, the text areas, the embedded video and the `st.error` messages. A run's visible result is summarised by the `Page` value.
- The model selection box and the `models` dictionary are not modelled. They are static configuration, and the model call is a parameter, so which model answers is not visible.
- The `yt_dlp` download, the fixed path under `/tmp`, and the file read and delete in `download_subtitles` are a parameter: `download` maps a video id to the file's text, or to `None` when any of these raises. Python's universal-newline translation on reading is part of that parameter. So is the file's encoding.
- The gRPC channel, stub and request of `format_with_clarifai_api` are a parameter `call`. It receives the authorization value and the prompt, and returns the response or `None` when it raises. An empty `outputs` list, whose `outputs[0]` raises, counts as raising. The model's answers are not modelled.
- The `CLARIFAI_PAT` lookups in the environment and in the secret store are parameters `env` and `secret`.
- VideoId.ExtractVideoId: `\w` is taken as ASCII letters, digits and underscore. Python's `re` also counts other Unicode letters and digits.
- ModelClient.FormatWithModel: its contract states the request it sends and how it reads the reply. It does not say what the model answers.
- ModelClient.PayloadOf: the two instruction texts are used as they are. That they hold no line break, which would make the prompt's first line the instruction alone, is not proved.
- Exceptions other than those of the download and the model call are not modelled. For example, Streamlit itself failing.
- Session.SessionState.Rerun: the text input and the clicked button are parameters of the run. At most one button click is taken per run, as Streamlit delivers them.
