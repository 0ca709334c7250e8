/**
  The prompt assembly and reply handling of `format_with_clarifai_api` in
  `app.py`. The gRPC call is a parameter: it receives the authorization
  value and the prompt, and yields the response or nothing when it raises.
 */
module ModelClient {
  import opened Wrappers
  import opened Text

  /** The instruction sent with the raw transcript. */
  const FORMAT_PROMPT: string := "Below is the transcript of a video. Please correct the capitalization and punctuation, including making separate paragraphs, without changing any of the text. If a word is misspelled, correct the word, and if a word does not exist take your best guess as to the correct word. Only return the corrected text without commentary:"

  /** The instruction sent with the punctuated transcript. */
  const VIDEO_PROMPT: string := "[INST] Write a YouTube video title and video description for the following video script. [/INST]"

  /** `prompt + '\n' + raw_text + '\n'`: the instruction, a line break, the
      text and a final line break. */
  function FullPrompt(prompt: string, rawText: string): (full: string)
    ensures |full| == |prompt| + |rawText| + 2
    ensures full[..|prompt|] == prompt && full[|prompt|] == '\n'
    ensures full[|prompt| + 1..|full| - 1] == rawText && full[|full| - 1] == '\n'
  {
    prompt + "\n" + rawText + "\n"
  }

  /** Reads the payload back out of a prompt built on `prompt`: what lies
      between the instruction's line break and the final one. */
  function PayloadOf(prompt: string, full: string): (r: Option<string>)
    ensures r.Some? ==> FullPrompt(prompt, r.value) == full
  {
    var n := |prompt|;
    if n + 2 <= |full| && full[..n] == prompt && full[n] == '\n' && full[|full| - 1] == '\n' then
      var t := full[n + 1..|full| - 1];
      assert full == full[..n] + "\n" + t + "\n";
      Some(t)
    else None
  }

  /** Any payload, line breaks included, is recovered from the prompt, so
      two payloads never give the same prompt. */
  lemma PayloadRoundTrip(prompt: string, rawText: string)
    ensures PayloadOf(prompt, FullPrompt(prompt, rawText)) == Some(rawText)
  {
    var full := FullPrompt(prompt, rawText);
    var n := |prompt|;
    assert full[..n] == prompt;
    assert full[n + 1..|full| - 1] == rawText;
  }

  /** The response of a successful call: its status and the raw text of its
      first output (`""` when the output holds none). */
  datatype Response = Response(success: bool, description: string, raw: string)

  /** How the call ends: it raises, or it returns a text or `None`. */
  datatype Outcome = Raised | Returned(text: Option<string>)

  /** The token lookup: the environment variable when it is set and
      non-empty, otherwise the secret store (`None` for a missing key). */
  function ResolveToken(env: Option<string>, secret: Option<string>): (pat: Option<string>)
    ensures Truthy(env) ==> pat == env
    ensures !Truthy(env) ==> pat == secret
  {
    if Truthy(env) then env else secret
  }

  /** What the function makes of the call's result. */
  function Interpret(reply: Option<Response>): (o: Outcome)
    ensures o.Raised? <==> reply.None?
    ensures o == Returned(None) <==> reply.Some? && (!reply.value.success || reply.value.raw == "")
    ensures o.Returned? && o.text.Some? ==>
      reply.Some? && reply.value.success && o.text.value == Strip(reply.value.raw)
  {
    match reply
    case None => Raised
    case Some(resp) =>
      if !resp.success then Returned(None)
      else if resp.raw != "" then Returned(Some(Strip(resp.raw)))
      else Returned(None)
  }

  /** `format_with_clarifai_api(raw_text, prompt)`. */
  function FormatWithModel(rawText: string, prompt: string, env: Option<string>, secret: Option<string>,
                           call: (string, string) -> Option<Response>): (o: Outcome)
    ensures ResolveToken(env, secret).None? ==> o.Raised?
    ensures ResolveToken(env, secret).Some? ==>
      o == Interpret(call("Key " + ResolveToken(env, secret).value, FullPrompt(prompt, rawText)))
    ensures o.Returned? && o.text.Some? ==> IsStripped(o.text.value)
  {
    match ResolveToken(env, secret)
    case None => Raised
    case Some(pat) => Interpret(call("Key " + pat, FullPrompt(prompt, rawText)))
  }
}
