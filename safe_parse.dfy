/**
 * `parse_json_safe` (app.py, lines 55-64): clean the answer, decode it with
 * `json.loads`, fall back to `ast.literal_eval` on the same cleaned text when
 * that raises `json.JSONDecodeError`, and return `None` when the fallback
 * raises anything.
 *
 * The two library decoders are parameters, so every fact below holds for
 * whatever grammars they accept.
 */
module SafeParse {
  import opened PyValues
  import opened PyStr
  import opened Fences

  /**
   * `parse_json_safe(raw)` with `json.loads` = `loads` and
   * `ast.literal_eval` = `literalEval`.
   *
   * A strict decode that succeeds is returned as it is.  A `JSONDecodeError`
   * hands the same cleaned text to the fallback; the fallback's value is
   * returned, and any exception it raises is absorbed into `None`.  Only an
   * exception of `json.loads` other than `JSONDecodeError` (for instance a
   * `RecursionError` on deeply nested text) leaves the function.
   */
  function ParseJsonSafe(raw: string, loads: Decoder, literalEval: Decoder): (r: Outcome<Value>)
    ensures var cleaned := CleanJsonResponse(raw);
            && (loads(cleaned).Ok? ==> r == loads(cleaned))
            && (loads(cleaned) == Raised(JSONDecodeError) ==>
                  r == if literalEval(cleaned).Ok? then literalEval(cleaned) else Ok(VNone))
            && (r.Raised? <==> loads(cleaned).Raised? && loads(cleaned).exc != JSONDecodeError)
            && (r.Raised? ==> r == loads(cleaned))
  {
    var cleaned := CleanJsonResponse(raw);
    match loads(cleaned)
    case Ok(v) => Ok(v)
    case Raised(JSONDecodeError) =>
      (match literalEval(cleaned)
       case Ok(v) => Ok(v)
       case Raised(_) => Ok(VNone))
    case Raised(e) => Raised(e)
  }

  /**
   * The answer reaches the decoders only through `clean_json_response`:
   * answers that clean to the same text parse to the same result.
   */
  lemma ParseSeesOnlyCleanedText(raw1: string, raw2: string, loads: Decoder, literalEval: Decoder)
    requires CleanJsonResponse(raw1) == CleanJsonResponse(raw2)
    ensures ParseJsonSafe(raw1, loads, literalEval) == ParseJsonSafe(raw2, loads, literalEval)
  {
  }

  /** When strict decoding succeeds the fallback decoder is never consulted. */
  lemma StrictDecodeIgnoresFallback(raw: string, loads: Decoder, literal1: Decoder, literal2: Decoder)
    requires loads(CleanJsonResponse(raw)).Ok?
    ensures ParseJsonSafe(raw, loads, literal1) == ParseJsonSafe(raw, loads, literal2)
  {
  }

  /**
   * Fences do not matter: a text that is already clean (no surrounding
   * whitespace, not starting with three backticks, not ending with a newline
   * and three backticks) parses to the same result whether or not it is wrapped in a
   * fenced block with surrounding whitespace.
   */
  lemma ParseIgnoresFences(pre: string, tag: string, body: string, post: string,
                           loads: Decoder, literalEval: Decoder)
    requires AllSpace(pre) && AllSpace(post) && '\n' !in tag
    requires body == [] || (!IsSpace(body[0]) && !IsSpace(body[|body| - 1]))
    requires !StartsWith(body, Fence) && !EndsWith(body, ClosingFence)
    ensures ParseJsonSafe(pre + Fence + tag + Newline + body + ClosingFence + post, loads, literalEval)
         == ParseJsonSafe(body, loads, literalEval)
  {
    var wrapped := pre + Fence + tag + Newline + body + ClosingFence + post;
    FenceWrapRoundTrip(pre, tag, body, post);
    StripUnpadded(body);
    CleanUnfenced(body);
    assert CleanJsonResponse(wrapped) == CleanJsonResponse(body);
    ParseSeesOnlyCleanedText(wrapped, body, loads, literalEval);
  }

  /**
   * A strict decode to `null` returns `None`, the very value that signals
   * failure: the caller cannot tell the answer "null" from an unparseable
   * one.
   */
  lemma NullLooksLikeFailure(raw: string, loads: Decoder, literalEval: Decoder)
    requires loads(CleanJsonResponse(raw)) == Ok(VNone)
    ensures ParseJsonSafe(raw, loads, literalEval)
         == ParseJsonSafe(raw, _ => Raised(JSONDecodeError), _ => Raised(SyntaxError))
  {
  }

  /**
   * An apology that neither decoder accepts parses to `None`, and no
   * exception escapes.
   */
  lemma RefusalParsesToNone(loads: Decoder, literalEval: Decoder)
    requires loads("Sorry, I cannot comply.") == Raised(JSONDecodeError)
    requires literalEval("Sorry, I cannot comply.").Raised?
    ensures ParseJsonSafe("Sorry, I cannot comply.", loads, literalEval) == Ok(VNone)
  {
    var raw := "Sorry, I cannot comply.";
    assert raw[0] == 'S' && raw[|raw| - 1] == '.';
    StripUnpadded(raw);
    assert raw[..3] != Fence;
    assert raw[|raw| - 4..] != ClosingFence;
    CleanUnfenced(raw);
  }
}
