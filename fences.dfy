/**
 * `clean_json_response` (app.py, lines 49-53): strip the model's answer,
 * then drop a leading markdown fence line with `re.sub(r"^```.*?\n", "", _)`
 * and a trailing fence with `re.sub(r"\n```$", "", _)`.
 *
 * Each regular expression is given here twice: as a predicate saying where
 * Python's `re` finds a match (the reference), and as the substitution that
 * `re.sub` performs, proved against it.
 */
module Fences {
  import opened PyStr

  /** A markdown code-fence marker. */
  const Fence: string := "```"

  /** The text the closing pattern `\n```` looks for. */
  const ClosingFence: string := "\n```"

  /**
   * `^```.*?\n` matches `s[..k]`.  With no MULTILINE flag `^` anchors only at
   * index 0, and `.` matches any character but a newline, so the lazy `.*?`
   * runs exactly up to the first newline after the three backticks.
   */
  predicate OpeningFenceMatch(s: string, k: int) {
    && 4 <= k <= |s|
    && s[..3] == Fence
    && s[k - 1] == '\n'
    && forall i :: 3 <= i < k - 1 ==> s[i] != '\n'
  }

  /**
   * `\n```$` matches `s[p..p + 4]`.  Without MULTILINE, Python's `$` matches
   * at the end of the text and also just before a newline that ends it.
   */
  predicate ClosingFenceMatch(s: string, p: int) {
    && 0 <= p && p + 4 <= |s|
    && s[p..p + 4] == ClosingFence
    && (p + 4 == |s| || (p + 5 == |s| && s[p + 4] == '\n'))
  }

  /**
   * `re.sub(r"^```.*?\n", "", s)`: a match of the opening pattern is
   * removed, otherwise `s` is returned unchanged.
   */
  function SubOpeningFence(s: string): (r: string)
    ensures forall k :: OpeningFenceMatch(s, k) ==> r == s[k..]
    ensures (forall k :: !OpeningFenceMatch(s, k)) ==> r == s
  {
    var n := FindNewline(s);
    if StartsWith(s, Fence) && n >= 0 then
      assert s[0] == '`' && s[1] == '`' && s[2] == '`';
      assert OpeningFenceMatch(s, n + 1);
      s[n + 1..]
    else
      s
  }

  /**
   * The opening pattern matches exactly when the text starts with three
   * backticks and holds a newline, and then at a single place: through the
   * first newline.
   */
  lemma OpeningFenceMatchIff(s: string)
    ensures (exists k :: OpeningFenceMatch(s, k)) <==> StartsWith(s, Fence) && '\n' in s
    ensures forall k, l :: OpeningFenceMatch(s, k) && OpeningFenceMatch(s, l) ==> k == l
  {
    if StartsWith(s, Fence) && '\n' in s {
      var n := FindNewline(s);
      assert s[0] == '`' && s[1] == '`' && s[2] == '`';
      assert OpeningFenceMatch(s, n + 1);
    }
  }

  /**
   * `re.sub(r"\n```$", "", s)`: the closing pattern matches at most once;
   * the match is removed, otherwise `s` is returned unchanged.
   */
  function SubClosingFence(s: string): (r: string)
    ensures forall p, q :: ClosingFenceMatch(s, p) && ClosingFenceMatch(s, q) ==> p == q
    ensures forall p :: ClosingFenceMatch(s, p) ==> r == s[..p] + s[p + 4..]
    ensures (forall p :: !ClosingFenceMatch(s, p)) ==> r == s
  {
    if EndsWith(s, ClosingFence) then
      assert ClosingFenceMatch(s, |s| - 4);
      s[..|s| - 4]
    else if EndsWith(s, ClosingFence + Newline) then
      assert ClosingFenceMatch(s, |s| - 5);
      s[..|s| - 5] + Newline
    else
      s
  }

  /**
   * `clean_json_response(raw)`: the result is a contiguous slice of
   * `raw.strip()`, so never longer than it.
   */
  function CleanJsonResponse(raw: string): (r: string)
    ensures |r| <= |Strip(raw)|
    ensures IsSlice(r, Strip(raw))
  {
    var t := Strip(raw);
    var u := SubOpeningFence(t);
    OpeningIsSuffix(t);
    assert t == [] || (!IsSpace(t[0]) && !IsSpace(t[|t| - 1]));
    ClosingAfterStrip(t, u);
    SubClosingFence(u)
  }

  /** What the opening substitution leaves is a suffix of its input. */
  lemma OpeningIsSuffix(t: string)
    ensures EndsWith(t, SubOpeningFence(t))
  {
    if k :| OpeningFenceMatch(t, k) {
      assert t[|t| - |t[k..]|..] == t[k..];
    }
  }

  /**
   * On a suffix of a stripped text (which never ends in a newline) the
   * closing substitution removes the last four characters exactly when they
   * are a newline and three backticks, and changes nothing otherwise; the
   * result is again a slice of the stripped text.
   */
  lemma ClosingAfterStrip(t: string, u: string)
    requires t == [] || (!IsSpace(t[0]) && !IsSpace(t[|t| - 1]))
    requires EndsWith(t, u)
    ensures u == [] || u[|u| - 1] != '\n'
    ensures SubClosingFence(u) == if EndsWith(u, ClosingFence) then u[..|u| - 4] else u
    ensures |SubClosingFence(u)| <= |t| && IsSlice(SubClosingFence(u), t)
  {
    var i := |t| - |u|;
    if u != [] {
      assert u[|u| - 1] == t[|t| - 1];
      assert IsSpace('\n');
      assert u[|u| - 1] != '\n';
    }
    var r := SubClosingFence(u);
    if EndsWith(u, ClosingFence) {
      assert SliceAt(t, i, r);
    } else {
      assert !EndsWith(u, ClosingFence + Newline);
      assert SliceAt(t, i, r);
    }
  }

  /**
   * A stripped answer that neither starts with three backticks nor ends with
   * a newline and three backticks comes back unchanged: fence removal is a
   * no-op on unfenced text.
   */
  lemma CleanUnfenced(raw: string)
    requires !StartsWith(Strip(raw), Fence) && !EndsWith(Strip(raw), ClosingFence)
    ensures CleanJsonResponse(raw) == Strip(raw)
  {
    var t := Strip(raw);
    OpeningIsSuffix(t);
    ClosingAfterStrip(t, t);
  }

  /**
   * When the opening pattern matches `raw.strip()` through index `k` (the
   * first newline), exactly that prefix is removed, and then the last four
   * characters are removed if and only if they are a newline and three
   * backticks.
   */
  lemma CleanOpened(raw: string, k: int)
    requires OpeningFenceMatch(Strip(raw), k)
    ensures var body := Strip(raw)[k..];
            CleanJsonResponse(raw) == if EndsWith(body, ClosingFence) then body[..|body| - 4] else body
  {
    var t := Strip(raw);
    var u := SubOpeningFence(t);
    assert u == t[k..];
    assert EndsWith(t, u);
    assert t == [] || (!IsSpace(t[0]) && !IsSpace(t[|t| - 1]));
    ClosingAfterStrip(t, u);
  }

  /**
   * When `raw.strip()` does not start with three backticks, or has no
   * newline, nothing is removed at the front; the last four characters are
   * removed if and only if they are a newline and three backticks.
   */
  lemma CleanNotOpened(raw: string)
    requires !StartsWith(Strip(raw), Fence) || '\n' !in Strip(raw)
    ensures var t := Strip(raw);
            CleanJsonResponse(raw) == if EndsWith(t, ClosingFence) then t[..|t| - 4] else t
  {
    var t := Strip(raw);
    OpeningFenceMatchIff(t);
    OpeningIsSuffix(t);
    ClosingAfterStrip(t, t);
  }

  /**
   * Wrapping any text in a fenced block (an opening line of three backticks
   * and a language tag, a closing newline and three backticks, and any
   * surrounding whitespace) and cleaning it gives the text back.  Only one
   * fence is removed at each end, even when the text itself starts or ends
   * with a fence.
   */
  lemma FenceWrapRoundTrip(pre: string, tag: string, body: string, post: string)
    requires AllSpace(pre) && AllSpace(post)
    requires '\n' !in tag
    ensures CleanJsonResponse(pre + Fence + tag + Newline + body + ClosingFence + post) == body
  {
    var rest := body + ClosingFence;
    var w := Fence + tag + Newline + rest;
    assert pre + Fence + tag + Newline + body + ClosingFence + post == pre + w + post;
    assert w[0] == '`' && w[|w| - 1] == '`';
    StripPadded(pre, w, post);
    OpeningFenceLine(tag, rest);
    CleanOpened(pre + w + post, |tag| + 4);
    assert rest[..|rest| - 4] == body;
  }

  /** An opening fence line followed by any text matches through its newline. */
  lemma OpeningFenceLine(tag: string, rest: string)
    requires '\n' !in tag
    ensures OpeningFenceMatch(Fence + tag + Newline + rest, |tag| + 4)
    ensures (Fence + tag + Newline + rest)[|tag| + 4..] == rest
  {
    var w := Fence + tag + Newline + rest;
    var k := |tag| + 4;
    assert w[..3] == Fence;
    assert w[k - 1] == '\n';
    assert forall i :: 3 <= i < k - 1 ==> w[i] == tag[i - 3];
  }

  /** The usual fenced answer: "```json\n{...}\n```" cleans to "{...}". */
  lemma CleanJsonFencedExample()
    ensures CleanJsonResponse("```json\n{...}\n```") == "{...}"
  {
    var e: string := [];
    assert "```json\n{...}\n```" == e + Fence + "json" + Newline + "{...}" + ClosingFence + e;
    FenceWrapRoundTrip(e, "json", "{...}", e);
  }

  /**
   * An empty fenced block keeps its closing fence: after the opening line is
   * removed, the newline the closing pattern needs is gone.
   */
  lemma EmptyFencedBlockKeepsClosingFence()
    ensures CleanJsonResponse("```json\n```") == "```"
  {
    var t := "```json\n```";
    assert t == Fence + "json" + Newline + Fence;
    assert t[0] == '`' && t[|t| - 1] == '`';
    StripUnpadded(t);
    OpeningFenceLine("json", Fence);
    CleanOpened(t, 8);
  }

  /** Three backticks with no newline after them are not an opening fence. */
  lemma FenceWithoutNewlineKept()
    ensures CleanJsonResponse("```{}```") == "```{}```"
  {
    var t := "```{}```";
    assert t[0] == '`' && t[|t| - 1] == '`';
    StripUnpadded(t);
    assert forall i :: 0 <= i < |t| ==> t[i] != '\n';
    CleanNotOpened(t);
    assert t[|t| - 4] == '}';
  }
}
