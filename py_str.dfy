/**
 * The few `str` operations of Python's standard library that the normaliser
 * relies on: `str.strip()` with no argument, `str.startswith`,
 * `str.endswith`, `str.find("\n")` and `str.join`.
 */
module PyStr {

  /**
   * The characters `str.strip()` removes when called without an argument:
   * exactly those for which `str.isspace()` holds (Python's
   * `Py_UNICODE_ISSPACE` table).
   */
  predicate IsSpace(c: char) {
    || ('\t' <= c <= '\r')                  // \t \n \v \f \r
    || ('\U{1C}' <= c <= ' ')               // the four separators and the space
    || c == '\U{85}' || c == '\U{A0}' || c == '\U{1680}'
    || ('\U{2000}' <= c <= '\U{200A}')
    || c == '\U{2028}' || c == '\U{2029}' || c == '\U{202F}' || c == '\U{205F}'
    || c == '\U{3000}'
  }

  /** Every character of `s` is whitespace. */
  predicate AllSpace(s: string) {
    forall i :: 0 <= i < |s| ==> IsSpace(s[i])
  }

  /** `s.lstrip()`: the suffix left after dropping the leading whitespace. */
  function LStrip(s: string): (r: string)
    ensures |r| <= |s| && r == s[|s| - |r|..]
    ensures AllSpace(s[..|s| - |r|])
    ensures r == [] || !IsSpace(r[0])
  {
    if s != [] && IsSpace(s[0]) then LStrip(s[1..]) else s
  }

  /** `s.rstrip()`: the prefix left after dropping the trailing whitespace. */
  function RStrip(s: string): (r: string)
    ensures |r| <= |s| && r == s[..|r|]
    ensures AllSpace(s[|r|..])
    ensures r == [] || !IsSpace(r[|r| - 1])
  {
    if s != [] && IsSpace(s[|s| - 1]) then RStrip(s[..|s| - 1]) else s
  }

  /**
   * `s.strip()`: the slice `s[i..j]` left when every leading and trailing
   * whitespace character is dropped.  The slice neither starts nor ends with
   * whitespace, and only whitespace lies outside it.
   */
  function Strip(s: string): (r: string)
    ensures |r| <= |s|
    ensures r == [] || (!IsSpace(r[0]) && !IsSpace(r[|r| - 1]))
    ensures exists i :: SliceAt(s, i, r) && AllSpace(s[..i]) && AllSpace(s[i + |r|..])
  {
    var l := LStrip(s);
    var r := RStrip(l);
    var i := |s| - |l|;
    assert SliceAt(s, i, r) && AllSpace(s[..i]);
    assert s[i + |r|..] == l[|r|..];
    r
  }

  /** Stripping twice is stripping once. */
  lemma StripIdempotent(s: string)
    ensures Strip(Strip(s)) == Strip(s)
  {
    var t := Strip(s);
    if t != [] {
      assert LStrip(t) == t;
      assert RStrip(t) == t;
    }
  }

  /** A text that neither starts nor ends with whitespace is its own `strip()`. */
  lemma StripUnpadded(s: string)
    requires s == [] || (!IsSpace(s[0]) && !IsSpace(s[|s| - 1]))
    ensures Strip(s) == s
  {
    if s != [] {
      assert LStrip(s) == s;
      assert RStrip(s) == s;
    }
  }

  /** Leading whitespace does not change what `lstrip()` leaves. */
  lemma {:induction false} LStripSpacePrefix(pre: string, w: string)
    requires AllSpace(pre)
    ensures LStrip(pre + w) == LStrip(w)
  {
    if pre != [] {
      assert (pre + w)[0] == pre[0] && IsSpace(pre[0]);
      assert (pre + w)[1..] == pre[1..] + w;
      assert AllSpace(pre[1..]) by {
        forall i | 0 <= i < |pre[1..]| ensures IsSpace(pre[1..][i]) {
          assert pre[1..][i] == pre[i + 1];
        }
      }
      LStripSpacePrefix(pre[1..], w);
      assert LStrip(pre + w) == LStrip(pre[1..] + w);
    } else {
      assert pre + w == w;
    }
  }

  /** Trailing whitespace does not change what `rstrip()` leaves. */
  lemma {:induction false} RStripSpaceSuffix(w: string, post: string)
    requires AllSpace(post)
    ensures RStrip(w + post) == RStrip(w)
  {
    if post != [] {
      assert (w + post)[|w + post| - 1] == post[|post| - 1] && IsSpace(post[|post| - 1]);
      assert (w + post)[..|w + post| - 1] == w + post[..|post| - 1];
      assert AllSpace(post[..|post| - 1]);
      RStripSpaceSuffix(w, post[..|post| - 1]);
      assert RStrip(w + post) == RStrip(w + post[..|post| - 1]);
    } else {
      assert w + post == w;
    }
  }

  /**
   * `(pre + s + post).strip() == s` when `pre` and `post` are whitespace and
   * `s` neither starts nor ends with whitespace.
   */
  lemma StripPadded(pre: string, s: string, post: string)
    requires AllSpace(pre) && AllSpace(post)
    requires s == [] || (!IsSpace(s[0]) && !IsSpace(s[|s| - 1]))
    ensures Strip(pre + s + post) == s
  {
    assert pre + s + post == pre + (s + post);
    LStripSpacePrefix(pre, s + post);
    if s == [] {
      assert s + post == post + [];
      LStripSpacePrefix(post, []);
    } else {
      assert LStrip(s + post) == s + post;
      RStripSpaceSuffix(s, post);
      assert RStrip(s) == s;
    }
  }

  /** `r` is the slice `s[i..i + |r|]`. */
  predicate SliceAt(s: string, i: int, r: string) {
    0 <= i <= |s| - |r| && r == s[i..i + |r|]
  }

  /** `r` is a contiguous slice of `s` (Python's `r in s`). */
  ghost predicate IsSlice(r: string, s: string) {
    exists i :: SliceAt(s, i, r)
  }

  /** `s.startswith(p)` */
  predicate StartsWith(s: string, p: string) {
    |p| <= |s| && s[..|p|] == p
  }

  /** `s.endswith(p)` */
  predicate EndsWith(s: string, p: string) {
    |p| <= |s| && s[|s| - |p|..] == p
  }

  /** The Python `str` literal `"\n"`. */
  const Newline: string := "\n"

  /**
   * `s.find("\n")`, as an index or `-1`: the position of the first newline
   * of `s`, or -1 when `s` has none.
   */
  function FindNewline(s: string): (r: int)
    ensures -1 <= r < |s|
    ensures r >= 0 ==> s[r] == '\n'
    ensures forall i :: 0 <= i < |s| && (r < 0 || i < r) ==> s[i] != '\n'
  {
    if s == [] then -1
    else if s[0] == '\n' then 0
    else
      var k := FindNewline(s[1..]);
      if k < 0 then -1 else k + 1
  }

  /** `sep.join(parts)` for a list of `str`. */
  function Join(sep: string, parts: seq<string>): (r: string)
    ensures parts == [] ==> r == []
    ensures |parts| == 1 ==> r == parts[0]
  {
    if parts == [] then []
    else if |parts| == 1 then parts[0]
    else parts[0] + sep + Join(sep, parts[1..])
  }

  /** The first newline of a text with a single-line head comes right after it. */
  lemma FindNewlineAfter(head: string, tail: string)
    requires '\n' !in head
    ensures FindNewline(head + Newline + tail) == |head|
  {
    var s := head + Newline + tail;
    assert s[|head|] == '\n';
    assert forall i :: 0 <= i < |head| ==> s[i] == head[i];
  }
}
