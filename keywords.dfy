/**
 * The "Missing Keywords" cell of each result column (app.py, lines 149-164;
 * the second column, lines 174-189, is the same code on the other model's
 * record): look the field up, decode it once more with `ast.literal_eval`
 * when it is a string, and render it as a markdown bullet list or a
 * placeholder.
 */
module MissingKeywords {
  import opened PyValues
  import opened PyStr

  /** The record key the cell reads. */
  const KeywordsKey: string := "Missing Keywords"

  /** Shown for an empty keyword list. */
  const NonePlaceholder: string := "_None_"

  /** Shown when the field is not a list after coercion. */
  const InvalidPlaceholder: string := "_Invalid format_"

  /** The separator of `"\n- ".join(mk)`. */
  const BulletSeparator: string := "\n- "

  /** `"- " + "\n- ".join(keywords)`: the markdown of a non-empty keyword list. */
  function Bullets(keywords: seq<string>): string {
    "- " + Join(BulletSeparator, keywords)
  }

  /**
   * The independent reading of a bullet list: one line per keyword, each
   * made of "- ", the keyword and a newline, in order.
   */
  function BulletLines(keywords: seq<string>): (r: string)
    ensures keywords == [] <==> r == []
  {
    if keywords == [] then [] else "- " + keywords[0] + Newline + BulletLines(keywords[1..])
  }

  /**
   * Reads a bullet list back into its keywords: each line must start with
   * "- " and end with a newline; anything else is not a bullet list.
   */
  function ParseBulletLines(text: string): (r: Option<seq<string>>)
    decreases |text|
  {
    if text == [] then Some([])
    else if !StartsWith(text, "- ") then Nothing
    else
      var n := FindNewline(text);
      if n < 0 then Nothing
      else
        assert text[0] == '-' && text[1] == ' ';
        match ParseBulletLines(text[n + 1..])
        case Nothing => Nothing
        case Some(rest) => Some([text[2..n]] + rest)
  }

  /** No keyword holds a newline, so each stays on one bullet line. */
  predicate SingleLine(keywords: seq<string>) {
    forall i :: 0 <= i < |keywords| ==> '\n' !in keywords[i]
  }

  /**
   * The joined markdown, followed by a newline, is exactly one bullet line per
   * keyword.
   */
  lemma {:induction false} BulletsAreLines(keywords: seq<string>)
    requires keywords != []
    ensures Bullets(keywords) + Newline == BulletLines(keywords)
  {
    if |keywords| > 1 {
      var tail := keywords[1..];
      BulletsAreLines(tail);
      calc {
        Bullets(keywords) + Newline;
        "- " + (keywords[0] + BulletSeparator + Join(BulletSeparator, tail)) + Newline;
        { assert BulletSeparator == Newline + "- "; }
        "- " + keywords[0] + Newline + (Bullets(tail) + Newline);
        BulletLines(keywords);
      }
    }
  }

  /** One bullet line is read off the front of a bullet list. */
  lemma ParseOneBulletLine(k: string, rest: string)
    requires '\n' !in k
    ensures var text := "- " + k + Newline + rest;
            ParseBulletLines(text) ==
              match ParseBulletLines(rest)
              case Nothing => Nothing
              case Some(tail) => Some([k] + tail)
  {
    var text := "- " + k + Newline + rest;
    assert text == ("- " + k) + Newline + rest;
    assert '\n' !in "- " + k;
    FindNewlineAfter("- " + k, rest);
    assert text[..2] == "- ";
    assert text[|k| + 3..] == rest;
    assert text[2..|k| + 2] == k;
  }

  /**
   * Reading the bullet lines back gives the keywords: rendering loses
   * nothing when no keyword holds a newline.
   */
  lemma {:induction false} BulletLinesRoundTrip(keywords: seq<string>)
    requires SingleLine(keywords)
    ensures ParseBulletLines(BulletLines(keywords)) == Some(keywords)
  {
    if keywords != [] {
      var tail := keywords[1..];
      assert SingleLine(tail) by {
        forall i | 0 <= i < |tail| ensures '\n' !in tail[i] {
          assert tail[i] == keywords[i + 1];
        }
      }
      BulletLinesRoundTrip(tail);
      ParseOneBulletLine(keywords[0], BulletLines(tail));
      assert [keywords[0]] + tail == keywords;
    }
  }

  /**
   * The rendered markdown of a non-empty keyword list reads back as exactly
   * that list.
   */
  lemma RenderedKeywordsReadBack(keywords: seq<string>)
    requires keywords != [] && SingleLine(keywords)
    ensures ParseBulletLines(Bullets(keywords) + Newline) == Some(keywords)
  {
    BulletsAreLines(keywords);
    BulletLinesRoundTrip(keywords);
  }

  /**
   * Lines 152-156: a `str` field is replaced by what `ast.literal_eval`
   * makes of it, or, when that raises anything at all (the bare `except:`),
   * by the one-element list holding the original string; any other value
   * is kept.  No exception leaves the coercion.
   */
  function CoerceKeywords(mk: Value, literalEval: Decoder): (r: Value)
    ensures !mk.VStr? ==> r == mk
    ensures mk.VStr? && literalEval(mk.s).Ok? ==> r == literalEval(mk.s).value
    ensures mk.VStr? && literalEval(mk.s).Raised? ==> r == VList([mk])
  {
    if IsStr(mk) then
      match literalEval(mk.s)
      case Ok(v) => v
      case Raised(_) => VList([mk])
    else mk
  }

  /**
   * Lines 158-164: a non-empty list of `str` renders as its bullets, an
   * empty list as "_None_", anything that is not a list as
   * "_Invalid format_"; a non-empty list holding a non-`str` item makes
   * `str.join` raise `TypeError`.  The three texts never coincide, so the
   * rendering says which case held.
   */
  function RenderKeywords(mk: Value): (r: Outcome<string>)
    ensures r.Raised? <==> mk.VList? && !AllStr(mk.items)
    ensures r.Raised? ==> r.exc == TypeError
    ensures r == Ok(NonePlaceholder) <==> mk == VList([])
    ensures r == Ok(InvalidPlaceholder) <==> !mk.VList?
    ensures mk.VList? && mk.items != [] && AllStr(mk.items) ==> r == Ok(Bullets(Strs(mk.items)))
  {
    match mk
    case VList(items) =>
      if items == [] then Ok(NonePlaceholder)
      else if AllStr(items) then
        assert Bullets(Strs(items))[0] == '-';
        Ok(Bullets(Strs(items)))
      else Raised(TypeError)
    case _ => Ok(InvalidPlaceholder)
  }

  /**
   * Lines 149-164: the whole cell for one model's parsed record.  Reading
   * the key raises `TypeError` when the record is not a dict (a failed parse
   * gives `None`) and `KeyError` when the key is missing; otherwise the value
   * is coerced and rendered.
   */
  function KeywordsCell(record: Value, literalEval: Decoder): (r: Outcome<string>)
    ensures r == Raised(TypeError) <==>
              !record.VDict? ||
              (VStr(KeywordsKey) in record.entries &&
               var mk := CoerceKeywords(record.entries[VStr(KeywordsKey)], literalEval);
               mk.VList? && !AllStr(mk.items))
    ensures r == Raised(KeyError) <==> record.VDict? && VStr(KeywordsKey) !in record.entries
    ensures r.Raised? ==> r.exc == TypeError || r.exc == KeyError
  {
    match Subscript(record, KeywordsKey)
    case Raised(e) => Raised(e)
    case Ok(mk) => RenderKeywords(CoerceKeywords(mk, literalEval))
  }

  /**
   * A keyword string that the literal decoder rejects ("None found",
   * "Python, SQL") becomes a single bullet holding it verbatim.
   */
  lemma UndecodableStringIsOneBullet(s: string, literalEval: Decoder)
    requires literalEval(s).Raised?
    ensures RenderKeywords(CoerceKeywords(VStr(s), literalEval)) == Ok("- " + s)
  {
    assert Strs([VStr(s)]) == [s];
  }

  /**
   * A keyword string that decodes to a list of strings renders as that
   * list's bullets, or "_None_" when it is empty.
   */
  lemma StringifiedListRendersItems(s: string, keywords: seq<string>, literalEval: Decoder)
    requires literalEval(s) == Ok(VList(StrList(keywords)))
    ensures RenderKeywords(CoerceKeywords(VStr(s), literalEval))
         == Ok(if keywords == [] then NonePlaceholder else Bullets(keywords))
  {
    if keywords == [] {
      assert StrList(keywords) == [];
    } else {
      assert StrList(keywords) != [];
    }
  }

  /**
   * A keyword string that decodes to something other than a list (a number,
   * a dict, a tuple, or a string such as "'Python'") renders as
   * "_Invalid format_".
   */
  lemma NonListLiteralIsInvalid(s: string, literalEval: Decoder)
    requires literalEval(s).Ok? && !literalEval(s).value.VList?
    ensures RenderKeywords(CoerceKeywords(VStr(s), literalEval)) == Ok(InvalidPlaceholder)
  {
  }

  /** A record with a stringified list: "['Python', 'SQL']" renders as two bullets. */
  lemma StringifiedListExample(literalEval: Decoder)
    requires literalEval("['Python', 'SQL']") == Ok(VList([VStr("Python"), VStr("SQL")]))
    ensures KeywordsCell(VDict(map[VStr(KeywordsKey) := VStr("['Python', 'SQL']")]), literalEval)
         == Ok("- Python\n- SQL")
  {
    var record := VDict(map[VStr(KeywordsKey) := VStr("['Python', 'SQL']")]);
    assert Subscript(record, KeywordsKey) == Ok(VStr("['Python', 'SQL']"));
    assert StrList(["Python", "SQL"]) == [VStr("Python"), VStr("SQL")];
    StringifiedListRendersItems("['Python', 'SQL']", ["Python", "SQL"], literalEval);
    var keywords := ["Python", "SQL"];
    assert keywords[1..] == ["SQL"];
    assert Join(BulletSeparator, keywords) == "Python" + BulletSeparator + "SQL";
    assert Bullets(keywords) == "- Python\n- SQL";
  }
}
