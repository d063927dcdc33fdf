# ATS-Evaluator response normaliser, modelled in Dafny

ATS-Evaluator is a Streamlit form. It sends a résumé and a job description to two hosted language models and shows what each model says about how well they match. The models are asked for a JSON object with the keys "Description Match", "Missing Keywords" and "Suggestions for improvement". Nothing guarantees they return one. The only logic of `app.py` that is neither user-interface wiring nor a call into a client library is how it tolerates malformed answers:

- `clean_json_response` (app.py:49-53) strips the answer. It then removes a leading markdown fence line with `re.sub(r"^```.*?\n", "", _)` and a trailing fence with `re.sub(r"\n```$", "", _)`.
- `parse_json_safe` (app.py:55-64) decodes the cleaned text with `json.loads`. On `json.JSONDecodeError` it falls back to `ast.literal_eval` on the same cleaned text. If the fallback raises anything, it returns `None`.
- The "Missing Keywords" cell (app.py:149-164, repeated verbatim for the second model at app.py:174-189) reads the field. If the field is a string, it decodes it again with `ast.literal_eval`, falling back to a one-element list. It then renders a bullet list, `_None_` for an empty list, or `_Invalid format_` for anything else.

The model has five modules:

- `PyValues` (py_values.dfy) holds the Python values the decoders return, the exceptions in play, `Outcome` (a value or a raised exception) and dict subscripting.
- `PyStr` (py_str.dfy) holds the string operations: `str.strip()` with Python's own whitespace table, `startswith`, `endswith`, finding the first newline and `str.join`.
- `Fences` (fences.dfy) holds `clean_json_response`. Each regular expression appears twice: once as a predicate saying where Python's `re` finds a match, and once as the substitution, proved against that predicate. The predicates capture that `^` anchors only at index 0, that `.` excludes newlines, and that Python's `$` also matches before a final newline.
- `SafeParse` (safe_parse.dfy) holds `parse_json_safe`.
- `MissingKeywords` (keywords.dfy) holds the keyword cell. It also has an independent line-by-line reading of the rendered bullet list and a parser that reads the list back.

`json.loads` and `ast.literal_eval` are library code. They are parameters of type `Decoder = string -> Outcome<Value>`, so every fact holds for whatever grammar they implement.

Four behaviours of the code are easy to miss:

- Failure is not an explicit value carrying the raw text. `parse_json_safe` returns Python `None`, the same value a strict decode of `null` gives (`SafeParse.NullLooksLikeFailure`).
- The opening pattern removes everything on the first line after the three backticks, not only a language tag.
- The second decode of "Missing Keywords" happens in the display code, once per column, rather than inside the normaliser.
- Only `json.JSONDecodeError` triggers the fallback. Any other exception of `json.loads` (a `RecursionError` on deeply nested text) leaves `parse_json_safe`.

## Model

| member | source | states |
|---|---|---|
| `PyStr.Strip` | app.py:51 | `raw.strip()` is a contiguous slice of the input. Only whitespace lies outside it, and the slice neither starts nor ends with whitespace (so it never ends in a newline). |
| `PyStr.StripIdempotent` | app.py:51 | Stripping an already stripped text changes nothing. |
| `PyStr.StripPadded` | app.py:51 | Surrounding a text that neither starts nor ends with whitespace by whitespace, then stripping, gives the text back. |
| `Fences.SubOpeningFence` | app.py:51 | The first substitution removes exactly the prefix that `^```.*?\n` matches, and returns its input unchanged when the pattern does not match. |
| `Fences.OpeningFenceMatchIff` | app.py:51 | The opening pattern matches if and only if the text starts with three backticks and holds a newline, and it matches at one place only. |
| `Fences.SubClosingFence` | app.py:52 | `\n```$` matches at most once. The substitution removes that match, including when Python's `$` matches before a final newline, and otherwise changes nothing. |
| `Fences.ClosingAfterStrip` | app.py:51-52 | On a suffix of a stripped text, the closing substitution removes the last four characters exactly when they are a newline and three backticks. The result is still a slice of the stripped text. |
| `Fences.CleanJsonResponse` | app.py:49-53 | The cleaned text is a contiguous slice of `raw.strip()`, so it is never longer. |
| `Fences.CleanUnfenced` | app.py:51-52 | A stripped answer that neither starts with three backticks nor ends with a newline and three backticks is returned unchanged. |
| `Fences.CleanOpened` | app.py:51-52 | When the opening pattern matches, exactly the prefix through the first newline is removed. The last four characters are then removed if and only if they close a fence. |
| `Fences.CleanNotOpened` | app.py:51-52 | Without a leading fence or without a newline, nothing is removed at the front. The last four characters are removed if and only if they close a fence. |
| `Fences.FenceWrapRoundTrip` | app.py:49-53 | Any text wrapped in a fenced block (any tag, any surrounding whitespace) cleans back to itself. Only one fence is removed at each end. |
| `Fences.CleanJsonFencedExample` | app.py:49-53 | "```json\n{...}\n```" cleans to "{...}". |
| `Fences.EmptyFencedBlockKeepsClosingFence` | app.py:51-52 | "```json\n```" cleans to "```": once the opening line is gone, the closing pattern has no newline to match. |
| `Fences.FenceWithoutNewlineKept` | app.py:51-52 | Three backticks with no newline after them are left in place. |
| `SafeParse.ParseJsonSafe` | app.py:55-64 | A successful strict decode is returned. A `JSONDecodeError` hands the cleaned text to the fallback, whose value is returned or whose exception becomes `None`. Exactly the non-`JSONDecodeError` exceptions of `json.loads` escape. |
| `SafeParse.ParseSeesOnlyCleanedText` | app.py:57-62 | Both decoders see only the cleaned text: answers that clean alike parse alike. |
| `SafeParse.StrictDecodeIgnoresFallback` | app.py:56-58 | When strict decoding succeeds, the fallback decoder does not affect the result. |
| `SafeParse.ParseIgnoresFences` | app.py:55-64 | A clean text parses to the same result with or without a fenced-block wrapper and surrounding whitespace. |
| `SafeParse.NullLooksLikeFailure` | app.py:58-64 | A strict decode to `null` gives the same result as an answer both decoders reject. |
| `SafeParse.RefusalParsesToNone` | app.py:59-64 | "Sorry, I cannot comply." gives `None` when both decoders reject it, and no exception escapes. |
| `PyValues.Subscript` | app.py:149 | `record["Missing Keywords"]` yields the entry of a dict that has the key. A dict without the key raises `KeyError`; any other value raises `TypeError`. |
| `MissingKeywords.CoerceKeywords` | app.py:152-156 | A string becomes its literal-decoded value. A string whose decode raises anything becomes the one-element list holding it. Other values pass through unchanged. |
| `MissingKeywords.RenderKeywords` | app.py:158-164 | A non-empty list of strings renders as its bullets. The empty list, and only it, renders as `_None_`. Exactly the non-lists render as `_Invalid format_`. Exactly the lists with a non-`str` item raise `TypeError`. |
| `MissingKeywords.KeywordsCell` | app.py:149-164 | The cell raises `KeyError` exactly when the dict lacks the key. It raises `TypeError` exactly when the record is not a dict or coercion yields a list with a non-`str` item. No other exception is possible. |
| `MissingKeywords.BulletsAreLines` | app.py:160 | `"- " + "\n- ".join(ks)`, followed by a newline, is one line per keyword, each "- ", the keyword and a newline, in order. |
| `MissingKeywords.BulletLinesRoundTrip` | app.py:160 | Reading the bullet lines back gives the keywords when none holds a newline. |
| `MissingKeywords.RenderedKeywordsReadBack` | app.py:158-160 | The rendered markdown of a non-empty single-line keyword list reads back as exactly that list. |
| `MissingKeywords.UndecodableStringIsOneBullet` | app.py:152-160 | A keyword string the literal decoder rejects renders as one bullet holding it verbatim. |
| `MissingKeywords.StringifiedListRendersItems` | app.py:152-162 | A keyword string that decodes to a list of strings renders as that list's bullets, or `_None_` when the list is empty. |
| `MissingKeywords.NonListLiteralIsInvalid` | app.py:152-164 | A keyword string that decodes to a non-list renders as `_Invalid format_`. Non-lists include a number, a dict, a tuple, or a string such as "'Python'". |
| `MissingKeywords.StringifiedListExample` | app.py:149-160 | A record whose keywords are "['Python', 'SQL']" renders "- Python\n- SQL". |

## Left out

- Streamlit page layout, buttons and `st.session_state` (app.py:95-230): presentation and session state. This covers the choice of which record goes into which column (app.py:137-145, 169-170). The second column's keyword block (app.py:174-189) is the same code as the first, so `MissingKeywords.KeywordsCell` models both.
- The reads of "Description Match" and "Suggestions for improvement" (app.py:146, 167, 171, 192): they are display lookups with no processing.
- The outer `try` around the two parses (app.py:126-135): it only displays an error.
- Language-model clients, model selection and `get_custom_response` (app.py:12-19, 29-46): network I/O through foreign SDKs.
- PDF text extraction (app.py:21-26): a wrapper over PyPDF2.
- Prompt templates and `str.format` substitution (app.py:42, 67-93, 118): formatting of constant text.
- The grammars of `json.loads` and `ast.literal_eval`: library code, taken as arbitrary decoders.
- Python values the model does not represent: sets, bytes, complex numbers and `Ellipsis` (from `ast.literal_eval`), and the float values NaN and ±infinity (`json.loads` accepts `NaN`, `Infinity` and `-Infinity`; `ast.literal_eval("1e999")` gives inf). Floats are kept as mathematical reals without rounding. Each of these is neither a dict, a list nor a `str`, so it reads, coerces and renders like `VInt` (a `TypeError` on subscripting, `_Invalid format_` as a keyword value). Python's equal-hash dict keys (`1`, `True`, `1.0`) are not merged.
- A model answer that is not a `str`: the answer is typed `string`. `message.content` (app.py:39) can be `None`, and then `.strip()` (app.py:51) raises `AttributeError`, which is not a `JSONDecodeError` and so escapes `parse_json_safe`.
- `BaseException` subclasses that even a bare `except:` would catch (`KeyboardInterrupt`, `SystemExit`): these are process signals, not decode failures.
