# linewrap in Dafny

A model of the core of `linewrap`, a Go package that wraps Unicode text into
lines of at most a configured number of columns. Lines may be broken only
after whitespace and after dashes. The wrapped text may be indented, or
turned into C++ (`// `), shell (`# `) or C block (`/* */`) comments.

The package has two parts, and the model has one module for each of their
pieces:

- **The tokenizer** (`lex.go`) is a state machine over the UTF-8 input. It
  splits the input into tokens: text, a run of spaces, a run of hyphens, a
  tab, or a newline. Carriage returns are dropped. The stream always ends
  with an EOF token. A code point's break class comes from a fixed table of
  39 code points plus two range checks on token types.
  - `Utf8` models the UTF-8 encoding.
  - `Classify` models the table, the range checks and the break classes.
  - `Lexer` models the state machine as a function from the whole input to
    the whole token sequence.
- **The wrapper** (`linewrap.go`) is a left fold over that token stream that
  writes output bytes.
  - A token that would reach the line length breaks the line first.
  - A break takes back a trailing run of spaces and cleans a blank comment
    line ("// " becomes "//").
  - After every newline the wrapper writes the comment prefix or the indent.
  - `Wrap` holds the configuration (line length, tab size, indent text,
    indent width, comment style), the fold, and `Bytes`/`String`.
  - `WrapProps` states what the fold does to the output.
  - `LineWidth` measures the output's last line in columns and relates it
    to the fold's column counter.

The code has two defects, described under "## Findings". In each case the
model follows the evident intent:

- When a line is broken, the source takes back the prior space run even if
  that run was never written.
- Setting the tab size adds the new indent width to the old one instead of
  replacing it.

`AsWritten` models the code exactly as written: the take-back, the reads
that can panic, and the tab-size setter. It proves where this agrees with
the model. `Findings` proves, for concrete inputs, what both versions give.

Both bytes and text are modelled:

- Input is a `string`, that is, a sequence of Unicode scalar values. This is
  well-formed UTF-8.
- Output is bytes (`seq<Byte>`), because the source takes back trailing
  spaces by byte count.
- Token positions are byte offsets, computed with the model's own UTF-8
  encoder.
- Token lengths count code points, as the source's `runeCnt` does.

The source's own tests (`linewrap_test.go`, `lex_test.go`) target an older
API. For example, `lex_test.go:23-47` expects one token type per whitespace
or dash code point, while the code emits `tokenSpace` and `tokenHyphen` for
whole runs. The model follows the code.

## Model

| member | source | states |
|---|---|---|
| Utf8.EncodeChar | lex.go:262-272 | A code point below 0x80 takes one byte, equal to the code point. Below 0x800 it takes two bytes, below 0x10000 three, and otherwise four. The lead byte lies in 0xC2-0xDF, 0xE0-0xEF or 0xF0-0xF4 by width. Every further byte is a continuation byte in 0x80-0xBF. |
| Utf8.DecodeEncodeChar | lex.go:262-272 | Decoding the encoding of a code point gives the code point back. The lead byte alone gives the width by which `next` advances. |
| Utf8.DecodeEncode | lex.go:262-272 | Decoding the encoding of a string one width at a time gives back its code points, one per character. |
| Classify.LookupTypes | lex.go:137-177 | The table yields only `None`, the no-break space type, CR, NL, or a space or dash type. It never yields Error, EOF or Text. It yields the no-break space type exactly for U+FEFF. It lists exactly tab, newline, carriage return, U+FEFF and the documented spaces and dashes. |
| Classify.InSpaceRun | lex.go:443-462 | A code point continues a space run iff it is tab or one of the documented whitespace code points. The range check `tokenTab..tokenIdeographicSpace` includes tab. |
| Classify.InHyphenRun | lex.go:467-485 | A code point continues a hyphen run iff it is one of the documented dash code points. |
| Classify.ControlClasses | lex.go:380-393 | Carriage return, newline and tab each form a break class of their own, in both directions. |
| Classify.SpaceClassIsDocumented | lex.go:380-402 | The key table and `isSpace` together make a code point a space break point iff it is in the package's documented whitespace list. |
| Classify.HyphenClassIsDocumented | lex.go:380-402 | The key table and `isHyphen` make a code point a hyphen break point iff it is in the documented dash list. |
| Classify.TextClassIsTheRest | lex.go:380-385 | A code point is not a break point iff it is none of CR, NL, tab, a documented space or a documented dash. Code points missing from the table are therefore text, as is U+FEFF. |
| Classify.NonBreakingLookAlikes | linewrap.go:56-91 | The documented exceptions never allow a break: no-break spaces U+00A0, U+202F and U+FEFF, tilde, minus sign, the wavy dashes and the Mongolian todo hyphen. |
| Classify.BreakingExceptions | lex.go:137-177 | Zero width space is a space break point. Soft hyphen and the superscript and subscript minus are hyphen break points. |
| Lexer.EmitLocated | lex.go:288-292 | An emitted token's text occurs in the encoded input exactly at the token's byte position. |
| Lexer.RunEnd | lex.go:443-485 | A space or hyphen run extends over every code point of its class and stops at the first one not of its class, or at the end. The run is maximal. |
| Lexer.BreakState | lex.go:407-485 | Every state entered at a break point consumes at least one code point, so scanning always advances. |
| Lexer.LexText | lex.go:345-376 | From any scanning state, the tokens end with an EOF token that is empty and placed at the byte length of the input. |
| Lexer.TextRun | lex.go:346-369 | Scanning over code points that are not break points emits nothing and only extends the pending text. |
| Lexer.LexShape | lex.go:345-376 | The stream ends with exactly one EOF token. Every token before it is a non-empty Text, Space, Hyphen, Tab or NL token, so the tokenizer never produces a CR, Error or second EOF token. |
| Lexer.LexWellFormed | lex.go:443-485 | Every token holds only code points its type allows. Text holds no break point. A Space token holds only space-run code points, tab included. A Hyphen token holds only dashes. Tab and NL tokens hold their one code point. A token's `len` counts its code points. |
| Lexer.LexLocated | lex.go:288-292 | Every token's position is the byte offset at which its text occurs in the input. The first token starts after nothing but carriage returns. Each later token starts at or after the end of the one before it, and only carriage returns lie between them, since `lexCR` ignores them. |
| Lexer.LexCoalesces | lex.go:345-485 | A run of text, of spaces or of dashes becomes one token. When the next token starts exactly where a Text token ends, it is not Text and its first code point is a break point, so a word is never split. When it starts where a Space token ends, it is neither Space nor Tab and does not start with a space-run code point. The same holds after a Hyphen token, for dashes. The clause is about adjacent tokens only: a carriage return in the middle of a run ends it and is dropped, so two Space tokens may have returns between them (`LexerExample.ReturnSplitsRun`). |
| Lexer.LexNoError | lex.go:345-376 | No token of the stream is an error token. |
| Lexer.LexReconstructs | lex.go:407-414 | Concatenating the tokens' texts gives back the input with exactly its carriage returns removed. Nothing else is lost or reordered. |
| LexerExample.HelloWorld | lex_test.go:14 | "hello world" becomes Text "hello" at 0, Space at 5, Text "world" at 6, and EOF at 11. |
| LexerExample.BlankTab | lex.go:443-462 | " \t" becomes one Space token of length 2 at byte 0, then EOF at byte 2: the tab joins the space run. |
| LexerExample.ReturnSplitsRun | lex.go:407-462 | " \r " becomes Space " " at 0, Space " " at 2 and EOF at 3: the carriage return ends the first run and is dropped. |
| Wrap.IndentWidth | linewrap.go:265-274 | The column width of an indent text is its byte count plus `tabSize - 1` for every tab byte. |
| Wrap.SetIndentText | linewrap.go:253-262 | The empty text turns indenting off with width 0. Any other text is stored UTF-8 encoded, with its width computed from scratch under the current tab size. Nothing else changes. |
| Wrap.SetTabSize | linewrap.go:247-250 | Corrected. Sets the tab size and recomputes the indent width from scratch for the stored text. |
| Wrap.TabSizeIndentCommute | linewrap.go:247-262 | With the corrected setter, setting the tab size and setting the indent text commute. |
| Wrap.Begin | linewrap.go:290-326 | The output is as long as the style's opening (3 bytes for "// " and for "/*" with its newline, 2 for "# ", none without comments) and starts with "//", "#" or "/*". Under a line comment, or none, the column is the width of what was written. Under a block comment, the opening ends with a newline and the column is 0. The starting state satisfies the fold's invariant. |
| Wrap.Clean | linewrap.go:357-380 | Under line comments, the output changes iff it ends with a bare prefix ("// " or "# "). It then loses exactly the trailing blank, and the result never ends with a bare prefix. |
| Wrap.Trim | linewrap.go:332-334 | Breaking a line takes back the prior token exactly when it is a space run that was written. The bytes removed are exactly that run's encoding, so the result is a prefix of the output and keeps the style's opening. |
| Wrap.Kept | linewrap.go:329-338 | The line as kept at a break is a prefix of the output. It is shorter by at most the taken-back run plus one blank, keeps the style's opening, and never ends with a bare comment prefix. |
| Wrap.Nl | linewrap.go:329-352 | After a break the column is the width of what starts a line: 3 for "// ", 2 for "# ", otherwise the indent width when positive and 0 if not. The output keeps the style's opening. |
| Wrap.Step | linewrap.go:212-237 | Each token step preserves the fold's invariant: the opening is kept, and a written space run is the tail of the output. The step records the token as the prior token. Its effect on the output is stated by `WrapProps.StepEffect`. |
| Wrap.Run | linewrap.go:212-242 | A finished output starts with the style's opening and ends with its closing. An error is reported with an error token of the stream, and the partial output keeps the opening. A stream without error tokens always finishes. |
| Wrap.Bytes | linewrap.go:192-243 | Wrapping never fails, because the tokenizer emits no error token. The empty input gives empty output. Any other input's output is framed by the style's opening and closing. |
| Wrap.String | linewrap.go:180-189 | The string form always gives the result of `Bytes`: its error branch is never taken. |
| Wrap.ParseCommentStyle | linewrap.go:135-147 | Once lower-cased, "c" gives the C style, "cpp" or "c++" the C++ style, "shell" or "perl" the shell style, and every other name gives no comment, in both directions. |
| WrapProps.StepWritesToken | linewrap.go:218-237 | A step writes the token's text iff it is neither a space right after a newline token, nor a newline, nor a space or tab that itself forces a break. The written text is then the tail of the output. |
| WrapProps.StepEffect | linewrap.go:212-237 | A space right after a newline token changes neither output nor column. A token that fits is appended, and the column grows by its cost. Otherwise the output becomes the kept line, a newline and the line start. The token's text follows unless it is a newline, space or tab, and the column is the line start's width plus the cost of what was written. |
| WrapProps.NlEnds | linewrap.go:340-351 | A break ends the output with a newline followed by the comment prefix, the indent, or nothing. |
| WrapProps.NlKeeps | linewrap.go:329-338 | A break keeps all output except at most the taken-back space run and one blank. |
| WrapProps.StepKeepsOutput | linewrap.go:212-237 | No step removes more than the written trailing space run and one blank. Text once written stays written. |
| WrapProps.NewlineBreaks | linewrap.go:223-225 | A newline token always breaks the line, whatever the column. |
| WrapProps.LongTokenStandsAlone | linewrap.go:277-289 | A written token that reaches the line length starts on a fresh line right after the newline and line start, and the column is the line start plus the token's cost. |
| WrapProps.CommentFraming | linewrap.go:291-306 | The empty input gives empty output with no comment markers. A block comment opens with "/*" and a newline and closes with "*/" and a newline. Line comments start with "//" or "#". |
| WrapProps.RunFits | linewrap.go:277-283 | A stream of text, space and hyphen tokens whose texts fit on the current line is written unchanged, followed by the closing. |
| WrapProps.PlainTokens | lex.go:380-402 | Without newlines, carriage returns or tabs, the tokenizer emits only text, space and hyphen tokens, with code-point lengths. |
| WrapProps.ShortTextUnchanged | linewrap.go:192-243 | A non-empty text without newlines, carriage returns or tabs that fits on the first line comes out as the opening, the text's bytes, then the closing. |
| WrapProps.ParseStyleName | linewrap.go:135-147 | Parsing each style's name gives the style back. |
| WrapProps.ParseIgnoresCase | linewrap.go:135-136 | Two names that agree once lower-cased parse to the same style. |
| WrapProps.ParseExamples | linewrap.go:135-147 | "C", "C++", "Perl" and "SHELL" are recognised regardless of case. "bash" and "" mean no comment. |
| LineWidth.EncodeColumns | linewrap.go:151-157 | A text's UTF-8 bytes take one column per code point plus `tabSize - 1` per tab, the measure in which the source counts the line length, the tab size and the indent width. |
| LineWidth.TokenMeasured | linewrap.go:277-280 | What the fold adds to the column for a token is the width of the text it writes, and that text holds no newline: a Text or Hyphen token is charged its code points, a lone tab `tabSize`. A space run is covered only when it holds no tab. |
| LineWidth.SpaceRunTab | linewrap.go:277-280 | A tab inside a space run is charged one column: under tab size 8 the run " \t" is charged 2 columns but takes 9. |
| LineWidth.LineStartMeasured | linewrap.go:340-350 | What starts a line, "// ", "# " or an ASCII indent without newlines, takes exactly the columns the column counter is set to, and holds no newline. |
| LineWidth.BeginTracks | linewrap.go:290-326 | Before the first token, the column is the width of the output's last line: 3 after "// ", 2 after "# ", 0 after "/*" and its newline or with no comment. |
| LineWidth.StepTracks | linewrap.go:212-237 | Every step keeps the column `l` equal to the width of the bytes after the output's last newline: after appending a token, after skipping a space and after a break. |
| LineWidth.WrittenLineFits | linewrap.go:277-289 | After a token is written, the line it is on is narrower than the line length, unless that line is only the line start followed by the token. |
| LineWidth.RunIsFold | linewrap.go:212-242 | A stream without error tokens is written as the states of the loop up to EOF, followed by the closing. |
| LineWidth.FoldTracks | linewrap.go:212-237 | The column stays the width of the last line over any number of steps. |
| LineWidth.BytesTracks | linewrap.go:192-243 | Wrapping a text whose space runs hold no tab, with an ASCII indent without newlines, gives the loop's final output and the closing. The loop's final column is the width of the last line it wrote. |
| AsWritten.TrimAsWritten | linewrap.go:332-334 | As written, the take-back panics iff the prior token is a space run longer than the output. Otherwise it leaves a prefix of the output. |
| AsWritten.CleanAsWritten | linewrap.go:366-380 | As written, the blank-comment-line check panics iff a byte it reads lies before the start of the output. |
| AsWritten.CleanAgrees | linewrap.go:357-380 | Where the bytes it reads exist, the as-written check equals `Clean`. |
| AsWritten.NlAsWritten | linewrap.go:329-352 | As written, a break panics iff the take-back or the blank-comment-line check panics. Otherwise it keeps a prefix of the output, adds a newline and the line start, and sets the column to the line start's. |
| AsWritten.StepAsWritten | linewrap.go:212-237 | As written, a step records the token as the prior one. It panics iff it breaks the line and the break panics. |
| AsWritten.RunAsWritten | linewrap.go:212-242 | As written, a finished output ends with the style's closing, and an error is reported only with an error token of the stream. |
| AsWritten.BytesAsWritten | linewrap.go:192-243 | As written, the empty input gives empty output, and no error is ever reported. A finished output of any other input ends with the closing. |
| AsWritten.NlAgrees | linewrap.go:329-352 | The as-written break equals the model's break unless the prior space run was skipped or dropped. |
| AsWritten.StepAgrees | linewrap.go:212-237 | The as-written step equals the model's step from every state whose prior space run was written. |
| AsWritten.RunAgrees | linewrap.go:212-243 | On every token stream without space tokens, the as-written fold and the model write the same bytes. |
| AsWritten.SetTabSizeAsWritten | linewrap.go:247-274 | As written, setting the tab size adds the text's width under the new tab size to the old indent width. |
| AsWritten.SetTabSizeAgrees | linewrap.go:247-274 | After an indent text is set, the as-written and corrected tab-size setters agree iff the indent width is 0. |
| Findings.BlankLineLex | lex.go:345-376 | "a\n \nb" becomes Text, NL, Space, NL, Text, EOF. |
| Findings.BlankLineLost | linewrap.go:329-334 | As written, "a\n \nb" loses the blank line and the newline before it, giving "a\nb". The model gives "a\n\nb". |
| Findings.SpacesLinePanics | linewrap.go:332-334 | As written, "\n  \n" slices the output below its start and panics. The model writes two newlines. |
| Findings.LongWordLosesText | linewrap.go:277-289 | As written, with 5 columns, "abcd  efghij" loses its "d", giving "abc\nefghij". The model keeps all text: "abcd\n\nefghij". |
| Findings.TabSizeAccumulates | linewrap.go:247-274 | As written, indent "\t" under tab size 8 and then tab size 4 gives indent width 12. The corrected setter gives 4. |

## Left out

- The goroutine and channel that deliver tokens, `nextToken`, `drain` and `run`. The model computes the whole token sequence at once. Because the fold consumes tokens in order, this yields the same sequence.
- `accept`, `acceptRun` and `peek`: the tokenizer's states never call them.
- `errorf`: nothing calls it, so no error token is ever produced (`Lexer.LexNoError`, `Wrap.Bytes`). The fold still models the error path of `Bytes` and `String`.
- `vals`, `token.String`, `token.Error` and `CommentStyle.String`: these only format values for display. `token.String` returns the token's value for every token the fold appends.
- Malformed UTF-8: the input is a sequence of Unicode scalar values. `utf8.DecodeRune`'s replacement of invalid bytes by U+FFFD is not modelled.
- State that lasts across calls: `Reset`, reuse of the output buffer `b`, and the column `l`, which `Bytes` does not reset. Each call of `Wrap.Bytes` starts from a fresh state.
- The re-checks in `lexCR`, `lexNL` and `lexTab`, and the `i == 0` branches of `lexSpace` and `lexHyphen`. These states are entered only after `atBreakPoint` reported their class, so the checks always succeed.
- The final `return false, classText` of `atBreakPoint`: every type in the table is either at most `tokenZeroWidthNoBreakSpace`, CR, NL, tab, a space type or a dash type.
- The documentation lists a wavy dash at U+3939, evidently meaning U+3030. U+202F is labelled "zero width no-break space" but is the narrow no-break space. `Classify.NonBreakingLookAlikes` states U+3030 and U+202F.
- `strings.ToLower` is modelled as ASCII lower-casing in `Wrap.ParseCommentStyle`. Only U+0130 and U+212A lower-case to ASCII letters ('i' and 'k'), and no style name contains either, so the parsed style is the same.
- AsWritten.RunAgrees: stated only for streams without space tokens. With space tokens, the as-written fold can differ from the model, as `Findings` shows.
- WrapProps.ShortTextUnchanged: excludes tabs, because a tab's width is the tab size rather than one column.
- WrapProps.RunFits: excludes tab and newline tokens, for the same reason and because a newline always breaks.
- Lexer.BreakState: its own contract states only that scanning advances. The tokens it emits are described by `Lexer.LexWellFormed`, `Lexer.LexLocated` and `Lexer.LexReconstructs`.
- LineWidth.StepTracks: holds only for tokens charged by their width. The tokenizer takes a tab into a space run (lex.go:443-462), and `wrap` charges `tabSize` only for a lone tab token (linewrap.go:278-280). A space run holding a tab is charged one column per code point, so the column falls behind the line's width (`LineWidth.SpaceRunTab`). The model follows the code's charge.
- LineWidth.BytesTracks: requires that no space run of the input holds a tab, and an ASCII indent text without newlines, for the reason above. `setIndentLen` counts an indent's bytes, so a multi-byte indent code point is charged a column per byte, and a newline in the indent starts a line the column does not restart for.
- LineWidth.FoldTracks: under the same conditions as `LineWidth.BytesTracks`.
- LineWidth.WrittenLineFits: bounds the line as each token is written, under the same conditions. It does not state a bound for every line of the finished output at once.
- Display width: a code point counts as one column, as the source's `runeCnt` does. Wide and zero-width characters are not treated specially.

## Findings

| source | as written | input that shows it | evidently intended | confidence | as-written member | corrected member |
|---|---|---|---|---|---|---|
| linewrap.go:332-334 | A break takes back `len(priorToken.value)` bytes whenever the prior token is a space run, including a run that was skipped because it followed a newline token. | `New()` wrapping "a\n \nb" gives "a\nb": the newline before the blank line is removed. | Take back only a space run that was written; "a\n\nb". | not executed | Findings.BlankLineLost | Wrap.Trim |
| linewrap.go:332-334 | The same take-back slices `w.b` below its start when the skipped run is longer than the output. | `New()` wrapping "\n  \n" panics with a slice bounds error. | Take back nothing; "\n\n". | not executed | Findings.SpacesLinePanics | Wrap.Trim |
| linewrap.go:284-286 | A space run that forces a break is dropped, but it stays the prior token, so the next break takes back its bytes from text already written. | Line length 5 wrapping "abcd  efghij" gives "abc\nefghij": the "d" is lost. | Keep all text; "abcd\n\nefghij". | not executed | Findings.LongWordLosesText | WrapProps.StepKeepsOutput |
| linewrap.go:247-274 | `TabSize` calls `setIndentLen`, which adds to `indentLen` without resetting it. | `IndentText("\t")` under tab size 8, then `TabSize(4)`, gives indent width 12. | Recompute the width; 4. | not executed | AsWritten.SetTabSizeAsWritten | Wrap.SetTabSize |

In the third row, the corrected output has an empty line between "abcd" and
"efghij". That line does not come from the correction. It comes from a rule
the correction leaves unchanged (linewrap.go:281-284): a token that does not
fit breaks the line even at column 0, as it does for an overlong word at the
start of the input.
