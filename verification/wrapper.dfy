/** The wrapper: a left fold over the token stream that writes the wrapped
    bytes. Its state is the output so far, the column of the current line and
    the token seen before the current one. A token that would reach the line
    length starts a new line first; tabs count as `tabSize` columns; the
    spaces that end a line are taken back when the line is broken; after every
    newline the indent text or the line-comment prefix is written.

    The wrapper is configured up front and each call starts from a fresh
    state. */
module Wrap {
  import opened Utf8
  import opened Classify
  import opened Lexer

  const LineLength := 80
  const DefaultTabSize := 8

  const Slash: Byte := 0x2F
  const Hash: Byte := 0x23
  const TabByte: Byte := 0x09

  /** "// " */
  const CppPrefix: seq<Byte> := [Slash, Slash, Blank]
  /** "# " */
  const ShellPrefix: seq<Byte> := [Hash, Blank]
  /** Slash, star, newline: the block comment opens on a line of its own. */
  const CBegin: seq<Byte> := [Slash, 0x2A, Newline]
  /** Star, slash, newline: the block comment closes on a line of its own. */
  const CEnd: seq<Byte> := [0x2A, Slash, Newline]

  datatype CommentStyle = NoComment | CPPComment | ShellComment | CComment

  /** The configuration: line length, tab size, the indent written after each
      newline and its width in columns, and the comment style. */
  datatype Wrapper = Wrapper(length: int, tabSize: int, indentText: seq<Byte>, indentLen: int, style: CommentStyle)

  /** A fresh wrapper: 80 columns, tabs of 8, no indent, no comment. */
  function New(): Wrapper
  {
    Wrapper(LineLength, DefaultTabSize, [], 0, NoComment)
  }

  // ---------------------------------------------------------------------
  // Configuration

  /** The number of occurrences of `x` in `b`. */
  function Count(b: seq<Byte>, x: Byte): nat
  {
    if b == [] then 0 else (if b[0] == x then 1 else 0) + Count(b[1..], x)
  }

  /** The width of an indent text: one column per byte, `tabSize` per tab. */
  function IndentWidth(text: seq<Byte>, tabSize: int): (n: int)
    ensures n == |text| + (tabSize - 1) * Count(text, TabByte)
  {
    if text == [] then 0
    else (if text[0] == TabByte then tabSize else 1) + IndentWidth(text[1..], tabSize)
  }

  /** Sets the indent text; the empty text turns indenting off. */
  function SetIndentText(w: Wrapper, s: string): (r: Wrapper)
    ensures r.length == w.length && r.tabSize == w.tabSize && r.style == w.style
    ensures s == [] ==> r.indentText == [] && r.indentLen == 0
    ensures s != [] ==> r.indentText == Encode(s)
    ensures r.indentLen == |r.indentText| + (w.tabSize - 1) * Count(r.indentText, TabByte)
  {
    if s == [] then w.(indentText := [], indentLen := 0)
    else w.(indentText := Encode(s), indentLen := IndentWidth(Encode(s), w.tabSize))
  }

  /** Sets the tab size and recomputes the indent width from scratch. */
  function SetTabSize(w: Wrapper, i: int): (r: Wrapper)
    ensures r.tabSize == i && r.indentText == w.indentText
    ensures r.length == w.length && r.style == w.style
    ensures r.indentLen == |w.indentText| + (i - 1) * Count(w.indentText, TabByte)
  {
    w.(tabSize := i, indentLen := IndentWidth(w.indentText, i))
  }

  /** Setting the tab size and the indent text commute: the indent width does
      not depend on the order the two are configured in. */
  lemma TabSizeIndentCommute(w: Wrapper, i: int, s: string)
    ensures SetIndentText(SetTabSize(w, i), s) == SetTabSize(SetIndentText(w, s), i)
  {
    if s == [] {
      assert IndentWidth([], i) == 0;
    }
  }

  /** ASCII lower-casing of one code point. */
  function LowerChar(c: char): char
  {
    if 'A' <= c <= 'Z' then (c as int + 0x20) as char else c
  }

  function Lower(s: string): (r: string)
    ensures |r| == |s|
    ensures forall k | 0 <= k < |s| :: r[k] == LowerChar(s[k])
  {
    seq(|s|, k requires 0 <= k < |s| => LowerChar(s[k]))
  }

  /** The comment style named by `s`, ignoring case: "c", "cpp" or "c++",
      "shell" or "perl"; anything else means no comment. */
  function ParseCommentStyle(s: string): (r: CommentStyle)
    ensures r == CComment <==> Lower(s) == "c"
    ensures r == CPPComment <==> Lower(s) in {"cpp", "c++"}
    ensures r == ShellComment <==> Lower(s) in {"shell", "perl"}
    ensures r == NoComment <==> Lower(s) !in {"c", "cpp", "c++", "shell", "perl"}
  {
    var l := Lower(s);
    if l == "c" then CComment
    else if l == "cpp" || l == "c++" then CPPComment
    else if l == "shell" || l == "perl" then ShellComment
    else NoComment
  }

  // ---------------------------------------------------------------------
  // The wrapping state

  /** The output so far, the column of the current line, the token before
      the current one and whether that token's text was written. */
  datatype State = State(out: seq<Byte>, col: int, prior: Token, priorWritten: bool)

  /** The zero token the fold starts with. */
  const NoToken := Token(None, 0, 0, [])

  datatype Outcome = Written(out: seq<Byte>) | LexError(partial: seq<Byte>, tok: Token)

  predicate EndsWith(a: seq<Byte>, b: seq<Byte>)
  {
    |a| >= |b| && a[|a| - |b|..] == b
  }

  lemma EndsWithConcat(a: seq<Byte>, b: seq<Byte>)
    ensures EndsWith(a + b, b)
  {
    assert (a + b)[|a + b| - |b|..] == b;
  }

  /** The bytes every output of a style starts with. */
  function Lead(style: CommentStyle): seq<Byte>
  {
    match style
    case NoComment => []
    case CPPComment => [Slash, Slash]
    case ShellComment => [Hash]
    case CComment => CBegin
  }

  /** The least length of the output under a style. */
  function MinLen(style: CommentStyle): nat
  {
    match style
    case NoComment => 0
    case CPPComment => 3
    case ShellComment => 2
    case CComment => 3
  }

  /** Breaking the line takes back the prior token: a space run that was
      written. */
  predicate Truncates(st: State)
  {
    st.prior.typ == Space && st.priorWritten
  }

  /** What holds of every state of the fold: the output keeps its leading
      bytes, and a space run that may be taken back is the output's tail. */
  predicate Inv(w: Wrapper, st: State)
  {
    && |st.out| >= MinLen(w.style)
    && Lead(w.style) <= st.out
    && (Truncates(st) ==>
          && |st.out| >= MinLen(w.style) + |Encode(st.prior.value)|
          && EndsWith(st.out, Encode(st.prior.value)))
  }

  /** The state before the first token: the comment opening, if any. The
      first line is not indented. A line comment's marker counts towards the
      first line's columns; a block comment's opening ends its own line. */
  function Begin(w: Wrapper): (st: State)
    ensures Inv(w, st) && st.prior == NoToken
    ensures |st.out| == MinLen(w.style)
    ensures w.style != CComment ==> st.col == |st.out|
    ensures w.style == CComment ==> st.col == 0 && st.out[|st.out| - 1] == Newline
  {
    match w.style
    case NoComment => State([], 0, NoToken, false)
    case CPPComment => State(CppPrefix, 3, NoToken, false)
    case ShellComment => State(ShellPrefix, 2, NoToken, false)
    case CComment => State(CBegin, 0, NoToken, false)
  }

  /** The bytes written after the last token. */
  function End(w: Wrapper): seq<Byte>
  {
    if w.style == CComment then CEnd else []
  }

  /** What a newline is followed by, and the column it leaves: the comment
      prefix under line comments, otherwise the indent if there is one. */
  function LineStart(w: Wrapper): (seq<Byte>, int)
  {
    match w.style
    case CPPComment => (CppPrefix, 3)
    case ShellComment => (ShellPrefix, 2)
    case _ => if w.indentLen > 0 then (w.indentText, w.indentLen) else ([], 0)
  }

  // ---------------------------------------------------------------------
  // Breaking a line

  /** The bytes the blank-comment-line check reads are all there. */
  predicate CleanInBounds(style: CommentStyle, out: seq<Byte>)
  {
    match style
    case CPPComment =>
      |out| >= 1 && (out[|out| - 1] != Blank || (|out| >= 2 && (out[|out| - 2] != Slash || |out| >= 3)))
    case ShellComment =>
      |out| >= 1 && (out[|out| - 1] != Blank || |out| >= 2)
    case _ => true
  }

  lemma EndsWithTwo(a: seq<Byte>, x: Byte, y: Byte)
    ensures EndsWith(a, [x, y]) <==> |a| >= 2 && a[|a| - 2] == x && a[|a| - 1] == y
  {
    if |a| >= 2 && a[|a| - 2] == x && a[|a| - 1] == y {
      assert a[|a| - 2..] == [x, y];
    }
  }

  lemma EndsWithThree(a: seq<Byte>, x: Byte, y: Byte, z: Byte)
    ensures EndsWith(a, [x, y, z]) <==> |a| >= 3 && a[|a| - 3] == x && a[|a| - 2] == y && a[|a| - 1] == z
  {
    if |a| >= 3 && a[|a| - 3] == x && a[|a| - 2] == y && a[|a| - 1] == z {
      assert a[|a| - 3..] == [x, y, z];
    }
  }

  /** Under line comments, a line that holds only the comment prefix loses
      the prefix's trailing blank: "// " becomes "//" and "# " becomes "#".
      Exactly those lines change, by exactly one byte. */
  function Clean(style: CommentStyle, out: seq<Byte>): (r: seq<Byte>)
    requires CleanInBounds(style, out)
    ensures r == out || r + [Blank] == out
    ensures r != out <==>
      (style == CPPComment && EndsWith(out, CppPrefix)) || (style == ShellComment && EndsWith(out, ShellPrefix))
    ensures style == CPPComment ==> !EndsWith(r, CppPrefix)
    ensures style == ShellComment ==> !EndsWith(r, ShellPrefix)
  {
    match style
    case CPPComment =>
      EndsWithThree(out, Slash, Slash, Blank);
      var r := if out[|out| - 1] == Blank && out[|out| - 2] == Slash && out[|out| - 3] == Slash then out[..|out| - 1] else out;
      EndsWithThree(r, Slash, Slash, Blank);
      assert r != out ==> r + [Blank] == out;
      r
    case ShellComment =>
      EndsWithTwo(out, Hash, Blank);
      var r := if out[|out| - 1] == Blank && out[|out| - 2] == Hash then out[..|out| - 1] else out;
      EndsWithTwo(r, Hash, Blank);
      assert r != out ==> r + [Blank] == out;
      r
    case _ => out
  }

  /** The output with the written trailing space run taken back. */
  function Trim(w: Wrapper, st: State): (r: seq<Byte>)
    requires Inv(w, st)
    ensures MinLen(w.style) <= |r| && r <= st.out
    ensures Truncates(st) ==> st.out == r + Encode(st.prior.value)
    ensures !Truncates(st) ==> r == st.out
  {
    if Truncates(st) then st.out[..|st.out| - |Encode(st.prior.value)|] else st.out
  }

  /** The line as it stands when it is broken: trailing spaces taken back,
      a blank comment line cleaned. */
  function Kept(w: Wrapper, st: State): (kept: seq<Byte>)
    requires Inv(w, st)
    ensures kept <= st.out && Lead(w.style) <= kept
    ensures w.style == CComment ==> |kept| >= MinLen(w.style)
    ensures Truncates(st) ==> |kept| <= |st.out| - |Encode(st.prior.value)|
    ensures |kept| + 1 + (if Truncates(st) then |Encode(st.prior.value)| else 0) >= |st.out|
    ensures w.style == CPPComment ==> !EndsWith(kept, CppPrefix)
    ensures w.style == ShellComment ==> !EndsWith(kept, ShellPrefix)
  {
    var t := Trim(w, st);
    assert CleanInBounds(w.style, t);
    var k := Clean(w.style, t);
    CleanShrinks(w.style, t);
    PrefixTrans(k, t, st.out);
    PrefixBetween(Lead(w.style), k, st.out);
    k
  }

  lemma KeptIs(w: Wrapper, st: State)
    requires Inv(w, st)
    ensures Kept(w, st) == Clean(w.style, Trim(w, st))
  {
  }

  /** The check removes at most one byte, from the end, and only under line
      comments. */
  lemma CleanShrinks(style: CommentStyle, out: seq<Byte>)
    requires CleanInBounds(style, out)
    ensures Clean(style, out) <= out && |out| <= |Clean(style, out)| + 1
    ensures style == CComment ==> Clean(style, out) == out
  {
    var r := Clean(style, out);
    if r != out {
      assert r + [Blank] == out;
      assert out[..|r|] == r;
    }
  }

  lemma PrefixTrans(a: seq<Byte>, b: seq<Byte>, c: seq<Byte>)
    requires a <= b && b <= c
    ensures a <= c
  {
    assert c[..|a|] == b[..|a|];
  }

  /** Of two prefixes of the same sequence, the shorter is a prefix of the
      longer. */
  lemma PrefixBetween(p: seq<Byte>, a: seq<Byte>, c: seq<Byte>)
    requires p <= c && a <= c && |p| <= |a|
    ensures p <= a
  {
    assert a[..|p|] == c[..|p|];
  }

  /** Breaks the line: the kept line, a newline, then what starts a line. */
  function Nl(w: Wrapper, st: State): (r: (seq<Byte>, int))
    requires Inv(w, st)
    ensures r.1 == LineStart(w).1
    ensures |r.0| >= MinLen(w.style)
    ensures Lead(w.style) <= r.0
  {
    var kept := Kept(w, st);
    var tail := [Newline] + LineStart(w).0;
    NlBytes(w.style, kept, tail);
    (kept + tail, LineStart(w).1)
  }

  lemma NlIs(w: Wrapper, st: State)
    requires Inv(w, st)
    ensures Nl(w, st).0 == Kept(w, st) + ([Newline] + LineStart(w).0)
  {
  }

  lemma NlBytes(style: CommentStyle, kept: seq<Byte>, tail: seq<Byte>)
    requires Lead(style) <= kept && (style == CComment ==> |kept| >= MinLen(style))
    requires |tail| >= 1 && (style == CPPComment ==> |tail| >= 4) && (style == ShellComment ==> |tail| >= 3)
    ensures |kept + tail| >= MinLen(style)
    ensures Lead(style) <= kept + tail
  {
    PrefixExtends(kept, tail, Lead(style));
  }

  lemma PrefixExtends(a: seq<Byte>, b: seq<Byte>, p: seq<Byte>)
    requires p <= a
    ensures p <= a + b
  {
    assert (a + b)[..|p|] == a[..|p|];
  }

  // ---------------------------------------------------------------------
  // The fold

  /** The columns a token takes: `tabSize` for a tab, its code point count
      otherwise. */
  function Cost(w: Wrapper, t: Token): int
  {
    if t.typ == Tab then w.tabSize else t.len
  }

  /** One token. A space right after a newline token is skipped; a newline
      token breaks the line; any other token goes on the current line if the
      column stays below the length, and otherwise breaks the line first,
      a space or tab that causes the break being dropped. */
  function Step(w: Wrapper, st: State, t: Token): (r: State)
    requires Inv(w, st) && t.typ != EOF && t.typ != Error
    ensures Inv(w, r) && r.prior == t
  {
    if t.typ == Space && st.prior.typ == NL then
      State(st.out, st.col, t, false)
    else if t.typ == NL then
      var (out, col) := Nl(w, st);
      State(out, col, t, false)
    else
      var cost := Cost(w, t);
      if st.col + cost < w.length then
        State(st.out + Encode(t.value), st.col + cost, t, true)
      else
        var (out, col) := Nl(w, st);
        if IsSpace(t.typ) then State(out, col, t, false)
        else State(out + Encode(t.value), col + cost, t, true)
  }

  predicate EndsWithEOF(toks: seq<Token>)
  {
    |toks| > 0 && toks[|toks| - 1].typ == EOF
  }

  /** The fold over a token stream; EOF closes the comment, an error token
      stops with the output so far. The output is framed by the style's
      opening and closing; an error is reported with a token of the stream,
      and only a stream holding an error token can give one. */
  function Run(w: Wrapper, st: State, toks: seq<Token>): (r: Outcome)
    requires Inv(w, st) && EndsWithEOF(toks)
    ensures r.Written? ==> Lead(w.style) <= r.out && EndsWith(r.out, End(w))
    ensures r.LexError? ==> r.tok.typ == Error && r.tok in toks && Lead(w.style) <= r.partial
    ensures (forall k | 0 <= k < |toks| :: toks[k].typ != Error) ==> r.Written?
    decreases |toks|
  {
    var t := toks[0];
    if t.typ == EOF then
      PrefixExtends(st.out, End(w), Lead(w.style));
      EndsWithConcat(st.out, End(w));
      Written(st.out + End(w))
    else if t.typ == Error then LexError(st.out, t)
    else
      assert toks == [t] + toks[1..];
      Run(w, Step(w, st, t), toks[1..])
  }

  /** Wraps a text. The empty text gives the empty output, without comment
      markers; wrapping never fails, because the tokenizer emits no error
      token, and a non-empty text's output is framed by the style. */
  function Bytes(w: Wrapper, s: string): (r: Outcome)
    ensures r.Written?
    ensures s == [] ==> r.out == []
    ensures s != [] ==> Lead(w.style) <= r.out && EndsWith(r.out, End(w))
  {
    if s == [] then Written([])
    else
      LexNoError(s);
      Run(w, Begin(w), Lex(s))
  }

  /** The same on strings: an error gives the empty string. As `Bytes` never
      fails, the result is always that of `Bytes`. */
  function String(w: Wrapper, s: string): (r: Outcome)
    ensures r == Bytes(w, s)
  {
    if s == [] then Written([])
    else match Bytes(w, s)
      case Written(out) => Written(out)
      case LexError(_, t) => LexError([], t)
  }
}
