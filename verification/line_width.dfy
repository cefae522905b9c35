/** The width of the line being written. The fold keeps a column counter
    instead of measuring its output; this module measures the output itself,
    in columns (a code point takes one, a tab `tabSize`), and shows that the
    counter is the width of the output's last line whenever the tokens and
    the indent are measured the way the counter charges them. */
module LineWidth {
  import opened Utf8
  import opened Classify
  import opened Lexer
  import opened Wrap
  import opened WrapProps
  import LexerExample

  // ---------------------------------------------------------------------
  // Measuring bytes

  /** The columns one output byte takes: a tab `tabSize`, a UTF-8
      continuation byte none (its code point is counted at its lead byte),
      any other byte one. */
  function ByteColumns(b: Byte, tabSize: int): int
  {
    if b == TabByte then tabSize else if 0x80 <= b < 0xC0 then 0 else 1
  }

  /** The columns a run of output bytes takes. */
  function Columns(b: seq<Byte>, tabSize: int): int
  {
    if b == [] then 0 else ByteColumns(b[0], tabSize) + Columns(b[1..], tabSize)
  }

  lemma {:induction false} ColumnsAppend(a: seq<Byte>, b: seq<Byte>, tabSize: int)
    ensures Columns(a + b, tabSize) == Columns(a, tabSize) + Columns(b, tabSize)
    decreases |a|
  {
    if a == [] {
      assert a + b == b;
    } else {
      assert (a + b)[1..] == a[1..] + b;
      ColumnsAppend(a[1..], b, tabSize);
    }
  }

  /** The line being written: the bytes after the last newline, or all of
      the output if it holds none. */
  function CurrentLine(out: seq<Byte>): seq<Byte>
  {
    if out == [] then []
    else if out[|out| - 1] == Newline then []
    else CurrentLine(out[..|out| - 1]) + [out[|out| - 1]]
  }

  /** The current line is the longest tail of the output without a newline:
      it holds none, and it is all of the output or a newline precedes it. */
  lemma {:induction false} CurrentLineIs(out: seq<Byte>)
    ensures var line := CurrentLine(out);
      && Newline !in line
      && EndsWith(out, line)
      && (line == out || out[|out| - |line| - 1] == Newline)
    decreases |out|
  {
    if out != [] && out[|out| - 1] != Newline {
      var init := out[..|out| - 1];
      var prev := CurrentLine(init);
      var line := prev + [out[|out| - 1]];
      CurrentLineIs(init);
      assert init[|init| - |prev|..] + [out[|out| - 1]] == out[|out| - |line|..];
      if prev == init {
        assert line == out;
      } else {
        assert out[|out| - |line| - 1] == init[|init| - |prev| - 1];
      }
    }
  }

  /** Appending bytes without a newline extends the current line. */
  lemma {:induction false} LineAppend(a: seq<Byte>, b: seq<Byte>)
    requires Newline !in b
    ensures CurrentLine(a + b) == CurrentLine(a) + b
    decreases |b|
  {
    if b == [] {
      assert a + b == a;
    } else {
      var init := b[..|b| - 1];
      var last := b[|b| - 1];
      assert (a + b)[..|a + b| - 1] == a + init;
      assert (a + b)[|a + b| - 1] == last;
      assert last in b;
      assert CurrentLine(a + b) == CurrentLine(a + init) + [last];
      assert Newline !in init by {
        assert forall x | x in init :: x in b;
      }
      LineAppend(a, init);
      assert init + [last] == b;
    }
  }

  /** After a newline the current line is what follows it. */
  lemma LineAfterNewline(a: seq<Byte>, b: seq<Byte>)
    requires Newline !in b
    ensures CurrentLine(a + [Newline] + b) == b
  {
    LineAppend(a + [Newline], b);
  }

  // ---------------------------------------------------------------------
  // Measuring tokens

  /** The number of tabs in a text. */
  function Tabs(v: string): nat
  {
    if v == [] then 0 else (if v[0] == '\t' then 1 else 0) + Tabs(v[1..])
  }

  /** Bytes that are all continuation bytes take no columns. */
  lemma {:induction false} ContinuationColumns(b: seq<Byte>, tabSize: int)
    requires forall k | 0 <= k < |b| :: 0x80 <= b[k] < 0xC0
    ensures Columns(b, tabSize) == 0
    decreases |b|
  {
    if b != [] {
      ContinuationColumns(b[1..], tabSize);
    }
  }

  /** A code point takes one column, a tab `tabSize`. */
  lemma CharColumns(c: char, tabSize: int)
    ensures Columns(EncodeChar(c), tabSize) == if c == '\t' then tabSize else 1
  {
    var r := EncodeChar(c);
    ContinuationColumns(r[1..], tabSize);
  }

  /** A text takes a column per code point, and `tabSize` per tab. */
  lemma {:induction false} EncodeColumns(v: string, tabSize: int)
    ensures Columns(Encode(v), tabSize) == |v| + (tabSize - 1) * Tabs(v)
    decreases |v|
  {
    if v != [] {
      var n := Tabs(v[1..]);
      assert Encode(v) == EncodeChar(v[0]) + Encode(v[1..]);
      EncodeColumns(v[1..], tabSize);
      CharColumns(v[0], tabSize);
      ColumnsAppend(EncodeChar(v[0]), Encode(v[1..]), tabSize);
      if v[0] == '\t' {
        assert Tabs(v) == n + 1;
        MulStep(tabSize - 1, n);
      } else {
        assert Tabs(v) == n;
      }
    }
  }

  lemma MulStep(a: int, n: int)
    ensures a * (n + 1) == a * n + a
  {
  }

  /** A token is measured when what the fold charges for it is the width of
      its text and its text holds no newline (a newline token is never
      written, so it is always measured). */
  ghost predicate Measured(w: Wrapper, t: Token)
  {
    t.typ != NL ==> Columns(Encode(t.value), w.tabSize) == Cost(w, t) && Newline !in Encode(t.value)
  }

  /** No code point of a text is a tab or a newline. */
  lemma {:induction false} NoTabs(v: string)
    requires forall k | 0 <= k < |v| :: v[k] != '\t'
    ensures Tabs(v) == 0
    decreases |v|
  {
    if v != [] {
      NoTabs(v[1..]);
    }
  }

  /** The tokens the tokenizer emits are measured, except a space run that
      holds a tab: the fold charges that tab one column. */
  lemma TokenMeasured(w: Wrapper, t: Token)
    requires WellFormed(t) && t.typ in {Text, Space, Hyphen, Tab, NL}
    requires t.typ == Space ==> '\t' !in t.value
    ensures Measured(w, t)
  {
    var v := t.value;
    if t.typ == Tab {
      assert Encode(v) == EncodeChar('\t') + Encode([]);
      CharColumns('\t', w.tabSize);
      ColumnsAppend(EncodeChar('\t'), [], w.tabSize);
      EncodeNewline(v);
    } else if t.typ != NL {
      forall k | 0 <= k < |v|
        ensures v[k] != '\t' && v[k] != '\n'
      {
        ControlClasses(v[k]);
        if t.typ == Space {
          assert v[k] in v;
        }
      }
      NoTabs(v);
      EncodeColumns(v, w.tabSize);
      EncodeNewline(v);
    }
  }

  /** The tokenizer's tokens are measured when no space run holds a tab. */
  lemma LexMeasured(w: Wrapper, s: string)
    requires forall k | 0 <= k < |Lex(s)| && Lex(s)[k].typ == Space :: '\t' !in Lex(s)[k].value
    ensures forall k | 0 <= k < |Lex(s)| - 1 :: Measured(w, Lex(s)[k])
  {
    var ts := Lex(s);
    LexShape(s);
    LexWellFormed(s);
    forall k | 0 <= k < |ts| - 1
      ensures Measured(w, ts[k])
    {
      assert ts[k] in ts;
      TokenMeasured(w, ts[k]);
    }
  }

  /** A space run that holds a tab is charged one column per code point, so
      under tab size 8 the run " \t" is charged 2 columns while it takes 9. */
  lemma SpaceRunTab()
    ensures Lex(" \t")[0].typ == Space
    ensures Cost(New(), Lex(" \t")[0]) == 2
    ensures Columns(Encode(Lex(" \t")[0].value), New().tabSize) == 9
  {
    LexerExample.BlankTab();
    assert Tabs(" \t") == 1;
    EncodeColumns(" \t", 8);
  }

  // ---------------------------------------------------------------------
  // The column is the width of the current line

  /** An indent of ASCII bytes other than newline, whose width is the one the
      setters compute. */
  ghost predicate IndentMeasured(w: Wrapper)
  {
    && (forall k | 0 <= k < |w.indentText| :: w.indentText[k] < 0x80 && w.indentText[k] != Newline)
    && w.indentLen == IndentWidth(w.indentText, w.tabSize)
  }

  lemma {:induction false} AsciiColumns(b: seq<Byte>, tabSize: int)
    requires forall k | 0 <= k < |b| :: b[k] < 0x80
    ensures Columns(b, tabSize) == IndentWidth(b, tabSize)
    decreases |b|
  {
    if b != [] {
      AsciiColumns(b[1..], tabSize);
    }
  }

  /** What starts a line takes the columns the fold starts the line at. */
  lemma LineStartMeasured(w: Wrapper)
    requires IndentMeasured(w)
    ensures Columns(LineStart(w).0, w.tabSize) == LineStart(w).1
    ensures Newline !in LineStart(w).0
  {
    PrefixColumns(w.tabSize);
    if w.style != CPPComment && w.style != ShellComment && w.indentLen > 0 {
      AsciiColumns(w.indentText, w.tabSize);
    }
  }

  /** The comment prefixes take a column per byte and hold no newline. */
  lemma PrefixColumns(tabSize: int)
    ensures Columns(CppPrefix, tabSize) == 3 && Newline !in CppPrefix
    ensures Columns(ShellPrefix, tabSize) == 2 && Newline !in ShellPrefix
    ensures Columns([], tabSize) == 0
  {
    assert Columns([Blank], tabSize) == 1;
    assert Columns([Slash, Blank], tabSize) == 2;
    assert Columns([Hash, Blank], tabSize) == 2;
  }

  /** The fold's column is the width of the line being written. */
  ghost predicate Tracks(w: Wrapper, st: State)
  {
    st.col == Columns(CurrentLine(st.out), w.tabSize)
  }

  lemma BeginTracks(w: Wrapper)
    ensures Tracks(w, Begin(w))
  {
    PrefixColumns(w.tabSize);
    var out := Begin(w).out;
    if w.style == CComment {
      assert out == [Slash, 0x2A] + [Newline] + [];
      LineAfterNewline([Slash, 0x2A], []);
    } else {
      assert Newline !in out;
      assert [] + out == out;
      LineAppend([], out);
    }
  }

  /** A step keeps the column equal to the width of the current line. */
  lemma StepTracks(w: Wrapper, st: State, t: Token)
    requires Inv(w, st) && t.typ != EOF && t.typ != Error
    requires IndentMeasured(w) && Measured(w, t) && Tracks(w, st)
    ensures Tracks(w, Step(w, st, t))
  {
    if t.typ == Space && st.prior.typ == NL {
    } else if t.typ != NL && st.col + Cost(w, t) < w.length {
      FitsTracks(w, st, t);
    } else {
      BreakTracks(w, st, t);
    }
  }

  /** A token that fits extends the current line by its width. */
  lemma FitsTracks(w: Wrapper, st: State, t: Token)
    requires Inv(w, st) && t.typ != EOF && t.typ != Error && t.typ != NL
    requires !(t.typ == Space && st.prior.typ == NL) && st.col + Cost(w, t) < w.length
    requires Measured(w, t) && Tracks(w, st)
    ensures Tracks(w, Step(w, st, t))
  {
    StepEffect(w, st, t);
    LineAppend(st.out, Encode(t.value));
    ColumnsAppend(CurrentLine(st.out), Encode(t.value), w.tabSize);
  }

  /** A break starts a line holding the line start and the token, if it is
      written. */
  lemma BreakTracks(w: Wrapper, st: State, t: Token)
    requires Inv(w, st) && t.typ != EOF && t.typ != Error
    requires !(t.typ == Space && st.prior.typ == NL) && (t.typ == NL || st.col + Cost(w, t) >= w.length)
    requires IndentMeasured(w) && Measured(w, t)
    ensures Tracks(w, Step(w, st, t))
  {
    var written := t.typ != NL && !IsSpace(t.typ);
    var text := if written then Encode(t.value) else [];
    BreakEffect(w, st, t);
    LineStartMeasured(w);
    BreakLine(Step(w, st, t).out, Kept(w, st), LineStart(w).0, text, w.tabSize);
  }

  /** The line after a newline, and its width. */
  lemma BreakLine(out: seq<Byte>, kept: seq<Byte>, lead: seq<Byte>, text: seq<Byte>, tabSize: int)
    requires out == kept + [Newline] + lead + text && Newline !in lead && Newline !in text
    ensures CurrentLine(out) == lead + text
    ensures Columns(CurrentLine(out), tabSize) == Columns(lead, tabSize) + Columns(text, tabSize)
  {
    assert Newline !in lead + text;
    assert out == kept + [Newline] + (lead + text);
    LineAfterNewline(kept, lead + text);
    ColumnsAppend(lead, text, tabSize);
  }

  /** A written token leaves the current line narrower than the line length,
      unless the token stands alone after the line start. */
  lemma WrittenLineFits(w: Wrapper, st: State, t: Token)
    requires Inv(w, st) && t.typ != EOF && t.typ != Error && !Dropped(w, st, t)
    requires IndentMeasured(w) && Measured(w, t) && Tracks(w, st)
    ensures var line := CurrentLine(Step(w, st, t).out);
      Columns(line, w.tabSize) < w.length || line == LineStart(w).0 + Encode(t.value)
  {
    var r := Step(w, st, t);
    StepTracks(w, st, t);
    if r.col >= w.length {
      StepEffect(w, st, t);
      BreakEffect(w, st, t);
      LineStartMeasured(w);
      BreakLine(r.out, Kept(w, st), LineStart(w).0, Encode(t.value), w.tabSize);
    }
  }

  // ---------------------------------------------------------------------
  // The whole fold

  /** The state the fold reaches before the first EOF or error token. */
  function Fold(w: Wrapper, st: State, toks: seq<Token>): (r: State)
    requires Inv(w, st)
    ensures Inv(w, r)
    decreases |toks|
  {
    if toks == [] || toks[0].typ == EOF || toks[0].typ == Error then st
    else Fold(w, Step(w, st, toks[0]), toks[1..])
  }

  /** A stream without error tokens is written as the fold up to its EOF,
      then the closing. */
  lemma {:induction false} RunIsFold(w: Wrapper, st: State, toks: seq<Token>)
    requires Inv(w, st) && EndsWithEOF(toks)
    requires forall k | 0 <= k < |toks| :: toks[k].typ != Error
    ensures Run(w, st, toks) == Written(Fold(w, st, toks).out + End(w))
    decreases |toks|
  {
    if toks[0].typ != EOF {
      var rest := toks[1..];
      forall k | 0 <= k < |rest|
        ensures rest[k].typ != Error
      {
        assert rest[k] == toks[k + 1];
      }
      RunIsFold(w, Step(w, st, toks[0]), rest);
    }
  }

  /** Every step of the fold keeps the column equal to the width of the
      current line. */
  lemma {:induction false} FoldTracks(w: Wrapper, st: State, toks: seq<Token>)
    requires Inv(w, st) && IndentMeasured(w) && Tracks(w, st)
    requires forall k | 0 <= k < |toks| && toks[k].typ != EOF && toks[k].typ != Error :: Measured(w, toks[k])
    ensures Tracks(w, Fold(w, st, toks))
    decreases |toks|
  {
    if toks != [] && toks[0].typ != EOF && toks[0].typ != Error {
      var rest := toks[1..];
      forall k | 0 <= k < |rest| && rest[k].typ != EOF && rest[k].typ != Error
        ensures Measured(w, rest[k])
      {
        assert rest[k] == toks[k + 1];
      }
      StepTracks(w, st, toks[0]);
      FoldTracks(w, Step(w, st, toks[0]), rest);
    }
  }

  /** Wrapping a text whose space runs hold no tab, under an ASCII indent
      without newlines: the output is the fold's output and the closing, and
      the fold's final column is the width of the last line it wrote. */
  lemma BytesTracks(w: Wrapper, s: string)
    requires s != [] && IndentMeasured(w)
    requires forall k | 0 <= k < |Lex(s)| && Lex(s)[k].typ == Space :: '\t' !in Lex(s)[k].value
    ensures Bytes(w, s) == Written(Fold(w, Begin(w), Lex(s)).out + End(w))
    ensures Tracks(w, Fold(w, Begin(w), Lex(s)))
  {
    var toks := Lex(s);
    LexNoError(s);
    LexShape(s);
    RunIsFold(w, Begin(w), toks);
    LexFoldMeasured(w, s);
    BeginTracks(w);
    FoldTracks(w, Begin(w), toks);
  }

  lemma LexFoldMeasured(w: Wrapper, s: string)
    requires forall k | 0 <= k < |Lex(s)| && Lex(s)[k].typ == Space :: '\t' !in Lex(s)[k].value
    ensures forall k | 0 <= k < |Lex(s)| && Lex(s)[k].typ != EOF && Lex(s)[k].typ != Error :: Measured(w, Lex(s)[k])
  {
    var toks := Lex(s);
    LexShape(s);
    LexMeasured(w, s);
    forall k | 0 <= k < |toks| && toks[k].typ != EOF && toks[k].typ != Error
      ensures Measured(w, toks[k])
    {
      assert k < |toks| - 1;
    }
  }
}
