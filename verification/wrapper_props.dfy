/** Properties of the wrapper: what one step does to the output and the
    column, that wrapping never fails, how the output is framed by the comment
    style, and that a text that fits on one line comes out unchanged. */
module WrapProps {
  import opened Utf8
  import opened Classify
  import opened Lexer
  import opened Wrap

  // ---------------------------------------------------------------------
  // One step

  /** Whether a step drops the token: a space right after a newline token,
      a newline token (it becomes a line break instead), or a space or tab
      that does not fit on the line. */
  predicate Dropped(w: Wrapper, st: State, t: Token)
  {
    || (t.typ == Space && st.prior.typ == NL)
    || t.typ == NL
    || (IsSpace(t.typ) && st.col + Cost(w, t) >= w.length)
  }

  /** A step writes the token's text exactly when it does not drop it, and
      then the output ends with that text. */
  lemma StepWritesToken(w: Wrapper, st: State, t: Token)
    requires Inv(w, st) && t.typ != EOF && t.typ != Error
    ensures Step(w, st, t).priorWritten <==> !Dropped(w, st, t)
    ensures !Dropped(w, st, t) ==> EndsWith(Step(w, st, t).out, Encode(t.value))
  {
    var r := Step(w, st, t);
    if !Dropped(w, st, t) {
      if st.col + Cost(w, t) < w.length {
        EndsWithConcat(st.out, Encode(t.value));
      } else {
        EndsWithConcat(Nl(w, st).0, Encode(t.value));
      }
    }
  }

  /** What a step does to the output and the column. A space right after a
      newline token changes neither. A token that fits is appended and
      advances the column by its cost. Otherwise the line is broken: the
      output is the kept line, a newline and the line start, followed by the
      token's text unless the token is a newline, space or tab, and the
      column restarts at the line start's width plus the cost of what was
      written. */
  lemma StepEffect(w: Wrapper, st: State, t: Token)
    requires Inv(w, st) && t.typ != EOF && t.typ != Error
    ensures t.typ == Space && st.prior.typ == NL ==>
      Step(w, st, t).out == st.out && Step(w, st, t).col == st.col
    ensures !(t.typ == Space && st.prior.typ == NL) && t.typ != NL && st.col + Cost(w, t) < w.length ==>
      && Step(w, st, t).out == st.out + Encode(t.value)
      && Step(w, st, t).col == st.col + Cost(w, t)
    ensures !(t.typ == Space && st.prior.typ == NL) && (t.typ == NL || st.col + Cost(w, t) >= w.length) ==>
      var written := t.typ != NL && !IsSpace(t.typ);
      && Step(w, st, t).out == Kept(w, st) + [Newline] + LineStart(w).0 + (if written then Encode(t.value) else [])
      && Step(w, st, t).col == LineStart(w).1 + (if written then Cost(w, t) else 0)
  {
    if !(t.typ == Space && st.prior.typ == NL) && (t.typ == NL || st.col + Cost(w, t) >= w.length) {
      BreakEffect(w, st, t);
    }
  }

  lemma BreakEffect(w: Wrapper, st: State, t: Token)
    requires Inv(w, st) && t.typ != EOF && t.typ != Error
    requires !(t.typ == Space && st.prior.typ == NL) && (t.typ == NL || st.col + Cost(w, t) >= w.length)
    ensures var written := t.typ != NL && !IsSpace(t.typ);
      && Step(w, st, t).out == Kept(w, st) + [Newline] + LineStart(w).0 + (if written then Encode(t.value) else [])
      && Step(w, st, t).col == LineStart(w).1 + (if written then Cost(w, t) else 0)
  {
    var kept := Kept(w, st);
    var lead := LineStart(w).0;
    NlIs(w, st);
    assert Nl(w, st).0 == kept + [Newline] + lead;
    if t.typ != NL && !IsSpace(t.typ) {
      assert Step(w, st, t).out == Nl(w, st).0 + Encode(t.value);
    } else {
      assert Step(w, st, t).out == Nl(w, st).0;
    }
  }

  /** Breaking a line ends the output with a newline followed by what starts
      a line. */
  lemma NlEnds(w: Wrapper, st: State)
    requires Inv(w, st)
    ensures EndsWith(Nl(w, st).0, [Newline] + LineStart(w).0)
  {
    var kept := Kept(w, st);
    var lead := LineStart(w).0;
    assert Nl(w, st).0 == kept + ([Newline] + lead);
    EndsWithConcat(kept, [Newline] + lead);
  }

  /** The number of bytes at the end of the output that breaking the line
      may take back: the written space run, and the blank of an empty comment
      line. */
  function Back(st: State): int
  {
    1 + (if Truncates(st) then |Encode(st.prior.value)| else 0)
  }

  lemma PrefixUpTo(out: seq<Byte>, kept: seq<Byte>, tail: seq<Byte>, n: nat)
    requires kept <= out && n <= |kept|
    ensures out[..n] <= kept + tail
  {
    assert (kept + tail)[..n] == kept[..n] == out[..n];
  }

  /** Breaking a line keeps everything but the last `Back` bytes. */
  lemma NlKeeps(w: Wrapper, st: State)
    requires Inv(w, st) && Back(st) <= |st.out|
    ensures st.out[..|st.out| - Back(st)] <= Nl(w, st).0
  {
    NlIs(w, st);
    var kept := Kept(w, st);
    assert |st.out| - Back(st) <= |kept|;
    PrefixUpTo(st.out, kept, [Newline] + LineStart(w).0, |st.out| - Back(st));
  }

  /** A step keeps all output but the last `Back` bytes: output is only ever
      appended to, apart from the spaces that end a broken line and the blank
      of an empty comment line. */
  lemma StepKeepsOutput(w: Wrapper, st: State, t: Token)
    requires Inv(w, st) && t.typ != EOF && t.typ != Error && Back(st) <= |st.out|
    ensures st.out[..|st.out| - Back(st)] <= Step(w, st, t).out
  {
    var p := st.out[..|st.out| - Back(st)];
    var r := Step(w, st, t);
    if r.out == st.out {
    } else if t.typ == NL || (t.typ == Space && st.prior.typ == NL) {
      NlKeeps(w, st);
    } else if st.col + Cost(w, t) < w.length {
      PrefixExtends(st.out, Encode(t.value), p);
    } else {
      NlKeeps(w, st);
      PrefixExtends(Nl(w, st).0, Encode(t.value), p);
    }
  }

  /** A newline token breaks the line: the output ends with a newline and
      the line start, and the column is the line start's. */
  lemma NewlineBreaks(w: Wrapper, st: State, t: Token)
    requires Inv(w, st) && t.typ == NL
    ensures EndsWith(Step(w, st, t).out, [Newline] + LineStart(w).0)
    ensures Step(w, st, t).col == LineStart(w).1
  {
    NlEnds(w, st);
  }

  /** A written token that takes the column to the line length or beyond
      stands alone on a fresh line: the output ends with a newline, the line
      start and the token, and the column is the line start's plus the
      token's. A line is only ever too long because one token is. */
  lemma LongTokenStandsAlone(w: Wrapper, st: State, t: Token)
    requires Inv(w, st) && t.typ != EOF && t.typ != Error && !Dropped(w, st, t)
    requires Step(w, st, t).col >= w.length
    ensures Step(w, st, t).col == LineStart(w).1 + Cost(w, t)
    ensures EndsWith(Step(w, st, t).out, [Newline] + LineStart(w).0 + Encode(t.value))
  {
    StepEffect(w, st, t);
    BreakEffect(w, st, t);
    var kept := Kept(w, st);
    var tail := [Newline] + LineStart(w).0 + Encode(t.value);
    assert kept + [Newline] + LineStart(w).0 + Encode(t.value) == kept + tail;
    EndsWithConcat(kept, tail);
  }

  // ---------------------------------------------------------------------
  // The fold

  /** The frame of each comment style: a block comment opens and closes on
      lines of their own; line comments start with their marker; the empty
      text stays empty. */
  lemma CommentFraming(w: Wrapper, s: string)
    ensures s == [] ==> Bytes(w, s) == Written([])
    ensures s != [] && w.style == CComment ==>
      Bytes(w, s).Written? && CBegin <= Bytes(w, s).out && EndsWith(Bytes(w, s).out, CEnd)
    ensures s != [] && w.style == CPPComment ==>
      Bytes(w, s).Written? && [Slash, Slash] <= Bytes(w, s).out
    ensures s != [] && w.style == ShellComment ==>
      Bytes(w, s).Written? && [Hash] <= Bytes(w, s).out
  {
    var r := Bytes(w, s);
    if s != [] {
      assert Lead(w.style) <= r.out && EndsWith(r.out, End(w));
    }
  }

  // ---------------------------------------------------------------------
  // A text that fits

  /** A token that the wrapper writes as it is: text, spaces or hyphens, its
      length its code point count. */
  ghost predicate Plain(t: Token)
  {
    (t.typ == Text || t.typ == Space || t.typ == Hyphen) && t.len == |t.value|
  }

  /** A stream of plain tokens whose texts fit on the current line is written
      unchanged. */
  lemma {:induction false} RunFits(w: Wrapper, st: State, toks: seq<Token>)
    requires Inv(w, st) && EndsWithEOF(toks) && toks[|toks| - 1].value == []
    requires forall k | 0 <= k < |toks| - 1 :: Plain(toks[k])
    requires st.prior.typ != NL
    requires st.col + |Values(toks)| < w.length
    ensures Run(w, st, toks) == Written(st.out + Encode(Values(toks)) + End(w))
    decreases |toks|
  {
    var t := toks[0];
    if t.typ == EOF {
      assert |toks| == 1;
      assert Values(toks) == [];
    } else {
      assert 0 < |toks| - 1 && Plain(t);
      var rest := toks[1..];
      forall k | 0 <= k < |rest| - 1
        ensures Plain(rest[k])
      {
        assert rest[k] == toks[k + 1];
      }
      assert Values(toks) == t.value + Values(rest);
      var next := State(st.out + Encode(t.value), st.col + |t.value|, t, true);
      FitsStep(w, st, t);
      RunFits(w, next, rest);
      EncodeAppend(t.value, Values(rest));
      assert st.out + Encode(t.value) + Encode(Values(rest)) == st.out + Encode(Values(toks));
    }
  }

  /** A plain token that fits is appended as it is. */
  lemma FitsStep(w: Wrapper, st: State, t: Token)
    requires Inv(w, st) && Plain(t) && st.prior.typ != NL && st.col + |t.value| < w.length
    ensures Step(w, st, t) == State(st.out + Encode(t.value), st.col + |t.value|, t, true)
  {
  }

  /** The first character of a token's text occurs in the texts of the
      stream. */
  lemma {:induction false} ValueInValues(ts: seq<Token>, k: nat)
    requires k < |ts| && ts[k].value != []
    ensures ts[k].value[0] in Values(ts)
    decreases k
  {
    if k == 0 {
      assert Values(ts) == ts[0].value + Values(ts[1..]);
    } else {
      ValueInValues(ts[1..], k - 1);
      assert Values(ts) == ts[0].value + Values(ts[1..]);
    }
  }

  /** Removing carriage returns only removes characters. */
  lemma {:induction false} RemoveCRSubset(s: string, c: char)
    requires c in RemoveCR(s)
    ensures c in s
    decreases |s|
  {
    if s != [] {
      if c != s[0] {
        assert c in RemoveCR(s[1..]);
        RemoveCRSubset(s[1..], c);
        assert s == [s[0]] + s[1..];
      }
    }
  }

  /** Without newlines, carriage returns and tabs the tokenizer emits only
      plain tokens. */
  lemma PlainTokens(s: string)
    requires forall k | 0 <= k < |s| :: s[k] != '\n' && s[k] != '\r' && s[k] != '\t'
    ensures var toks := Lex(s);
      && EndsWithEOF(toks) && toks[|toks| - 1].value == []
      && forall k | 0 <= k < |toks| - 1 :: Plain(toks[k])
  {
    var toks := Lex(s);
    LexShape(s);
    LexWellFormed(s);
    LexReconstructs(s);
    forall k | 0 <= k < |toks| - 1
      ensures Plain(toks[k])
    {
      assert WellFormed(toks[k]) && toks[k].value != [];
      ValueInValues(toks, k);
      RemoveCRSubset(s, toks[k].value[0]);
    }
  }

  /** A text without newlines, carriage returns or tabs that fits on the
      first line is written unchanged, between the comment style's opening
      and closing bytes. */
  lemma ShortTextUnchanged(w: Wrapper, s: string)
    requires s != []
    requires forall k | 0 <= k < |s| :: s[k] != '\n' && s[k] != '\r' && s[k] != '\t'
    requires Begin(w).col + |s| < w.length
    ensures Bytes(w, s) == Written(Begin(w).out + Encode(s) + End(w))
  {
    PlainTokens(s);
    LexReconstructs(s);
    RemoveCRNone(s);
    RunFits(w, Begin(w), Lex(s));
    assert Bytes(w, s) == Run(w, Begin(w), Lex(s));
  }

  // ---------------------------------------------------------------------
  // Comment style names

  /** A name for each comment style. */
  function StyleName(c: CommentStyle): string
  {
    match c
    case NoComment => "none"
    case CPPComment => "cpp"
    case ShellComment => "shell"
    case CComment => "c"
  }

  /** Parsing a style's name gives the style back. */
  lemma ParseStyleName(c: CommentStyle)
    ensures ParseCommentStyle(StyleName(c)) == c
  {
    var n := StyleName(c);
    assert Lower(n) == n;
  }

  /** Parsing ignores case: two names that agree once lower-cased name the
      same style. */
  lemma ParseIgnoresCase(s: string, t: string)
    requires |s| == |t|
    requires forall k | 0 <= k < |s| :: LowerChar(s[k]) == LowerChar(t[k])
    ensures ParseCommentStyle(s) == ParseCommentStyle(t)
  {
    assert Lower(s) == Lower(t);
  }

  /** Mixed-case names and the aliases are recognised; anything else is no
      comment. */
  lemma ParseExamples()
    ensures ParseCommentStyle("C") == CComment
    ensures ParseCommentStyle("C++") == CPPComment
    ensures ParseCommentStyle("Perl") == ShellComment
    ensures ParseCommentStyle("SHELL") == ShellComment
    ensures ParseCommentStyle("bash") == NoComment
    ensures ParseCommentStyle("") == NoComment
  {
    assert Lower("C") == "c";
    assert Lower("C++") == "c++";
    assert Lower("Perl") == "perl";
    assert Lower("SHELL") == "shell";
    assert Lower("bash") == "bash";
  }
}
