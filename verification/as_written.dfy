/** The wrapper's line breaking as the source writes it, next to the
    corrected model in `Wrap`.

    The source keeps no record of whether the token before the current one
    was written: it takes back the prior token's bytes whenever that token is
    a space run, also when the space run was skipped (after a newline token)
    or dropped (because it did not fit). Those bytes are then not the tail of
    the output, so the take-back removes a newline, indent or text instead,
    or slices below the start of the output and panics. A panic is modelled
    as the `Panic` outcome.

    The source's tab-size setter also adds the recomputed indent width to the
    old one instead of replacing it. */
module AsWritten {
  import opened Utf8
  import opened Classify
  import opened Lexer
  import opened Wrap

  /** A computation that may panic. */
  datatype Checked<T> = Ok(value: T) | Panic

  /** The loop state of the source: the output, the column and the prior
      token, with no record of whether that token was written. */
  datatype AState = AState(out: seq<Byte>, col: int, prior: Token)

  datatype AOutcome = AWritten(out: seq<Byte>) | ALexError(partial: seq<Byte>, tok: Token) | Panicked

  /** The source's state for a state of the corrected model. */
  function Abs(st: State): AState
  {
    AState(st.out, st.col, st.prior)
  }

  /** Takes back the prior token's bytes whenever it is a space run; slicing
      below the start of the output panics. */
  function TrimAsWritten(st: AState): (r: Checked<seq<Byte>>)
    ensures r.Ok? ==> r.value <= st.out
    ensures r.Panic? <==> st.prior.typ == Space && |st.out| < |Encode(st.prior.value)|
  {
    if st.prior.typ != Space then Ok(st.out)
    else
      var n := |Encode(st.prior.value)|;
      if |st.out| < n then Panic else Ok(st.out[..|st.out| - n])
  }

  /** The blank-comment-line check, reading the last bytes one at a time as
      the source does; a read before the start of the output panics. */
  function CleanAsWritten(style: CommentStyle, out: seq<Byte>): (r: Checked<seq<Byte>>)
    ensures r.Panic? <==> !CleanInBounds(style, out)
    ensures r.Ok? ==> r.value <= out
  {
    match style
    case CPPComment =>
      if |out| < 1 then Panic
      else if out[|out| - 1] != Blank then Ok(out)
      else if |out| < 2 then Panic
      else if out[|out| - 2] != Slash then Ok(out)
      else if |out| < 3 then Panic
      else if out[|out| - 3] == Slash then Ok(out[..|out| - 1])
      else Ok(out)
    case ShellComment =>
      if |out| < 1 then Panic
      else if out[|out| - 1] != Blank then Ok(out)
      else if |out| < 2 then Panic
      else if out[|out| - 2] == Hash then Ok(out[..|out| - 1])
      else Ok(out)
    case _ => Ok(out)
  }

  /** Where the bytes it reads are there, the check is the model's `Clean`. */
  lemma CleanAgrees(style: CommentStyle, out: seq<Byte>)
    requires CleanInBounds(style, out)
    ensures CleanAsWritten(style, out) == Ok(Clean(style, out))
  {
  }

  /** Breaking a line as written: it panics exactly when the take-back or
      the blank-comment-line check does. Otherwise the output is a prefix of
      the old output followed by a newline and the line start, and the column
      is the line start's. */
  function NlAsWritten(w: Wrapper, st: AState): (r: Checked<(seq<Byte>, int)>)
    ensures r.Panic? <==> TrimAsWritten(st).Panic? || !CleanInBounds(w.style, TrimAsWritten(st).value)
    ensures r.Ok? ==>
      var tail := [Newline] + LineStart(w).0;
      && r.value.1 == LineStart(w).1
      && EndsWith(r.value.0, tail)
      && r.value.0[..|r.value.0| - |tail|] <= st.out
  {
    match TrimAsWritten(st)
    case Panic => Panic
    case Ok(t) =>
      match CleanAsWritten(w.style, t)
      case Panic => Panic
      case Ok(kept) =>
        var (lead, col) := LineStart(w);
        var tail := [Newline] + lead;
        EndsWithConcat(kept, tail);
        assert (kept + tail)[..|kept + tail| - |tail|] == kept;
        Ok((kept + tail, col))
  }

  /** One token as written. The step records the token as the prior one,
      and it panics exactly when it breaks the line and the break panics. */
  function StepAsWritten(w: Wrapper, st: AState, t: Token): (r: Checked<AState>)
    ensures r.Ok? ==> r.value.prior == t
    ensures r.Panic? <==>
      && !(t.typ == Space && st.prior.typ == NL)
      && (t.typ == NL || st.col + Cost(w, t) >= w.length)
      && NlAsWritten(w, st).Panic?
  {
    if t.typ == Space && st.prior.typ == NL then
      Ok(AState(st.out, st.col, t))
    else if t.typ == NL then
      match NlAsWritten(w, st)
      case Panic => Panic
      case Ok((out, col)) => Ok(AState(out, col, t))
    else
      var cost := Cost(w, t);
      if st.col + cost < w.length then
        Ok(AState(st.out + Encode(t.value), st.col + cost, t))
      else
        match NlAsWritten(w, st)
        case Panic => Panic
        case Ok((out, col)) =>
          if IsSpace(t.typ) then Ok(AState(out, col, t))
          else Ok(AState(out + Encode(t.value), col + cost, t))
  }

  /** The fold as written. A finished output ends with the closing bytes; an
      error is reported with an error token of the stream, and only a stream
      holding one can give an error. */
  function RunAsWritten(w: Wrapper, st: AState, toks: seq<Token>): (r: AOutcome)
    requires EndsWithEOF(toks)
    ensures r.AWritten? ==> EndsWith(r.out, End(w))
    ensures r.ALexError? ==> r.tok.typ == Error && r.tok in toks
    ensures (forall k | 0 <= k < |toks| :: toks[k].typ != Error) ==> !r.ALexError?
    decreases |toks|
  {
    var t := toks[0];
    if t.typ == EOF then
      EndsWithConcat(st.out, End(w));
      AWritten(st.out + End(w))
    else if t.typ == Error then ALexError(st.out, t)
    else
      assert toks == [t] + toks[1..];
      match StepAsWritten(w, st, t)
      case Panic => Panicked
      case Ok(next) => RunAsWritten(w, next, toks[1..])
  }

  /** Wrapping as written: the empty text gives the empty output, and no
      error is ever reported, but a break may panic. */
  function BytesAsWritten(w: Wrapper, s: string): (r: AOutcome)
    ensures s == [] ==> r == AWritten([])
    ensures !r.ALexError?
    ensures r.AWritten? && s != [] ==> EndsWith(r.out, End(w))
  {
    if s == [] then AWritten([])
    else
      LexNoError(s);
      RunAsWritten(w, Abs(Begin(w)), Lex(s))
  }

  /** Whether the prior token is a space run that was skipped or dropped. */
  predicate Elided(st: State)
  {
    st.prior.typ == Space && !st.priorWritten
  }

  /** Breaking a line as written is the model's line break unless the prior
      space run was elided. */
  lemma NlAgrees(w: Wrapper, st: State)
    requires Inv(w, st) && !Elided(st)
    ensures NlAsWritten(w, Abs(st)) == Ok(Nl(w, st))
  {
    var t := Trim(w, st);
    assert TrimAsWritten(Abs(st)).Ok? && TrimAsWritten(Abs(st)).value == t;
    assert CleanInBounds(w.style, t);
    CleanAgrees(w.style, t);
    KeptIs(w, st);
    NlIs(w, st);
  }

  /** The source's step and the model's agree on every state whose prior
      token is not an elided space run: the two differ only in the take-back
      after such a run. */
  lemma StepAgrees(w: Wrapper, st: State, t: Token)
    requires Inv(w, st) && t.typ != EOF && t.typ != Error && !Elided(st)
    ensures StepAsWritten(w, Abs(st), t) == Ok(Abs(Step(w, st, t)))
  {
    if !(t.typ == Space && st.prior.typ == NL) && (t.typ == NL || st.col + Cost(w, t) >= w.length) {
      NlAgrees(w, st);
    }
  }

  /** A stream without space tokens never elides one, so the source and the
      model write the same. */
  lemma {:induction false} RunAgrees(w: Wrapper, st: State, toks: seq<Token>)
    requires Inv(w, st) && !Elided(st) && EndsWithEOF(toks)
    requires forall k | 0 <= k < |toks| :: toks[k].typ != Space
    ensures RunAsWritten(w, Abs(st), toks) == match Run(w, st, toks)
      case Written(out) => AWritten(out)
      case LexError(partial, tok) => ALexError(partial, tok)
    decreases |toks|
  {
    var t := toks[0];
    if t.typ != EOF && t.typ != Error {
      StepAgrees(w, st, t);
      var rest := toks[1..];
      forall k | 0 <= k < |rest|
        ensures rest[k].typ != Space
      {
        assert rest[k] == toks[k + 1];
      }
      RunAgrees(w, Step(w, st, t), rest);
    }
  }

  /** The tab-size setter as written: the indent width of the text under the
      new tab size is added to the old width. */
  function SetTabSizeAsWritten(w: Wrapper, i: int): (r: Wrapper)
    ensures r.tabSize == i && r.indentText == w.indentText
    ensures r.indentLen == w.indentLen + |w.indentText| + (i - 1) * Count(w.indentText, TabByte)
  {
    w.(tabSize := i, indentLen := w.indentLen + IndentWidth(w.indentText, i))
  }

  /** The two setters agree exactly when the old width was zero, which for
      a text set through `SetIndentText` means no indent text at all. */
  lemma SetTabSizeAgrees(w: Wrapper, s: string, i: int)
    ensures var v := SetIndentText(w, s);
      SetTabSizeAsWritten(v, i) == SetTabSize(v, i) <==> v.indentLen == 0
  {
  }
}
