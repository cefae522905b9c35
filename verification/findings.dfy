/** Inputs on which the source's line breaking goes wrong. For each input
    this module proves what the tokenizer, the source's fold (`AsWritten`)
    and the corrected fold (`Wrap`) give. */
module Findings {
  import opened Utf8
  import opened Classify
  import opened Lexer
  import opened Wrap
  import opened AsWritten

  // ---------------------------------------------------------------------
  // Tokenizing ASCII inputs

  /** The pending text of an ASCII input as a token. */
  lemma AsciiPending(s: string, start: nat, pos: nat)
    requires IsAscii(s) && start < pos <= |s|
    ensures Pending(s, start, pos) == [Token(Text, start, pos - start, s[start..pos])]
  {
    AsciiOffset(s, start);
  }

  /** A newline in an ASCII input becomes a newline token. */
  lemma AsciiNewline(s: string, pos: nat)
    requires IsAscii(s) && pos < |s| && s[pos] == '\n'
    ensures BreakClass(s[pos]) == NLClass
    ensures BreakState(s, pos, NLClass) == ([Token(NL, pos, 1, "\n")], pos + 1)
  {
    ControlClasses(s[pos]);
    AsciiOffset(s, pos);
    assert s[pos..pos + 1] == "\n";
  }

  /** A run of blanks in an ASCII input that ends at `e` becomes one space
      token. */
  lemma AsciiBlanks(s: string, pos: nat, e: nat)
    requires IsAscii(s) && pos < e <= |s|
    requires forall k | pos <= k < e :: s[k] == ' '
    requires e == |s| || !InSpaceRun(s[e])
    ensures BreakClass(s[pos]) == SpaceClass
    ensures BreakState(s, pos, SpaceClass) == ([Token(Space, pos, e - pos, s[pos..e])], e)
  {
    SpaceClassIsDocumented(' ');
    assert InSpaceRun(' ');
    AsciiOffset(s, pos);
  }

  /** The text state at a break point whose tokens are known. */
  lemma AtBreak(s: string, start: nat, pos: nat, cls: Class, emitted: seq<Token>, e: nat)
    requires start <= pos < |s| && cls != TextClass
    requires BreakClass(s[pos]) == cls && BreakState(s, pos, cls) == (emitted, e)
    ensures LexText(s, start, pos) == Pending(s, start, pos) + emitted + LexText(s, e, e)
  {
    BreakStep(s, start, pos);
  }

  /** The text state at the end of an ASCII input with nothing pending. */
  lemma AsciiEndEmpty(s: string)
    requires IsAscii(s)
    ensures LexText(s, |s|, |s|) == [Token(EOF, |s|, 0, "")]
  {
    EndStep(s, |s|);
    AsciiOffset(s, |s|);
  }

  /** The text state at the end of an ASCII input. */
  lemma AsciiEnd(s: string, start: nat)
    requires IsAscii(s) && start < |s|
    ensures LexText(s, start, |s|) == [Token(Text, start, |s| - start, s[start..]), Token(EOF, |s|, 0, "")]
  {
    EndStep(s, start);
    AsciiPending(s, start, |s|);
    AsciiOffset(s, |s|);
    assert s[..|s|] == s;
  }

  // ---------------------------------------------------------------------
  // Unfolding the two folds one token at a time

  lemma RunUnfold(w: Wrapper, st: State, toks: seq<Token>, next: State)
    requires Inv(w, st) && EndsWithEOF(toks) && toks[0].typ != EOF && toks[0].typ != Error
    requires Step(w, st, toks[0]) == next
    ensures Run(w, st, toks) == Run(w, next, toks[1..])
  {
  }

  lemma RunAsWrittenUnfold(w: Wrapper, st: AState, toks: seq<Token>, next: AState)
    requires EndsWithEOF(toks) && toks[0].typ != EOF && toks[0].typ != Error
    requires StepAsWritten(w, st, toks[0]).Ok? && StepAsWritten(w, st, toks[0]).value == next
    ensures RunAsWritten(w, st, toks) == RunAsWritten(w, next, toks[1..])
  {
  }

  lemma RunAsWrittenPanics(w: Wrapper, st: AState, toks: seq<Token>)
    requires EndsWithEOF(toks) && toks[0].typ != EOF && toks[0].typ != Error
    requires StepAsWritten(w, st, toks[0]).Panic?
    ensures RunAsWritten(w, st, toks) == Panicked
  {
  }

  lemma BytesRuns(w: Wrapper, s: string, toks: seq<Token>)
    requires s != [] && Lex(s) == toks
    ensures Bytes(w, s) == Run(w, Begin(w), toks)
    ensures BytesAsWritten(w, s) == RunAsWritten(w, Abs(Begin(w)), toks)
  {
  }

  /** An ASCII text's encoding, written out. */
  lemma AsciiBytes(s: string, b: seq<Byte>)
    requires IsAscii(s) && |b| == |s|
    requires forall k | 0 <= k < |s| :: b[k] == s[k] as int
    ensures Encode(s) == b
  {
    EncodeAscii(s);
  }

  // ---------------------------------------------------------------------
  // A blank line holding one space

  const BlankLineText: string := "a\n \nb"

  const BlankLineTokens: seq<Token> := [
    Token(Text, 0, 1, "a"), Token(NL, 1, 1, "\n"), Token(Space, 2, 1, " "),
    Token(NL, 3, 1, "\n"), Token(Text, 4, 1, "b"), Token(EOF, 5, 0, "")]

  predicate IsBlankLineText(s: string)
  {
    IsAscii(s) && |s| == 5 && s[0] == 'a' && s[1] == '\n' && s[2] == ' ' && s[3] == '\n' && s[4] == 'b'
  }

  lemma BlankLine0(s: string)
    requires IsBlankLineText(s)
    ensures LexText(s, 0, 0) == LexText(s, 0, 1)
  {
    assert BreakClass('a') == TextClass;
    TextStep(s, 0, 0);
  }

  lemma BlankLine1(s: string)
    requires IsBlankLineText(s)
    ensures LexText(s, 0, 1) == [Token(Text, 0, 1, "a"), Token(NL, 1, 1, "\n")] + LexText(s, 2, 2)
  {
    AsciiNewline(s, 1);
    AtBreak(s, 0, 1, NLClass, [Token(NL, 1, 1, "\n")], 2);
    AsciiPending(s, 0, 1);
    assert s[0..1] == "a";
    assert Pending(s, 0, 1) == [Token(Text, 0, 1, "a")];
    assert [Token(Text, 0, 1, "a")] + [Token(NL, 1, 1, "\n")] + LexText(s, 2, 2)
      == [Token(Text, 0, 1, "a"), Token(NL, 1, 1, "\n")] + LexText(s, 2, 2);
  }

  lemma BlankLine2(s: string)
    requires IsBlankLineText(s)
    ensures LexText(s, 2, 2) == [Token(Space, 2, 1, " ")] + LexText(s, 3, 3)
  {
    assert !InSpaceRun('\n');
    AsciiBlanks(s, 2, 3);
    assert s[2..3] == " ";
    AtBreak(s, 2, 2, SpaceClass, [Token(Space, 2, 1, " ")], 3);
  }

  lemma BlankLine3(s: string)
    requires IsBlankLineText(s)
    ensures LexText(s, 3, 3) == [Token(NL, 3, 1, "\n")] + LexText(s, 4, 4)
  {
    AsciiNewline(s, 3);
    AtBreak(s, 3, 3, NLClass, [Token(NL, 3, 1, "\n")], 4);
  }

  lemma BlankLine4(s: string)
    requires IsBlankLineText(s)
    ensures LexText(s, 4, 4) == [Token(Text, 4, 1, "b"), Token(EOF, 5, 0, "")]
  {
    assert BreakClass('b') == TextClass;
    TextStep(s, 4, 4);
    AsciiEnd(s, 4);
    assert s[4..] == "b";
  }

  lemma BlankLineFrom3(s: string)
    requires IsBlankLineText(s)
    ensures LexText(s, 3, 3) == [Token(NL, 3, 1, "\n"), Token(Text, 4, 1, "b"), Token(EOF, 5, 0, "")]
  {
    BlankLine3(s);
    BlankLine4(s);
  }

  lemma BlankLineFrom2(s: string)
    requires IsBlankLineText(s)
    ensures LexText(s, 2, 2) == BlankLineTokens[2..]
  {
    BlankLine2(s);
    BlankLineFrom3(s);
  }

  lemma BlankLineFrom0(s: string)
    requires IsBlankLineText(s)
    ensures LexText(s, 0, 0) == BlankLineTokens
  {
    BlankLine0(s);
    BlankLine1(s);
    BlankLineFrom2(s);
  }

  lemma BlankLineLex()
    ensures Lex(BlankLineText) == BlankLineTokens
  {
    assert IsBlankLineText(BlankLineText);
    BlankLineFrom0(BlankLineText);
  }

  lemma BlankLineStep0()
    ensures Step(New(), Begin(New()), BlankLineTokens[0]) == State([0x61], 1, BlankLineTokens[0], true)
  {
    AsciiBytes("a", [0x61]);
  }

  lemma BlankLineStep1()
    ensures Step(New(), State([0x61], 1, BlankLineTokens[0], true), BlankLineTokens[1])
      == State([0x61, 0x0A], 0, BlankLineTokens[1], false)
  {
  }

  /** The space after the newline is skipped. */
  lemma BlankLineStep2()
    ensures Step(New(), State([0x61, 0x0A], 0, BlankLineTokens[1], false), BlankLineTokens[2])
      == State([0x61, 0x0A], 0, BlankLineTokens[2], false)
  {
  }

  /** The newline after the skipped space takes nothing back. */
  lemma BlankLineStep3()
    ensures Step(New(), State([0x61, 0x0A], 0, BlankLineTokens[2], false), BlankLineTokens[3])
      == State([0x61, 0x0A, 0x0A], 0, BlankLineTokens[3], false)
  {
  }

  lemma BlankLineStep4()
    ensures Step(New(), State([0x61, 0x0A, 0x0A], 0, BlankLineTokens[3], false), BlankLineTokens[4])
      == State([0x61, 0x0A, 0x0A, 0x62], 1, BlankLineTokens[4], true)
  {
    AsciiBytes("b", [0x62]);
  }

  lemma BlankLineRun3()
    ensures Run(New(), State([0x61, 0x0A], 0, BlankLineTokens[2], false), BlankLineTokens[3..])
      == Written([0x61, 0x0A, 0x0A, 0x62])
  {
    var w := New();
    var t := BlankLineTokens;
    var s4 := State([0x61, 0x0A, 0x0A], 0, t[3], false);
    var s5 := State([0x61, 0x0A, 0x0A, 0x62], 1, t[4], true);
    BlankLineStep3();
    BlankLineStep4();
    RunUnfold(w, State([0x61, 0x0A], 0, t[2], false), t[3..], s4);
    assert t[3..][1..] == t[4..];
    RunUnfold(w, s4, t[4..], s5);
    assert t[4..][1..] == [Token(EOF, 5, 0, "")];
  }

  /** The model's fold over the blank-line example, token by token. */
  lemma BlankLineRun()
    ensures Run(New(), Begin(New()), BlankLineTokens) == Written([0x61, 0x0A, 0x0A, 0x62])
  {
    var w := New();
    var t := BlankLineTokens;
    var s1 := State([0x61], 1, t[0], true);
    var s2 := State([0x61, 0x0A], 0, t[1], false);
    var s3 := State([0x61, 0x0A], 0, t[2], false);
    BlankLineStep0();
    BlankLineStep1();
    BlankLineStep2();
    RunUnfold(w, Begin(w), t, s1);
    RunUnfold(w, s1, t[1..], s2);
    assert t[1..][1..] == t[2..];
    RunUnfold(w, s2, t[2..], s3);
    assert t[2..][1..] == t[3..];
    BlankLineRun3();
  }

  /** The source's fold over the blank-line example: the newline token after
      the skipped space takes back one byte, the newline before it. */
  lemma BlankLineRunAsWritten()
    ensures RunAsWritten(New(), Abs(Begin(New())), BlankLineTokens) == AWritten([0x61, 0x0A, 0x62])
  {
    var w := New();
    var t := BlankLineTokens;
    var s1 := AState([0x61], 1, t[0]);
    var s2 := AState([0x61, 0x0A], 0, t[1]);
    var s3 := AState([0x61, 0x0A], 0, t[2]);
    RunAsWrittenUnfold(w, Abs(Begin(w)), t, s1);
    RunAsWrittenUnfold(w, s1, t[1..], s2);
    assert t[1..][1..] == t[2..];
    RunAsWrittenUnfold(w, s2, t[2..], s3);
    assert t[2..][1..] == t[3..];
    BlankLineRunAsWritten3();
  }

  /** From the second newline on: it takes back the skipped blank, which is
      the first newline. */
  lemma BlankLineRunAsWritten3()
    ensures RunAsWritten(New(), AState([0x61, 0x0A], 0, BlankLineTokens[2]), BlankLineTokens[3..])
      == AWritten([0x61, 0x0A, 0x62])
  {
    var w := New();
    var t := BlankLineTokens;
    var s3 := AState([0x61, 0x0A], 0, t[2]);
    var s4 := AState([0x61, 0x0A], 0, t[3]);
    var s5 := AState([0x61, 0x0A, 0x62], 1, t[4]);
    RunAsWrittenUnfold(w, s3, t[3..], s4);
    assert t[3..][1..] == t[4..];
    RunAsWrittenUnfold(w, s4, t[4..], s5);
    assert t[4..][1..] == [Token(EOF, 5, 0, "")];
  }


  /** As written, the line holding one space disappears together with the
      newline before it: "a\n \nb" becomes "a\nb". The model keeps the
      empty line: "a\n\nb". */
  lemma BlankLineLost()
    ensures BytesAsWritten(New(), BlankLineText) == AWritten([0x61, 0x0A, 0x62])
    ensures Bytes(New(), BlankLineText) == Written([0x61, 0x0A, 0x0A, 0x62])
  {
    BlankLineLex();
    BytesRuns(New(), BlankLineText, BlankLineTokens);
    BlankLineRunAsWritten();
    BlankLineRun();
  }


  // ---------------------------------------------------------------------
  // A line holding only spaces, after a newline

  const SpacesLineText: string := "\n  \n"

  const SpacesLineTokens: seq<Token> := [
    Token(NL, 0, 1, "\n"), Token(Space, 1, 2, "  "), Token(NL, 3, 1, "\n"), Token(EOF, 4, 0, "")]

  predicate IsSpacesLineText(s: string)
  {
    IsAscii(s) && |s| == 4 && s[0] == '\n' && s[1] == ' ' && s[2] == ' ' && s[3] == '\n'
  }

  lemma SpacesLine0(s: string)
    requires IsSpacesLineText(s)
    ensures LexText(s, 0, 0) == [Token(NL, 0, 1, "\n")] + LexText(s, 1, 1)
  {
    AsciiNewline(s, 0);
    AtBreak(s, 0, 0, NLClass, [Token(NL, 0, 1, "\n")], 1);
  }

  lemma SpacesLine1(s: string)
    requires IsSpacesLineText(s)
    ensures LexText(s, 1, 1) == [Token(Space, 1, 2, "  ")] + LexText(s, 3, 3)
  {
    assert !InSpaceRun('\n');
    AsciiBlanks(s, 1, 3);
    assert s[1..3] == "  ";
    AtBreak(s, 1, 1, SpaceClass, [Token(Space, 1, 2, "  ")], 3);
  }

  lemma SpacesLine3(s: string)
    requires IsSpacesLineText(s)
    ensures LexText(s, 3, 3) == [Token(NL, 3, 1, "\n"), Token(EOF, 4, 0, "")]
  {
    AsciiNewline(s, 3);
    AtBreak(s, 3, 3, NLClass, [Token(NL, 3, 1, "\n")], 4);
    AsciiEndEmpty(s);
  }

  lemma SpacesLineFrom1(s: string)
    requires IsSpacesLineText(s)
    ensures LexText(s, 1, 1) == SpacesLineTokens[1..]
  {
    SpacesLine1(s);
    SpacesLine3(s);
  }

  lemma SpacesLineLex()
    ensures Lex(SpacesLineText) == SpacesLineTokens
  {
    assert IsSpacesLineText(SpacesLineText);
    SpacesLine0(SpacesLineText);
    SpacesLineFrom1(SpacesLineText);
  }

  lemma SpacesLineRun()
    ensures Run(New(), Begin(New()), SpacesLineTokens) == Written([0x0A, 0x0A])
  {
    var w := New();
    var t := SpacesLineTokens;
    var s1 := State([0x0A], 0, t[0], false);
    var s2 := State([0x0A], 0, t[1], false);
    var s3 := State([0x0A, 0x0A], 0, t[2], false);
    RunUnfold(w, Begin(w), t, s1);
    RunUnfold(w, s1, t[1..], s2);
    RunUnfold(w, s2, t[2..], s3);
  }

  /** The newline token after the skipped two-blank run tries to take back
      two bytes of a one-byte output. */
  lemma SpacesLineRunAsWritten()
    ensures RunAsWritten(New(), Abs(Begin(New())), SpacesLineTokens) == Panicked
  {
    var w := New();
    var t := SpacesLineTokens;
    var s1 := AState([0x0A], 0, t[0]);
    var s2 := AState([0x0A], 0, t[1]);
    RunAsWrittenUnfold(w, Abs(Begin(w)), t, s1);
    RunAsWrittenUnfold(w, s1, t[1..], s2);
    assert |Encode("  ")| == 2;
    RunAsWrittenPanics(w, s2, t[2..]);
  }

  /** As written, "\n  \n" slices the output below its start and panics;
      the model writes the two newlines. */
  lemma SpacesLinePanics()
    ensures BytesAsWritten(New(), SpacesLineText) == Panicked
    ensures Bytes(New(), SpacesLineText) == Written([0x0A, 0x0A])
  {
    SpacesLineLex();
    BytesRuns(New(), SpacesLineText, SpacesLineTokens);
    SpacesLineRunAsWritten();
    SpacesLineRun();
  }

  // ---------------------------------------------------------------------
  // A dropped space run before a word longer than the line

  const LongWordText: string := "abcd  efghij"

  const LongWordTokens: seq<Token> := [
    Token(Text, 0, 4, "abcd"), Token(Space, 4, 2, "  "), Token(Text, 6, 6, "efghij"), Token(EOF, 12, 0, "")]

  /** A lower-case ASCII letter is text. */
  lemma LetterIsText(c: char)
    requires 'a' <= c <= 'z'
    ensures BreakClass(c) == TextClass
  {
  }

  predicate IsLongWordText(s: string)
  {
    && IsAscii(s) && |s| == 12 && s[4] == ' ' && s[5] == ' '
    && s[0..4] == "abcd" && s[6..] == "efghij"
    && (forall k | 0 <= k < 4 :: BreakClass(s[k]) == TextClass)
    && (forall k | 6 <= k < 12 :: BreakClass(s[k]) == TextClass)
  }

  lemma LongWordFacts()
    ensures IsLongWordText(LongWordText)
  {
    var s := LongWordText;
    assert IsAscii(s);
    forall k | 0 <= k < 4
      ensures BreakClass(s[k]) == TextClass
    {
      LetterIsText(s[k]);
    }
    forall k | 6 <= k < 12
      ensures BreakClass(s[k]) == TextClass
    {
      LetterIsText(s[k]);
    }
  }

  lemma LongWordBlankRun(s: string)
    requires IsLongWordText(s)
    ensures BreakClass(s[4]) == SpaceClass
    ensures BreakState(s, 4, SpaceClass) == ([Token(Space, 4, 2, "  ")], 6)
  {
    assert s[6] == 'e' by {
      assert s[6..][0] == s[6];
    }
    assert !InSpaceRun('e');
    AsciiBlanks(s, 4, 6);
    assert s[4..6] == "  ";
  }

  lemma LongWordBlanks(s: string)
    requires IsLongWordText(s)
    ensures LexText(s, 0, 4) == [Token(Text, 0, 4, "abcd"), Token(Space, 4, 2, "  ")] + LexText(s, 6, 6)
  {
    LongWordBlankRun(s);
    AtBreak(s, 0, 4, SpaceClass, [Token(Space, 4, 2, "  ")], 6);
    AsciiPending(s, 0, 4);
  }

  lemma LongWordTail(s: string)
    requires IsLongWordText(s)
    ensures LexText(s, 6, 6) == [Token(Text, 6, 6, "efghij"), Token(EOF, 12, 0, "")]
  {
    TextRun(s, 6, 6, 12);
    AsciiEnd(s, 6);
  }

  lemma LongWordHead(s: string)
    requires IsLongWordText(s)
    ensures LexText(s, 0, 0) == LexText(s, 0, 4)
  {
    TextRun(s, 0, 0, 4);
  }

  lemma LongWordLex()
    ensures Lex(LongWordText) == LongWordTokens
  {
    LongWordFacts();
    LongWordHead(LongWordText);
    LongWordBlanks(LongWordText);
    LongWordTail(LongWordText);
  }

  /** A wrapper with lines of five columns. */
  function Narrow(): Wrapper
  {
    New().(length := 5)
  }

  lemma LongWordBytes()
    ensures Encode("abcd") == [0x61, 0x62, 0x63, 0x64]
    ensures Encode("efghij") == [0x65, 0x66, 0x67, 0x68, 0x69, 0x6A]
  {
    AsciiBytes("abcd", [0x61, 0x62, 0x63, 0x64]);
    AsciiBytes("efghij", [0x65, 0x66, 0x67, 0x68, 0x69, 0x6A]);
  }

  const Abcd: seq<Byte> := [0x61, 0x62, 0x63, 0x64]
  const Efghij: seq<Byte> := [0x65, 0x66, 0x67, 0x68, 0x69, 0x6A]

  lemma LongWordStep0()
    ensures Step(Narrow(), Begin(Narrow()), LongWordTokens[0]) == State(Abcd, 4, LongWordTokens[0], true)
  {
    LongWordBytes();
  }

  /** The blanks do not fit: the line is broken and they are dropped. */
  lemma LongWordStep1()
    ensures Step(Narrow(), State(Abcd, 4, LongWordTokens[0], true), LongWordTokens[1])
      == State(Abcd + [0x0A], 0, LongWordTokens[1], false)
  {
  }

  /** The word does not fit: the line is broken again, taking nothing back. */
  lemma LongWordStep2()
    ensures Step(Narrow(), State(Abcd + [0x0A], 0, LongWordTokens[1], false), LongWordTokens[2])
      == State(Abcd + [0x0A, 0x0A] + Efghij, 6, LongWordTokens[2], true)
  {
    LongWordBytes();
  }

  lemma LongWordRun()
    ensures Run(Narrow(), Begin(Narrow()), LongWordTokens) == Written(Abcd + [0x0A, 0x0A] + Efghij)
  {
    var w := Narrow();
    var t := LongWordTokens;
    LongWordStep0();
    LongWordStep1();
    RunUnfold(w, Begin(w), t, State(Abcd, 4, t[0], true));
    RunUnfold(w, State(Abcd, 4, t[0], true), t[1..], State(Abcd + [0x0A], 0, t[1], false));
    assert t[1..][1..] == t[2..];
    LongWordRun2();
  }

  /** From the long word on: it goes on a line of its own. */
  lemma LongWordRun2()
    ensures Run(Narrow(), State(Abcd + [0x0A], 0, LongWordTokens[1], false), LongWordTokens[2..])
      == Written(Abcd + [0x0A, 0x0A] + Efghij)
  {
    var w := Narrow();
    var t := LongWordTokens;
    LongWordStep2();
    RunUnfold(w, State(Abcd + [0x0A], 0, t[1], false), t[2..], State(Abcd + [0x0A, 0x0A] + Efghij, 6, t[2], true));
    assert t[2..][1..] == [Token(EOF, 12, 0, "")];
  }

  lemma LongWordStepAsWritten0()
    ensures StepAsWritten(Narrow(), Abs(Begin(Narrow())), LongWordTokens[0]).Ok?
    ensures StepAsWritten(Narrow(), Abs(Begin(Narrow())), LongWordTokens[0]).value == AState(Abcd, 4, LongWordTokens[0])
  {
    LongWordBytes();
  }

  lemma LongWordStepAsWritten1()
    ensures StepAsWritten(Narrow(), AState(Abcd, 4, LongWordTokens[0]), LongWordTokens[1]).Ok?
    ensures StepAsWritten(Narrow(), AState(Abcd, 4, LongWordTokens[0]), LongWordTokens[1]).value
      == AState(Abcd + [0x0A], 0, LongWordTokens[1])
  {
  }

  /** The word does not fit, and breaking the line takes back two bytes for
      the dropped blanks: the newline and the "d". */
  lemma LongWordStepAsWritten2()
    ensures StepAsWritten(Narrow(), AState(Abcd + [0x0A], 0, LongWordTokens[1]), LongWordTokens[2]).Ok?
    ensures StepAsWritten(Narrow(), AState(Abcd + [0x0A], 0, LongWordTokens[1]), LongWordTokens[2]).value
      == AState(Abcd[..3] + [0x0A] + Efghij, 6, LongWordTokens[2])
  {
    LongWordBytes();
    assert |Encode("  ")| == 2;
    assert (Abcd + [0x0A])[..3] == Abcd[..3];
  }

  lemma LongWordRunAsWritten2()
    ensures RunAsWritten(Narrow(), AState(Abcd + [0x0A], 0, LongWordTokens[1]), LongWordTokens[2..])
      == AWritten(Abcd[..3] + [0x0A] + Efghij)
  {
    var t := LongWordTokens;
    LongWordStepAsWritten2();
    RunAsWrittenUnfold(Narrow(), AState(Abcd + [0x0A], 0, t[1]), t[2..], AState(Abcd[..3] + [0x0A] + Efghij, 6, t[2]));
    assert t[2..][1..] == [Token(EOF, 12, 0, "")];
  }

  lemma LongWordRunAsWritten1()
    ensures RunAsWritten(Narrow(), AState(Abcd, 4, LongWordTokens[0]), LongWordTokens[1..])
      == AWritten(Abcd[..3] + [0x0A] + Efghij)
  {
    var t := LongWordTokens;
    LongWordStepAsWritten1();
    RunAsWrittenUnfold(Narrow(), AState(Abcd, 4, t[0]), t[1..], AState(Abcd + [0x0A], 0, t[1]));
    assert t[1..][1..] == t[2..];
    LongWordRunAsWritten2();
  }

  lemma LongWordRunAsWritten()
    ensures RunAsWritten(Narrow(), Abs(Begin(Narrow())), LongWordTokens) == AWritten(Abcd[..3] + [0x0A] + Efghij)
  {
    var t := LongWordTokens;
    LongWordStepAsWritten0();
    RunAsWrittenUnfold(Narrow(), Abs(Begin(Narrow())), t, AState(Abcd, 4, t[0]));
    LongWordRunAsWritten1();
  }

  /** As written, with lines of five columns "abcd  efghij" loses its "d":
      "abc\nefghij". The model keeps the text: "abcd", an empty line, then
      "efghij" on a line of its own. */
  lemma LongWordLosesText()
    ensures BytesAsWritten(Narrow(), LongWordText) == AWritten(Abcd[..3] + [0x0A] + Efghij)
    ensures Bytes(Narrow(), LongWordText) == Written(Abcd + [0x0A, 0x0A] + Efghij)
  {
    LongWordLex();
    BytesRuns(Narrow(), LongWordText, LongWordTokens);
    LongWordRunAsWritten();
    LongWordRun();
  }

  // ---------------------------------------------------------------------
  // Setting the tab size after the indent text

  /** As written, setting the tab size to 4 after an indent of one tab
      leaves an indent width of 12, the old 8 plus the new 4; the model
      recomputes it as 4. */
  lemma TabSizeAccumulates()
    ensures SetTabSizeAsWritten(SetIndentText(New(), "\t"), 4).indentLen == 12
    ensures SetTabSize(SetIndentText(New(), "\t"), 4).indentLen == 4
  {
    var v := SetIndentText(New(), "\t");
    assert Encode("\t") == [TabByte];
    assert v.indentText == [TabByte];
    assert Count([TabByte], TabByte) == 1;
  }
}
