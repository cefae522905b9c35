/** A worked example of the tokenizer on a short ASCII input. */
module LexerExample {
  import opened Utf8
  import opened Classify
  import opened Lexer

  lemma HelloTail(s: string)
    requires s == "hello world"
    ensures LexText(s, 6, 11) == [Token(Text, 6, 5, "world"), Token(EOF, 11, 0, "")]
  {
    assert IsAscii(s);
    EndStep(s, 6);
    AsciiOffset(s, 6);
    AsciiOffset(s, 11);
    assert s[6..11] == "world";
  }

  lemma HelloLetters(s: string)
    requires s == "hello world"
    ensures forall k | 0 <= k < 5 :: BreakClass(s[k]) == TextClass
  {
    assert BreakClass('h') == TextClass && BreakClass('e') == TextClass;
    assert BreakClass('l') == TextClass && BreakClass('o') == TextClass;
  }

  lemma WorldLetters(s: string)
    requires s == "hello world"
    ensures forall k | 6 <= k < 11 :: BreakClass(s[k]) == TextClass
  {
    assert BreakClass('w') == TextClass && BreakClass('o') == TextClass && BreakClass('r') == TextClass;
    assert BreakClass('l') == TextClass && BreakClass('d') == TextClass;
  }

  lemma HelloPending(s: string)
    requires s == "hello world"
    ensures Pending(s, 0, 5) == [Token(Text, 0, 5, "hello")]
  {
    assert s[0..5] == "hello";
    assert s[..0] == "";
  }

  lemma HelloBlank(s: string)
    requires s == "hello world"
    ensures BreakClass(s[5]) == SpaceClass
    ensures BreakState(s, 5, SpaceClass) == ([Token(Space, 5, 1, " ")], 6)
  {
    assert BreakClass(' ') == SpaceClass && !InSpaceRun('w');
    assert RunEnd(s, 6, SpaceClass) == 6;
    assert s[5..6] == " ";
    assert s[..5] == "hello";
    assert |Encode("hello")| == 5;
  }

  lemma HelloSpace(s: string)
    requires s == "hello world"
    ensures LexText(s, 0, 5) == [Token(Text, 0, 5, "hello"), Token(Space, 5, 1, " ")] + LexText(s, 6, 6)
  {
    HelloBlank(s);
    HelloPending(s);
    BreakStep(s, 0, 5);
  }

  /** "hello world" becomes a text token at byte 0, a space token at 5,
      a text token at 6 and the EOF token at 11. */
  lemma HelloWorld()
    ensures Lex("hello world") == [Token(Text, 0, 5, "hello"), Token(Space, 5, 1, " "), Token(Text, 6, 5, "world"), Token(EOF, 11, 0, "")]
  {
    var s := "hello world";
    HelloLetters(s);
    WorldLetters(s);
    TextRun(s, 0, 0, 5);
    HelloSpace(s);
    TextRun(s, 6, 6, 11);
    HelloTail(s);
  }

  /** A space followed by a tab is one space run. */
  lemma BlankTabRun(s: string)
    requires s == " \t"
    ensures BreakClass(s[0]) == SpaceClass
    ensures BreakState(s, 0, SpaceClass) == ([Token(Space, 0, 2, " \t")], 2)
  {
    assert BreakClass(' ') == SpaceClass && InSpaceRun('\t');
    assert RunEnd(s, 2, SpaceClass) == 2;
    assert RunEnd(s, 1, SpaceClass) == 2;
    assert IsAscii(s);
    AsciiOffset(s, 0);
    assert s[0..2] == " \t";
  }

  /** " \t" becomes a single Space token holding both code points, then EOF
      at byte 2. */
  lemma BlankTab()
    ensures Lex(" \t") == [Token(Space, 0, 2, " \t"), Token(EOF, 2, 0, "")]
  {
    var s := " \t";
    BlankTabRun(s);
    BreakStep(s, 0, 0);
    EndStep(s, 2);
    assert IsAscii(s);
    AsciiOffset(s, 2);
  }

  lemma ReturnSplitsFirst(s: string)
    requires s == " \r "
    ensures BreakClass(s[0]) == SpaceClass
    ensures BreakState(s, 0, SpaceClass) == ([Token(Space, 0, 1, " ")], 1)
  {
    assert BreakClass(' ') == SpaceClass && !InSpaceRun('\r');
    assert RunEnd(s, 1, SpaceClass) == 1;
    assert IsAscii(s);
    AsciiOffset(s, 0);
    assert s[0..1] == " ";
  }

  lemma ReturnSplitsSecond(s: string)
    requires s == " \r "
    ensures LexText(s, 2, 2) == [Token(Space, 2, 1, " "), Token(EOF, 3, 0, "")]
  {
    assert BreakClass(' ') == SpaceClass;
    assert RunEnd(s, 3, SpaceClass) == 3;
    assert IsAscii(s);
    AsciiOffset(s, 2);
    AsciiOffset(s, 3);
    assert s[2..3] == " ";
    BreakStep(s, 2, 2);
    EndStep(s, 3);
  }

  /** A carriage return inside a run of spaces splits it: " \r " becomes
      two Space tokens, at bytes 0 and 2, with the return between them
      dropped. */
  lemma ReturnSplitsRun()
    ensures Lex(" \r ") == [Token(Space, 0, 1, " "), Token(Space, 2, 1, " "), Token(EOF, 3, 0, "")]
  {
    var s := " \r ";
    ReturnSplitsFirst(s);
    BreakStep(s, 0, 0);
    ReturnStep(s, 1, 1);
    ReturnSplitsSecond(s);
  }
}
