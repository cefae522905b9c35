/** The tokenizer: a state machine that splits text into runs of one break
    class. Text accumulates until a break point; a break point's code point(s)
    become a token of their own: one token per tab and per newline, one token
    per maximal run of spaces (tab included) or of hyphens. Carriage returns
    are consumed and dropped. The stream always ends with one empty EOF token
    placed at the end of the input.

    The source runs this machine on a goroutine and hands tokens over a
    channel one at a time; here it is a function from the whole input to the
    whole token sequence. */
module Lexer {
  import opened Utf8
  import opened Classify

  /** A token: its type, the byte offset of its first code point in the
      input, the number of code points it spans, and its text. */
  datatype Token = Token(typ: TokenType, pos: int, len: int, value: string)

  /** The byte offset of code point `i` of `s`. */
  function ByteOffset(s: string, i: nat): nat
    requires i <= |s|
  {
    |Encode(s[..i])|
  }

  /** In an ASCII input the byte offset of a code point is its index. */
  lemma AsciiOffset(s: string, i: nat)
    requires IsAscii(s) && i <= |s|
    ensures ByteOffset(s, i) == i
  {
    assert IsAscii(s[..i]) by {
      forall k | 0 <= k < i
        ensures s[..i][k] as int < 0x80
      {
        assert s[..i][k] == s[k];
      }
    }
    EncodeAscii(s[..i]);
  }

  /** The token's text sits at its byte offset in the encoded input. */
  ghost predicate Located(s: string, t: Token)
  {
    && 0 <= t.pos
    && t.pos + |Encode(t.value)| <= |Encode(s)|
    && Encode(s)[t.pos .. t.pos + |Encode(t.value)|] == Encode(t.value)
  }

  /** Emits the pending input `s[i..j]` as a token of type `typ`. */
  function Emit(s: string, typ: TokenType, i: nat, j: nat): (t: Token)
    requires i <= j <= |s|
  {
    Token(typ, ByteOffset(s, i), j - i, s[i..j])
  }

  /** An emitted token's text sits at its byte offset. */
  lemma EmitLocated(s: string, typ: TokenType, i: nat, j: nat)
    requires i <= j <= |s|
    ensures Located(s, Emit(s, typ, i, j))
  {
    assert s == s[..i] + s[i..j] + s[j..];
    EncodeAppend(s[..i] + s[i..j], s[j..]);
    EncodeAppend(s[..i], s[i..j]);
  }

  /** Whether `c` extends a run of class `cls` (space or hyphen). */
  predicate InRun(c: char, cls: Class)
  {
    if cls == SpaceClass then InSpaceRun(c) else InHyphenRun(c)
  }

  /** The end of the maximal run of class `cls` that starts at `i`. */
  function RunEnd(s: string, i: nat, cls: Class): (e: nat)
    requires i <= |s|
    ensures i <= e <= |s|
    ensures forall k | i <= k < e :: InRun(s[k], cls)
    ensures e == |s| || !InRun(s[e], cls)
    decreases |s| - i
  {
    if i < |s| && InRun(s[i], cls) then RunEnd(s, i + 1, cls) else i
  }

  /** The pending text `s[start..pos]`, emitted only when it is not empty. */
  function Pending(s: string, start: nat, pos: nat): seq<Token>
    requires start <= pos <= |s|
  {
    if pos > start then [Emit(s, Text, start, pos)] else []
  }

  /** The state for the break point of class `cls` at `pos`: the tokens it
      emits and where scanning resumes. A carriage return is consumed and
      ignored; a tab or newline becomes a token of one code point; a space or
      hyphen run becomes one token that extends as far as its class does. */
  function BreakState(s: string, pos: nat, cls: Class): (r: (seq<Token>, nat))
    requires pos < |s| && cls != TextClass
    ensures pos < r.1 <= |s|
  {
    match cls
    case CRClass => ([], pos + 1)
    case NLClass => ([Emit(s, NL, pos, pos + 1)], pos + 1)
    case TabClass => ([Emit(s, Tab, pos, pos + 1)], pos + 1)
    case SpaceClass =>
      var e := RunEnd(s, pos + 1, SpaceClass);
      ([Emit(s, Space, pos, e)], e)
    case HyphenClass =>
      var e := RunEnd(s, pos + 1, HyphenClass);
      ([Emit(s, Hyphen, pos, e)], e)
  }

  /** The text-scanning state, with `s[start..pos]` pending and the code
      point at `pos` (if any) not yet looked at. A break point flushes the
      pending text and hands over to the state for its class; the end of the
      input flushes the pending text and emits EOF. */
  function LexText(s: string, start: nat, pos: nat): (toks: seq<Token>)
    requires start <= pos <= |s|
    ensures |toks| > 0
    ensures toks[|toks| - 1] == Token(EOF, ByteOffset(s, |s|), 0, [])
    decreases |s| - pos
  {
    if pos == |s| then
      Pending(s, start, pos) + [Emit(s, EOF, pos, pos)]
    else
      var cls := BreakClass(s[pos]);
      if cls == TextClass then
        LexText(s, start, pos + 1)
      else
        var (emitted, e) := BreakState(s, pos, cls);
        Pending(s, start, pos) + emitted + LexText(s, e, e)
  }

  /** The token stream of a whole input. It always ends with an empty EOF
      token placed at the byte length of the input. */
  function Lex(s: string): seq<Token>
  {
    LexText(s, 0, 0)
  }

  /** One step of the text state over a code point that is not a break
      point. */
  lemma TextStep(s: string, start: nat, pos: nat)
    requires start <= pos < |s| && BreakClass(s[pos]) == TextClass
    ensures LexText(s, start, pos) == LexText(s, start, pos + 1)
  {
  }

  /** The text state runs over code points that are not break points. */
  lemma {:induction false} TextRun(s: string, start: nat, pos: nat, end: nat)
    requires start <= pos <= end <= |s|
    requires forall k | pos <= k < end :: BreakClass(s[k]) == TextClass
    ensures LexText(s, start, pos) == LexText(s, start, end)
    decreases end - pos
  {
    if pos < end {
      TextStep(s, start, pos);
      TextRun(s, start, pos + 1, end);
    }
  }

  /** The text state at the end of the input. */
  lemma EndStep(s: string, start: nat)
    requires start <= |s|
    ensures LexText(s, start, |s|) == Pending(s, start, |s|) + [Emit(s, EOF, |s|, |s|)]
  {
  }

  /** The text state at a break point. */
  lemma BreakStep(s: string, start: nat, pos: nat)
    requires start <= pos < |s| && BreakClass(s[pos]) != TextClass
    ensures var (emitted, e) := BreakState(s, pos, BreakClass(s[pos]));
      LexText(s, start, pos) == Pending(s, start, pos) + emitted + LexText(s, e, e)
  {
  }

  // ---------------------------------------------------------------------
  // Shape of the stream

  /** A token other than the final one: of an emitted type and not empty. */
  predicate Emitted(t: Token)
  {
    (t.typ == Text || t.typ == Space || t.typ == Hyphen || t.typ == Tab || t.typ == NL) && t.value != []
  }

  predicate AllEmitted(ts: seq<Token>)
  {
    forall k | 0 <= k < |ts| :: Emitted(ts[k])
  }

  /** Every token but the last is `Emitted`. */
  predicate EmittedBeforeLast(ts: seq<Token>)
  {
    forall k | 0 <= k < |ts| - 1 :: Emitted(ts[k])
  }

  lemma EmittedConcat(head: seq<Token>, tail: seq<Token>)
    requires AllEmitted(head)
    requires |tail| > 0 && EmittedBeforeLast(tail)
    ensures EmittedBeforeLast(head + tail)
  {
    forall k | 0 <= k < |head + tail| - 1
      ensures Emitted((head + tail)[k])
    {
      if k >= |head| {
        assert (head + tail)[k] == tail[k - |head|];
      }
    }
  }

  /** The pending text and what a break state emits are `Emitted`. */
  lemma FlushEmitted(s: string, start: nat, pos: nat, cls: Class)
    requires start <= pos < |s| && cls != TextClass
    ensures AllEmitted(Pending(s, start, pos) + BreakState(s, pos, cls).0)
  {
  }

  lemma {:induction false} LexTextEmitted(s: string, start: nat, pos: nat)
    requires start <= pos <= |s|
    ensures EmittedBeforeLast(LexText(s, start, pos))
    decreases |s| - pos
  {
    if pos == |s| {
      EmittedConcat(Pending(s, start, pos), [Emit(s, EOF, pos, pos)]);
    } else {
      var cls := BreakClass(s[pos]);
      if cls == TextClass {
        LexTextEmitted(s, start, pos + 1);
      } else {
        var (emitted, e) := BreakState(s, pos, cls);
        FlushEmitted(s, start, pos, cls);
        LexTextEmitted(s, e, e);
        EmittedConcat(Pending(s, start, pos) + emitted, LexText(s, e, e));
      }
    }
  }

  /** The stream ends with one EOF token, empty and placed at the byte length
      of the input; every token before it is a non-empty Text, Space, Hyphen,
      Tab or NL token, so no CR, Error or second EOF token is ever produced. */
  lemma LexShape(s: string)
    ensures var toks := Lex(s);
      && |toks| > 0
      && toks[|toks| - 1] == Token(EOF, |Encode(s)|, 0, [])
      && forall k | 0 <= k < |toks| - 1 :: toks[k].typ in {Text, Space, Hyphen, Tab, NL} && toks[k].value != []
  {
    LexTextEmitted(s, 0, 0);
    assert s[..|s|] == s;
  }

  /** The tokenizer never emits an error token. */
  lemma LexNoError(s: string)
    ensures forall k | 0 <= k < |Lex(s)| :: Lex(s)[k].typ != Error
  {
    LexShape(s);
  }

  // ---------------------------------------------------------------------
  // Contents of each token

  /** No break point among `s[start..pos]`. */
  ghost predicate TextSpan(s: string, start: nat, pos: nat)
    requires start <= pos <= |s|
  {
    forall k | start <= k < pos :: BreakClass(s[k]) == TextClass
  }

  /** What a token of each emitted type may contain, and its length counts
      its code points. */
  ghost predicate WellFormed(t: Token)
  {
    && t.len == |t.value|
    && (t.typ == Text ==> forall k | 0 <= k < |t.value| :: BreakClass(t.value[k]) == TextClass)
    && (t.typ == Space ==> forall k | 0 <= k < |t.value| :: InSpaceRun(t.value[k]))
    && (t.typ == Hyphen ==> forall k | 0 <= k < |t.value| :: InHyphenRun(t.value[k]))
    && (t.typ == Tab ==> t.value == "\t")
    && (t.typ == NL ==> t.value == "\n")
  }

  ghost predicate AllWellFormed(ts: seq<Token>)
  {
    forall k | 0 <= k < |ts| :: WellFormed(ts[k])
  }

  lemma WellFormedConcat(a: seq<Token>, b: seq<Token>)
    requires AllWellFormed(a) && AllWellFormed(b)
    ensures AllWellFormed(a + b)
  {
    forall k | 0 <= k < |a + b|
      ensures WellFormed((a + b)[k])
    {
      if k >= |a| {
        assert (a + b)[k] == b[k - |a|];
      }
    }
  }

  lemma PendingWellFormed(s: string, start: nat, pos: nat)
    requires start <= pos <= |s|
    requires TextSpan(s, start, pos)
    ensures AllWellFormed(Pending(s, start, pos))
  {
    if pos > start {
      var t := Emit(s, Text, start, pos);
      forall k | 0 <= k < |t.value|
        ensures BreakClass(t.value[k]) == TextClass
      {
        assert t.value[k] == s[start + k];
      }
    }
  }

  /** A break state emits exactly the code points of its class: the one tab
      or newline, or a run of spaces or hyphens. */
  lemma BreakStateWellFormed(s: string, pos: nat)
    requires pos < |s| && BreakClass(s[pos]) != TextClass
    ensures AllWellFormed(BreakState(s, pos, BreakClass(s[pos])).0)
  {
    var cls := BreakClass(s[pos]);
    var (emitted, e) := BreakState(s, pos, cls);
    ControlClasses(s[pos]);
    if cls == SpaceClass {
      var t := emitted[0];
      SpaceClassIsDocumented(s[pos]);
      forall k | 0 <= k < |t.value|
        ensures InSpaceRun(t.value[k])
      {
        assert t.value[k] == s[pos + k];
      }
    } else if cls == HyphenClass {
      var t := emitted[0];
      HyphenClassIsDocumented(s[pos]);
      forall k | 0 <= k < |t.value|
        ensures InHyphenRun(t.value[k])
      {
        assert t.value[k] == s[pos + k];
      }
    } else if cls != CRClass {
      assert emitted[0].value == [s[pos]];
    }
  }

  lemma {:induction false} LexTextWellFormed(s: string, start: nat, pos: nat)
    requires start <= pos <= |s|
    requires TextSpan(s, start, pos)
    ensures AllWellFormed(LexText(s, start, pos))
    decreases |s| - pos
  {
    PendingWellFormed(s, start, pos);
    if pos == |s| {
      WellFormedConcat(Pending(s, start, pos), [Emit(s, EOF, pos, pos)]);
    } else {
      var cls := BreakClass(s[pos]);
      if cls == TextClass {
        LexTextWellFormed(s, start, pos + 1);
      } else {
        var (emitted, e) := BreakState(s, pos, cls);
        BreakStateWellFormed(s, pos);
        LexTextWellFormed(s, e, e);
        WellFormedConcat(Pending(s, start, pos), emitted);
        WellFormedConcat(Pending(s, start, pos) + emitted, LexText(s, e, e));
      }
    }
  }

  /** Every token holds only code points its type allows: text tokens no
      break point, space tokens only spaces and tabs, hyphen tokens only
      dashes, tab and newline tokens their one code point; and each token's
      length is the number of code points in its text. */
  lemma LexWellFormed(s: string)
    ensures forall t | t in Lex(s) :: WellFormed(t)
  {
    LexTextWellFormed(s, 0, 0);
  }

  // ---------------------------------------------------------------------
  // Positions

  ghost predicate AllLocated(s: string, ts: seq<Token>)
  {
    forall k | 0 <= k < |ts| :: Located(s, ts[k])
  }

  lemma LocatedConcat(s: string, a: seq<Token>, b: seq<Token>)
    requires AllLocated(s, a) && AllLocated(s, b)
    ensures AllLocated(s, a + b)
  {
    forall k | 0 <= k < |a + b|
      ensures Located(s, (a + b)[k])
    {
      if k >= |a| {
        assert (a + b)[k] == b[k - |a|];
      }
    }
  }

  lemma PendingLocated(s: string, start: nat, pos: nat)
    requires start <= pos <= |s|
    ensures AllLocated(s, Pending(s, start, pos))
  {
    if pos > start {
      EmitLocated(s, Text, start, pos);
    }
  }

  lemma BreakStateLocated(s: string, pos: nat, cls: Class)
    requires pos < |s| && cls != TextClass
    ensures AllLocated(s, BreakState(s, pos, cls).0)
  {
    var (emitted, e) := BreakState(s, pos, cls);
    if cls != CRClass {
      EmitLocated(s, emitted[0].typ, pos, e);
    }
  }

  lemma {:induction false} LexTextLocated(s: string, start: nat, pos: nat)
    requires start <= pos <= |s|
    ensures AllLocated(s, LexText(s, start, pos))
    decreases |s| - pos
  {
    PendingLocated(s, start, pos);
    if pos == |s| {
      EmitLocated(s, EOF, pos, pos);
      LocatedConcat(s, Pending(s, start, pos), [Emit(s, EOF, pos, pos)]);
    } else {
      var cls := BreakClass(s[pos]);
      if cls == TextClass {
        LexTextLocated(s, start, pos + 1);
      } else {
        var (emitted, e) := BreakState(s, pos, cls);
        BreakStateLocated(s, pos, cls);
        LexTextLocated(s, e, e);
        LocatedConcat(s, Pending(s, start, pos), emitted);
        LocatedConcat(s, Pending(s, start, pos) + emitted, LexText(s, e, e));
      }
    }
  }

  /** Each token's position is the byte offset in the encoded input at which
      its text's encoding starts. */
  lemma LexLocated(s: string)
    ensures forall t | t in Lex(s) :: Located(s, t)
    ensures CRGap(s, 0, Lex(s)[0].pos)
    ensures forall k | 0 <= k < |Lex(s)| - 1 :: CRGap(s, TokenEnd(Lex(s)[k]), Lex(s)[k + 1].pos)
  {
    LexTextLocated(s, 0, 0);
    LexTextOrdered(s, 0, 0);
  }

  // ---------------------------------------------------------------------
  // Order

  /** The byte offset just past a token's text. */
  function TokenEnd(t: Token): int
  {
    t.pos + |Encode(t.value)|
  }

  /** The bytes `from..to` of the encoded input lie in order within it and
      are all carriage returns. */
  ghost predicate CRGap(s: string, from: int, to: int)
  {
    0 <= from <= to <= |Encode(s)| && forall x | from <= x < to :: Encode(s)[x] == Return
  }

  /** Each token starts where the one before it ends, or after carriage
      returns only. */
  ghost predicate Ordered(s: string, ts: seq<Token>)
  {
    forall k | 0 <= k < |ts| - 1 :: CRGap(s, TokenEnd(ts[k]), ts[k + 1].pos)
  }

  /** Byte offsets add up along the input and stay within its encoding. */
  lemma OffsetAdd(s: string, i: nat, j: nat)
    requires i <= j <= |s|
    ensures ByteOffset(s, j) == ByteOffset(s, i) + |Encode(s[i..j])|
    ensures ByteOffset(s, j) <= |Encode(s)|
  {
    assert s[..j] == s[..i] + s[i..j];
    EncodeAppend(s[..i], s[i..j]);
    assert s == s[..j] + s[j..];
    EncodeAppend(s[..j], s[j..]);
  }

  /** An emitted token ends at the byte offset of the end of its span. */
  lemma EmitEnd(s: string, typ: TokenType, i: nat, j: nat)
    requires i <= j <= |s|
    ensures TokenEnd(Emit(s, typ, i, j)) == ByteOffset(s, j)
  {
    OffsetAdd(s, i, j);
  }

  /** A carriage return is one byte, 0x0D, at its offset. */
  lemma ReturnByte(s: string, pos: nat)
    requires pos < |s| && s[pos] == '\r'
    ensures ByteOffset(s, pos + 1) == ByteOffset(s, pos) + 1
    ensures CRGap(s, ByteOffset(s, pos), ByteOffset(s, pos + 1))
  {
    var a := ByteOffset(s, pos);
    assert s[pos..pos + 1] == "\r";
    assert Encode("\r") == [Return] by {
      assert Encode("\r") == EncodeChar('\r') + Encode([]);
    }
    OffsetAdd(s, pos, pos + 1);
    EmitLocated(s, Text, pos, pos + 1);
    assert Located(s, Token(Text, a, 1, "\r"));
    assert Encode(s)[a..a + 1] == [Return];
    assert Encode(s)[a] == Return;
  }

  lemma CRGapJoin(s: string, a: int, b: int, c: int)
    requires CRGap(s, a, b) && CRGap(s, b, c)
    ensures CRGap(s, a, c)
  {
  }

  /** Two ordered streams joined across a carriage-return gap are ordered,
      and the joined stream starts where the first one does. */
  lemma OrderedJoin(s: string, head: seq<Token>, rest: seq<Token>, a: int, m: int)
    requires Ordered(s, head) && Ordered(s, rest) && |rest| > 0
    requires |head| > 0 ==> CRGap(s, a, head[0].pos) && CRGap(s, TokenEnd(head[|head| - 1]), m)
    requires |head| == 0 ==> CRGap(s, a, m)
    requires CRGap(s, m, rest[0].pos)
    ensures Ordered(s, head + rest) && CRGap(s, a, (head + rest)[0].pos)
  {
    if |head| == 0 {
      assert head + rest == rest;
      CRGapJoin(s, a, m, rest[0].pos);
    } else {
      CRGapJoin(s, TokenEnd(head[|head| - 1]), m, rest[0].pos);
      forall k | 0 <= k < |head + rest| - 1
        ensures CRGap(s, TokenEnd((head + rest)[k]), (head + rest)[k + 1].pos)
      {
        if k < |head| - 1 {
          assert (head + rest)[k] == head[k] && (head + rest)[k + 1] == head[k + 1];
        } else if k == |head| - 1 {
          assert (head + rest)[k] == head[k] && (head + rest)[k + 1] == rest[0];
        } else {
          assert (head + rest)[k] == rest[k - |head|] && (head + rest)[k + 1] == rest[k - |head| + 1];
        }
      }
    }
  }

  /** The pending text, if any, spans the bytes from `start` to `pos`. */
  lemma PendingSpan(s: string, start: nat, pos: nat)
    requires start <= pos <= |s|
    ensures Ordered(s, Pending(s, start, pos))
    ensures |Pending(s, start, pos)| > 0 ==>
      && CRGap(s, ByteOffset(s, start), Pending(s, start, pos)[0].pos)
      && TokenEnd(Pending(s, start, pos)[0]) == ByteOffset(s, pos)
    ensures |Pending(s, start, pos)| == 0 ==> CRGap(s, ByteOffset(s, start), ByteOffset(s, pos))
  {
    OffsetAdd(s, start, pos);
    OffsetAdd(s, 0, start);
    if pos > start {
      EmitEnd(s, Text, start, pos);
    }
  }

  /** A break state other than a carriage return emits one token spanning
      the bytes from `pos` to where scanning resumes. */
  lemma BreakSpan(s: string, pos: nat, cls: Class)
    requires pos < |s| && cls != TextClass && cls != CRClass
    ensures var (emitted, e) := BreakState(s, pos, cls);
      && |emitted| == 1 && emitted[0].pos == ByteOffset(s, pos)
      && TokenEnd(emitted[0]) == ByteOffset(s, e)
  {
    var (emitted, e) := BreakState(s, pos, cls);
    EmitEnd(s, emitted[0].typ, pos, e);
  }

  /** The end of the input: the pending text, then EOF where it ends. */
  lemma EndOrdered(s: string, start: nat)
    requires start <= |s|
    ensures Ordered(s, LexText(s, start, |s|))
    ensures CRGap(s, ByteOffset(s, start), LexText(s, start, |s|)[0].pos)
  {
    var p := Pending(s, start, |s|);
    var eof := Emit(s, EOF, |s|, |s|);
    EndStep(s, start);
    PendingSpan(s, start, |s|);
    OffsetAdd(s, |s|, |s|);
    OrderedJoin(s, p, [eof], ByteOffset(s, start), ByteOffset(s, |s|));
  }

  /** A break point other than a carriage return: the pending text, the
      break's token, then the rest. */
  lemma BreakOrdered(s: string, start: nat, pos: nat, rest: seq<Token>)
    requires start <= pos < |s| && BreakClass(s[pos]) != TextClass && BreakClass(s[pos]) != CRClass
    requires var e := BreakState(s, pos, BreakClass(s[pos])).1;
      Ordered(s, rest) && |rest| > 0 && CRGap(s, ByteOffset(s, e), rest[0].pos)
    ensures var (emitted, e) := BreakState(s, pos, BreakClass(s[pos]));
      var toks := Pending(s, start, pos) + emitted + rest;
      Ordered(s, toks) && CRGap(s, ByteOffset(s, start), toks[0].pos)
  {
    var (emitted, e) := BreakState(s, pos, BreakClass(s[pos]));
    var p := Pending(s, start, pos);
    PendingSpan(s, start, pos);
    BreakSpan(s, pos, BreakClass(s[pos]));
    OffsetAdd(s, pos, e);
    OrderedJoin(s, p, emitted, ByteOffset(s, start), ByteOffset(s, pos));
    assert (p + emitted)[|p + emitted| - 1] == emitted[0];
    OrderedJoin(s, p + emitted, rest, ByteOffset(s, start), ByteOffset(s, e));
  }

  /** A carriage return: the pending text, then the rest after the return
      byte. */
  lemma ReturnOrdered(s: string, start: nat, pos: nat, rest: seq<Token>)
    requires start <= pos < |s| && s[pos] == '\r'
    requires Ordered(s, rest) && |rest| > 0 && CRGap(s, ByteOffset(s, pos + 1), rest[0].pos)
    ensures var toks := Pending(s, start, pos) + rest;
      Ordered(s, toks) && CRGap(s, ByteOffset(s, start), toks[0].pos)
  {
    PendingSpan(s, start, pos);
    ReturnByte(s, pos);
    CRGapJoin(s, ByteOffset(s, pos), ByteOffset(s, pos + 1), rest[0].pos);
    OrderedJoin(s, Pending(s, start, pos), rest, ByteOffset(s, start), ByteOffset(s, pos));
  }

  lemma {:induction false} LexTextOrdered(s: string, start: nat, pos: nat)
    requires start <= pos <= |s|
    ensures Ordered(s, LexText(s, start, pos))
    ensures CRGap(s, ByteOffset(s, start), LexText(s, start, pos)[0].pos)
    decreases |s| - pos
  {
    if pos == |s| {
      EndOrdered(s, start);
    } else if BreakClass(s[pos]) == TextClass {
      TextStep(s, start, pos);
      LexTextOrdered(s, start, pos + 1);
    } else {
      var e := BreakState(s, pos, BreakClass(s[pos])).1;
      LexTextOrdered(s, e, e);
      BreakCaseOrdered(s, start, pos);
    }
  }

  /** At a break point, order carries over from the tokens after it. */
  lemma BreakCaseOrdered(s: string, start: nat, pos: nat)
    requires start <= pos < |s| && BreakClass(s[pos]) != TextClass
    requires var e := BreakState(s, pos, BreakClass(s[pos])).1;
      Ordered(s, LexText(s, e, e)) && CRGap(s, ByteOffset(s, e), LexText(s, e, e)[0].pos)
    ensures Ordered(s, LexText(s, start, pos))
    ensures CRGap(s, ByteOffset(s, start), LexText(s, start, pos)[0].pos)
  {
    ControlClasses(s[pos]);
    if s[pos] == '\r' {
      ReturnCaseOrdered(s, start, pos);
    } else {
      var (emitted, e) := BreakState(s, pos, BreakClass(s[pos]));
      BreakStep(s, start, pos);
      BreakOrdered(s, start, pos, LexText(s, e, e));
    }
  }

  lemma ReturnCaseOrdered(s: string, start: nat, pos: nat)
    requires start <= pos < |s| && s[pos] == '\r'
    requires Ordered(s, LexText(s, pos + 1, pos + 1))
    requires CRGap(s, ByteOffset(s, pos + 1), LexText(s, pos + 1, pos + 1)[0].pos)
    ensures Ordered(s, LexText(s, start, pos))
    ensures CRGap(s, ByteOffset(s, start), LexText(s, start, pos)[0].pos)
  {
    ReturnStep(s, start, pos);
    ReturnOrdered(s, start, pos, LexText(s, pos + 1, pos + 1));
  }

  /** A carriage return emits nothing: scanning goes on after it. */
  lemma ReturnStep(s: string, start: nat, pos: nat)
    requires start <= pos < |s| && s[pos] == '\r'
    ensures LexText(s, start, pos) == Pending(s, start, pos) + LexText(s, pos + 1, pos + 1)
  {
    assert BreakClass(s[pos]) == CRClass by { ControlClasses(s[pos]); }
    assert BreakState(s, pos, CRClass) == ([], pos + 1);
    BreakStep(s, start, pos);
    assert Pending(s, start, pos) + [] == Pending(s, start, pos);
  }

  // ---------------------------------------------------------------------
  // Runs

  /** A text, space or hyphen token is never directly followed by a token
      that starts with a code point of its run: the run was taken as far as
      it goes. */
  ghost predicate Coalesced(ts: seq<Token>)
  {
    forall k | 0 <= k < |ts| - 1 && TokenEnd(ts[k]) == ts[k + 1].pos && ts[k + 1].value != [] ::
      RunStops(ts[k], ts[k + 1].value[0])
  }

  /** A token of type `t.typ` cannot go on with the code point `c`. */
  ghost predicate RunStops(t: Token, c: char)
  {
    && (t.typ == Text ==> BreakClass(c) != TextClass)
    && (t.typ == Space ==> !InSpaceRun(c))
    && (t.typ == Hyphen ==> !InHyphenRun(c))
  }

  /** Two coalesced streams joined where the first one's last token is not
      followed by a code point of its run are coalesced. */
  lemma CoalescedJoin(head: seq<Token>, rest: seq<Token>)
    requires Coalesced(head) && Coalesced(rest) && |rest| > 0
    requires |head| > 0 && TokenEnd(head[|head| - 1]) == rest[0].pos && rest[0].value != [] ==>
      RunStops(head[|head| - 1], rest[0].value[0])
    ensures Coalesced(head + rest)
  {
    var ts := head + rest;
    forall k | 0 <= k < |ts| - 1 && TokenEnd(ts[k]) == ts[k + 1].pos && ts[k + 1].value != []
      ensures RunStops(ts[k], ts[k + 1].value[0])
    {
      if k < |head| - 1 {
        assert ts[k] == head[k] && ts[k + 1] == head[k + 1];
      } else if k == |head| - 1 {
        assert ts[k] == head[k] && ts[k + 1] == rest[0];
      } else {
        assert ts[k] == rest[k - |head|] && ts[k + 1] == rest[k - |head| + 1];
      }
    }
  }

  /** The first token from a scanning state starts with the code point at
      `start` whenever it sits at that code point's offset: a carriage return
      there would have moved it further on. */
  lemma {:induction false} FirstToken(s: string, start: nat, pos: nat)
    requires start <= pos <= |s|
    ensures var f := LexText(s, start, pos)[0];
      f.pos == ByteOffset(s, start) && f.value != [] ==> start < |s| && f.value[0] == s[start]
    decreases |s| - pos
  {
    if pos == |s| {
      EndStep(s, start);
    } else if BreakClass(s[pos]) == TextClass {
      TextStep(s, start, pos);
      FirstToken(s, start, pos + 1);
    } else if start < pos {
      BreakStep(s, start, pos);
    } else if s[pos] == '\r' {
      ReturnStep(s, start, pos);
      ReturnByte(s, pos);
      LexTextOrdered(s, pos + 1, pos + 1);
    } else {
      ControlClasses(s[pos]);
      BreakStep(s, start, pos);
      BreakSpan(s, pos, BreakClass(s[pos]));
    }
  }

  /** At a break point, the run's token ends where its class stops. */
  lemma BreakCoalesced(s: string, start: nat, pos: nat)
    requires start <= pos < |s| && BreakClass(s[pos]) != TextClass
    requires var e := BreakState(s, pos, BreakClass(s[pos])).1;
      Coalesced(LexText(s, e, e))
    ensures Coalesced(LexText(s, start, pos))
  {
    ControlClasses(s[pos]);
    if s[pos] == '\r' {
      ReturnCoalesced(s, start, pos);
    } else {
      RunCoalesced(s, start, pos);
    }
  }

  /** A carriage return adds no token, and the text before it ends a byte
      before the next token. */
  lemma ReturnCoalesced(s: string, start: nat, pos: nat)
    requires start <= pos < |s| && s[pos] == '\r'
    requires Coalesced(LexText(s, pos + 1, pos + 1))
    ensures Coalesced(LexText(s, start, pos))
  {
    ReturnStep(s, start, pos);
    ReturnGap(s, start, pos);
    CoalescedJoin(Pending(s, start, pos), LexText(s, pos + 1, pos + 1));
  }

  /** The pending text before a carriage return ends before the next token
      starts. */
  lemma ReturnGap(s: string, start: nat, pos: nat)
    requires start <= pos < |s| && s[pos] == '\r'
    ensures var p := Pending(s, start, pos);
      |p| > 0 ==> TokenEnd(p[|p| - 1]) < LexText(s, pos + 1, pos + 1)[0].pos
  {
    PendingSpan(s, start, pos);
    ReturnByte(s, pos);
    LexTextOrdered(s, pos + 1, pos + 1);
  }

  lemma RunCoalesced(s: string, start: nat, pos: nat)
    requires start <= pos < |s| && BreakClass(s[pos]) != TextClass && BreakClass(s[pos]) != CRClass
    requires var e := BreakState(s, pos, BreakClass(s[pos])).1;
      Coalesced(LexText(s, e, e))
    ensures Coalesced(LexText(s, start, pos))
  {
    var p := Pending(s, start, pos);
    var cls := BreakClass(s[pos]);
    var (emitted, e) := BreakState(s, pos, cls);
    var rest := LexText(s, e, e);
    BreakStep(s, start, pos);
    BreakSpan(s, pos, cls);
    PendingSpan(s, start, pos);
    assert emitted[0].value[0] == s[pos];
    CoalescedJoin(p, emitted);
    assert (p + emitted)[|p + emitted| - 1] == emitted[0];
    RunBoundary(s, pos, cls);
    CoalescedJoin(p + emitted, rest);
  }

  /** The token a break state emits is not followed directly by a code point
      of its run. */
  lemma RunBoundary(s: string, pos: nat, cls: Class)
    requires pos < |s| && cls != TextClass && cls != CRClass
    ensures var (emitted, e) := BreakState(s, pos, cls);
      var f := LexText(s, e, e)[0];
      TokenEnd(emitted[0]) == f.pos && f.value != [] ==> RunStops(emitted[0], f.value[0])
  {
    var (emitted, e) := BreakState(s, pos, cls);
    BreakSpan(s, pos, cls);
    FirstToken(s, e, e);
  }

  lemma {:induction false} LexTextCoalesced(s: string, start: nat, pos: nat)
    requires start <= pos <= |s|
    ensures Coalesced(LexText(s, start, pos))
    decreases |s| - pos
  {
    if pos == |s| {
      EndStep(s, start);
    } else if BreakClass(s[pos]) == TextClass {
      TextStep(s, start, pos);
      LexTextCoalesced(s, start, pos + 1);
    } else {
      var e := BreakState(s, pos, BreakClass(s[pos])).1;
      LexTextCoalesced(s, e, e);
      BreakCoalesced(s, start, pos);
    }
  }

  /** A run of text, of spaces or of hyphens becomes a single token: the
      token that directly follows a Text token (with no carriage return
      between them) is not a Text token and starts with a break point; the
      one that directly follows a Space token is not a Space or Tab token and
      does not start with a space-run code point; and likewise for Hyphen
      tokens and hyphen-run code points. */
  lemma LexCoalesces(s: string)
    ensures forall k | 0 <= k < |Lex(s)| - 1 && Lex(s)[k].typ == Text && TokenEnd(Lex(s)[k]) == Lex(s)[k + 1].pos ::
      && Lex(s)[k + 1].typ != Text
      && (Lex(s)[k + 1].value != [] ==> BreakClass(Lex(s)[k + 1].value[0]) != TextClass)
    ensures forall k | 0 <= k < |Lex(s)| - 1 && Lex(s)[k].typ == Space && TokenEnd(Lex(s)[k]) == Lex(s)[k + 1].pos ::
      && Lex(s)[k + 1].typ != Space && Lex(s)[k + 1].typ != Tab
      && (Lex(s)[k + 1].value != [] ==> !InSpaceRun(Lex(s)[k + 1].value[0]))
    ensures forall k | 0 <= k < |Lex(s)| - 1 && Lex(s)[k].typ == Hyphen && TokenEnd(Lex(s)[k]) == Lex(s)[k + 1].pos ::
      && Lex(s)[k + 1].typ != Hyphen
      && (Lex(s)[k + 1].value != [] ==> !InHyphenRun(Lex(s)[k + 1].value[0]))
  {
    LexTextCoalesced(s, 0, 0);
    LexShape(s);
    LexWellFormed(s);
    TextCoalesces(Lex(s));
    SpaceCoalesces(Lex(s));
    HyphenCoalesces(Lex(s));
  }

  /** A coalesced stream ending in its only EOF, whose other tokens are
      emitted and well formed. */
  ghost predicate Shaped(ts: seq<Token>)
  {
    && |ts| > 0 && ts[|ts| - 1].typ == EOF
    && (forall t | t in ts :: WellFormed(t))
    && (forall j | 0 <= j < |ts| - 1 :: ts[j].typ in {Text, Space, Hyphen, Tab, NL} && ts[j].value != [])
    && Coalesced(ts)
  }

  lemma TextCoalesces(ts: seq<Token>)
    requires Shaped(ts)
    ensures forall k | 0 <= k < |ts| - 1 && ts[k].typ == Text && TokenEnd(ts[k]) == ts[k + 1].pos ::
      && ts[k + 1].typ != Text
      && (ts[k + 1].value != [] ==> BreakClass(ts[k + 1].value[0]) != TextClass)
  {
    forall k | 0 <= k < |ts| - 1 && ts[k].typ == Text && TokenEnd(ts[k]) == ts[k + 1].pos
      ensures ts[k + 1].typ != Text
      ensures ts[k + 1].value != [] ==> BreakClass(ts[k + 1].value[0]) != TextClass
    {
      NextToken(ts, k);
    }
  }

  lemma SpaceCoalesces(ts: seq<Token>)
    requires Shaped(ts)
    ensures forall k | 0 <= k < |ts| - 1 && ts[k].typ == Space && TokenEnd(ts[k]) == ts[k + 1].pos ::
      && ts[k + 1].typ != Space && ts[k + 1].typ != Tab
      && (ts[k + 1].value != [] ==> !InSpaceRun(ts[k + 1].value[0]))
  {
    forall k | 0 <= k < |ts| - 1 && ts[k].typ == Space && TokenEnd(ts[k]) == ts[k + 1].pos
      ensures ts[k + 1].typ != Space && ts[k + 1].typ != Tab
      ensures ts[k + 1].value != [] ==> !InSpaceRun(ts[k + 1].value[0])
    {
      NextToken(ts, k);
      assert InSpaceRun('\t');
    }
  }

  lemma HyphenCoalesces(ts: seq<Token>)
    requires Shaped(ts)
    ensures forall k | 0 <= k < |ts| - 1 && ts[k].typ == Hyphen && TokenEnd(ts[k]) == ts[k + 1].pos ::
      && ts[k + 1].typ != Hyphen
      && (ts[k + 1].value != [] ==> !InHyphenRun(ts[k + 1].value[0]))
  {
    forall k | 0 <= k < |ts| - 1 && ts[k].typ == Hyphen && TokenEnd(ts[k]) == ts[k + 1].pos
      ensures ts[k + 1].typ != Hyphen
      ensures ts[k + 1].value != [] ==> !InHyphenRun(ts[k + 1].value[0])
    {
      NextToken(ts, k);
    }
  }

  /** The token after position `k` of a well-formed stream that ends with
      its only EOF: a Text, Space, Tab or Hyphen token there is not empty and
      holds only code points of its type. */
  lemma NextToken(ts: seq<Token>, k: nat)
    requires k < |ts| - 1 && ts[|ts| - 1].typ == EOF
    requires forall t | t in ts :: WellFormed(t)
    requires forall j | 0 <= j < |ts| - 1 :: ts[j].typ in {Text, Space, Hyphen, Tab, NL} && ts[j].value != []
    ensures WellFormed(ts[k + 1])
    ensures ts[k + 1].typ in {Text, Space, Tab, Hyphen} ==> ts[k + 1].value != []
  {
    assert ts[k + 1] in ts;
    if k + 1 < |ts| - 1 {
      assert ts[k + 1].value != [];
    }
  }

  // ---------------------------------------------------------------------
  // Reconstruction

  /** The texts of a token sequence, concatenated. */
  function Values(ts: seq<Token>): string
  {
    if ts == [] then [] else ts[0].value + Values(ts[1..])
  }

  lemma {:induction false} ValuesAppend(a: seq<Token>, b: seq<Token>)
    ensures Values(a + b) == Values(a) + Values(b)
    decreases |a|
  {
    if a == [] {
      assert a + b == b;
    } else {
      assert (a + b)[1..] == a[1..] + b;
      ValuesAppend(a[1..], b);
    }
  }

  /** The input with every carriage return taken out. */
  function RemoveCR(s: string): string
  {
    if s == [] then []
    else if s[0] == '\r' then RemoveCR(s[1..])
    else [s[0]] + RemoveCR(s[1..])
  }

  lemma {:induction false} RemoveCRAppend(a: string, b: string)
    ensures RemoveCR(a + b) == RemoveCR(a) + RemoveCR(b)
    decreases |a|
  {
    if a == [] {
      assert a + b == b;
    } else {
      assert (a + b)[1..] == a[1..] + b;
      RemoveCRAppend(a[1..], b);
    }
  }

  lemma ValuesAppend3(a: seq<Token>, b: seq<Token>, c: seq<Token>)
    ensures Values(a + b + c) == Values(a) + (Values(b) + Values(c))
  {
    ValuesAppend(a + b, c);
    ValuesAppend(a, b);
    ConcatAssoc(Values(a), Values(b), Values(c));
  }

  lemma ConcatAssoc(a: string, b: string, c: string)
    ensures a + b + c == a + (b + c)
  {
  }

  /** Removing carriage returns from a suffix of `s` splits at `j`. */
  lemma RemoveCRSlices(s: string, i: nat, j: nat)
    requires i <= j <= |s|
    ensures RemoveCR(s[i..]) == RemoveCR(s[i..j]) + RemoveCR(s[j..])
  {
    assert s[i..] == s[i..j] + s[j..];
    RemoveCRAppend(s[i..j], s[j..]);
  }

  /** No carriage return in a text. */
  predicate NoCR(t: string)
  {
    forall k | 0 <= k < |t| :: t[k] != '\r'
  }

  lemma {:induction false} RemoveCRNone(t: string)
    requires NoCR(t)
    ensures RemoveCR(t) == t
    decreases |t|
  {
    if t != [] {
      RemoveCRNone(t[1..]);
    }
  }

  /** The pending text reconstructs itself. */
  lemma PendingValues(s: string, start: nat, pos: nat)
    requires start <= pos <= |s|
    ensures Values(Pending(s, start, pos)) == s[start..pos]
  {
  }

  /** What a break state emits reconstructs the code points it consumed,
      carriage returns removed. */
  lemma BreakStateValues(s: string, pos: nat)
    requires pos < |s| && BreakClass(s[pos]) != TextClass
    ensures var (emitted, e) := BreakState(s, pos, BreakClass(s[pos]));
      Values(emitted) == RemoveCR(s[pos..e])
  {
    var cls := BreakClass(s[pos]);
    var (emitted, e) := BreakState(s, pos, cls);
    ControlClasses(s[pos]);
    if cls == CRClass {
      assert s[pos..e] == ['\r'];
    } else {
      BreakStateWellFormed(s, pos);
      assert Values(emitted) == s[pos..e];
      RemoveCRNone(s[pos..e]);
    }
  }

  /** Tokens reconstructing `s[start..pos]` (no carriage return there),
      then `s[pos..e]`, then `s[e..]`, reconstruct `s[start..]`. */
  lemma FlushValues(s: string, start: nat, pos: nat, e: nat, pending: seq<Token>, emitted: seq<Token>, rest: seq<Token>)
    requires start <= pos <= e <= |s|
    requires NoCR(s[start..pos]) && Values(pending) == s[start..pos]
    requires Values(emitted) == RemoveCR(s[pos..e])
    requires Values(rest) == RemoveCR(s[e..])
    ensures Values(pending + emitted + rest) == RemoveCR(s[start..])
  {
    ValuesAppend3(pending, emitted, rest);
    RemoveCRNone(s[start..pos]);
    RemoveCRSlices(s, start, pos);
    RemoveCRSlices(s, pos, e);
  }

  /** A text code point extends a span without carriage returns. */
  lemma TextNoCR(s: string, start: nat, pos: nat)
    requires start <= pos < |s|
    requires NoCR(s[start..pos]) && BreakClass(s[pos]) == TextClass
    ensures NoCR(s[start..pos + 1])
  {
    ControlClasses(s[pos]);
    assert s[start..pos + 1] == s[start..pos] + [s[pos]];
  }

  lemma {:induction false} LexTextValues(s: string, start: nat, pos: nat)
    requires start <= pos <= |s|
    requires NoCR(s[start..pos])
    ensures Values(LexText(s, start, pos)) == RemoveCR(s[start..])
    decreases |s| - pos
  {
    if pos == |s| {
      PendingValues(s, start, pos);
      FlushValues(s, start, pos, pos, Pending(s, start, pos), [Emit(s, EOF, pos, pos)], []);
      assert Pending(s, start, pos) + [Emit(s, EOF, pos, pos)] + [] == LexText(s, start, pos);
    } else {
      var cls := BreakClass(s[pos]);
      if cls == TextClass {
        TextNoCR(s, start, pos);
        LexTextValues(s, start, pos + 1);
      } else {
        var (emitted, e) := BreakState(s, pos, cls);
        BreakStateValues(s, pos);
        LexTextValues(s, e, e);
        PendingValues(s, start, pos);
        FlushValues(s, start, pos, e, Pending(s, start, pos), emitted, LexText(s, e, e));
      }
    }
  }

  /** Concatenating the texts of all tokens gives back the input with its
      carriage returns removed. */
  lemma LexReconstructs(s: string)
    ensures Values(Lex(s)) == RemoveCR(s)
  {
    LexTextValues(s, 0, 0);
  }
}
