/** Whole runs of the example grammar on concrete inputs: the exact tokens
    successive calls of Next return, with their rows and columns. */
module Scenarios {
  import opened Lex
  import opened Example

  /** The number of bytes UTF-8 takes for c. */
  function Utf8Width(c: char): (w: nat)
    ensures 1 <= w <= 4
    ensures (c as int < 0x80) == (w == 1)
  {
    if c as int < 0x80 then 1
    else if c as int < 0x800 then 2
    else if c as int < 0x10000 then 3
    else 4
  }

  /** What the decoder returns for well-formed UTF-8 text: each rune with
      its width. */
  function Decode(text: string): (items: seq<Item>) {
    seq(|text|, i requires 0 <= i < |text| => Decoded(text[i], Utf8Width(text[i])))
  }

  function Start(): Snapshot<StateFn> {
    Initial(Some(InWhitespace))
  }

  function Word(t: TokenType, text: string, row: int, col: int): NextOutcome {
    Delivered(Token(t, text, row, col, None))
  }

  function D(c: char): Item {
    Decoded(c, 1)
  }

  const WS: Option<StateFn> := Some(InWhitespace)
  const CM: Option<StateFn> := Some(InComment)
  const AN: Option<StateFn> := Some(InAlphaNum)

  /** A lexer between tokens: nothing buffered, nothing pending. */
  function Idle(pos: nat, absRow: int, absCol: int, state: Option<StateFn>): Snapshot<StateFn> {
    Snapshot(pos, "", -1, -1, absRow, absCol, None, state)
  }

  // ---------------------------------------------------------------------
  // (a b)

  const Parens: seq<Item> := [D('('), D('a'), D(' '), D('b'), D(')')]

  lemma ParensDecode()
    ensures Decode("(a b)") == Parens
  {
  }

  /** What six calls of Next return on `(a b)`. */
  const ParensTokens: seq<NextOutcome> := [
    Word(OpenParen, "(", 1, 1),
    Word(AlphaNum, "a", 1, 2),
    Word(AlphaNum, "b", 1, 4),
    Word(CloseParen, ")", 1, 5),
    Delivered(ErrToken(EOF)),
    Panicked]

  lemma ParensCall1()
    ensures Inv(Parens, Start())
    ensures NextOf(Parens, Start()) == NextResult(Word(OpenParen, "(", 1, 1), Idle(1, 1, 1, WS))
  {
    InitialInv(Parens);
    ParenReturned(Parens, Start(), '(');
  }

  lemma ParensWordA1()
    requires Inv(Parens, Idle(1, 1, 1, WS))
    ensures Inv(Parens, Snapshot(2, "a", 1, 2, 1, 2, None, AN))
    ensures NextOf(Parens, Idle(1, 1, 1, WS)) == NextOf(Parens, Snapshot(2, "a", 1, 2, 1, 2, None, AN))
  {
    WordStarts(Parens, Idle(1, 1, 1, WS), 'a');
  }

  lemma ParensWordA2()
    requires Inv(Parens, Snapshot(2, "a", 1, 2, 1, 2, None, AN))
    ensures NextOf(Parens, Snapshot(2, "a", 1, 2, 1, 2, None, AN)) == NextResult(Word(AlphaNum, "a", 1, 2), Idle(2, 1, 2, WS))
  {
    WordEnds(Parens, Snapshot(2, "a", 1, 2, 1, 2, None, AN), ' ');
  }

  lemma ParensCall2()
    requires Inv(Parens, Idle(1, 1, 1, WS))
    ensures NextOf(Parens, Idle(1, 1, 1, WS)) == NextResult(Word(AlphaNum, "a", 1, 2), Idle(2, 1, 2, WS))
  {
    ParensWordA1();
    ParensWordA2();
  }

  lemma ParensSpace()
    requires Inv(Parens, Idle(2, 1, 2, WS))
    ensures Inv(Parens, Idle(3, 1, 3, WS))
    ensures NextOf(Parens, Idle(2, 1, 2, WS)) == NextOf(Parens, Idle(3, 1, 3, WS))
  {
    SpaceSkipped(Parens, Idle(2, 1, 2, WS), ' ');
  }

  lemma ParensWordB1()
    requires Inv(Parens, Idle(3, 1, 3, WS))
    ensures Inv(Parens, Snapshot(4, "b", 1, 4, 1, 4, None, AN))
    ensures NextOf(Parens, Idle(3, 1, 3, WS)) == NextOf(Parens, Snapshot(4, "b", 1, 4, 1, 4, None, AN))
  {
    WordStarts(Parens, Idle(3, 1, 3, WS), 'b');
  }

  lemma ParensWordB2()
    requires Inv(Parens, Snapshot(4, "b", 1, 4, 1, 4, None, AN))
    ensures NextOf(Parens, Snapshot(4, "b", 1, 4, 1, 4, None, AN)) == NextResult(Word(AlphaNum, "b", 1, 4), Idle(4, 1, 4, WS))
  {
    WordEnds(Parens, Snapshot(4, "b", 1, 4, 1, 4, None, AN), ')');
  }

  lemma ParensCall3()
    requires Inv(Parens, Idle(2, 1, 2, WS))
    ensures NextOf(Parens, Idle(2, 1, 2, WS)) == NextResult(Word(AlphaNum, "b", 1, 4), Idle(4, 1, 4, WS))
  {
    ParensSpace();
    ParensWordB1();
    ParensWordB2();
  }

  lemma ParensCall4()
    requires Inv(Parens, Idle(4, 1, 4, WS))
    ensures NextOf(Parens, Idle(4, 1, 4, WS)) == NextResult(Word(CloseParen, ")", 1, 5), Idle(5, 1, 5, WS))
  {
    ParenReturned(Parens, Idle(4, 1, 4, WS), ')');
  }

  lemma ParensRun5()
    requires Inv(Parens, Idle(5, 1, 5, WS))
    ensures Run(Parens, Idle(5, 1, 5, WS), 2) == ParensTokens[4..]
  {
    EndOfInput(Parens, Idle(5, 1, 5, WS));
    RunCons(Parens, Idle(5, 1, 5, WS), 2, ParensTokens[4], Idle(5, 1, 5, None));
    RunPanics(Parens, Idle(5, 1, 5, None), 1);
    Unslice(ParensTokens, 4);
  }

  lemma ParensRun4()
    requires Inv(Parens, Idle(4, 1, 4, WS))
    ensures Run(Parens, Idle(4, 1, 4, WS), 3) == ParensTokens[3..]
  {
    ParensCall4();
    RunCons(Parens, Idle(4, 1, 4, WS), 3, ParensTokens[3], Idle(5, 1, 5, WS));
    ParensRun5();
    Unslice(ParensTokens, 3);
  }

  lemma ParensRun3()
    requires Inv(Parens, Idle(2, 1, 2, WS))
    ensures Run(Parens, Idle(2, 1, 2, WS), 4) == ParensTokens[2..]
  {
    ParensCall3();
    RunCons(Parens, Idle(2, 1, 2, WS), 4, ParensTokens[2], Idle(4, 1, 4, WS));
    ParensRun4();
    Unslice(ParensTokens, 2);
  }

  lemma ParensRun2()
    requires Inv(Parens, Idle(1, 1, 1, WS))
    ensures Run(Parens, Idle(1, 1, 1, WS), 5) == ParensTokens[1..]
  {
    ParensCall2();
    RunCons(Parens, Idle(1, 1, 1, WS), 5, ParensTokens[1], Idle(2, 1, 2, WS));
    ParensRun3();
    Unslice(ParensTokens, 1);
  }

  lemma ParensRun1()
    ensures Inv(Parens, Start())
    ensures Run(Parens, Start(), 6) == ParensTokens
  {
    ParensCall1();
    RunCons(Parens, Start(), 6, ParensTokens[0], Idle(1, 1, 1, WS));
    ParensRun2();
    Unslice(ParensTokens, 0);
  }

  /** `(a b)`: two parentheses and two words, each at the column of its
      first rune, then EOF; the call after EOF panics. */
  lemma ParensAndWords()
    ensures Inv(Decode("(a b)"), Start())
    ensures Run(Decode("(a b)"), Start(), 6) == [
      Word(OpenParen, "(", 1, 1),
      Word(AlphaNum, "a", 1, 2),
      Word(AlphaNum, "b", 1, 4),
      Word(CloseParen, ")", 1, 5),
      Delivered(ErrToken(EOF)),
      Panicked]
  {
    ParensDecode();
    ParensRun1();
  }

  // ---------------------------------------------------------------------
  // # comment\n(x)

  /** A comment body: runes lexComment drops, with no newline among them. */
  predicate CommentBody(body: seq<Item>) {
    forall i :: 0 <= i < |body| ==> body[i].Decoded? && !IsInvalid(body[i]) && body[i].r != '\n'
  }

  /** `#`, a comment body, a newline, then `(x)`. */
  function Commented(body: seq<Item>): seq<Item> {
    [D('#')] + body + [D('\n'), D('('), D('x'), D(')')]
  }

  const CommentedTokens: seq<NextOutcome> := [
    Word(OpenParen, "(", 2, 1),
    Word(AlphaNum, "x", 2, 2),
    Word(CloseParen, ")", 2, 3),
    Delivered(ErrToken(EOF)),
    Panicked]

  lemma CommentedItems(body: seq<Item>)
    ensures |Commented(body)| == |body| + 5
    ensures RuneAt(Commented(body), 0, '#')
    ensures forall i :: 1 <= i < |body| + 1 ==> Commented(body)[i] == body[i - 1]
    ensures RuneAt(Commented(body), |body| + 1, '\n')
    ensures RuneAt(Commented(body), |body| + 2, '(') && !IsInvalid(Commented(body)[|body| + 2])
    ensures RuneAt(Commented(body), |body| + 3, 'x') && !IsInvalid(Commented(body)[|body| + 3])
    ensures RuneAt(Commented(body), |body| + 4, ')') && !IsInvalid(Commented(body)[|body| + 4])
  {
  }

  lemma CommentedSkip(body: seq<Item>)
    requires CommentBody(body)
    ensures Inv(Commented(body), Start())
    ensures Inv(Commented(body), Idle(|body| + 2, 2, 0, WS))
    ensures NextOf(Commented(body), Start()) == NextOf(Commented(body), Idle(|body| + 2, 2, 0, WS))
  {
    var input := Commented(body);
    CommentedItems(body);
    InitialInv(input);
    CommentStarts(input, Start());
    forall i | 1 <= i < |body| + 1
      ensures CommentRune(input, i)
    {
      assert input[i] == body[i - 1];
    }
    CommentSkips(input, Idle(1, 1, 1, CM), |body| + 1);
  }

  lemma CommentedCall1(body: seq<Item>)
    requires CommentBody(body)
    ensures Inv(Commented(body), Start())
    ensures NextOf(Commented(body), Start()) ==
            NextResult(Word(OpenParen, "(", 2, 1), Idle(|body| + 3, 2, 1, WS))
  {
    CommentedSkip(body);
    CommentedItems(body);
    ParenReturned(Commented(body), Idle(|body| + 2, 2, 0, WS), '(');
  }

  lemma CommentedCall2(body: seq<Item>)
    requires Inv(Commented(body), Idle(|body| + 3, 2, 1, WS))
    ensures NextOf(Commented(body), Idle(|body| + 3, 2, 1, WS)) ==
            NextResult(Word(AlphaNum, "x", 2, 2), Idle(|body| + 4, 2, 2, WS))
  {
    var input := Commented(body);
    CommentedItems(body);
    WordStarts(input, Idle(|body| + 3, 2, 1, WS), 'x');
    WordEnds(input, Snapshot(|body| + 4, "x", 2, 2, 2, 2, None, AN), ')');
  }

  lemma CommentedCall3(body: seq<Item>)
    requires Inv(Commented(body), Idle(|body| + 4, 2, 2, WS))
    ensures NextOf(Commented(body), Idle(|body| + 4, 2, 2, WS)) ==
            NextResult(Word(CloseParen, ")", 2, 3), Idle(|body| + 5, 2, 3, WS))
  {
    CommentedItems(body);
    ParenReturned(Commented(body), Idle(|body| + 4, 2, 2, WS), ')');
  }

  lemma CommentedRun4(body: seq<Item>)
    requires Inv(Commented(body), Idle(|body| + 5, 2, 3, WS))
    ensures Run(Commented(body), Idle(|body| + 5, 2, 3, WS), 2) == CommentedTokens[3..]
  {
    var input := Commented(body);
    CommentedItems(body);
    EndOfInput(input, Idle(|body| + 5, 2, 3, WS));
    RunCons(input, Idle(|body| + 5, 2, 3, WS), 2, CommentedTokens[3], Idle(|body| + 5, 2, 3, None));
    RunPanics(input, Idle(|body| + 5, 2, 3, None), 1);
    Unslice(CommentedTokens, 3);
  }

  lemma CommentedRun3(body: seq<Item>)
    requires Inv(Commented(body), Idle(|body| + 4, 2, 2, WS))
    ensures Run(Commented(body), Idle(|body| + 4, 2, 2, WS), 3) == CommentedTokens[2..]
  {
    CommentedCall3(body);
    RunCons(Commented(body), Idle(|body| + 4, 2, 2, WS), 3, CommentedTokens[2], Idle(|body| + 5, 2, 3, WS));
    CommentedRun4(body);
    Unslice(CommentedTokens, 2);
  }

  lemma CommentedRun2(body: seq<Item>)
    requires Inv(Commented(body), Idle(|body| + 3, 2, 1, WS))
    ensures Run(Commented(body), Idle(|body| + 3, 2, 1, WS), 4) == CommentedTokens[1..]
  {
    CommentedCall2(body);
    RunCons(Commented(body), Idle(|body| + 3, 2, 1, WS), 4, CommentedTokens[1], Idle(|body| + 4, 2, 2, WS));
    CommentedRun3(body);
    Unslice(CommentedTokens, 1);
  }

  /** `#`, any comment body, a newline, then `(x)`: the comment is dropped
      whatever its length, and the tokens after it are on row 2, from
      column 1. */
  lemma CommentThenParens(body: seq<Item>)
    requires CommentBody(body)
    ensures Inv(Commented(body), Start())
    ensures Run(Commented(body), Start(), 5) == [
      Word(OpenParen, "(", 2, 1),
      Word(AlphaNum, "x", 2, 2),
      Word(CloseParen, ")", 2, 3),
      Delivered(ErrToken(EOF)),
      Panicked]
  {
    CommentedCall1(body);
    RunCons(Commented(body), Start(), 5, CommentedTokens[0], Idle(|body| + 3, 2, 1, WS));
    CommentedRun2(body);
    Unslice(CommentedTokens, 0);
  }

  /** `# comment\n(x)` is such an input. */
  lemma CommentExample()
    ensures Inv(Decode("# comment\n(x)"), Start())
    ensures Run(Decode("# comment\n(x)"), Start(), 5) == [
      Word(OpenParen, "(", 2, 1),
      Word(AlphaNum, "x", 2, 2),
      Word(CloseParen, ")", 2, 3),
      Delivered(ErrToken(EOF)),
      Panicked]
  {
    var body := Decode(" comment");
    assert Decode("# comment\n(x)") == Commented(body);
    CommentThenParens(body);
  }

  // ---------------------------------------------------------------------
  // ab: a word at the end of the input

  const Trailing: seq<Item> := [D('a'), D('b')]

  lemma TrailingWord1()
    ensures Inv(Trailing, Start())
    ensures Inv(Trailing, Snapshot(1, "a", 1, 1, 1, 1, None, AN))
    ensures NextOf(Trailing, Start()) == NextOf(Trailing, Snapshot(1, "a", 1, 1, 1, 1, None, AN))
  {
    InitialInv(Trailing);
    WordStarts(Trailing, Start(), 'a');
  }

  lemma TrailingWord2()
    requires Inv(Trailing, Snapshot(1, "a", 1, 1, 1, 1, None, AN))
    ensures Inv(Trailing, Snapshot(2, "ab", 1, 1, 1, 2, None, AN))
    ensures NextOf(Trailing, Snapshot(1, "a", 1, 1, 1, 1, None, AN)) ==
            NextOf(Trailing, Snapshot(2, "ab", 1, 1, 1, 2, None, AN))
  {
    WordGrows(Trailing, Snapshot(1, "a", 1, 1, 1, 1, None, AN), 'b');
  }

  lemma TrailingEnd()
    requires Inv(Trailing, Snapshot(2, "ab", 1, 1, 1, 2, None, AN))
    ensures NextOf(Trailing, Snapshot(2, "ab", 1, 1, 1, 2, None, AN)) ==
            NextResult(Delivered(ErrToken(EOF)), Snapshot(2, "ab", 1, 1, 1, 2, None, None))
  {
    WordAtEndDropped(Trailing, Snapshot(2, "ab", 1, 1, 1, 2, None, AN));
  }

  lemma TrailingCall1()
    ensures Inv(Trailing, Start())
    ensures NextOf(Trailing, Start()) ==
            NextResult(Delivered(ErrToken(EOF)), Snapshot(2, "ab", 1, 1, 1, 2, None, None))
  {
    TrailingWord1();
    TrailingWord2();
    TrailingEnd();
  }

  /** `ab`: the word is never returned; the first call returns EOF with "ab"
      still buffered, and the second panics. */
  lemma TrailingWordDropped()
    ensures Inv(Decode("ab"), Start())
    ensures NextOf(Decode("ab"), Start()) ==
            NextResult(Delivered(ErrToken(EOF)), Snapshot(2, "ab", 1, 1, 1, 2, None, None))
    ensures Run(Decode("ab"), Start(), 2) == [Delivered(ErrToken(EOF)), Panicked]
  {
    assert Decode("ab") == Trailing;
    TrailingCall1();
    RunCons(Trailing, Start(), 2, Delivered(ErrToken(EOF)), Snapshot(2, "ab", 1, 1, 1, 2, None, None));
    RunPanics(Trailing, Snapshot(2, "ab", 1, 1, 1, 2, None, None), 1);
  }

  // ---------------------------------------------------------------------
  // U+FFFD: a decoding failure against the literal character

  /** A byte that is not UTF-8 (the decoder's U+FFFD of width 1) is an
      InvalidUTF8 error token, and the call after it panics. */
  lemma InvalidByteStops()
    ensures Inv([Decoded(ReplacementChar, 1)], Start())
    ensures Run([Decoded(ReplacementChar, 1)], Start(), 2) ==
            [Delivered(ErrToken(InvalidUTF8)), Panicked]
  {
    var input := [Decoded(ReplacementChar, 1)];
    InitialInv(input);
    ReadFailureHalts(input, Start());
    RunCons(input, Start(), 2, Delivered(ErrToken(InvalidUTF8)), Idle(1, 1, 0, None));
    RunPanics(input, Idle(1, 1, 0, None), 1);
  }

  const Literal: seq<Item> := [Decoded(ReplacementChar, 3), D(' ')]

  lemma LiteralWord1()
    ensures Inv(Literal, Start())
    ensures Inv(Literal, Snapshot(1, [ReplacementChar], 1, 1, 1, 1, None, AN))
    ensures NextOf(Literal, Start()) == NextOf(Literal, Snapshot(1, [ReplacementChar], 1, 1, 1, 1, None, AN))
  {
    InitialInv(Literal);
    WordStarts(Literal, Start(), ReplacementChar);
  }

  lemma LiteralWord2()
    requires Inv(Literal, Snapshot(1, [ReplacementChar], 1, 1, 1, 1, None, AN))
    ensures NextOf(Literal, Snapshot(1, [ReplacementChar], 1, 1, 1, 1, None, AN)) ==
            NextResult(Word(AlphaNum, [ReplacementChar], 1, 1), Idle(1, 1, 1, WS))
  {
    WordEnds(Literal, Snapshot(1, [ReplacementChar], 1, 1, 1, 1, None, AN), ' ');
  }

  lemma LiteralSpace()
    requires Inv(Literal, Idle(1, 1, 1, WS))
    ensures Inv(Literal, Idle(2, 1, 2, WS))
    ensures NextOf(Literal, Idle(1, 1, 1, WS)) == NextOf(Literal, Idle(2, 1, 2, WS))
  {
    SpaceSkipped(Literal, Idle(1, 1, 1, WS), ' ');
  }

  lemma LiteralEnd()
    requires Inv(Literal, Idle(2, 1, 2, WS))
    ensures NextOf(Literal, Idle(2, 1, 2, WS)) == NextResult(Delivered(ErrToken(EOF)), Idle(2, 1, 2, None))
  {
    EndOfInput(Literal, Idle(2, 1, 2, WS));
  }

  lemma LiteralRun2()
    requires Inv(Literal, Idle(1, 1, 1, WS))
    ensures Run(Literal, Idle(1, 1, 1, WS), 2) == [Delivered(ErrToken(EOF)), Panicked]
  {
    LiteralSpace();
    LiteralEnd();
    RunCons(Literal, Idle(1, 1, 1, WS), 2, Delivered(ErrToken(EOF)), Idle(2, 1, 2, None));
    RunPanics(Literal, Idle(2, 1, 2, None), 1);
  }

  /** The three-byte encoding of U+FFFD itself is an ordinary rune: it
      becomes a one-rune word (it is neither a letter nor a digit, so the
      word ends right after it). */
  lemma LiteralReplacementAccepted()
    ensures Inv(Literal, Start())
    ensures Run(Literal, Start(), 3) ==
            [Word(AlphaNum, [ReplacementChar], 1, 1), Delivered(ErrToken(EOF)), Panicked]
  {
    LiteralWord1();
    LiteralWord2();
    RunCons(Literal, Start(), 3, Word(AlphaNum, [ReplacementChar], 1, 1), Idle(1, 1, 1, WS));
    LiteralRun2();
  }

  // ---------------------------------------------------------------------
  // Empty input: Next as written against the corrected Next

  /** As written, the second call of Next on empty input panics instead of
      returning EOF again. */
  lemma EmptyInputPanics()
    ensures Inv([], Start())
    ensures Run([], Start(), 3) == [Delivered(ErrToken(EOF)), Panicked]
  {
    InitialInv([]);
    EndOfInput([], Start());
    RunCons([], Start(), 3, Delivered(ErrToken(EOF)), Idle(0, 1, 0, None));
    RunPanics([], Idle(0, 1, 0, None), 2);
  }

  /** The corrected Next returns EOF on every call on empty input. */
  lemma EmptyInputRedeliversEOF()
    ensures Inv([], Start())
    ensures RunIntended([], Start(), 3) ==
            [Delivered(ErrToken(EOF)), Delivered(ErrToken(EOF)), Delivered(ErrToken(EOF))]
  {
    InitialInv([]);
    EndOfInput([], Start());
    assert NextIntendedOf([], Start()) == NextResult(Delivered(ErrToken(EOF)), Idle(0, 1, 0, None));
    HaltedRedeliversEOF([], Idle(0, 1, 0, None), 2);
  }

  // ---------------------------------------------------------------------
  // Unfolding Run one call at a time

  lemma RunCons(input: seq<Item>, s: Snapshot<StateFn>, n: nat, o: NextOutcome, s': Snapshot<StateFn>)
    requires Inv(input, s) && n > 0 && o.Delivered?
    requires NextOf(input, s) == NextResult(o, s')
    ensures Inv(input, s')
    ensures Run(input, s, n) == [o] + Run(input, s', n - 1)
  {
  }

  lemma Unslice(out: seq<NextOutcome>, j: nat)
    requires j < |out|
    ensures out[j..] == [out[j]] + out[j + 1..]
  {
  }
}
