/** The example grammar of example/example.go, a client of the engine:
    parentheses, `#` comments to the end of the line, and words of letters
    and digits separated by white space. Its three state functions are the
    tags of `StateFn`; the driver `Next` of lex.go is given here, where the
    state tags can be dispatched on. */
module Example {
  import opened Lex

  const OpenParen: TokenType := UserDefined
  const CloseParen: TokenType := UserDefined + 1
  const AlphaNum: TokenType := UserDefined + 2

  /** lexWhitespace, lexComment and lexAlphaNum as tags. */
  datatype StateFn = InWhitespace | InComment | InAlphaNum

  // ---------------------------------------------------------------------
  // Rune classes

  /** unicode.IsSpace: the runes with the Unicode White_Space property. */
  predicate IsSpace(c: char) {
    var n := c as int;
    (0x09 <= n <= 0x0D) || n == 0x20 || n == 0x85 || n == 0xA0 ||
    n == 0x1680 || (0x2000 <= n <= 0x200A) || n == 0x2028 || n == 0x2029 ||
    n == 0x202F || n == 0x205F || n == 0x3000
  }

  /** unicode.IsLetter on Latin-1; no rune above U+00FF is taken as a letter. */
  predicate IsLetter(c: char) {
    var n := c as int;
    (0x41 <= n <= 0x5A) || (0x61 <= n <= 0x7A) || n == 0xAA || n == 0xB5 || n == 0xBA ||
    (0xC0 <= n <= 0xD6) || (0xD8 <= n <= 0xF6) || (0xF8 <= n <= 0xFF)
  }

  /** unicode.IsNumber on Latin-1; no rune above U+00FF is taken as a number. */
  predicate IsNumber(c: char) {
    var n := c as int;
    (0x30 <= n <= 0x39) || n == 0xB2 || n == 0xB3 || n == 0xB9 || (0xBC <= n <= 0xBE)
  }

  predicate IsGrammarType(t: TokenType) {
    t == OpenParen || t == CloseParen || t == AlphaNum
  }

  // ---------------------------------------------------------------------
  // What the grammar keeps true

  /** Item i of the input decodes to the rune c. */
  predicate RuneAt(input: seq<Item>, i: int, c: char) {
    0 <= i < |input| && input[i].Decoded? && input[i].r == c
  }

  /** Items k.. of the input decode to the runes of `text`. */
  predicate TextAt(input: seq<Item>, k: int, text: string) {
    0 <= k && k + |text| <= |input| &&
    forall j :: 0 <= j < |text| ==> RuneAt(input, k + j, text[j])
  }

  lemma TextAtExtend(input: seq<Item>, k: int, text: string, c: char)
    requires TextAt(input, k, text) && k + |text| < |input|
    requires RuneAt(input, k + |text|, c)
    ensures TextAt(input, k, text + [c])
  {
    var t := text + [c];
    forall j | 0 <= j < |t|
      ensures RuneAt(input, k + j, t[j])
    {
      if j < |text| {
        assert t[j] == text[j];
      }
    }
  }

  /** t's text is the run of input runes starting at item k, and t's row and
      column are the position of that first rune. */
  predicate StartsAt(input: seq<Item>, t: Token, k: int) {
    |t.val| >= 1 && TextAt(input, k, t.val) && Pos(t.row, t.col) == PosAfter(input[..k + 1])
  }

  predicate HasOrigin(input: seq<Item>, t: Token) {
    exists k :: 0 <= k < |input| && StartsAt(input, t, k)
  }

  /** A token the grammar delivers, and the state it leaves the lexer in:
      an error token (the read that failed has halted the lexer), or a
      grammar token whose text and position come from the input, after
      which lexing resumes in lexWhitespace with an empty buffer. */
  predicate DeliveryOk(input: seq<Item>, t: Token, after: Snapshot<StateFn>) {
    if t.typ == Err then
      t.err.Some? && t == ErrToken(t.err.value) && after.state.None?
    else
      IsGrammarType(t.typ) && t.err.None? && HasOrigin(input, t) &&
      after.state == Some(InWhitespace) && after.outbuf == []
  }

  /** The invariant of a lexer running this grammar. */
  predicate Inv(input: seq<Item>, s: Snapshot<StateFn>) {
    Consistent(input, s) &&
    (s.ch.Some? ==> DeliveryOk(input, s.ch.value, s)) &&
    (s.state == Some(InWhitespace) || s.state == Some(InComment) ==> s.outbuf == []) &&
    (s.state == Some(InAlphaNum) ==>
       s.ch.None? && 1 <= |s.outbuf| <= s.pos &&
       TextAt(input, s.pos - |s.outbuf|, s.outbuf) &&
       Pos(s.row, s.col) == PosAfter(input[..s.pos - |s.outbuf| + 1]))
  }

  lemma InitialInv(input: seq<Item>)
    ensures Inv(input, Initial(Some(InWhitespace)))
  {
  }

  // ---------------------------------------------------------------------
  // The state functions as functions

  datatype StepResult = StepResult(after: Snapshot<StateFn>, next: Option<StateFn>)

  /** What every state function guarantees the driver: it leaves `state`
      alone, never moves the reader back, and either consumes an item or
      publishes a token; returning nil always comes with a token published. */
  predicate Progress(s: Snapshot<StateFn>, r: StepResult) {
    r.after.state == s.state &&
    s.pos <= r.after.pos &&
    (s.pos < r.after.pos || r.after.ch.Some?) &&
    (r.next.None? ==> r.after.ch.Some?)
  }

  /** lexWhitespace (example/example.go:40-68). */
  function WhitespaceStep(input: seq<Item>, s: Snapshot<StateFn>): (r: StepResult)
    requires Consistent(input, s) && s.ch.None?
    ensures Progress(s, r)
    ensures Consistent(input, r.after)
    // a failed read stops the lexer; the read has published the error
    ensures ReadError(input, s.pos).Some? ==>
      r.next.None? && r.after.ch == Some(ErrToken(ReadError(input, s.pos).value)) &&
      r.after.outbuf == s.outbuf
    ensures ReadError(input, s.pos).None? ==> r.next.Some? && r.after.pos == s.pos + 1
    // white space and the start of a comment are dropped
    ensures ReadError(input, s.pos).None? && IsSpace(input[s.pos].r) ==>
      r.next == Some(InWhitespace) && r.after.outbuf == s.outbuf && r.after.ch.None?
    ensures ReadError(input, s.pos).None? && !IsSpace(input[s.pos].r) && input[s.pos].r == '#' ==>
      r.next == Some(InComment) && r.after.outbuf == s.outbuf && r.after.ch.None?
    // a parenthesis is a token of its own, positioned at the rune just read
    ensures ReadError(input, s.pos).None? && input[s.pos].r in "()" ==>
      r.next == Some(InWhitespace) && r.after.outbuf == [] && r.after.row == -1 && r.after.col == -1
    ensures ReadError(input, s.pos).None? && input[s.pos].r in "()" && s.outbuf == [] ==>
      r.after.ch == Some(Token(if input[s.pos].r == '(' then OpenParen else CloseParen, [input[s.pos].r],
                               r.after.absRow, r.after.absCol, None))
    // any other rune starts a word
    ensures ReadError(input, s.pos).None? && !IsSpace(input[s.pos].r) && input[s.pos].r !in "#()" ==>
      r.next == Some(InAlphaNum) && r.after.outbuf == s.outbuf + [input[s.pos].r] && r.after.ch.None?
  {
    var rd := AfterRead(input, s);
    if rd.err.Some? then StepResult(rd.after, None)
    else if IsSpace(rd.r) then StepResult(rd.after, Some(InWhitespace))
    else if rd.r == '#' then StepResult(rd.after, Some(InComment))
    else
      var b := AfterBuffer(rd.after, rd.r);
      assert s.outbuf == [] ==> b.outbuf == [rd.r] && Pos(b.row, b.col) == Pos(rd.after.absRow, rd.after.absCol);
      if rd.r == '(' then StepResult(AfterEmit(b, OpenParen), Some(InWhitespace))
      else if rd.r == ')' then StepResult(AfterEmit(b, CloseParen), Some(InWhitespace))
      else StepResult(b, Some(InAlphaNum))
  }

  /** lexComment (example/example.go:72-82). */
  function CommentStep(input: seq<Item>, s: Snapshot<StateFn>): (r: StepResult)
    requires Consistent(input, s) && s.ch.None?
    ensures Progress(s, r)
    ensures Consistent(input, r.after)
    // nothing is ever buffered
    ensures r.after.outbuf == s.outbuf
    ensures ReadError(input, s.pos).Some? ==>
      r.next.None? && r.after.ch == Some(ErrToken(ReadError(input, s.pos).value))
    ensures ReadError(input, s.pos).None? ==>
      r.after.pos == s.pos + 1 && r.after.ch.None? &&
      r.next == (if input[s.pos].r == '\n' then Some(InWhitespace) else Some(InComment))
  {
    var rd := AfterRead(input, s);
    if rd.err.Some? then StepResult(rd.after, None)
    else if rd.r == '\n' then StepResult(rd.after, Some(InWhitespace))
    else StepResult(rd.after, Some(InComment))
  }

  /** lexAlphaNum (example/example.go:85-103). */
  function AlphaNumStep(input: seq<Item>, s: Snapshot<StateFn>): (r: StepResult)
    requires Consistent(input, s) && s.ch.None?
    ensures Progress(s, r)
    ensures Consistent(input, r.after)
    // a failed peek stops the lexer and the buffered word is never published
    ensures ReadError(input, s.pos).Some? ==>
      r.next.None? && r.after.ch == Some(ErrToken(ReadError(input, s.pos).value)) &&
      r.after.outbuf == s.outbuf
    // the first other rune ends the word; it is only peeked, so it is read
    // again by lexWhitespace
    ensures ReadError(input, s.pos).None? && !IsLetter(input[s.pos].r) && !IsNumber(input[s.pos].r) ==>
      r.next == Some(InWhitespace) && r.after.pos == s.pos &&
      r.after.ch == Some(Token(AlphaNum, s.outbuf, s.row, s.col, None))
    // a letter or digit is consumed and buffered
    ensures ReadError(input, s.pos).None? && (IsLetter(input[s.pos].r) || IsNumber(input[s.pos].r)) ==>
      r.next == Some(InAlphaNum) && r.after.pos == s.pos + 1 &&
      r.after.outbuf == s.outbuf + [input[s.pos].r] && r.after.ch.None?
  {
    var pk := AfterPeek(input, s);
    if pk.err.Some? then StepResult(pk.after, None)
    else if !IsLetter(pk.r) && !IsNumber(pk.r) then StepResult(AfterEmit(pk.after, AlphaNum), Some(InWhitespace))
    else
      var rd := AfterRead(input, pk.after);
      StepResult(AfterBuffer(rd.after, pk.r), Some(InAlphaNum))
  }

  /** The call `l.state(l)` for a non-nil state. */
  function Step(input: seq<Item>, s: Snapshot<StateFn>, f: StateFn): (r: StepResult)
    requires Consistent(input, s) && s.ch.None?
    ensures Progress(s, r)
    ensures Inv(input, s) && s.state == Some(f) ==> Inv(input, r.after.(state := r.next))
  {
    if Inv(input, s) && s.state == Some(f) then
      match f
      case InWhitespace => WhitespaceKeepsInv(input, s); WhitespaceStep(input, s)
      case InComment => CommentStep(input, s)
      case InAlphaNum => AlphaNumKeepsInv(input, s); AlphaNumStep(input, s)
    else
      match f
      case InWhitespace => WhitespaceStep(input, s)
      case InComment => CommentStep(input, s)
      case InAlphaNum => AlphaNumStep(input, s)
  }

  /** lexWhitespace keeps the invariant: a rune it buffers is the first of a
      token, at the position just read, and a parenthesis token it publishes
      is that rune alone. */
  lemma WhitespaceKeepsInv(input: seq<Item>, s: Snapshot<StateFn>)
    requires Inv(input, s) && s.ch.None? && s.state == Some(InWhitespace)
    ensures Inv(input, WhitespaceStep(input, s).after.(state := WhitespaceStep(input, s).next))
  {
    var rd := AfterRead(input, s);
    if rd.err.None? && !IsSpace(rd.r) && rd.r != '#' {
      var b := AfterBuffer(rd.after, rd.r);
      assert b.outbuf == [rd.r];
      assert Pos(b.row, b.col) == PosAfter(input[..s.pos + 1]);
      assert TextAt(input, s.pos, b.outbuf);
      if rd.r == '(' || rd.r == ')' {
        var e := AfterEmit(b, if rd.r == '(' then OpenParen else CloseParen);
        assert StartsAt(input, e.ch.value, s.pos);
      }
    }
  }

  /** lexAlphaNum keeps the invariant: the buffer stays the run of input
      runes that starts where the word started, and the word it publishes
      is exactly that run. */
  lemma AlphaNumKeepsInv(input: seq<Item>, s: Snapshot<StateFn>)
    requires Inv(input, s) && s.state == Some(InAlphaNum)
    ensures Inv(input, AlphaNumStep(input, s).after.(state := AlphaNumStep(input, s).next))
  {
    var k := s.pos - |s.outbuf|;
    var pk := AfterPeek(input, s);
    if pk.err.None? {
      if !IsLetter(pk.r) && !IsNumber(pk.r) {
        var e := AfterEmit(pk.after, AlphaNum);
        assert StartsAt(input, e.ch.value, k);
      } else {
        var rd := AfterRead(input, pk.after);
        var b := AfterBuffer(rd.after, pk.r);
        assert RuneAt(input, s.pos, pk.r);
        TextAtExtend(input, k, s.outbuf, pk.r);
        assert AlphaNumStep(input, s) == StepResult(b, Some(InAlphaNum));
      }
    }
  }

  // ---------------------------------------------------------------------
  // The driver

  /** What a call of Next comes to: a token, or the runtime panic of calling
      a nil state function. */
  datatype NextOutcome = Delivered(t: Token) | Panicked

  datatype NextResult = NextResult(outcome: NextOutcome, after: Snapshot<StateFn>)

  /** Next (lex.go:102-114) as written. With the slot empty and the state
      nil it queues an EOF token and then calls the nil state, which panics. */
  function NextOf(input: seq<Item>, s: Snapshot<StateFn>): (r: NextResult)
    requires Inv(input, s)
    ensures Inv(input, r.after)
    ensures s.pos <= r.after.pos
    // a pending token is returned without running any state
    ensures s.ch.Some? ==> r == NextResult(Delivered(s.ch.value), s.(ch := None))
    // the driver panics exactly when the state is nil and nothing is pending
    ensures r.outcome.Panicked? <==> s.ch.None? && s.state.None?
    ensures r.outcome.Panicked? ==> r.after == AfterEmitErr(s, EOF)
    // otherwise it returns one token and leaves the slot empty
    ensures r.outcome.Delivered? ==> r.after.ch.None? && DeliveryOk(input, r.outcome.t, r.after)
    decreases |input| - s.pos, if s.ch.None? then 1 else 0
  {
    if s.ch.Some? then NextResult(Delivered(s.ch.value), s.(ch := None))
    else if s.state.None? then NextResult(Panicked, AfterEmitErr(s, EOF))
    else
      var st := Step(input, s, s.state.value);
      NextOf(input, st.after.(state := st.next))
  }

  /** Next as the comment at example/example.go:45 means it to be: after
      queueing EOF for a nil state, go round the loop again, so that the
      queued token is returned. */
  function NextIntendedOf(input: seq<Item>, s: Snapshot<StateFn>): (r: NextResult)
    requires Inv(input, s)
    ensures r.outcome.Delivered?
    // it differs from Next only where Next panics
    ensures !(s.ch.None? && s.state.None?) ==> r == NextOf(input, s)
    // a halted lexer returns EOF and stays as it is
    ensures s.ch.None? && s.state.None? ==> r == NextResult(Delivered(ErrToken(EOF)), s)
    decreases |input| - s.pos, if s.ch.None? then 1 else 0
  {
    if s.ch.Some? then NextResult(Delivered(s.ch.value), s.(ch := None))
    else if s.state.None? then NextIntendedOf(input, AfterEmitErr(s, EOF))
    else
      var st := Step(input, s, s.state.value);
      NextIntendedOf(input, st.after.(state := st.next))
  }

  // ---------------------------------------------------------------------
  // Repeated calls

  /** The outcomes of n successive calls of Next; a panic ends the program. */
  function Run(input: seq<Item>, s: Snapshot<StateFn>, n: nat): (out: seq<NextOutcome>)
    requires Inv(input, s)
    decreases n
  {
    if n == 0 then []
    else
      var r := NextOf(input, s);
      if r.outcome.Panicked? then [Panicked] else [r.outcome] + Run(input, r.after, n - 1)
  }

  /** n successive calls of the corrected Next. */
  function RunIntended(input: seq<Item>, s: Snapshot<StateFn>, n: nat): (out: seq<NextOutcome>)
    requires Inv(input, s)
    ensures |out| == n
    decreases n
  {
    if n == 0 then []
    else
      var r := NextIntendedOf(input, s);
      [r.outcome] + RunIntended(input, r.after, n - 1)
  }

  /** Grammar tokens, then exactly one error token, then the panic. */
  predicate ErrThenPanic(out: seq<NextOutcome>) {
    |out| >= 2 &&
    out[|out| - 1] == Panicked &&
    out[|out| - 2].Delivered? && out[|out| - 2].t.typ == Err &&
    forall i :: 0 <= i < |out| - 2 ==> out[i].Delivered? && out[i].t.typ != Err
  }

  /** A call of Next that starts in lexWhitespace with nothing pending, and
      returns a grammar token, has consumed input. */
  lemma DeliveryConsumes(input: seq<Item>, s: Snapshot<StateFn>)
    requires Inv(input, s) && s.ch.None? && s.state == Some(InWhitespace)
    ensures NextOf(input, s).outcome.Delivered?
    ensures NextOf(input, s).outcome.t.typ != Err ==> NextOf(input, s).after.pos > s.pos
  {
    var st := Step(input, s, InWhitespace);
    var s1 := st.after.(state := st.next);
    assert NextOf(input, s) == NextOf(input, s1);
    if ReadError(input, s.pos).Some? {
      assert s1.ch.Some? && s1.ch.value.typ == Err;
    }
  }

  // ---------------------------------------------------------------------
  // Next, rune by rune

  /** White space other than a newline is dropped inside the same call. */
  lemma SpaceSkipped(input: seq<Item>, s: Snapshot<StateFn>, c: char)
    requires Inv(input, s) && s.ch.None? && s.state == Some(InWhitespace)
    requires RuneAt(input, s.pos, c) && IsSpace(c) && c != '\n'
    ensures Inv(input, s.(pos := s.pos + 1, absCol := s.absCol + 1))
    ensures NextOf(input, s) == NextOf(input, s.(pos := s.pos + 1, absCol := s.absCol + 1))
  {
    var st := Step(input, s, InWhitespace);
    assert st.after.(state := st.next) == s.(pos := s.pos + 1, absCol := s.absCol + 1);
  }

  /** A `#` switches to lexComment inside the same call. */
  lemma CommentStarts(input: seq<Item>, s: Snapshot<StateFn>)
    requires Inv(input, s) && s.ch.None? && s.state == Some(InWhitespace)
    requires RuneAt(input, s.pos, '#')
    ensures Inv(input, s.(pos := s.pos + 1, absCol := s.absCol + 1, state := Some(InComment)))
    ensures NextOf(input, s) ==
            NextOf(input, s.(pos := s.pos + 1, absCol := s.absCol + 1, state := Some(InComment)))
  {
    var st := Step(input, s, InWhitespace);
    assert st.after.(state := st.next) == s.(pos := s.pos + 1, absCol := s.absCol + 1, state := Some(InComment));
  }

  /** A parenthesis is returned at once as a one-rune token at its own
      position. */
  lemma ParenReturned(input: seq<Item>, s: Snapshot<StateFn>, c: char)
    requires Inv(input, s) && s.ch.None? && s.state == Some(InWhitespace)
    requires RuneAt(input, s.pos, c) && (c == '(' || c == ')')
    ensures NextOf(input, s) ==
            NextResult(Delivered(Token(if c == '(' then OpenParen else CloseParen, [c], s.absRow, s.absCol + 1, None)),
                       s.(pos := s.pos + 1, absCol := s.absCol + 1))
  {
    var st := Step(input, s, InWhitespace);
    assert st.after == s.(pos := s.pos + 1, absCol := s.absCol + 1,
      ch := Some(Token(if c == '(' then OpenParen else CloseParen, [c], s.absRow, s.absCol + 1, None)));
  }

  /** Any other rune starts a word at its own position and switches to
      lexAlphaNum inside the same call. */
  lemma WordStarts(input: seq<Item>, s: Snapshot<StateFn>, c: char)
    requires Inv(input, s) && s.ch.None? && s.state == Some(InWhitespace)
    requires RuneAt(input, s.pos, c) && !IsInvalid(input[s.pos])
    requires !IsSpace(c) && c !in "#()"
    ensures Inv(input, s.(pos := s.pos + 1, outbuf := [c], row := s.absRow, col := s.absCol + 1,
                          absCol := s.absCol + 1, state := Some(InAlphaNum)))
    ensures NextOf(input, s) ==
            NextOf(input, s.(pos := s.pos + 1, outbuf := [c], row := s.absRow, col := s.absCol + 1,
                             absCol := s.absCol + 1, state := Some(InAlphaNum)))
  {
    var st := Step(input, s, InWhitespace);
    assert st.after.(state := st.next) ==
      s.(pos := s.pos + 1, outbuf := [c], row := s.absRow, col := s.absCol + 1,
         absCol := s.absCol + 1, state := Some(InAlphaNum));
  }

  /** A letter or digit extends the word inside the same call. */
  lemma WordGrows(input: seq<Item>, s: Snapshot<StateFn>, c: char)
    requires Inv(input, s) && s.state == Some(InAlphaNum)
    requires RuneAt(input, s.pos, c) && !IsInvalid(input[s.pos]) && c != '\n'
    requires IsLetter(c) || IsNumber(c)
    ensures Inv(input, s.(pos := s.pos + 1, outbuf := s.outbuf + [c], absCol := s.absCol + 1))
    ensures NextOf(input, s) ==
            NextOf(input, s.(pos := s.pos + 1, outbuf := s.outbuf + [c], absCol := s.absCol + 1))
  {
    var st := Step(input, s, InAlphaNum);
    assert st.after.(state := st.next) == s.(pos := s.pos + 1, outbuf := s.outbuf + [c], absCol := s.absCol + 1);
  }

  /** A word followed by a rune that is not a letter or digit is returned by
      the same call; the delimiter is left unread. */
  lemma WordEnds(input: seq<Item>, s: Snapshot<StateFn>, c: char)
    requires Inv(input, s) && s.state == Some(InAlphaNum) && RuneAt(input, s.pos, c)
    requires !IsInvalid(input[s.pos]) && !IsLetter(c) && !IsNumber(c)
    ensures NextOf(input, s) ==
            NextResult(Delivered(Token(AlphaNum, s.outbuf, s.row, s.col, None)),
                       s.(outbuf := "", row := -1, col := -1, state := Some(InWhitespace)))
  {
    assert AlphaNumStep(input, s) == StepResult(AfterEmit(s, AlphaNum), Some(InWhitespace));
  }

  /** At the end of the input lexWhitespace returns EOF and the lexer halts. */
  lemma EndOfInput(input: seq<Item>, s: Snapshot<StateFn>)
    requires Inv(input, s) && s.ch.None? && s.state == Some(InWhitespace) && s.pos == |input|
    ensures NextOf(input, s) == NextResult(Delivered(ErrToken(EOF)), s.(state := None))
  {
    var st := Step(input, s, InWhitespace);
    assert st == StepResult(s.(ch := Some(ErrToken(EOF))), None);
  }

  /** An input item that cannot be read (a reader failure or a byte that is
      not UTF-8) is consumed, returned as an error token, and halts the
      lexer. */
  lemma ReadFailureHalts(input: seq<Item>, s: Snapshot<StateFn>)
    requires Inv(input, s) && s.ch.None? && s.state == Some(InWhitespace)
    requires s.pos < |input| && ReadError(input, s.pos).Some?
    ensures NextOf(input, s) ==
            NextResult(Delivered(ErrToken(ReadError(input, s.pos).value)), s.(pos := s.pos + 1, state := None))
  {
    var st := Step(input, s, InWhitespace);
    assert st == StepResult(s.(pos := s.pos + 1, ch := Some(ErrToken(ReadError(input, s.pos).value))), None);
  }

  /** A rune lexComment reads and drops: decoded, valid and not a newline. */
  predicate CommentRune(input: seq<Item>, i: int) {
    0 <= i < |input| && input[i].Decoded? && !IsInvalid(input[i]) && input[i].r != '\n'
  }

  /** lexComment drops a rune other than a newline inside the same call. */
  lemma CommentRuneDropped(input: seq<Item>, s: Snapshot<StateFn>)
    requires Inv(input, s) && s.ch.None? && s.state == Some(InComment) && CommentRune(input, s.pos)
    ensures Inv(input, s.(pos := s.pos + 1, absCol := s.absCol + 1))
    ensures NextOf(input, s) == NextOf(input, s.(pos := s.pos + 1, absCol := s.absCol + 1))
  {
    var rd := AfterRead(input, s);
    assert rd.after == s.(pos := s.pos + 1, absCol := s.absCol + 1);
    assert Step(input, s, InComment) == StepResult(rd.after, Some(InComment));
  }

  /** lexComment ends at a newline, which moves to the next row. */
  lemma CommentNewline(input: seq<Item>, s: Snapshot<StateFn>)
    requires Inv(input, s) && s.ch.None? && s.state == Some(InComment) && RuneAt(input, s.pos, '\n')
    ensures Inv(input, s.(pos := s.pos + 1, absRow := s.absRow + 1, absCol := 0, state := Some(InWhitespace)))
    ensures NextOf(input, s) ==
            NextOf(input, s.(pos := s.pos + 1, absRow := s.absRow + 1, absCol := 0, state := Some(InWhitespace)))
  {
    var rd := AfterRead(input, s);
    assert rd.after == s.(pos := s.pos + 1, absRow := s.absRow + 1, absCol := 0);
    assert Step(input, s, InComment) == StepResult(rd.after, Some(InWhitespace));
  }

  /** lexComment drops every rune up to and including the next newline,
      buffering nothing; the lexer is then back in lexWhitespace at the start
      of the next row. */
  lemma {:induction false} CommentSkips(input: seq<Item>, s: Snapshot<StateFn>, m: nat)
    requires Inv(input, s) && s.ch.None? && s.state == Some(InComment)
    requires s.pos <= m && RuneAt(input, m, '\n')
    requires forall i :: s.pos <= i < m ==> CommentRune(input, i)
    ensures Inv(input, s.(pos := m + 1, absRow := s.absRow + 1, absCol := 0, state := Some(InWhitespace)))
    ensures NextOf(input, s) ==
            NextOf(input, s.(pos := m + 1, absRow := s.absRow + 1, absCol := 0, state := Some(InWhitespace)))
    decreases m - s.pos
  {
    var t := s.(pos := m + 1, absRow := s.absRow + 1, absCol := 0, state := Some(InWhitespace));
    if s.pos < m {
      var s1 := s.(pos := s.pos + 1, absCol := s.absCol + 1);
      CommentRuneDropped(input, s);
      CommentSkips(input, s1, m);
      assert s1.(pos := m + 1, absRow := s1.absRow + 1, absCol := 0, state := Some(InWhitespace)) == t;
      assert Inv(input, t) && NextOf(input, s1) == NextOf(input, t);
    } else {
      CommentNewline(input, s);
      assert s.(pos := s.pos + 1, absRow := s.absRow + 1, absCol := 0, state := Some(InWhitespace)) == t;
    }
  }

  /** A word that runs to the end of the input is never published: the peek
      that would end it reports EOF, and the buffered text stays behind. */
  lemma WordAtEndDropped(input: seq<Item>, s: Snapshot<StateFn>)
    requires Inv(input, s) && s.state == Some(InAlphaNum) && s.pos == |input|
    ensures NextOf(input, s) == NextResult(Delivered(ErrToken(EOF)), s.(state := None))
  {
    var st := Step(input, s, InAlphaNum);
    assert st == StepResult(s.(ch := Some(ErrToken(EOF))), None);
  }

  /** Termination of the token stream on every finite input: from the start
      of a call in lexWhitespace, enough calls of Next return grammar tokens,
      then one error token (EOF, an invalid byte or a reader failure), and
      the call after that panics. */
  lemma {:induction false} RunEndsWithErrThenPanic(input: seq<Item>, s: Snapshot<StateFn>, n: nat)
    requires Inv(input, s) && s.ch.None? && s.state == Some(InWhitespace)
    requires n >= |input| - s.pos + 2
    ensures ErrThenPanic(Run(input, s, n))
    decreases |input| - s.pos
  {
    var s', more := RunFirst(input, s, n);
    if more {
      RunEndsWithErrThenPanic(input, s', n - 1);
    }
  }

  /** The first call of a run from lexWhitespace returns a token. Either it
      is the error token, after which the lexer has halted and the next call
      panics, or the lexer has consumed input, is back in lexWhitespace, and
      the run has the shape of the remaining run. */
  lemma RunFirst(input: seq<Item>, s: Snapshot<StateFn>, n: nat) returns (s': Snapshot<StateFn>, more: bool)
    requires Inv(input, s) && s.ch.None? && s.state == Some(InWhitespace) && n > 1
    ensures !more ==> ErrThenPanic(Run(input, s, n))
    ensures more ==> Inv(input, s') && s'.ch.None? && s'.state == Some(InWhitespace) && s'.pos > s.pos &&
                     (ErrThenPanic(Run(input, s', n - 1)) ==> ErrThenPanic(Run(input, s, n)))
  {
    DeliveryConsumes(input, s);
    var r := NextOf(input, s);
    var o := r.outcome;
    s' := r.after;
    more := o.t.typ != Err;
    var out, rest := Run(input, s, n), Run(input, s', n - 1);
    assert out == [o] + rest;
    if more {
      if ErrThenPanic(rest) {
        ErrThenPanicCons(o, rest, out);
      }
    } else {
      RunPanics(input, s', n - 1);
      ErrThenPanicPair(o, out);
    }
  }

  lemma RunPanics(input: seq<Item>, s: Snapshot<StateFn>, n: nat)
    requires Inv(input, s) && n > 0 && s.ch.None? && s.state.None?
    ensures Run(input, s, n) == [Panicked]
  {
  }

  lemma ErrThenPanicCons(o: NextOutcome, rest: seq<NextOutcome>, out: seq<NextOutcome>)
    requires out == [o] + rest
    requires ErrThenPanic(rest) && o.Delivered? && o.t.typ != Err
    ensures ErrThenPanic(out)
  {
    forall i | 0 <= i < |out| - 2
      ensures out[i].Delivered? && out[i].t.typ != Err
    {
      if i > 0 {
        assert out[i] == rest[i - 1];
      }
    }
  }

  lemma ErrThenPanicPair(o: NextOutcome, out: seq<NextOutcome>)
    requires out == [o, Panicked] && o.Delivered? && o.t.typ == Err
    ensures ErrThenPanic(out)
  {
  }

  /** The corrected Next returns EOF on every call once the lexer has halted. */
  lemma {:induction false} HaltedRedeliversEOF(input: seq<Item>, s: Snapshot<StateFn>, n: nat)
    requires Inv(input, s) && s.ch.None? && s.state.None?
    ensures forall i :: 0 <= i < n ==> RunIntended(input, s, n)[i] == Delivered(ErrToken(EOF))
    decreases n
  {
    if n > 0 {
      HaltedRedeliversEOF(input, s, n - 1);
      assert RunIntended(input, s, n) == [Delivered(ErrToken(EOF))] + RunIntended(input, s, n - 1);
    }
  }

  // ---------------------------------------------------------------------
  // The imperative state functions and driver

  /** NewLispLexer (example/example.go:25-29). */
  method NewLispLexer(input: seq<Item>) returns (l: Lexer<StateFn>)
    ensures fresh(l) && l.input == input
    ensures l.Snap() == Initial(Some(InWhitespace)) && Inv(l.input, l.Snap())
  {
    l := new Lexer(input, Some(InWhitespace));
  }

  /** lexWhitespace (example/example.go:40-68). */
  method LexWhitespace(lexer: Lexer<StateFn>) returns (next: Option<StateFn>)
    requires Consistent(lexer.input, lexer.Snap()) && lexer.ch.None?
    modifies lexer
    ensures StepResult(lexer.Snap(), next) == WhitespaceStep(lexer.input, old(lexer.Snap()))
  {
    var r, err := lexer.ReadRune();
    if err.Some? {
      return None;
    }
    if IsSpace(r) {
      return Some(InWhitespace);
    } else if r == '#' {
      return Some(InComment);
    }
    lexer.BufferRune(r);
    if r == '(' {
      lexer.Emit(OpenParen);
      return Some(InWhitespace);
    } else if r == ')' {
      lexer.Emit(CloseParen);
      return Some(InWhitespace);
    } else {
      return Some(InAlphaNum);
    }
  }

  /** lexComment (example/example.go:72-82). */
  method LexComment(lexer: Lexer<StateFn>) returns (next: Option<StateFn>)
    requires Consistent(lexer.input, lexer.Snap()) && lexer.ch.None?
    modifies lexer
    ensures StepResult(lexer.Snap(), next) == CommentStep(lexer.input, old(lexer.Snap()))
  {
    var r, err := lexer.ReadRune();
    if err.Some? {
      return None;
    }
    if r == '\n' {
      return Some(InWhitespace);
    }
    return Some(InComment);
  }

  /** lexAlphaNum (example/example.go:85-103). */
  method LexAlphaNum(lexer: Lexer<StateFn>) returns (next: Option<StateFn>)
    requires Consistent(lexer.input, lexer.Snap()) && lexer.ch.None?
    modifies lexer
    ensures StepResult(lexer.Snap(), next) == AlphaNumStep(lexer.input, old(lexer.Snap()))
  {
    var r, err := lexer.PeekRune();
    if err.Some? {
      return None;
    }
    if !IsLetter(r) && !IsNumber(r) {
      lexer.Emit(AlphaNum);
      return Some(InWhitespace);
    }
    // the rune was just peeked, so this read succeeds and returns it
    var again, readErr := lexer.ReadRune();
    lexer.BufferRune(r);
    return Some(InAlphaNum);
  }

  /** The call `l.state(l)` (lex.go:111) for a non-nil state. */
  method CallState(l: Lexer<StateFn>, f: StateFn) returns (next: Option<StateFn>)
    requires Consistent(l.input, l.Snap()) && l.ch.None?
    modifies l
    ensures StepResult(l.Snap(), next) == Step(l.input, old(l.Snap()), f)
  {
    match f
    case InWhitespace => next := LexWhitespace(l);
    case InComment => next := LexComment(l);
    case InAlphaNum => next := LexAlphaNum(l);
  }

  /** Next (lex.go:102-114), reached through LispLexer.Next
      (example/example.go:33-35). */
  method Next(l: Lexer<StateFn>) returns (res: NextOutcome)
    requires Inv(l.input, l.Snap())
    modifies l
    ensures NextResult(res, l.Snap()) == NextOf(l.input, old(l.Snap()))
  {
    while true
      invariant Inv(l.input, l.Snap())
      invariant NextOf(l.input, l.Snap()) == NextOf(l.input, old(l.Snap()))
      decreases |l.input| - l.pos, if l.ch.None? then 1 else 0
    {
      if l.ch.Some? {
        var t := l.ch.value;
        l.ch := None;
        return Delivered(t);
      }
      if l.state.None? {
        l.EmitErr(EOF);
        // l.state(l) with l.state == nil
        return Panicked;
      }
      var next := CallState(l, l.state.value);
      l.state := next;
    }
  }

  /** The corrected Next: `continue` after queueing EOF for a nil state. */
  method NextIntended(l: Lexer<StateFn>) returns (res: NextOutcome)
    requires Inv(l.input, l.Snap())
    modifies l
    ensures NextResult(res, l.Snap()) == NextIntendedOf(l.input, old(l.Snap()))
  {
    while true
      invariant Inv(l.input, l.Snap())
      invariant NextIntendedOf(l.input, l.Snap()) == NextIntendedOf(l.input, old(l.Snap()))
      decreases |l.input| - l.pos, if l.ch.None? then 1 else 0
    {
      if l.ch.Some? {
        var t := l.ch.value;
        l.ch := None;
        return Delivered(t);
      }
      if l.state.None? {
        l.EmitErr(EOF);
        continue;
      }
      var next := CallState(l, l.state.value);
      l.state := next;
    }
  }
}
