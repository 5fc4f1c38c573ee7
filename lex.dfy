/** The lexer engine of lex.go: rune reading with one rune of lookahead,
    position tracking, the token buffer and the one-slot token queue.

    The buffered reader underneath is abstracted as a sequence of decoder
    results (`Item`s) and a cursor `pos` into it; reaching the end of the
    sequence is end of stream. Each operation of the engine is given twice:
    as a pure function on a `Snapshot` of the lexer's fields, which states the
    operation's law and the invariant it keeps, and as a method of the
    `Lexer` class, which updates the fields in place and is proved to agree
    with that function. */
module Lex {

  datatype Option<T> = None | Some(value: T)

  /** The error values a token can carry: io.EOF, errInvalidUTF8, or any
      other failure reported by the underlying reader (told apart by a code). */
  datatype Error = EOF | InvalidUTF8 | IO(code: nat)

  /** Token types are plain integers; clients number theirs from UserDefined. */
  type TokenType = int

  const Err: TokenType := 0
  const UserDefined: TokenType := 1

  /** A token: its type, the buffered text, the row/column of its first
      rune, and an error that is present only on tokens built by EmitErr. */
  datatype Token = Token(typ: TokenType, val: string, row: int, col: int, err: Option<Error>)

  /** The token EmitErr publishes: type Err, no text, zero position. */
  function ErrToken(e: Error): Token {
    Token(Err, "", 0, 0, Some(e))
  }

  /** One result of the rune decoder: a rune with the number of bytes it
      took, or a failure of the underlying reader. */
  datatype Item = Decoded(r: char, width: nat) | Failed(code: nat)

  /** unicode.ReplacementChar, which the decoder returns with width 1 for a
      byte that does not start a valid UTF-8 sequence. */
  const ReplacementChar: char := '\U{FFFD}'

  predicate IsInvalid(it: Item) {
    it.Decoded? && it.r == ReplacementChar && it.width == 1
  }

  // ---------------------------------------------------------------------
  // Positions

  datatype Pos = Pos(row: int, col: int)

  /** p comes no later than q in reading order. */
  predicate NotAfter(p: Pos, q: Pos) {
    p.row < q.row || (p.row == q.row && p.col <= q.col)
  }

  /** The counters after one item has been consumed: a newline starts a new
      row, any other rune moves one column on, and an item that is not
      accepted as a rune (a reader failure, an invalid byte) moves nothing. */
  function Advance(p: Pos, it: Item): (q: Pos)
    ensures NotAfter(p, q)
    ensures it.Decoded? && it.r == '\n' ==> q == Pos(p.row + 1, 0)
    ensures it.Decoded? && it.r != '\n' && !IsInvalid(it) ==> q == Pos(p.row, p.col + 1)
    ensures it.Failed? || IsInvalid(it) ==> q == p
  {
    match it
    case Decoded(r, w) =>
      if r == ReplacementChar && w == 1 then p
      else if r == '\n' then Pos(p.row + 1, 0)
      else Pos(p.row, p.col + 1)
    case Failed(_) => p
  }

  /** The absolute position after consuming `items` from the start of the
      stream: row 1, column 0 initially. This is the reference definition
      the counters absRow/absCol are kept equal to. */
  function PosAfter(items: seq<Item>): (p: Pos)
    ensures p.row >= 1 && p.col >= 0
  {
    if items == [] then Pos(1, 0)
    else Advance(PosAfter(items[..|items| - 1]), items[|items| - 1])
  }

  // ---------------------------------------------------------------------
  // The lexer's fields as a value

  /** The fields of a Lexer: the reader's cursor, the token being built
      (outbuf and its start row/col, -1/-1 when unset), the absolute
      counters, the one-slot queue `ch` and the current state (None for nil). */
  datatype Snapshot<S> = Snapshot(
    pos: nat,
    outbuf: string, row: int, col: int,
    absRow: int, absCol: int,
    ch: Option<Token>,
    state: Option<S>)

  /** The invariant the engine keeps about the counters: they are the
      position reached by the items consumed so far. */
  predicate PosInv<S>(input: seq<Item>, s: Snapshot<S>) {
    s.pos <= |input| && Pos(s.absRow, s.absCol) == PosAfter(input[..s.pos])
  }

  /** The invariant the engine keeps about the token buffer: it is empty
      exactly when the start is unset, and a set start is a real position
      no later than the current one. */
  predicate BufferInv<S>(s: Snapshot<S>) {
    s.absRow >= 1 && s.absCol >= 0 &&
    (s.outbuf == [] <==> s.row == -1 && s.col == -1) &&
    (s.outbuf != [] ==>
       s.row >= 1 && s.col >= 0 && NotAfter(Pos(s.row, s.col), Pos(s.absRow, s.absCol)))
  }

  predicate Consistent<S>(input: seq<Item>, s: Snapshot<S>) {
    PosInv(input, s) && BufferInv(s)
  }

  /** NewLexer (lex.go:88-96). */
  function Initial<S>(firstFunc: Option<S>): Snapshot<S> {
    Snapshot(0, "", -1, -1, 1, 0, None, firstFunc)
  }

  lemma InitialIsConsistent<S>(input: seq<Item>, firstFunc: Option<S>)
    ensures Consistent(input, Initial(firstFunc))
  {
  }

  // ---------------------------------------------------------------------
  // Emitting

  /** EmitErr (lex.go:133-138): publish an error token, nothing else. */
  function AfterEmitErr<S>(s: Snapshot<S>, e: Error): (r: Snapshot<S>)
    requires s.ch.None?
    ensures r.ch == Some(Token(Err, "", 0, 0, Some(e)))
    ensures r.(ch := None) == s
    ensures BufferInv(s) ==> BufferInv(r)
  {
    s.(ch := Some(ErrToken(e)))
  }

  /** Emit (lex.go:118-128): publish the buffered text with its start, then
      empty the buffer and unset the start. */
  function AfterEmit<S>(s: Snapshot<S>, t: TokenType): (r: Snapshot<S>)
    requires s.ch.None?
    ensures r.ch == Some(Token(t, s.outbuf, s.row, s.col, None))
    ensures r.outbuf == [] && r.row == -1 && r.col == -1
    ensures r.pos == s.pos && r.absRow == s.absRow && r.absCol == s.absCol && r.state == s.state
    ensures BufferInv(s) ==> BufferInv(r)
  {
    s.(ch := Some(Token(t, s.outbuf, s.row, s.col, None)), outbuf := "", row := -1, col := -1)
  }

  // ---------------------------------------------------------------------
  // Buffering

  /** BufferRune (lex.go:192-198). */
  function AfterBuffer<S>(s: Snapshot<S>, c: char): (r: Snapshot<S>)
    ensures r.outbuf == s.outbuf + [c]
    ensures BufferInv(s) ==>
      BufferInv(r) &&
      Pos(r.row, r.col) == (if s.outbuf == [] then Pos(s.absRow, s.absCol) else Pos(s.row, s.col))
    ensures r.(outbuf := s.outbuf, row := s.row, col := s.col) == s
  {
    var start := s.row < 0 && s.col < 0;
    s.(outbuf := s.outbuf + [c],
       row := if start then s.absRow else s.row,
       col := if start then s.absCol else s.col)
  }

  /** BufferRune applied to each rune of cs in turn: it appends them and
      touches no field but the buffer and its start. */
  function BufferAll<S>(s: Snapshot<S>, cs: string): (r: Snapshot<S>)
    ensures r.outbuf == s.outbuf + cs
    ensures r.(outbuf := s.outbuf, row := s.row, col := s.col) == s
    decreases |cs|
  {
    if cs == [] then s else BufferAll(AfterBuffer(s, cs[0]), cs[1..])
  }

  /** Buffering a run of runes appends them and fixes the start at the
      position of the first rune that went into an empty buffer. */
  lemma {:induction false} BufferAllAppends<S>(s: Snapshot<S>, cs: string)
    requires BufferInv(s)
    ensures BufferInv(BufferAll(s, cs))
    ensures Pos(BufferAll(s, cs).row, BufferAll(s, cs).col) ==
      (if s.outbuf == [] && cs != [] then Pos(s.absRow, s.absCol) else Pos(s.row, s.col))
    decreases |cs|
  {
    if cs != [] {
      BufferAllAppends(AfterBuffer(s, cs[0]), cs[1..]);
    }
  }

  /** The buffering/emission round trip: buffering c1..cn into an empty
      buffer and emitting type t publishes exactly those runes, positioned
      where the first one was buffered, and leaves the buffer empty with the
      start unset, every other field as it was. */
  lemma {:induction false} BufferThenEmit<S>(s: Snapshot<S>, cs: string, t: TokenType)
    requires BufferInv(s) && s.outbuf == [] && s.ch.None? && cs != []
    ensures AfterEmit(BufferAll(s, cs), t) == s.(ch := Some(Token(t, cs, s.absRow, s.absCol, None)))
  {
    BufferAllAppends(s, cs);
    var b := BufferAll(s, cs);
    assert b.outbuf == [] + cs == cs;
    assert b.row == s.absRow && b.col == s.absCol;
  }

  // ---------------------------------------------------------------------
  // Reading

  /** What the decoder reports at `pos`, as readRune sees it
      (lex.go:160-167): end of stream, a reader failure, or an invalid byte. */
  function ReadError(input: seq<Item>, pos: nat): Option<Error>
    requires pos <= |input|
  {
    if pos == |input| then Some(EOF)
    else match input[pos]
      case Failed(c) => Some(IO(c))
      case Decoded(r, w) => if r == ReplacementChar && w == 1 then Some(InvalidUTF8) else None
  }

  /** A read or peek of a reader may block forever on a full slot only when
      it fails; this is the condition under which one returns. */
  predicate CanRead<S>(input: seq<Item>, s: Snapshot<S>) {
    s.pos <= |input| && (s.ch.None? || ReadError(input, s.pos).None?)
  }

  datatype ReadResult<S> = ReadResult(after: Snapshot<S>, r: char, err: Option<Error>)

  /** readRune (lex.go:159-170). End of stream consumes nothing; a reader
      failure and an invalid byte are consumed and reported. */
  function AfterReadRaw<S>(input: seq<Item>, s: Snapshot<S>): (res: ReadResult<S>)
    requires CanRead(input, s)
    ensures res.err == ReadError(input, s.pos)
    ensures res.err.Some? ==>
      res.r == 0 as char &&
      res.after == s.(pos := if s.pos == |input| then s.pos else s.pos + 1,
                      ch := Some(ErrToken(res.err.value)))
    ensures res.err.None? ==>
      s.pos < |input| && res.r == input[s.pos].r && res.after == s.(pos := s.pos + 1)
  {
    if s.pos == |input| then ReadResult(AfterEmitErr(s, EOF), 0 as char, Some(EOF))
    else
      var s1 := s.(pos := s.pos + 1);
      match input[s.pos]
      case Failed(c) => ReadResult(AfterEmitErr(s1, IO(c)), 0 as char, Some(IO(c)))
      case Decoded(r, w) =>
        if r == ReplacementChar && w == 1 then ReadResult(AfterEmitErr(s1, InvalidUTF8), 0 as char, Some(InvalidUTF8))
        else ReadResult(s1, r, None)
  }

  /** ReadRune (lex.go:143-157). */
  function AfterRead<S>(input: seq<Item>, s: Snapshot<S>): (res: ReadResult<S>)
    requires CanRead(input, s)
    // a failing read publishes exactly one error token and moves no counter
    ensures res.err == ReadError(input, s.pos)
    ensures res.err.Some? ==>
      res.r == 0 as char && s.ch.None? && res.after.ch == Some(ErrToken(res.err.value)) &&
      res.after.absRow == s.absRow && res.after.absCol == s.absCol
    // a successful read returns the next rune and advances the counters by it
    ensures res.err.None? ==>
      s.pos < |input| && res.r == input[s.pos].r && res.after.pos == s.pos + 1 &&
      res.after.ch == s.ch
    ensures res.err.None? && res.r == '\n' ==>
      res.after.absRow == s.absRow + 1 && res.after.absCol == 0
    ensures res.err.None? && res.r != '\n' ==>
      res.after.absRow == s.absRow && res.after.absCol == s.absCol + 1
    // the buffer and the state are never touched
    ensures res.after.outbuf == s.outbuf && res.after.row == s.row && res.after.col == s.col
    ensures res.after.state == s.state
    ensures s.pos <= res.after.pos <= s.pos + 1
    ensures Consistent(input, s) ==> Consistent(input, res.after)
  {
    var raw := AfterReadRaw(input, s);
    if raw.err.Some? then
      assert input[..raw.after.pos] == input[..s.pos] + input[s.pos..raw.after.pos];
      ReadResult(raw.after, 0 as char, raw.err)
    else
      var after := raw.after;
      assert input[..after.pos][..s.pos] == input[..s.pos];
      if raw.r == '\n' then ReadResult(after.(absRow := after.absRow + 1, absCol := 0), raw.r, None)
      else ReadResult(after.(absCol := after.absCol + 1), raw.r, None)
  }

  /** PeekRune (lex.go:176-187): a readRune followed by UnreadRune, which
      cannot fail right after a successful read. A failure is not undone. */
  function AfterPeek<S>(input: seq<Item>, s: Snapshot<S>): (res: ReadResult<S>)
    requires CanRead(input, s)
    // a failing peek behaves like a failing read
    ensures res.err.Some? ==> res == AfterRead(input, s)
    // a successful peek returns the next rune and changes nothing at all
    ensures res.err == ReadError(input, s.pos)
    ensures res.err.None? ==> res.after == s && res.r == input[s.pos].r
  {
    var raw := AfterReadRaw(input, s);
    if raw.err.Some? then ReadResult(raw.after, 0 as char, raw.err)
    else ReadResult(raw.after.(pos := raw.after.pos - 1), raw.r, None)
  }

  /** Two peeks in a row return the same rune, and a read after a peek
      returns that rune too. */
  lemma PeekThenPeekOrRead<S>(input: seq<Item>, s: Snapshot<S>)
    requires CanRead(input, s) && AfterPeek(input, s).err.None?
    ensures AfterPeek(input, AfterPeek(input, s).after) == AfterPeek(input, s)
    ensures AfterRead(input, AfterPeek(input, s).after).err.None?
    ensures AfterRead(input, AfterPeek(input, s).after).r == AfterPeek(input, s).r
  {
  }

  /** A width-1 U+FFFD is an invalid byte; a U+FFFD that took three bytes is
      a rune like any other. */
  lemma ReplacementCharByWidth<S>(s: Snapshot<S>)
    requires s.pos == 0 && s.ch.None?
    ensures AfterRead([Decoded(ReplacementChar, 1)], s).err == Some(InvalidUTF8)
    ensures AfterRead([Decoded(ReplacementChar, 1)], s).after.ch == Some(ErrToken(InvalidUTF8))
    ensures AfterRead([Decoded(ReplacementChar, 3)], s).err.None?
    ensures AfterRead([Decoded(ReplacementChar, 3)], s).r == ReplacementChar
  {
  }

  // ---------------------------------------------------------------------
  // The lexer object

  /** Lexer (lex.go:63-76), with the reader replaced by `input` and its
      cursor `pos`. */
  class Lexer<S> {
    const input: seq<Item>
    var pos: nat
    var outbuf: string
    var row: int
    var col: int
    var absRow: int
    var absCol: int
    var ch: Option<Token>
    var state: Option<S>

    function Snap(): Snapshot<S>
      reads this
    {
      Snapshot(pos, outbuf, row, col, absRow, absCol, ch, state)
    }

    ghost predicate Valid()
      reads this
    {
      Consistent(input, Snap())
    }

    /** NewLexer (lex.go:81-99). */
    constructor (input: seq<Item>, firstFunc: Option<S>)
      ensures this.input == input
      ensures outbuf == [] && row == -1 && col == -1
      ensures absRow == 1 && absCol == 0 && ch == None && state == firstFunc
      ensures Snap() == Initial(firstFunc)
      ensures Valid()
    {
      this.input := input;
      pos := 0;
      outbuf := "";
      row, col := -1, -1;
      absRow, absCol := 1, 0;
      ch := None;
      state := firstFunc;
    }

    /** EmitErr (lex.go:133-138). Sending on the full one-slot channel would
        block the only goroutine forever, hence the requirement. */
    method EmitErr(e: Error)
      requires ch.None?
      modifies this
      ensures Snap() == AfterEmitErr(old(Snap()), e)
      ensures old(Valid()) ==> Valid()
    {
      ch := Some(ErrToken(e));
    }

    /** Emit (lex.go:118-128). */
    method Emit(t: TokenType)
      requires ch.None?
      modifies this
      ensures Snap() == AfterEmit(old(Snap()), t)
      ensures old(Valid()) ==> Valid()
    {
      var str := outbuf;
      ch := Some(Token(t, str, row, col, None));
      outbuf := "";
      row, col := -1, -1;
    }

    /** readRune (lex.go:159-170); `pos` is the buffered reader's cursor. */
    method ReadRaw() returns (r: char, err: Option<Error>)
      requires CanRead(input, Snap())
      modifies this
      ensures ReadResult(Snap(), r, err) == AfterReadRaw(input, old(Snap()))
    {
      if pos == |input| {
        EmitErr(EOF);
        return 0 as char, Some(EOF);
      }
      var item := input[pos];
      pos := pos + 1;
      match item
      case Failed(c) =>
        EmitErr(IO(c));
        return 0 as char, Some(IO(c));
      case Decoded(d, width) =>
        if d == ReplacementChar && width == 1 {
          EmitErr(InvalidUTF8);
          return 0 as char, Some(InvalidUTF8);
        }
        return d, None;
    }

    /** ReadRune (lex.go:143-157). */
    method ReadRune() returns (r: char, err: Option<Error>)
      requires CanRead(input, Snap())
      modifies this
      ensures ReadResult(Snap(), r, err) == AfterRead(input, old(Snap()))
      ensures old(Valid()) ==> Valid()
    {
      r, err := ReadRaw();
      if err.Some? {
        return 0 as char, err;
      }
      if r == '\n' {
        absRow := absRow + 1;
        absCol := 0;
      } else {
        absCol := absCol + 1;
      }
    }

    /** PeekRune (lex.go:176-187). UnreadRune right after a successful
        ReadRune always succeeds, so its failure branch is not modelled. */
    method PeekRune() returns (r: char, err: Option<Error>)
      requires CanRead(input, Snap())
      modifies this
      ensures ReadResult(Snap(), r, err) == AfterPeek(input, old(Snap()))
      ensures old(Valid()) ==> Valid()
    {
      r, err := ReadRaw();
      if err.Some? {
        return 0 as char, err;
      }
      pos := pos - 1;
    }

    /** BufferRune (lex.go:192-198). */
    method BufferRune(r: char)
      modifies this
      ensures Snap() == AfterBuffer(old(Snap()), r)
      ensures old(Valid()) ==> Valid()
    {
      outbuf := outbuf + [r];
      if row < 0 && col < 0 {
        row, col := absRow, absCol;
      }
    }
  }
}
