# lexgo in Dafny

This project models lexgo. lexgo is a small engine for hand-written lexers in the style of Rob Pike's
state-function lexer, and it comes with an example grammar built on it.

- **`lex.dfy`, module `Lex`: the engine of `lex.go`.**
  - The buffered reader is replaced by a sequence of decoder results (`Item`: a rune with its width, or a reader failure) and a cursor into it. The end of the sequence is `io.EOF`.
  - The fields of `Lexer` are given twice. `Snapshot` holds them as a value, and the class `Lexer` holds them as fields its methods update.
  - Each engine operation (`ReadRune`, `readRune`, `PeekRune`, `BufferRune`, `Emit`, `EmitErr`) is a pure function (`AfterRead`, `AfterReadRaw`, `AfterPeek`, `AfterBuffer`, `AfterEmit`, `AfterEmitErr`). That function's contract states the operation's law and the invariant it keeps.
  - A method of `Lexer` performs the same operation in place. Its contract proves that it agrees with the function.
  - The one-slot token channel is an `Option<Token>`. Sending on a full channel would block the only goroutine forever, so `Emit` and `EmitErr` require an empty slot.
- **`example.dfy`, module `Example`: the grammar of `example/example.go`.**
  - The grammar covers parentheses, `#` comments to the end of the line, and words of letters and digits.
  - The three state functions are the tags of `StateFn`.
  - Each state function is a pure step function (`WhitespaceStep`, `CommentStep`, `AlphaNumStep`) and an imperative method on the `Lexer` (`LexWhitespace`, `LexComment`, `LexAlphaNum`).
  - The driver `Next` of `lex.go` is defined here because it has to dispatch on the state tags. It appears as `NextOf`, a function, and as `Next`, a method with the loop.
  - `Inv` is the invariant of a lexer running the grammar. Every token returned is an error token, or a grammar token whose text is a run of input runes and whose row and column are the position of its first rune.
  - The module proves that the token stream of every finite input ends: grammar tokens, then one error token, then a panic.
- **`scenarios.dfy`, module `Scenarios`: whole runs on concrete inputs.** Each scenario gives the exact tokens with rows and columns:
  - `(a b)`;
  - a comment followed by `(x)`;
  - a trailing word;
  - an invalid byte, compared with a literal U+FFFD;
  - empty input, both with `Next` as written and with the corrected `Next`.

`Next` as written panics on the call after the first error token. The comment at example/example.go:45 says otherwise (see Findings). The model represents this panic as the outcome `Panicked`.

## Model

| member | source | states |
|---|---|---|
| Lex.Advance | lex.go:149-154 | after a rune the position never moves back; a newline gives the next row at column 0, any other accepted rune the next column; a reader failure or invalid byte moves nothing |
| Lex.PosAfter | lex.go:73-75 | the absolute position reached after a prefix of the stream starts at row 1, column 0 and is never below it |
| Lex.InitialIsConsistent | lex.go:88-96 | a new lexer's counters are the position of the empty prefix and its buffer is empty with the start unset |
| Lex.Lexer.constructor | lex.go:81-99 | NewLexer: empty buffer, start (-1,-1), absRow 1, absCol 0, empty slot, state = firstFunc; the invariant holds |
| Lex.AfterEmitErr | lex.go:133-138 | EmitErr queues a token of type Err with the error, empty text and zero row/col, and changes nothing else; the buffer invariant is kept |
| Lex.Lexer.EmitErr | lex.go:133-138 | the method updates the fields exactly as AfterEmitErr says and keeps the invariant |
| Lex.AfterEmit | lex.go:118-128 | Emit queues a token with the buffered text, the recorded start and no error, then empties the buffer and resets the start to (-1,-1); cursor, counters and state are unchanged; the invariant "buffer empty exactly when start unset, otherwise row >= 1, col >= 0" is kept |
| Lex.Lexer.Emit | lex.go:118-128 | the method updates the fields exactly as AfterEmit says and keeps the invariant |
| Lex.AfterBuffer | lex.go:192-198 | BufferRune appends exactly the one rune, records (absRow, absCol) as the start only when the buffer was empty, and touches no other field |
| Lex.Lexer.BufferRune | lex.go:192-198 | the method updates the fields exactly as AfterBuffer says and keeps the invariant |
| Lex.BufferAll | lex.go:192-198 | buffering a string rune by rune appends the whole string and touches nothing but the buffer and its start |
| Lex.BufferAllAppends | lex.go:192-198 | after buffering a run of runes the start is the position where the first went into an empty buffer, and the invariant holds |
| Lex.BufferThenEmit | lex.go:118-128 | round trip: buffering a non-empty string into an empty buffer and emitting it publishes exactly that string at the position of its first rune and restores every other field |
| Lex.AfterReadRaw | lex.go:159-170 | readRune reports end of stream without consuming, consumes and reports a reader failure or a width-1 U+FFFD (InvalidUTF8) with one Err token queued, and otherwise returns the rune and advances the cursor by one |
| Lex.Lexer.ReadRaw | lex.go:159-170 | the method's result and new fields are exactly AfterReadRaw's |
| Lex.AfterRead | lex.go:143-157 | a failing ReadRune returns (0, err), queues exactly one Err token with that error and leaves absRow/absCol, buffer and state alone; a successful one returns the next rune, moves to the next row at column 0 after '\n' and to the next column otherwise; consistency is kept |
| Lex.Lexer.ReadRune | lex.go:143-157 | the method's result and new fields are exactly AfterRead's, and it keeps the invariant |
| Lex.AfterPeek | lex.go:176-187 | a failing PeekRune is exactly a failing ReadRune (the failure is not undone); a successful one returns the next rune and changes no field at all |
| Lex.Lexer.PeekRune | lex.go:176-187 | the method's result and new fields are exactly AfterPeek's, and it keeps the invariant |
| Lex.PeekThenPeekOrRead | lex.go:172-187 | two peeks in a row return the same result, and a read after a successful peek succeeds with the peeked rune |
| Lex.ReplacementCharByWidth | lex.go:164-167 | U+FFFD of width 1 is the InvalidUTF8 error and queues its Err token; U+FFFD of width 3 is read as an ordinary rune |
| Example.TextAtExtend | example/example.go:100-101 | a run of input runes followed by the next input rune is a longer run |
| Example.InitialInv | example/example.go:25-29 | a lexer created for the grammar satisfies the grammar's invariant |
| Example.NewLispLexer | example/example.go:25-29 | a fresh lexer on the input, in its initial state with lexWhitespace first, satisfying the invariant |
| Example.WhitespaceStep | example/example.go:40-68 | a failed read returns nil with the error already queued and nothing buffered; white space continues in lexWhitespace, '#' goes to lexComment, both buffering nothing; '(' and ')' become a one-rune OpenParen/CloseParen token at the rune's position and return to lexWhitespace; any other rune is buffered and leads to lexAlphaNum; every step consumes a rune or queues a token |
| Example.LexWhitespace | example/example.go:40-68 | the method's new fields and next state are exactly WhitespaceStep's |
| Example.CommentStep | example/example.go:72-82 | nothing is ever buffered; a failed read returns nil with the error queued; a newline returns to lexWhitespace, any other rune stays in lexComment, with no token |
| Example.LexComment | example/example.go:72-82 | the method's new fields and next state are exactly CommentStep's |
| Example.AlphaNumStep | example/example.go:85-103 | a failed peek returns nil with the error queued and the word left unpublished; a letter or digit is consumed and buffered; the first other rune is only peeked, the word is queued as an AlphaNum token with its recorded start, and lexWhitespace resumes |
| Example.LexAlphaNum | example/example.go:85-103 | the method's new fields and next state are exactly AlphaNumStep's |
| Example.Step | lex.go:111 | calling a state function keeps the grammar invariant, leaves the state field alone, and consumes input or queues a token (returning nil only with a token queued) |
| Example.CallState | lex.go:111 | dispatching on the state tag runs exactly the step of that state function |
| Example.WhitespaceKeepsInv | example/example.go:57-67 | a rune lexWhitespace buffers starts a token at its own position, and a parenthesis token it queues originates in the input |
| Example.AlphaNumKeepsInv | example/example.go:85-103 | the buffer of lexAlphaNum stays the run of input runes since the word began, and the word it queues originates in the input |
| Example.NextOf | lex.go:102-114 | Next returns a pending token without running any state; it panics exactly when the slot is empty and the state nil (after queueing EOF); otherwise it returns one token, an error token that halts the lexer or a grammar token that comes from the input, and leaves the slot empty; the cursor never moves back |
| Example.Next | lex.go:102-114 | the method's loop ends with exactly the outcome and new state NextOf gives |
| Example.DeliveryConsumes | lex.go:102-114 | a call from lexWhitespace with nothing pending returns a token, and a grammar token only after consuming input |
| Example.SpaceSkipped | example/example.go:49-50 | a space other than newline is dropped inside the same call of Next, one column on |
| Example.CommentStarts | example/example.go:51-52 | '#' switches to lexComment inside the same call, buffering nothing |
| Example.ParenReturned | example/example.go:57-64 | '(' or ')' is returned at once as a one-rune token at its own position |
| Example.WordStarts | example/example.go:57-67 | any other rune starts a word at its own position and switches to lexAlphaNum |
| Example.WordGrows | example/example.go:98-102 | a letter or digit extends the word |
| Example.WordEnds | example/example.go:91-95 | a rune that is not a letter or digit ends the word, which is returned with its start, and is left unread |
| Example.EndOfInput | example/example.go:41-47 | at end of input lexWhitespace yields EOF and the lexer halts |
| Example.ReadFailureHalts | example/example.go:41-47 | a reader failure or invalid byte is consumed, returned as its error token, and halts the lexer |
| Example.CommentRuneDropped | example/example.go:78-81 | a comment rune other than newline is dropped inside the same call |
| Example.CommentNewline | example/example.go:78-79 | a newline ends the comment, moving to the next row at column 0 |
| Example.CommentSkips | example/example.go:72-82 | a comment of any length is dropped up to and including its newline, buffering nothing, before lexWhitespace resumes |
| Example.WordAtEndDropped | example/example.go:86-89 | a word running to end of input is never returned: the peek yields EOF and the buffered text stays behind |
| Example.RunPanics | lex.go:108-111 | once the lexer has halted with nothing pending, the next call panics |
| Example.RunFirst | lex.go:102-114 | the first call of a run from lexWhitespace either returns the error token and is followed by the panic, or consumes input and returns to lexWhitespace |
| Example.RunEndsWithErrThenPanic | lex.go:102-114 | on every finite input, enough calls of Next return grammar tokens, then exactly one error token, then panic |
| Example.NextIntendedOf | example/example.go:45 | the corrected Next never panics, agrees with Next wherever Next does not panic, and returns EOF from a halted lexer leaving it as it is |
| Example.NextIntended | example/example.go:45 | the corrected loop ends with exactly the outcome and new state NextIntendedOf gives |
| Example.RunIntended | example/example.go:45 | n calls of the corrected Next give n outcomes |
| Example.HaltedRedeliversEOF | example/example.go:45 | with the correction, every call on a halted lexer returns EOF |
| Scenarios.ParensAndWords | example/example.go:40-103 | `(a b)` gives OpenParen "(" at (1,1), AlphaNum "a" at (1,2), AlphaNum "b" at (1,4), CloseParen ")" at (1,5), then EOF, then the panic |
| Scenarios.CommentThenParens | example/example.go:72-82 | `#`, any comment body without a newline, a newline and `(x)` give OpenParen at (2,1), AlphaNum "x" at (2,2), CloseParen at (2,3), then EOF, then the panic |
| Scenarios.CommentExample | example/example.go:72-82 | `# comment\n(x)` gives those tokens |
| Scenarios.TrailingWordDropped | example/example.go:86-89 | `ab` gives EOF with "ab" still buffered, then the panic; the word is never returned |
| Scenarios.InvalidByteStops | lex.go:164-166 | a byte that is not UTF-8 gives the InvalidUTF8 error token, then the panic |
| Scenarios.LiteralReplacementAccepted | lex.go:164 | a three-byte U+FFFD followed by a space gives a one-rune AlphaNum word at (1,1), then EOF, then the panic |
| Scenarios.EmptyInputPanics | lex.go:108-111 | as written, empty input gives EOF and then the panic |
| Scenarios.EmptyInputRedeliversEOF | example/example.go:45 | with the correction, empty input gives EOF on every call |

## Left out

- The `bufio.Reader`, the `io.Reader` and UTF-8 decoding are a library outside the repository. The input is the sequence of decoder results, and the reader's cursor is `pos`.
  - A failed read or peek of a reader error or an invalid byte consumes that item, because bufio clears the error and `PeekRune` returns before `UnreadRune`.
  - End of stream consumes nothing.
- The failure branch of `UnreadRune` (lex.go:182-185) is not modelled. That call cannot fail right after a successful `ReadRune`.
- Channels and `select` are reduced to the `Option` slot `ch`, because no concurrency is involved. Sending on a full slot blocks forever, so `Emit` and `EmitErr` require an empty slot. `EmitErr(nil)` is not modelled: the error type has no nil value.
- Arbitrary `LexerFunc` closures are replaced by the three state tags of the example grammar. The driver therefore lives in `Example`, not in `Lex`.
- `unicode.IsSpace` follows Go's White_Space list exactly. `IsLetter` and `IsNumber` follow `unicode` on Latin-1 only: no rune above U+00FF is taken as a letter or a number.
- Go `int` overflow of the row and column counters is not modelled. `int` is unbounded here.
- The error payloads are reduced to `EOF | InvalidUTF8 | IO(code)`.
- `Token.String` (lex.go:47-56) is output formatting and is left out.
- `main` and the `LispLexer` wrapper type (example/example.go:21-23, 106-128) are left out: they do file I/O and printing. `LispLexer.Next` is the engine's `Next`.
- `Example.Run`: after a panic the outcome list stops, since the program would have crashed.

## Findings

| source | as written | input that shows it | evidently intended | confidence | as-written member | corrected member |
|---|---|---|---|---|---|---|
| lex.go:108-111, example/example.go:45 | when the state is nil and the slot is empty, `Next` queues EOF with `EmitErr` and then calls the nil state function, which panics | the empty input: the first call returns EOF, the second panics | the comment at example/example.go:45 says EOF is returned for all future calls of `Next`, so the loop should go round again after queueing EOF and return it | not executed | Scenarios.EmptyInputPanics | Scenarios.EmptyInputRedeliversEOF |

`Example.NextOf` and `Example.Next` model `Next` as written, and no grammar token ever follows the first error token (`Example.RunEndsWithErrThenPanic`). `Example.NextIntendedOf` and `Example.NextIntended` are the corrected driver. They differ from `Next` only where `Next` panics, and they return EOF on every call once the lexer has halted (`Example.HaltedRedeliversEOF`).
