# promf core in Dafny

A model of the two pieces of logic in promf, a small metrics-push agent
written in Rust, with proofs about them:

- **The lexer** (src/parser.rs). It covers the `Token` variant and its
  conversions from and to text, the blank, letter and digit classifiers,
  the string classifiers `is_digit` and `is_letter`, and the cursor
  `LexerIter` over the input bytes (`next_non_blank`, `read_string`,
  `next`). The lexer is modelled as the code is written. A run of bytes
  ends at the first blank or letter, and that byte is never consumed. A
  cursor that reaches a letter therefore reads the empty run, which
  `Token::from` turns into `Digit(0)`, and it stays on that letter for
  every later call. A run that reaches the end of the input is dropped.
  On the input of the iterator test in src/parser.rs the lexer yields
  `Digit(0)` forever, not the listed tokens; `Parser.TestInputYieldsZeros`
  proves this. The test also lists `1.12` as three tokens (`Digit(1)`,
  `Floatp`, `Digit(12)`). The code reads it as one run, so `1.12 ` gives one
  `Illegal`. Where the intended behaviour and the code differ, the model
  follows the code.
- **The sample-line encoder and the gauge holder** (src/main.rs).
  `Pusher` holds one `u64` gauge: `Default` sets it to 0 and
  `change_value` overwrites it. `labels_to_string` renders a flat
  `[k1, v1, k2, v2, ...]` list as `{k1="v1",k2="v2"}`. `push_metrics`
  builds `name{...} value ts ` with a trailing space and no line break.
  Keys and values are copied verbatim, without escaping.

Files:
- `basics.dfy`: `Option`, `byte` and `u64`.
- `decimal.dfy`: decimal digit strings. It models Rust's `u64` `Display`
  (`to_string`, `{}`) and the unbounded value of a digit string.
- `text.dfy`: joining, splitting and counting characters in strings.
- `parser.dfy`: module `Parser`, for src/parser.rs.
- `agent.dfy`: module `Agent`, for src/main.rs.

Modelling choices:
- Integers:
  - Rust's `u64` is the subset type `u64` of `int`.
  - `is_digit` uses release-build semantics. Its accumulator wraps modulo
    2^64, and a byte below `'0'` simply fails the range test. The debug
    build would panic on these overflows instead.
- Bytes and characters:
  - The cursor reads its input as a sequence of bytes.
  - Each byte becomes the character with that code (`byte as char`), as in
    the source.
  - The string classifiers in the model go through a string character by
    character. The source goes through its UTF-8 bytes. Both give the same
    answer: every byte of a non-ASCII character's encoding is 0x80 or
    above, so it is neither a digit nor a letter.
- The gauge:
  - `curr_v` is a plain field of the class `Agent.Pusher`.
  - `change_value` is a method that modifies only that field.
- The label list:
  - The list must have at least two entries and an even count.
  - Otherwise `labels[1]` or `labels[i + 1]` is out of bounds and the
    source panics.
  - The model states this as the precondition `WellFormedLabels`. An
    empty label list is therefore not an error value here: the source
    panics on it, so the model rules it out instead.
- Two readers are partners for the encoder; the source has no decoder.
  - `Agent.DecodeSample` reads a line back from its end.
  - `Agent.DecodeLabels` reads a label block back.

## Model

| member | source | states |
|---|---|---|
| Parser.LexerIter.IsBlank | src/parser.rs:107-110 | a character is blank exactly when it is a space, tab, line feed or carriage return (the `BLANKS` table) |
| Parser.IsDigit | src/parser.rs:139-151 | `Some` exactly when every character is a digit (so also for the empty string); the value is the string's decimal value modulo 2^64, although the loop only ever holds the wrapped accumulator |
| Parser.IsLetter | src/parser.rs:153-163 | `Some(s)` exactly when every character of `s` is `a`-`z`, `A`-`Z` or `_`, otherwise `None` |
| Parser.TokenFrom | src/parser.rs:15-34 | a run is read as a `Digit` exactly when it is all digits, and an `Ident` only for the non-empty run itself; the full case split is `Parser.TokenFromCases` |
| Parser.Render | src/parser.rs:37-50 | every token but an identifier renders as non-empty text, and a number renders as digits only; its inverse is `Parser.RenderRoundTrip` |
| Parser.TokenFromCases | src/parser.rs:15-34 | the six punctuation strings map to their tokens; a string is read as `Digit` iff it is all digits (the empty string included), with its value modulo 2^64; as `Ident(s)` iff it is non-empty and all letters; as `Illegal` iff it is none of these |
| Parser.EmptyRunIsZero | src/parser.rs:139-151 | the empty run becomes `Digit(0)` |
| Parser.RenderRoundTrip | src/parser.rs:37-50 | rendering a token and reading it back gives the same token, for punctuation, every `Digit(d)` and every `Ident` with a non-empty all-letter name |
| Parser.IllegalReadsBackAsIdent | src/parser.rs:48 | `Illegal` does not survive the round trip: it renders as `ILLEGAL`, which reads back as `Ident("ILLEGAL")` |
| Decimal.ToDecimal | src/parser.rs:47 | `u64` rendering is non-empty, all digits, without a leading zero, and its decimal value is the number rendered |
| Parser.FirstNonBlank | src/parser.rs:84-91 | the least index at or after the cursor whose byte is not blank; `None` exactly when every byte from the cursor to the end is blank (including an empty rest) |
| Parser.LexerIter.NextNonBlank | src/parser.rs:84-91 | the cursor's index loop returns exactly `FirstNonBlank` of the bytes and the cursor |
| Parser.RunEnd | src/parser.rs:97-101 | the least index at or after a position whose byte is blank or a letter; `None` exactly when no such byte follows |
| Parser.ReadRun | src/parser.rs:94-105 | `Some((s, j))` only with cursor <= j < size, byte j blank or a letter, `s` the bytes from the cursor to j as characters, and no blank or letter in `s`; `None` exactly when no blank or letter occurs at or after the cursor |
| Parser.LexerIter.ReadString | src/parser.rs:94-105 | the loop that pushes characters returns exactly `ReadRun` of the bytes and the cursor |
| Parser.Step | src/parser.rs:126-136 | one call of `next` never moves the cursor back and never past the end of the input |
| Parser.LexerIter.Next | src/parser.rs:126-136 | the token returned and the new cursor are `Step` of the bytes and the old cursor; the cursor invariant `pos <= input_size` is kept |
| Parser.StepAllBlank | src/parser.rs:128-135 | when only blanks remain, `next` returns `None` and leaves the cursor where it was |
| Parser.StepRunToEnd | src/parser.rs:128-135 | when the first non-blank run reaches the end of the input, `next` returns `None` with the cursor moved to the start of that run |
| Parser.StepToken | src/parser.rs:128-133 | otherwise `next` classifies the bytes from the first non-blank up to the next blank or letter, and leaves the cursor on that blank or letter |
| Parser.StepOnLetter | src/parser.rs:97-101 | if the first non-blank byte is a letter, `next` returns `Digit(0)` and leaves the cursor on that letter |
| Parser.StuckOnLetter | src/parser.rs:126-136 | from then on every call returns `Digit(0)`, for any number of calls |
| Parser.TestInputYieldsZeros | src/parser.rs:170-200 | on the iterator test's input every call yields `Digit(0)`, so the test's expected `Ident("http_code_name")` is never produced |
| Parser.DecimalNumberIsOneRun | src/parser.rs:94-105 | `1.12` followed by a blank is read as one run, which is `Illegal` |
| Parser.TrailingRunDropped | src/parser.rs:94-105 | in `= 1.12` the `=` is read; the trailing `1.12` reaches the end of the input and yields `None` with the cursor on its first byte |
| Parser.Lexer.constructor | src/parser.rs:61-63 | the lexer keeps its input |
| Parser.Lexer.Iter | src/parser.rs:64-66 | a fresh cursor over the lexer's bytes at position 0 |
| Parser.LexerIter.constructor | src/parser.rs:76-82 | size is the input length, cursor at 0 |
| Agent.Pusher.Default | src/main.rs:34-40 | the gauge starts at 0 |
| Agent.Pusher.ChangeValue | src/main.rs:43-46 | the gauge holds the new value, and no other field is changed |
| Agent.LastWriteWins | src/main.rs:43-46 | after two writes, the gauge and the next sample line show the second value |
| Agent.LabelBlock | src/main.rs:78-85 | the block always starts with `{` and ends with `}` |
| Agent.Pusher.LabelsToString | src/main.rs:77-86 | the loop that pushes onto a `String` returns exactly `{` followed by the pairs in input order, the first without a prefix and every later one after a comma, then `}` |
| Agent.LabelBlockPairs | src/main.rs:78-85 | when no key or value holds a comma, the block's inside splits at its commas into exactly `len/2` parts, part i being `k_i="v_i"` built from entries 2i and 2i+1 |
| Agent.LabelBlockCommas | src/main.rs:80-83 | when no key or value holds a comma, the block holds exactly `len/2 - 1` commas, the separators |
| Agent.LabelBlockQuotes | src/main.rs:80-83 | when no key or value holds a quote, the block holds exactly two quotes per pair |
| Agent.LabelsRoundTrip | src/main.rs:78-85 | when no key or value holds a comma and no value holds `=`, the block reads back to exactly the original flat list. Order and text are kept; values keep any embedded quotes |
| Agent.Pusher.PushMetrics | src/main.rs:73-75 | for every input the line ends in exactly one space, after the timestamp's last digit; its inverse is `Agent.SampleRoundTrip` and its line-break freedom `Agent.SampleLineShape` |
| Agent.SampleRoundTrip | src/main.rs:73-75 | a sample line reads back from its end as the name and label block, then the value, then the timestamp. The value comes before the timestamp, for every name and label list |
| Agent.SampleLineShape | src/main.rs:74 | the line holds no line break when the name and labels hold none |
| Agent.Pusher.TickLine | src/main.rs:53-58 | the line one tick builds is `test{k="V"} <gauge> <now> ` |

## Left out

- `Pusher::run` (src/main.rs:47-63) is not modelled. It is an endless loop that reads the wall clock, sleeps 30 seconds and sends; it is time and concurrency, not logic. Only the line one tick builds is modelled, as `Agent.Pusher.TickLine`. There the clock reading is a parameter that is already a `u64`. The `u128` to `u64` cast of `as_millis()` is not modelled.
- `Pusher::push` (src/main.rs:65-71) is not modelled. It is an HTTP POST through an external client. Its status test is inverted, so it reports an error when the request succeeds.
- `main` (src/main.rs:17-28) is not modelled. It does thread spawning and logger setup, and as written it does not compile.
- Atomic memory ordering of `curr_v` is not modelled. The model has one sequential caller, so the field is plain.
- The `println!` in `is_letter` (src/parser.rs:157) is an output side effect and is not modelled.
- UTF-8 validity of the input is not modelled. The lexer's input is any byte sequence.
- Debug-build overflow panics in `is_digit` are not modelled (see the modelling choices above).
- The commented-out Go code at the end of src/main.rs is not modelled.
- `Parser.LexerIter.IsLetter` and `Parser.LexerIter.IsDigit` carry no contract of their own. Their bodies are the source's range tests; `Parser.IsLetter`, `Parser.IsDigit` and `Parser.TokenFromCases` state what follows from them.
