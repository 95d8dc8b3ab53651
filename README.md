# Tokenizer of a Lox interpreter, modelled in Dafny

The program's `tokenize` command reads a source file and prints one line per
lexical token, in order. It has twelve token kinds: eleven one-character
symbols `( ) { } + - , ; . * =` and the two-character `==`. Every other
character, including spaces, newlines and `!`, is reported as
`[line 1] Error: Unexpected character: <c>` on standard error. Scanning goes
on after such an error. After the last character the program prints the
trailer `EOf  null` (spelled exactly so in the code). If any error was
reported, the process exits with status 65.

The model has three modules:

- `Tokenizer` (`tokenizer.dfy`) holds the `Token` and `TokenizeError`
  datatypes and their renderings `TokenString` and `ErrorString`. Each
  token's printed line is assembled from its upper-case `KindName`, its
  `Lexeme` and `null`, so a lexeme is written down once and the same table
  serves both printing and classification. It also
  holds `TryFromChar`, the classification of one character, and
  `ParseErrorString`, an inverse of `ErrorString` used to prove that error
  lines are injective.
- `Decimal` (`decimal.dfy`) is the decimal rendering of the line number and
  its parser.
- `Scanner` (`scanner.dfy`) holds the scan loop, at two levels.
  - The specification function `Scan` maps the input to the sequence of
    `Record`s the loop emits, one per iteration: a token or an error.
    `Step` and `Width` describe one iteration: the record it emits and the
    number of characters it consumes.
  - `Unscan` is the partner of `Scan`: it concatenates the source text of
    each record. `Scan` and `Unscan` are proved to be inverse bijections
    between strings and `Canonical` record sequences.
  - `Tokenize` is the loop itself. It is a method with a cursor index, one
    character of lookahead after `=`, and a sticky `error` flag. It is
    proved to print `RenderAll(Scan(contents))` followed by the trailer, and
    to return exit status 65 exactly when some input character is not one of
    the eleven symbols.

Scanning follows the code, not a fuller Lox scanner. There are no `!`, `<`,
`>` or `/` tokens, no comments, no whitespace skipping and no line counting:
the line in an error is always the literal 1.

## Model

| member | source | states |
|---|---|---|
| Tokenizer.TokenStringShowsLexeme | src/main.rs:40-59 | the printed line of every token ends with a space, the token's lexeme, a space and `null`, so the lexemes `try_from` and the scanner work with are the ones the program prints |
| Tokenizer.TryFromChar | src/main.rs:61-80 | a character is accepted exactly when it is one of the eleven symbols `( ) { } + - , ; . * =`; an accepted character becomes the token whose lexeme is that character, never `EqualEqual`; any other character `c` gives `UnexpectedCharacter(1, c)` |
| Tokenizer.ClassifyLexeme | src/main.rs:64-78 | every token except `EqualEqual` has a one-character lexeme, and `try_from` maps that character back to the same token |
| Tokenizer.TokenStringInjective | src/main.rs:40-59 | two tokens with the same printed line are the same token |
| Tokenizer.ErrorString | src/main.rs:28-38 | an error line starts with `[line ` and ends with the offending character |
| Tokenizer.ErrorStringRoundTrip | src/main.rs:30-33 | reading an error line back gives the line number and character it was printed from |
| Tokenizer.ErrorStringInjective | src/main.rs:28-38 | two errors with the same printed line carry the same line number and character |
| Decimal.FromToDecimal | src/main.rs:32 | the decimal numeral printed for the line number reads back as that number |
| Decimal.TakeDigitsOfNumeral | src/main.rs:32 | a numeral followed by a non-digit is read whole, so the number ends where `]` begins |
| Scanner.Step | src/main.rs:100-124 | an iteration emits `EqualEqual` exactly when it consumes two characters; the text of the emitted record is exactly the characters consumed; the record is an error exactly when the first character is not one of the eleven symbols |
| Scanner.StepAt | src/main.rs:100-124 | at cursor `i`: an unexpected `s[i]` gives its error and consumes one character; a symbol other than `=` gives its token and consumes one; `=` with `=` at `i + 1` gives `EqualEqual` and consumes two; `=` at the end or before another character gives `Equal` and consumes one |
| Scanner.Render | src/main.rs:110-123 | a record goes to standard error exactly when it is an error record |
| Scanner.RenderInjective | src/main.rs:110-127 | no record is printed as the trailer, and distinct records are printed as distinct lines |
| Scanner.NoRecordIsTrailer | src/main.rs:127 | no printed record line equals the trailer |
| Scanner.ScanLossless | src/main.rs:99-126 | the texts of the emitted records, concatenated, are exactly the input: every character is consumed once, in order |
| Scanner.ScanCanonical | src/main.rs:100-126 | every error record names line 1 and a non-symbol character, and a lone `Equal` is never followed by a record starting with `=` |
| Scanner.ScanOfUnscan | src/main.rs:100-126 | scanning the text of any canonical record sequence gives back that sequence, so the records and the input determine each other |
| Scanner.ScanLength | src/main.rs:100-126 | the number of records plus the number of `EqualEqual` merges equals the input length, so each iteration consumes one or two characters and the record count is at least half the input length |
| Scanner.MaximalMunch | src/main.rs:104-110 | `=` followed by `=` gives one `EqualEqual` and scanning resumes after both characters |
| Scanner.EqualEqualAlone | src/main.rs:104-110 | the input `==` gives exactly one `EqualEqual` record, not two `Equal` records |
| Scanner.LoneEqual | src/main.rs:111-117 | a `=` at the end of input or before a character other than `=` gives `Equal`, and the next character is scanned by the next iteration |
| Scanner.NoAdjacentEquals | src/main.rs:104-117 | the output never has two `Equal` records in a row |
| Scanner.ScanAppend | src/main.rs:100-126 | scanning two strings one after the other gives the two outputs one after the other, unless the cut falls between two `=` |
| Scanner.ErrorIsNotFatal | src/main.rs:121-124 | an unexpected character adds exactly one error record, and the text before and after it is scanned as it would be on its own |
| Scanner.ScanHasErrorIff | src/main.rs:121-124 | some record is an error exactly when some input character is not one of the eleven symbols |
| Scanner.Tokenize | src/main.rs:97-134 | the printed lines are the rendered records of `Scan` in order, followed by the trailer exactly once, also for empty input; the exit status is 65 exactly when an error record was printed, which is exactly when some character is not a symbol, and 0 otherwise |

## Left out

- Command-line handling: the argument count check, the usage message and the unknown-command message (src/main.rs:83-92, 136-139). They are process glue around the scanner.
- Reading the file and the `Failed to read file` path (src/main.rs:98, 128-130). `Tokenize` takes the contents already read as a string.
- The debug line written to standard error before scanning (src/main.rs:95).
- Real output streams. Printed lines are a sequence of values tagged `Stdout` or `Stderr`, in the order the program writes them. How a terminal interleaves the two streams is not modelled.
- `std::process::exit(65)`: modelled as the returned exit status, 65 or 0.
- Unicode semantics of Rust's `char`. Characters are compared only for equality with the eleven ASCII symbols.
- The `usize` width of the line number: it is a `nat`, and the code only ever uses the value 1.
