/** The `tokenize` command: a single left-to-right pass over the file contents
    that prints one line per iteration (a token on standard output or an
    error on standard error), merges `=` `=` into `EqualEqual` with one
    character of lookahead, keeps going after an unexpected character, and
    ends with the trailer line. */
module Scanner {
  import opened Tokenizer

  /** What one iteration of the loop emits. */
  datatype Record = TokenLine(token: Token) | ErrorLine(error: TokenizeError)

  /** A printed line and the stream it goes to. */
  datatype Line = Stdout(text: string) | Stderr(text: string)

  /** The line printed after the loop (spelled as the program spells it). */
  const Trailer: string := "EOf  null"

  // ---------------------------------------------------------------------
  // The specification of the loop, one iteration at a time
  // ---------------------------------------------------------------------

  /** How many characters the iteration that starts at `s[0]` consumes:
      two for `==`, one otherwise. */
  function Width(s: string): (w: nat)
    requires |s| > 0
    ensures 1 <= w <= 2 && w <= |s|
    ensures w == 2 <==> |s| > 1 && s[0] == '=' && s[1] == '='
  {
    if |s| > 1 && s[0] == '=' && s[1] == '=' then 2 else 1
  }

  /** The record emitted by the iteration that starts at `s[0]`. */
  function Step(s: string): (r: Record)
    requires |s| > 0
    ensures r == TokenLine(EqualEqual) <==> Width(s) == 2
    ensures RecordLexeme(r) == s[..Width(s)]
    ensures r.ErrorLine? <==> !IsSymbol(s[0])
  {
    match TryFromChar(s[0])
    case Ok(token) =>
      if token == Equal && |s| > 1 && s[1] == '=' then TokenLine(EqualEqual)
      else TokenLine(token)
    case Err(err) => ErrorLine(err)
  }

  /** The records the loop emits for the whole input, in order. */
  function Scan(s: string): seq<Record>
    decreases |s|
  {
    if s == [] then [] else [Step(s)] + Scan(s[Width(s)..])
  }

  /** The source text one record stands for. */
  function RecordLexeme(r: Record): string {
    match r
    case TokenLine(t) => Lexeme(t)
    case ErrorLine(e) => [e.c]
  }

  /** The source text a sequence of records stands for. */
  function Unscan(recs: seq<Record>): string {
    if recs == [] then [] else RecordLexeme(recs[0]) + Unscan(recs[1..])
  }

  /** `Unscan` of a record followed by more records. */
  lemma {:induction false} UnscanCons(r: Record, tail: seq<Record>)
    ensures Unscan([r] + tail) == RecordLexeme(r) + Unscan(tail)
  {
    assert ([r] + tail)[1..] == tail;
  }

  /** The records whose text starts with `=`. */
  predicate StartsWithEqual(r: Record) {
    r == TokenLine(Equal) || r == TokenLine(EqualEqual)
  }

  /** Records that the scanner can produce: errors name an unexpected
      character on line 1, and a lone `Equal` is never followed by a record
      whose text starts with `=` (otherwise the two would have merged). */
  predicate Canonical(recs: seq<Record>) {
    (forall k :: 0 <= k < |recs| && recs[k].ErrorLine? ==>
      recs[k].error.line == 1 && !IsSymbol(recs[k].error.c)) &&
    (forall k :: 0 <= k < |recs| - 1 && recs[k] == TokenLine(Equal) ==>
      !StartsWithEqual(recs[k + 1]))
  }

  /** Some record is an error record. */
  predicate HasError(recs: seq<Record>) {
    recs != [] && (recs[0].ErrorLine? || HasError(recs[1..]))
  }

  /** How many records stand for two characters. */
  function Merges(recs: seq<Record>): nat {
    if recs == [] then 0
    else (if recs[0] == TokenLine(EqualEqual) then 1 else 0) + Merges(recs[1..])
  }

  /** One iteration of `Scan`. */
  lemma {:induction false} ScanUnfold(s: string)
    requires |s| > 0
    ensures Scan(s) == [Step(s)] + Scan(s[Width(s)..])
  {
  }

  /** `HasError` of a record followed by more records. */
  lemma {:induction false} HasErrorCons(r: Record, tail: seq<Record>)
    ensures HasError([r] + tail) == (r.ErrorLine? || HasError(tail))
  {
    assert ([r] + tail)[1..] == tail;
  }

  // ---------------------------------------------------------------------
  // Rendering
  // ---------------------------------------------------------------------

  /** A record as printed: a token line on standard output, an error line on
      standard error. */
  function Render(r: Record): (line: Line)
    ensures line.Stderr? <==> r.ErrorLine?
  {
    match r
    case TokenLine(t) => Stdout(TokenString(t))
    case ErrorLine(e) => Stderr(ErrorString(e))
  }

  /** The records as printed, in order. */
  function RenderAll(recs: seq<Record>): (lines: seq<Line>)
    ensures |lines| == |recs|
  {
    if recs == [] then [] else [Render(recs[0])] + RenderAll(recs[1..])
  }

  /** `RenderAll` of a record followed by more records. */
  lemma {:induction false} RenderAllCons(r: Record, tail: seq<Record>)
    ensures RenderAll([r] + tail) == [Render(r)] + RenderAll(tail)
  {
    assert ([r] + tail)[1..] == tail;
  }

  /** No record is rendered as the trailer, and distinct records are rendered
      as distinct lines. */
  lemma {:induction false} RenderInjective(a: Record, b: Record)
    ensures Render(a) != Stdout(Trailer)
    ensures Render(a) == Render(b) ==> a == b
  {
    if Render(a) == Render(b) {
      match a
      case TokenLine(t) => TokenStringInjective(t, b.token);
      case ErrorLine(e) => ErrorStringInjective(e, b.error);
    }
  }

  /** The `k`-th printed line renders the `k`-th record. */
  lemma {:induction false} RenderAllAt(recs: seq<Record>, k: nat)
    requires k < |recs|
    ensures RenderAll(recs)[k] == Render(recs[k])
  {
    if k > 0 {
      RenderAllAt(recs[1..], k - 1);
    }
  }

  /** The trailer is printed only after the records. */
  lemma {:induction false} NoRecordIsTrailer(recs: seq<Record>)
    ensures forall k :: 0 <= k < |recs| ==> RenderAll(recs)[k] != Stdout(Trailer)
  {
    forall k | 0 <= k < |recs|
      ensures RenderAll(recs)[k] != Stdout(Trailer)
    {
      RenderAllAt(recs, k);
      RenderInjective(recs[k], recs[k]);
    }
  }

  // ---------------------------------------------------------------------
  // Properties of the scan
  // ---------------------------------------------------------------------

  /** The records spell out the input exactly: nothing is dropped, nothing
      is consumed twice. */
  lemma {:induction false} ScanLossless(s: string)
    ensures Unscan(Scan(s)) == s
  {
    if s != [] {
      var w := Width(s);
      ScanUnfold(s);
      UnscanCons(Step(s), Scan(s[w..]));
      ScanLossless(s[w..]);
      assert s == s[..w] + s[w..];
    }
  }

  /** Every output of the scanner is canonical. */
  lemma {:induction false} ScanCanonical(s: string)
    ensures Canonical(Scan(s))
  {
    if s != [] {
      var w := Width(s);
      var rest := Scan(s[w..]);
      ScanCanonical(s[w..]);
      var recs := Scan(s);
      assert recs == [Step(s)] + rest;
      if Step(s) == TokenLine(Equal) && rest != [] {
        // the `=` was not followed by `=`, so the next record is not an `=` one
        assert |s| > 1 && s[1] != '=';
        assert RecordLexeme(rest[0]) == s[w..][..Width(s[w..])];
      }
      if Step(s).ErrorLine? {
        assert TryFromChar(s[0]).Err?;
      }
    }
  }

  /** The scanner reads every canonical record sequence back from its text,
      so `Scan` and `Unscan` are inverse bijections between strings and
      canonical record sequences. */
  lemma {:induction false} ScanOfUnscan(recs: seq<Record>)
    requires Canonical(recs)
    ensures Scan(Unscan(recs)) == recs
  {
    if recs != [] {
      var r, rest := recs[0], recs[1..];
      var s := Unscan(recs);
      assert Canonical(rest);
      ScanOfUnscan(rest);
      var u := Unscan(rest);
      assert s == RecordLexeme(r) + u;
      if u != [] && r == TokenLine(Equal) {
        ScanLossless(u);
        assert rest != [] && !StartsWithEqual(rest[0]);
        UnscanHead(rest);
      }
      StepOfLexeme(r, u);
      assert s[Width(s)..] == u;
    }
  }

  /** The first character of a non-empty record text comes from its first
      record; only `=`-records start with `=`. */
  lemma {:induction false} UnscanHead(recs: seq<Record>)
    requires recs != [] && Canonical(recs)
    ensures Unscan(recs) != [] && (Unscan(recs)[0] == '=' <==> StartsWithEqual(recs[0]))
  {
  }

  /** A record's text followed by text that does not extend it scans back to
      that record first. */
  lemma {:induction false} StepOfLexeme(r: Record, u: string)
    requires r.ErrorLine? ==> r.error.line == 1 && !IsSymbol(r.error.c)
    requires r == TokenLine(Equal) && u != [] ==> u[0] != '='
    ensures |RecordLexeme(r) + u| > 0
    ensures Step(RecordLexeme(r) + u) == r && Width(RecordLexeme(r) + u) == |RecordLexeme(r)|
  {
  }

  /** One output record per iteration: every record stands for one character
      except `EqualEqual`, which stands for two. */
  lemma {:induction false} ScanLength(s: string)
    ensures |Scan(s)| + Merges(Scan(s)) == |s|
    ensures |s| <= 2 * |Scan(s)|
  {
    if s != [] {
      var w := Width(s);
      ScanLength(s[w..]);
      assert Scan(s)[1..] == Scan(s[w..]);
    }
  }

  /** Maximal munch: `=` followed by `=` is one `EqualEqual` that consumes
      both characters. */
  lemma {:induction false} MaximalMunch(s: string)
    requires |s| >= 2 && s[0] == '=' && s[1] == '='
    ensures Scan(s) == [TokenLine(EqualEqual)] + Scan(s[2..])
  {
  }

  /** The input `==` is one `EqualEqual`, never two `Equal`s. */
  lemma {:induction false} EqualEqualAlone()
    ensures Scan("==") == [TokenLine(EqualEqual)]
  {
  }

  /** A `=` at the end, or before anything but `=`, is `Equal`, and the next
      character is left for the next iteration. */
  lemma {:induction false} LoneEqual(s: string)
    requires |s| >= 1 && s[0] == '=' && (|s| == 1 || s[1] != '=')
    ensures Scan(s) == [TokenLine(Equal)] + Scan(s[1..])
  {
  }

  /** The scanner never emits two `Equal` records in a row. */
  lemma {:induction false} NoAdjacentEquals(s: string, k: nat)
    requires k + 1 < |Scan(s)|
    ensures !(Scan(s)[k] == TokenLine(Equal) && Scan(s)[k + 1] == TokenLine(Equal))
  {
    ScanCanonical(s);
  }

  /** Scanning distributes over concatenation unless the cut separates the
      two characters of an `==`. */
  lemma {:induction false} ScanAppend(p: string, q: string)
    requires !(p != [] && q != [] && p[|p| - 1] == '=' && q[0] == '=')
    ensures Scan(p + q) == Scan(p) + Scan(q)
  {
    if p == [] {
      assert p + q == q;
    } else {
      var w := Width(p);
      StepOfPrefix(p, q);
      assert (p + q)[w..] == p[w..] + q;
      ScanAppend(p[w..], q);
    }
  }

  /** The first iteration over `p + q` is the first iteration over `p`,
      unless `p` is a lone `=` that `q` would extend. */
  lemma {:induction false} StepOfPrefix(p: string, q: string)
    requires p != [] && !(|p| == 1 && q != [] && p[0] == '=' && q[0] == '=')
    ensures Step(p + q) == Step(p) && Width(p + q) == Width(p)
  {
  }

  /** An unexpected character costs one error record and nothing else: what
      comes before and after it is scanned exactly as on its own. */
  lemma {:induction false} ErrorIsNotFatal(p: string, c: char, q: string)
    requires !IsSymbol(c)
    ensures Scan(p + [c] + q) == Scan(p) + [ErrorLine(UnexpectedCharacter(1, c))] + Scan(q)
  {
    var e := ErrorLine(UnexpectedCharacter(1, c));
    assert Scan([c] + q) == [e] + Scan(q) by {
      var s := [c] + q;
      assert s[0] == c && Width(s) == 1 && s[1..] == q;
    }
    ScanAppend(p, [c] + q);
    assert p + [c] + q == p + ([c] + q);
  }

  /** Some record is an error exactly when some input character is not one
      of the eleven symbols. */
  lemma {:induction false} ScanHasErrorIff(s: string)
    ensures HasError(Scan(s)) <==> exists k :: 0 <= k < |s| && !IsSymbol(s[k])
  {
    if s != [] {
      var w := Width(s);
      ScanUnfold(s);
      HasErrorCons(Step(s), Scan(s[w..]));
      ScanHasErrorIff(s[w..]);
      UnexpectedSplit(s, w);
    }
  }

  /** An unexpected character lies in the first `w` characters or after them;
      a second `=` is never unexpected. */
  lemma {:induction false} UnexpectedSplit(s: string, w: nat)
    requires 0 < w <= |s| && (w == 2 ==> s[1] == '=') && w <= 2
    ensures (exists k :: 0 <= k < |s| && !IsSymbol(s[k])) <==>
            !IsSymbol(s[0]) || exists k :: 0 <= k < |s[w..]| && !IsSymbol(s[w..][k])
  {
    if k :| 0 <= k < |s| && !IsSymbol(s[k]) {
      if k >= w {
        assert !IsSymbol(s[w..][k - w]);
      }
    }
    if k :| 0 <= k < |s[w..]| && !IsSymbol(s[w..][k]) {
      assert !IsSymbol(s[w + k]);
    }
  }

  /** The record and width of the iteration at cursor `i`, read off the
      classification of `s[i]` and the lookahead `s[i + 1]`. */
  lemma {:induction false} StepAt(s: string, i: nat)
    requires i < |s|
    ensures TryFromChar(s[i]).Err? ==> Step(s[i..]) == ErrorLine(TryFromChar(s[i]).error) && Width(s[i..]) == 1
    ensures TryFromChar(s[i]).Ok? && TryFromChar(s[i]).value != Equal ==>
      Step(s[i..]) == TokenLine(TryFromChar(s[i]).value) && Width(s[i..]) == 1
    ensures TryFromChar(s[i]) == Ok(Equal) && i + 1 < |s| && s[i + 1] == '=' ==>
      Step(s[i..]) == TokenLine(EqualEqual) && Width(s[i..]) == 2
    ensures TryFromChar(s[i]) == Ok(Equal) && !(i + 1 < |s| && s[i + 1] == '=') ==>
      Step(s[i..]) == TokenLine(Equal) && Width(s[i..]) == 1
  {
    assert s[i..][0] == s[i];
    assert i + 1 < |s| ==> s[i..][1] == s[i + 1];
  }

  /** What one iteration of `Tokenize` establishes: the line it printed is
      the rendering of the next record, and the error flag picks up the
      record if it is an error. */
  lemma {:induction false} LoopStep(s: string, i: nat, before: seq<Line>, after: seq<Line>)
    requires i < |s|
    requires after == before + [Render(Step(s[i..]))]
    ensures before + RenderAll(Scan(s[i..])) == after + RenderAll(Scan(s[i + Width(s[i..])..]))
    ensures HasError(Scan(s[i..])) == (Step(s[i..]).ErrorLine? || HasError(Scan(s[i + Width(s[i..])..])))
  {
    assert s[i..][Width(s[i..])..] == s[i + Width(s[i..])..];
    ScanCons(s[i..]);
    AppendAssoc(before, [Render(Step(s[i..]))], RenderAll(Scan(s[i + Width(s[i..])..])));
  }

  /** The printed lines and the error flag of one iteration of `Scan`. */
  lemma {:induction false} ScanCons(s: string)
    requires |s| > 0
    ensures RenderAll(Scan(s)) == [Render(Step(s))] + RenderAll(Scan(s[Width(s)..]))
    ensures HasError(Scan(s)) == (Step(s).ErrorLine? || HasError(Scan(s[Width(s)..])))
  {
    ScanUnfold(s);
    RenderAllCons(Step(s), Scan(s[Width(s)..]));
    HasErrorCons(Step(s), Scan(s[Width(s)..]));
  }

  /** Concatenation is associative. */
  lemma {:induction false} AppendAssoc<T>(a: seq<T>, b: seq<T>, c: seq<T>)
    ensures a + (b + c) == (a + b) + c
  {
  }

  /** What the lines and the flag left by the loop say about the input. */
  lemma {:induction false} TokenizeOutcome(contents: string, out: seq<Line>, error: bool)
    requires out == RenderAll(Scan(contents)) + [Stdout(Trailer)]
    requires error == HasError(Scan(contents))
    ensures |out| == |Scan(contents)| + 1
    ensures forall k :: 0 <= k < |out| - 1 ==> out[k] != Stdout(Trailer)
    ensures error <==> exists k :: 0 <= k < |contents| && !IsSymbol(contents[k])
  {
    NoRecordIsTrailer(Scan(contents));
    ScanHasErrorIff(contents);
  }

  // ---------------------------------------------------------------------
  // The loop of the `tokenize` command
  // ---------------------------------------------------------------------

  /** Runs the scanner over the file contents: returns the printed lines in
      order and the process exit status (65 when some character was
      unexpected, 0 otherwise). */
  method Tokenize(contents: string) returns (out: seq<Line>, exitCode: int)
    ensures out == RenderAll(Scan(contents)) + [Stdout(Trailer)]
    ensures |out| == |Scan(contents)| + 1
    ensures forall k :: 0 <= k < |out| - 1 ==> out[k] != Stdout(Trailer)
    ensures exitCode == 65 <==> exists k :: 0 <= k < |contents| && !IsSymbol(contents[k])
    ensures exitCode == 65 <==> HasError(Scan(contents))
    ensures exitCode == 0 || exitCode == 65
  {
    var error := false;
    out := [];
    var i := 0;
    while i < |contents|
      invariant 0 <= i <= |contents|
      invariant out + RenderAll(Scan(contents[i..])) == RenderAll(Scan(contents))
      invariant (error || HasError(Scan(contents[i..]))) == HasError(Scan(contents))
    {
      ghost var start, before := i, out;
      ghost var rest := contents[i..];
      StepAt(contents, i);
      var c := contents[i];
      i := i + 1;
      match TryFromChar(c) {
        case Ok(token) =>
          if token == Equal {
            // one character of lookahead: peek, and consume only a second `=`
            if i < |contents| {
              if contents[i] == '=' {
                i := i + 1;
                out := out + [Stdout(TokenString(EqualEqual))];
              } else {
                out := out + [Stdout(TokenString(Equal))];
              }
            } else {
              out := out + [Stdout(TokenString(Equal))];
            }
          } else {
            out := out + [Stdout(TokenString(token))];
          }
        case Err(err) =>
          error := true;
          out := out + [Stderr(ErrorString(err))];
      }
      LoopStep(contents, start, before, out);
      assert i == start + Width(rest);
    }
    assert contents[i..] == [];
    out := out + [Stdout(Trailer)];
    exitCode := if error then 65 else 0;
    TokenizeOutcome(contents, out, error);
  }
}
