/** The byte-level lexer of src/parser.rs: tokens, the character and string
    classifiers, and the cursor that walks the input bytes.

    The cursor works on the raw bytes of its input and turns each byte into
    the character with that code (`byte as char`). A run of bytes is cut
    off by the first blank or letter; letters are never consumed, so a
    cursor that reaches a letter stays on it. */
module Parser {
  import opened Basics
  import opened Decimal

  datatype Token =
    | Ident(name: string)
    | Digit(value: u64)
    | Assign
    | Lbrace
    | Rbrace
    | Dquot
    | Seperator
    | Floatp
    | Illegal

  /** The characters the lexer skips between tokens. */
  const BLANKS: seq<char> := [' ', '\t', '\n', '\r']

  // ---------------------------------------------------------------------
  // String classifiers (the free functions `is_digit` and `is_letter`)
  // ---------------------------------------------------------------------

  predicate AllLetters(s: string) {
    forall i :: 0 <= i < |s| ==> LexerIter.IsLetter(s[i])
  }

  /** What `is_digit` returns: the decimal value, wrapped to 64 bits, of a
      string made only of digits (the empty string included), and `None`
      for any other string. */
  function ParseDigits(s: string): Option<u64> {
    if AllDigits(s) then Some(DigitsValue(s) % U64_MODULUS) else None
  }

  /** `is_digit`: folds the digits into a wrapping `u64` accumulator and
      gives up at the first non-digit. */
  method IsDigit(s: string) returns (r: Option<u64>)
    ensures r.Some? <==> AllDigits(s)
    ensures r == ParseDigits(s)
  {
    var res: u64 := 0;
    for i := 0 to |s|
      invariant AllDigits(s[..i])
      invariant res == DigitsValue(s[..i]) % U64_MODULUS
    {
      var c := s[i];
      if !LexerIter.IsDigit(c) {
        return None;
      }
      var u := c as int - '0' as int;
      assert s[..i + 1][..i] == s[..i];
      WrapStep(DigitsValue(s[..i]), u);
      res := (res * 10 + u) % U64_MODULUS;
    }
    assert s[..|s|] == s;
    return Some(res);
  }

  /** Accumulating into the wrapped value gives the wrapped unbounded value. */
  lemma WrapStep(a: nat, u: nat)
    ensures ((a % U64_MODULUS) * 10 + u) % U64_MODULUS == (a * 10 + u) % U64_MODULUS
  {
    var m := U64_MODULUS;
    var q, r := a / m, a % m;
    var b := r * 10 + u;
    assert a * 10 + u == (q * 10) * m + b;
    assert b == (b / m) * m + b % m;
    assert a * 10 + u == (q * 10 + b / m) * m + b % m;
    ModUnique(a * 10 + u, m, q * 10 + b / m, b % m);
  }

  lemma ModUnique(a: int, m: int, q: int, r: int)
    requires m > 0 && 0 <= r < m && a == q * m + r
    ensures a % m == r
  {
    var q0, r0 := a / m, a % m;
    assert a == q0 * m + r0;
    var d := q - q0;
    assert d * m == r0 - r;
    if d > 0 {
      MulAtLeast(d, m);
    } else if d < 0 {
      MulAtLeast(-d, m);
    }
  }

  lemma MulAtLeast(d: int, m: int)
    requires d >= 1 && m > 0
    ensures d * m >= m
  {
    if d > 1 {
      MulAtLeast(d - 1, m);
      assert d * m == (d - 1) * m + m;
    }
  }

  /** `is_letter`: hands the string back when every character is a letter. */
  method IsLetter(s: string) returns (r: Option<string>)
    ensures r.Some? <==> AllLetters(s)
    ensures r.Some? ==> r.value == s
  {
    for i := 0 to |s|
      invariant forall k :: 0 <= k < i ==> LexerIter.IsLetter(s[k])
    {
      var c := s[i];
      if !('a' <= c <= 'z') && !('A' <= c <= 'Z') && c != '_' {
        return None;
      }
    }
    return Some(s);
  }

  // ---------------------------------------------------------------------
  // Tokens from and to text (`From<String>` and `Into<String>`)
  // ---------------------------------------------------------------------

  /** `Token::from`: punctuation first, then `is_digit`, then `is_letter`. */
  function TokenFrom(s: string): (r: Token)
    ensures r.Digit? <==> AllDigits(s)
    ensures r.Ident? ==> s != [] && r.name == s
  {
    assert IsPunctuation(s) ==> |s| == 1 && !IsDigitChar(s[0]);
    if s == "=" then Assign
    else if s == "{" then Lbrace
    else if s == "}" then Rbrace
    else if s == "\"" then Dquot
    else if s == "," then Seperator
    else if s == "." then Floatp
    else match ParseDigits(s)
      case Some(d) => Digit(d)
      case None => if AllLetters(s) then Ident(s) else Illegal
  }

  /** `Token::into`: the text of a token. Only an identifier can render as
      the empty string; a number renders as its digits. */
  function Render(t: Token): (r: string)
    ensures !t.Ident? ==> r != []
    ensures t.Digit? ==> AllDigits(r)
  {
    match t
    case Assign => "="
    case Lbrace => "{"
    case Rbrace => "}"
    case Dquot => "\""
    case Seperator => ","
    case Floatp => "."
    case Ident(s) => s
    case Digit(d) => ToDecimal(d)
    case Illegal => "ILLEGAL"
  }

  predicate IsPunctuation(s: string) {
    s == "=" || s == "{" || s == "}" || s == "\"" || s == "," || s == "."
  }

  /** How `TokenFrom` sorts a text run: punctuation first, then digit
      strings (the empty one included), then non-empty letter strings,
      and everything else is `Illegal`. */
  lemma TokenFromCases(s: string)
    ensures s == "=" ==> TokenFrom(s) == Assign
    ensures s == "{" ==> TokenFrom(s) == Lbrace
    ensures s == "}" ==> TokenFrom(s) == Rbrace
    ensures s == "\"" ==> TokenFrom(s) == Dquot
    ensures s == "," ==> TokenFrom(s) == Seperator
    ensures s == "." ==> TokenFrom(s) == Floatp
    ensures TokenFrom(s).Digit? <==> AllDigits(s)
    ensures TokenFrom(s).Digit? ==> TokenFrom(s).value == DigitsValue(s) % U64_MODULUS
    ensures TokenFrom(s).Ident? <==> s != [] && AllLetters(s)
    ensures TokenFrom(s).Ident? ==> TokenFrom(s).name == s
    ensures TokenFrom(s).Illegal? <==> !IsPunctuation(s) && !AllDigits(s) && !AllLetters(s)
  {
    if IsPunctuation(s) {
      assert !IsDigitChar(s[0]) && !LexerIter.IsLetter(s[0]);
    } else if s != [] && AllLetters(s) {
      assert !IsDigitChar(s[0]);
    }
  }

  /** Rendering a token and reading the text back gives the token again,
      for every token except `Illegal` and identifiers that are empty or
      hold a non-letter. */
  lemma RenderRoundTrip(t: Token)
    requires !t.Illegal?
    requires t.Ident? ==> t.name != [] && AllLetters(t.name)
    ensures TokenFrom(Render(t)) == t
  {
    match t
    case Digit(d) =>
      var s := ToDecimal(d);
      assert !IsPunctuation(s) by {
        assert IsDigitChar(s[0]);
      }
    case Ident(name) =>
      TokenFromCases(name);
    case _ =>
  }

  /** `Illegal` renders as "ILLEGAL", which reads back as an identifier. */
  lemma IllegalReadsBackAsIdent()
    ensures TokenFrom(Render(Illegal)) == Ident("ILLEGAL")
  {
    assert !IsDigitChar('I');
  }

  /** The empty text run is read as the number zero. */
  lemma EmptyRunIsZero()
    ensures TokenFrom("") == Digit(0)
  {
  }

  // ---------------------------------------------------------------------
  // The cursor, as functions of the bytes and the position
  // ---------------------------------------------------------------------

  /** The character the lexer sees for a byte. */
  function CharOf(b: byte): char {
    b as char
  }

  /** A byte that cuts off the run being read. */
  predicate EndsRun(b: byte) {
    LexerIter.IsBlank(CharOf(b)) || LexerIter.IsLetter(CharOf(b))
  }

  function ToChars(bs: seq<byte>): (s: string)
    ensures |s| == |bs|
    ensures forall i :: 0 <= i < |bs| ==> s[i] == CharOf(bs[i])
  {
    seq(|bs|, i requires 0 <= i < |bs| => CharOf(bs[i]))
  }

  /** The least index at or after `from` whose byte is not blank. */
  function FirstNonBlank(bs: seq<byte>, from: nat): (r: Option<nat>)
    requires from <= |bs|
    ensures r.Some? ==> from <= r.value < |bs| && !LexerIter.IsBlank(CharOf(bs[r.value]))
    ensures r.Some? ==> forall k :: from <= k < r.value ==> LexerIter.IsBlank(CharOf(bs[k]))
    ensures r.None? <==> forall k :: from <= k < |bs| ==> LexerIter.IsBlank(CharOf(bs[k]))
    decreases |bs| - from
  {
    if from == |bs| then None
    else if !LexerIter.IsBlank(CharOf(bs[from])) then Some(from)
    else FirstNonBlank(bs, from + 1)
  }

  /** The least index at or after `from` whose byte is a blank or a letter. */
  function RunEnd(bs: seq<byte>, from: nat): (r: Option<nat>)
    requires from <= |bs|
    ensures r.Some? ==> from <= r.value < |bs| && EndsRun(bs[r.value])
    ensures r.Some? ==> forall k :: from <= k < r.value ==> !EndsRun(bs[k])
    ensures r.None? <==> forall k :: from <= k < |bs| ==> !EndsRun(bs[k])
    decreases |bs| - from
  {
    if from == |bs| then None
    else if EndsRun(bs[from]) then Some(from)
    else RunEnd(bs, from + 1)
  }

  /** What `read_string` returns from `from`: the text up to the first blank
      or letter and that byte's index, or `None` when the run reaches the
      end of the input. */
  function ReadRun(bs: seq<byte>, from: nat): (r: Option<(string, nat)>)
    requires from <= |bs|
    ensures r.Some? ==> from <= r.value.1 < |bs| && EndsRun(bs[r.value.1])
    ensures r.Some? ==> r.value.0 == ToChars(bs[from..r.value.1])
    ensures r.Some? ==> forall c :: c in r.value.0 ==> !LexerIter.IsBlank(c) && !LexerIter.IsLetter(c)
    ensures r.None? <==> forall k :: from <= k < |bs| ==> !EndsRun(bs[k])
  {
    match RunEnd(bs, from)
    case None => None
    case Some(j) =>
      var s := ToChars(bs[from..j]);
      assert forall c :: c in s ==> !LexerIter.IsBlank(c) && !LexerIter.IsLetter(c) by {
        forall c | c in s ensures !LexerIter.IsBlank(c) && !LexerIter.IsLetter(c) {
          var i :| 0 <= i < |s| && s[i] == c;
          assert !EndsRun(bs[from + i]);
        }
      }
      Some((s, j))
  }

  /** One call of `next` from cursor `pos`: the token it yields and where
      it leaves the cursor. */
  function Step(bs: seq<byte>, pos: nat): (r: (Option<Token>, nat))
    requires pos <= |bs|
    ensures pos <= r.1 <= |bs|
  {
    match FirstNonBlank(bs, pos)
    case None => (None, pos)
    case Some(p) =>
      match ReadRun(bs, p)
      case None => (None, p)
      case Some((s, j)) => (Some(TokenFrom(s)), j)
  }

  /** The results of `n` calls of `next` in a row, starting at `pos`. */
  function Pull(bs: seq<byte>, pos: nat, n: nat): (r: seq<Option<Token>>)
    requires pos <= |bs|
    ensures |r| == n
    decreases n
  {
    if n == 0 then []
    else
      var (t, p) := Step(bs, pos);
      [t] + Pull(bs, p, n - 1)
  }

  /** When only blanks remain, `next` yields nothing and keeps the cursor. */
  lemma StepAllBlank(bs: seq<byte>, pos: nat)
    requires pos <= |bs|
    requires forall k :: pos <= k < |bs| ==> LexerIter.IsBlank(CharOf(bs[k]))
    ensures Step(bs, pos) == (None, pos)
  {
  }

  /** When the first non-blank run reaches the end of the input with no
      blank or letter after it, `next` yields nothing and leaves the cursor
      at the start of that run, which is never read. */
  lemma StepRunToEnd(bs: seq<byte>, pos: nat, p: nat)
    requires pos <= |bs|
    requires FirstNonBlank(bs, pos) == Some(p)
    requires forall k :: p <= k < |bs| ==> !EndsRun(bs[k])
    ensures Step(bs, pos) == (None, p)
  {
  }

  /** Otherwise `next` classifies the bytes from the first non-blank up to
      (not including) the next blank or letter, and parks the cursor on
      that blank or letter. */
  lemma StepToken(bs: seq<byte>, pos: nat, p: nat, j: nat)
    requires pos <= |bs|
    requires FirstNonBlank(bs, pos) == Some(p)
    requires p <= j < |bs| && EndsRun(bs[j])
    requires forall k :: p <= k < j ==> !EndsRun(bs[k])
    ensures Step(bs, pos) == (Some(TokenFrom(ToChars(bs[p..j]))), j)
  {
  }

  /** A cursor whose first non-blank byte is a letter reads the empty run
      before it, which is `Digit(0)`, and stays on that letter. */
  lemma StepOnLetter(bs: seq<byte>, pos: nat, p: nat)
    requires pos <= |bs|
    requires FirstNonBlank(bs, pos) == Some(p)
    requires LexerIter.IsLetter(CharOf(bs[p]))
    ensures Step(bs, pos) == (Some(Digit(0)), p)
    ensures FirstNonBlank(bs, p) == Some(p)
  {
    assert ToChars(bs[p..p]) == "";
    StepToken(bs, pos, p, p);
  }

  /** ... and so every later call yields `Digit(0)` again: the iterator
      never gets past the letter. */
  lemma {:induction false} StuckOnLetter(bs: seq<byte>, pos: nat, p: nat, n: nat)
    requires pos <= |bs|
    requires FirstNonBlank(bs, pos) == Some(p)
    requires LexerIter.IsLetter(CharOf(bs[p]))
    ensures Pull(bs, pos, n) == seq(n, _ => Some(Digit(0)))
    decreases n
  {
    if n > 0 {
      StepOnLetter(bs, pos, p);
      StuckOnLetter(bs, p, p, n - 1);
    }
  }

  predicate IsAscii(s: string) {
    forall i :: 0 <= i < |s| ==> s[i] as int < 128
  }

  lemma AsciiConcat(a: string, b: string)
    requires IsAscii(a) && IsAscii(b)
    ensures IsAscii(a + b)
  {
  }

  /** The bytes of an ASCII string: one byte per character, its code. */
  function Ascii(s: string): (bs: seq<byte>)
    requires IsAscii(s)
    ensures |bs| == |s|
  {
    seq(|s|, i requires 0 <= i < |s| => s[i] as int)
  }

  /** The input of the iterator test in src/parser.rs. It is written as six
      pieces of about ten characters only so that the verifier can check
      each piece is ASCII quickly; where the pieces break means nothing. */
  const TEST_INPUT: string :=
    "http_code_" + "name{label" + "_1 = \"v1\"," + " label_2 =" + " \"v2\" } = " + "1.12"

  /** On that input the first token is `Digit(0)`, not the identifier
      `http_code_name` the test lists first, and so is every later one. */
  lemma TestInputYieldsZeros(n: nat)
    ensures IsAscii(TEST_INPUT)
    ensures Pull(Ascii(TEST_INPUT), 0, n) == seq(n, _ => Some(Digit(0)))
  {
    var p1, p2, p3 := "http_code_", "name{label", "_1 = \"v1\",";
    var p4, p5, p6 := " label_2 =", " \"v2\" } = ", "1.12";
    assert IsAscii(p1) && IsAscii(p2) && IsAscii(p3) && IsAscii(p4) && IsAscii(p5) && IsAscii(p6);
    AsciiConcat(p1, p2);
    AsciiConcat(p1 + p2, p3);
    AsciiConcat(p1 + p2 + p3, p4);
    AsciiConcat(p1 + p2 + p3 + p4, p5);
    AsciiConcat(p1 + p2 + p3 + p4 + p5, p6);
    var bs := Ascii(TEST_INPUT);
    assert CharOf(bs[0]) == 'h';
    assert FirstNonBlank(bs, 0) == Some(0);
    StuckOnLetter(bs, 0, 0, n);
  }

  /** `1.12` followed by a blank is one run, and that run is `Illegal`. */
  lemma DecimalNumberIsOneRun()
    ensures Step(Ascii("1.12 "), 0) == (Some(Illegal), 4)
  {
    var bs := Ascii("1.12 ");
    assert FirstNonBlank(bs, 0) == Some(0);
    StepToken(bs, 0, 0, 4);
    var s := ToChars(bs[0..4]);
    assert s == "1.12";
    assert !IsDigitChar(s[1]) && !LexerIter.IsLetter(s[0]);
  }

  /** At the end of the test input, `=` is read and then the trailing
      `1.12`, which reaches the end of the input, is dropped. */
  lemma TrailingRunDropped()
    ensures Step(Ascii("= 1.12"), 0) == (Some(Assign), 1)
    ensures Step(Ascii("= 1.12"), 1) == (None, 2)
  {
    var bs := Ascii("= 1.12");
    assert FirstNonBlank(bs, 0) == Some(0);
    StepToken(bs, 0, 0, 1);
    assert ToChars(bs[0..1]) == "=";
    assert FirstNonBlank(bs, 1) == Some(2);
    StepRunToEnd(bs, 1, 2);
  }

  // ---------------------------------------------------------------------
  // The lexer and its cursor as objects
  // ---------------------------------------------------------------------

  class Lexer {
    const input: seq<byte>

    constructor (input: seq<byte>)
      ensures this.input == input
    {
      this.input := input;
    }

    /** A fresh cursor at the start of the input. */
    method Iter() returns (it: LexerIter)
      ensures fresh(it) && it.Valid()
      ensures it.inputBytes == input && it.pos == 0
    {
      it := new LexerIter(input);
    }
  }

  class LexerIter {
    const inputSize: nat
    const inputBytes: seq<byte>
    var pos: nat

    ghost predicate Valid()
      reads this
    {
      inputSize == |inputBytes| && pos <= inputSize
    }

    constructor (lex: seq<byte>)
      ensures Valid()
      ensures inputBytes == lex && pos == 0
    {
      inputSize := |lex|;
      inputBytes := lex;
      pos := 0;
    }

    static predicate IsBlank(c: char)
      ensures IsBlank(c) <==> c == ' ' || c == '\t' || c == '\n' || c == '\r'
    {
      c in BLANKS
    }

    static predicate IsLetter(c: char) {
      'a' <= c <= 'z' || 'A' <= c <= 'Z' || c == '_'
    }

    static predicate IsDigit(c: char) {
      IsDigitChar(c)
    }

    /** The cursor's own index of the next non-blank byte. */
    method NextNonBlank() returns (r: Option<nat>)
      requires Valid()
      ensures r == FirstNonBlank(inputBytes, pos)
    {
      for i := pos to inputSize
        invariant forall k :: pos <= k < i ==> IsBlank(CharOf(inputBytes[k]))
      {
        if !IsBlank(inputBytes[i] as char) {
          return Some(i);
        }
      }
      return None;
    }

    /** Collects the bytes from the cursor up to the first blank or letter. */
    method ReadString() returns (r: Option<(string, nat)>)
      requires Valid()
      ensures r == ReadRun(inputBytes, pos)
    {
      var s := "";
      for i := pos to inputSize
        invariant s == ToChars(inputBytes[pos..i])
        invariant forall k :: pos <= k < i ==> !EndsRun(inputBytes[k])
      {
        var b := inputBytes[i] as char;
        if IsBlank(b) || IsLetter(b) {
          return Some((s, i));
        }
        s := s + [b];
      }
      return None;
    }

    /** `next`: skip blanks, read one run, classify it. */
    method Next() returns (t: Option<Token>)
      requires Valid()
      modifies this`pos
      ensures Valid()
      ensures (t, pos) == Step(inputBytes, old(pos))
    {
      var p := NextNonBlank();
      if p.Some? {
        pos := p.value;
        var rs := ReadString();
        if rs.Some? {
          pos := rs.value.1;
          return Some(TokenFrom(rs.value.0));
        }
      }
      return None;
    }
  }
}
