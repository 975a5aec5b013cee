/** SQL text as bytes, its tokens, and the lexer. */
module SqlText {
  import opened Bytes
  import opened Options
  import opened Memcomparable

  type Text = seq<byte>

  function Ascii(s: string): (t: Text)
    ensures |t| == |s| && forall i :: 0 <= i < |s| ==> t[i] == s[i] as int % 256
  {
    seq(|s|, i requires 0 <= i < |s| => s[i] as int % 256)
  }

  datatype Token =
    | Select | From | Where | Insert | Into | Values | As | Create | Table | Index | On
    | And | Or | Not | Is | NullWord | True | False
    | Begin | Start | Transaction | Commit | Rollback | Explain
    | Identifier(name: Text) | IntegerLiteral(n: I64) | FloatLiteral(bits: U64) | StringLiteral(text: Text) | Parameter(index: U32)
    | Comma | Semicolon | LParen | RParen | Star | Dot | Plus | Minus | Slash
    | Eq | NotEq | Lt | LtEq | Gt | GtEq
    | Eof

  const QUOTE: byte := 0x27
  const DOLLAR: byte := 0x24
  const DOT: byte := 0x2E
  const DASH: byte := 0x2D
  const NEWLINE: byte := 0x0A

  predicate IsDigit(b: byte)
  {
    0x30 <= b <= 0x39
  }

  predicate IsLetter(b: byte)
  {
    0x41 <= b <= 0x5A || 0x61 <= b <= 0x7A || b == 0x5F
  }

  predicate IsWord(b: byte)
  {
    IsLetter(b) || IsDigit(b)
  }

  predicate IsSpace(b: byte)
  {
    b in {0x20, 0x09, 0x0A, 0x0C, 0x0D}
  }

  // ---- Trivia ----

  function FromNewline(s: Text): (r: Text)
    ensures |r| <= |s|
  {
    if s == [] || s[0] == NEWLINE then s else FromNewline(s[1..])
  }

  /** `skip_trivia`: blanks and comments. */
  function SkipTrivia(s: Text): (r: Text)
    ensures |r| <= |s|
    decreases |s|
  {
    if s == [] then s
    else if IsSpace(s[0]) then SkipTrivia(s[1..])
    else if |s| > 1 && s[0] == DASH && s[1] == DASH then SkipTrivia(FromNewline(s[2..]))
    else s
  }

  // ---- Numbers and words ----

  function DigitRun(s: Text): (n: nat)
    ensures n <= |s| && forall i :: 0 <= i < n ==> IsDigit(s[i])
  {
    if s == [] || !IsDigit(s[0]) then 0 else 1 + DigitRun(s[1..])
  }

  function WordRun(s: Text): (n: nat)
    ensures n <= |s|
  {
    if s == [] || !IsWord(s[0]) then 0 else 1 + WordRun(s[1..])
  }

  function FromDecimal(s: Text): nat
    requires forall i :: 0 <= i < |s| ==> IsDigit(s[i])
  {
    if s == [] then 0 else
      assert IsDigit(s[|s| - 1]);
      10 * FromDecimal(s[..|s| - 1]) + (s[|s| - 1] - 0x30)
  }

  function Upper(s: Text): (r: Text)
    ensures |r| == |s|
  {
    seq(|s|, i requires 0 <= i < |s| => UpperByte(s[i]))
  }

  function UpperByte(b: byte): byte
  {
    if 0x61 <= b <= 0x7A then b - 0x20 else b
  }

  function KeywordOf(w: Text): Option<Token>
  {
    match |w|
    case 2 => KeywordOf2(w)
    case 3 => KeywordOf3(w)
    case 4 => KeywordOf4(w)
    case 5 => KeywordOf5(w)
    case 6 => KeywordOf6(w)
    case _ => LongKeyword(w)
  }

  function KeywordOf2(w: Text): Option<Token>
  {
    if w == Ascii("AS") then Some(As)
    else if w == Ascii("ON") then Some(On)
    else if w == Ascii("OR") then Some(Or)
    else if w == Ascii("IS") then Some(Is)
    else None
  }

  function KeywordOf3(w: Text): Option<Token>
  {
    if w == Ascii("AND") then Some(And) else if w == Ascii("NOT") then Some(Not) else None
  }

  function KeywordOf4(w: Text): Option<Token>
  {
    if w == Ascii("FROM") then Some(From)
    else if w == Ascii("INTO") then Some(Into)
    else if w == Ascii("NULL") then Some(NullWord)
    else if w == Ascii("TRUE") then Some(True)
    else None
  }

  function KeywordOf5(w: Text): Option<Token>
  {
    if w == Ascii("WHERE") then Some(Where)
    else if w == Ascii("TABLE") then Some(Table)
    else if w == Ascii("INDEX") then Some(Index)
    else if w == Ascii("FALSE") then Some(False)
    else if w == Ascii("BEGIN") then Some(Begin)
    else if w == Ascii("START") then Some(Start)
    else None
  }

  function KeywordOf6(w: Text): Option<Token>
  {
    if w == Ascii("SELECT") then Some(Select)
    else if w == Ascii("INSERT") then Some(Insert)
    else if w == Ascii("VALUES") then Some(Values)
    else if w == Ascii("CREATE") then Some(Create)
    else if w == Ascii("COMMIT") then Some(Commit)
    else None
  }

  function LongKeyword(w: Text): Option<Token>
  {
    if w == Ascii("EXPLAIN") then Some(Explain)
    else if w == Ascii("ROLLBACK") then Some(Rollback)
    else if w == Ascii("TRANSACTION") then Some(Transaction)
    else None
  }

  function WordToken(w: Text): Token
  {
    var keyword := KeywordOf(Upper(w));
    if keyword.Some? then keyword.value else Identifier(w)
  }

  // ---- Session values ----

  datatype SessionName = CurrentCatalog | CurrentSchema | CurrentUser | SessionUser | Version

  /** `SessionContextName::keyword`, ignoring case. */
  function SessionWord(t: Text): Option<SessionName>
  {
    var w := Upper(t);
    if w == Ascii("CURRENT_CATALOG") then Some(CurrentCatalog)
    else if w == Ascii("CURRENT_SCHEMA") then Some(CurrentSchema)
    else if w == Ascii("CURRENT_USER") || w == Ascii("USER") then Some(CurrentUser)
    else if w == Ascii("SESSION_USER") then Some(SessionUser)
    else None
  }

  /** `SessionContextName::function`. */
  function SessionFunction(t: Text): Option<SessionName>
  {
    var w := Upper(t);
    if w == Ascii("CURRENT_DATABASE") then Some(CurrentCatalog)
    else if w == Ascii("VERSION") then Some(Version)
    else SessionWord(t)
  }

  // ---- One token ----

  /** What was read, and how many bytes of it. */
  type Lexeme = Result<(Token, nat)>

  type Doubles = Text -> U64

  function LexNumber(s: Text, doubles: Doubles): Lexeme
  {
    var n := DigitRun(s);
    if |s| > n + 1 && s[n] == DOT && IsDigit(s[n + 1]) then
      var m := n + 1 + DigitRun(s[n + 1..]);
      Ok((FloatLiteral(doubles(s[..m])), m))
    else if FromDecimal(s[..n]) < TWO_63 then Ok((IntegerLiteral(FromDecimal(s[..n])), n))
    else Err
  }

  /** The text up to the closing quote, with doubled quotes read as one. */
  function StringBody(s: Text): Option<(Text, nat)>
  {
    if s == [] then None
    else if s[0] != QUOTE then
      match StringBody(s[1..])
      case None => None
      case Some((text, n)) => Some(([s[0]] + text, n + 1))
    else if |s| > 1 && s[1] == QUOTE then
      match StringBody(s[2..])
      case None => None
      case Some((text, n)) => Some(([QUOTE] + text, n + 2))
    else Some(([], 1))
  }

  function LexString(s: Text): Lexeme
    requires s != []
  {
    match StringBody(s[1..])
    case None => Err
    case Some((text, n)) => Ok((StringLiteral(text), n + 1))
  }

  function LexDollar(s: Text): Lexeme
    requires s != []
  {
    var n := DigitRun(s[1..]);
    var v := FromDecimal(s[1..][..n]);
    if n == 0 || v == 0 || v >= TWO_32 then Err else Ok((Parameter(v), n + 1))
  }

  function LexPunct(s: Text): Lexeme
    requires s != []
  {
    var next := if |s| > 1 then Some(s[1]) else None;
    match s[0]
    case 0x2C => Ok((Comma, 1))
    case 0x3B => Ok((Semicolon, 1))
    case 0x28 => Ok((LParen, 1))
    case 0x29 => Ok((RParen, 1))
    case 0x2A => Ok((Star, 1))
    case 0x2E => Ok((Dot, 1))
    case 0x2B => Ok((Plus, 1))
    case 0x2D => Ok((Minus, 1))
    case 0x2F => Ok((Slash, 1))
    case 0x3D => Ok((Eq, 1))
    case 0x3C => if next == Some(0x3D) then Ok((LtEq, 2)) else if next == Some(0x3E) then Ok((NotEq, 2)) else Ok((Lt, 1))
    case 0x3E => if next == Some(0x3D) then Ok((GtEq, 2)) else Ok((Gt, 1))
    case 0x21 => if next == Some(0x3D) then Ok((NotEq, 2)) else Err
    case _ => Err
  }

  function LexOne(s: Text, doubles: Doubles): Lexeme
    requires s != []
  {
    if IsDigit(s[0]) then LexNumber(s, doubles)
    else if s[0] == QUOTE then LexString(s)
    else if s[0] == DOLLAR then LexDollar(s)
    else if IsLetter(s[0]) then Ok((WordToken(s[..WordRun(s)]), WordRun(s)))
    else LexPunct(s)
  }

  lemma {:induction false} StringBodyLength(s: Text)
    ensures StringBody(s).Some? ==> 0 < StringBody(s).value.1 <= |s|
    decreases |s|
  {
    if s != [] && s[0] != QUOTE {
      StringBodyLength(s[1..]);
    } else if |s| > 1 && s[1] == QUOTE {
      StringBodyLength(s[2..]);
    }
  }

  lemma {:induction false} LexOneLength(s: Text, doubles: Doubles)
    requires s != []
    ensures LexOne(s, doubles).Ok? ==> 0 < LexOne(s, doubles).value.1 <= |s|
  {
    StringBodyLength(s[1..]);
  }

  /** `tokenize`. */
  function Lex(s: Text, doubles: Doubles): Result<seq<Token>>
    decreases |s|
  {
    var t := SkipTrivia(s);
    if t == [] then Ok([Eof]) else
      LexOneLength(t, doubles);
      match LexOne(t, doubles)
      case Err => Err
      case Ok((token, n)) =>
        match Lex(t[n..], doubles)
        case Err => Err
        case Ok(rest) => Ok([token] + rest)
  }

  /** Lexing always ends with Eof, which occurs nowhere else. */
  lemma {:induction false} LexEndsWithEof(s: Text, doubles: Doubles)
    ensures Lex(s, doubles).Ok? ==>
              var ts := Lex(s, doubles).value;
              EofEnded(ts) && forall i :: 0 <= i < |ts| - 1 ==> ts[i] != Eof
    decreases |s|
  {
    var t := SkipTrivia(s);
    if t != [] {
      LexOneLength(t, doubles);
      LexOneIsNotEof(t, doubles);
      if LexOne(t, doubles).Ok? { LexEndsWithEof(t[LexOne(t, doubles).value.1..], doubles); }
    }
  }

  lemma {:induction false} LexOneIsNotEof(s: Text, doubles: Doubles)
    requires s != []
    ensures LexOne(s, doubles).Ok? ==> LexOne(s, doubles).value.0 != Eof
  {
  }

  predicate EofEnded(ts: seq<Token>)
  {
    ts != [] && ts[|ts| - 1] == Eof
  }
}
