/** A plain optional value, for the places where the source uses Rust's `Option`. */
module Optional {
  datatype Option<+T> = None | Some(value: T)
}

/**
 The token model shared by the lexer and the parser: the closed set of
 lexical categories, the token value (category plus literal bytes), the
 fixed spelling of every operator, delimiter and keyword, and the keyword
 lookup used for identifier runs. Source text is treated as a sequence of
 bytes 0..255; the lexer only ever looks at ASCII values.
 */
module Tokens {
  import opened Optional

  type Byte = b: int | 0 <= b < 256

  const NUL: Byte := 0
  const EQUALS_SIGN: Byte := '=' as Byte
  const EXCLAMATION: Byte := '!' as Byte

  datatype TokenType =
    | Illegal | Eof
    // identifiers and literals
    | Ident | Int
    // operators
    | Assign | Plus | Minus | Bang | Asterisk | Slash | Lt | Gt | Eq | NotEq
    // delimiters
    | Comma | Semicolon | LParen | RParen | LBrace | RBrace
    // keywords
    | Function | Let | True | False | If | Else | Return

  datatype Token = Token(kind: TokenType, literal: seq<Byte>)

  /** The token the lexer emits at end of input: its literal is the single byte 0. */
  const EOF_TOKEN: Token := Token(Eof, [NUL])

  /** Token construction from one byte (`Token::new_from_byte`). */
  function FromByte(kind: TokenType, b: Byte): (t: Token)
    ensures t.kind == kind && |t.literal| == 1 && t.literal[0] == b
  {
    Token(kind, [b])
  }

  /** Token construction from an already known literal (`Token::new_from_str`). */
  function FromStr(kind: TokenType, s: seq<Byte>): (t: Token)
    ensures t.kind == kind && t.literal == s
  {
    Token(kind, s)
  }

  predicate IsKeyword(k: TokenType) {
    k in {Function, Let, True, False, If, Else, Return}
  }

  // The reserved words.
  const FN_WORD: seq<Byte> := ['f' as Byte, 'n' as Byte]
  const LET_WORD: seq<Byte> := ['l' as Byte, 'e' as Byte, 't' as Byte]
  const TRUE_WORD: seq<Byte> := ['t' as Byte, 'r' as Byte, 'u' as Byte, 'e' as Byte]
  const FALSE_WORD: seq<Byte> := ['f' as Byte, 'a' as Byte, 'l' as Byte, 's' as Byte, 'e' as Byte]
  const IF_WORD: seq<Byte> := ['i' as Byte, 'f' as Byte]
  const ELSE_WORD: seq<Byte> := ['e' as Byte, 'l' as Byte, 's' as Byte, 'e' as Byte]
  const RETURN_WORD: seq<Byte> := ['r' as Byte, 'e' as Byte, 't' as Byte, 'u' as Byte, 'r' as Byte, 'n' as Byte]

  /** The source text every token of a fixed-spelling kind carries; None for
      the kinds whose literal varies (Illegal, Eof, Ident, Int). */
  function Spelling(k: TokenType): Option<seq<Byte>> {
    match k
    case Assign => Some(['=' as Byte])
    case Plus => Some(['+' as Byte])
    case Minus => Some(['-' as Byte])
    case Bang => Some(['!' as Byte])
    case Asterisk => Some(['*' as Byte])
    case Slash => Some(['/' as Byte])
    case Lt => Some(['<' as Byte])
    case Gt => Some(['>' as Byte])
    case Eq => Some(['=' as Byte, '=' as Byte])
    case NotEq => Some(['!' as Byte, '=' as Byte])
    case Comma => Some([',' as Byte])
    case Semicolon => Some([';' as Byte])
    case LParen => Some(['(' as Byte])
    case RParen => Some([')' as Byte])
    case LBrace => Some(['{' as Byte])
    case RBrace => Some(['}' as Byte])
    case Function => Some(FN_WORD)
    case Let => Some(LET_WORD)
    case True => Some(TRUE_WORD)
    case False => Some(FALSE_WORD)
    case If => Some(IF_WORD)
    case Else => Some(ELSE_WORD)
    case Return => Some(RETURN_WORD)
    case _ => None
  }

  /** Keyword lookup for an identifier run (`Token::lookup_ident`): a reserved
      word maps to its keyword kind, every other string to Ident. */
  function LookupIdent(ident: seq<Byte>): (k: TokenType)
    ensures k == Ident || IsKeyword(k)
    ensures k != Ident ==> Spelling(k) == Some(ident)
    ensures k == Ident ==> forall kw :: IsKeyword(kw) ==> Spelling(kw) != Some(ident)
  {
    if ident == FN_WORD then Function
    else if ident == LET_WORD then Let
    else if ident == TRUE_WORD then True
    else if ident == FALSE_WORD then False
    else if ident == IF_WORD then If
    else if ident == ELSE_WORD then Else
    else if ident == RETURN_WORD then Return
    else Ident
  }

  /** Every keyword's own spelling looks up to that keyword. */
  lemma LookupSpelling(k: TokenType)
    requires IsKeyword(k)
    ensures Spelling(k).Some? && LookupIdent(Spelling(k).value) == k
  {
  }

  /** The single-byte punctuators the lexer maps without lookahead. */
  function Punctuator(b: Byte): (k: Option<TokenType>)
    ensures k.Some? ==> Spelling(k.value) == Some([b]) && k.value !in {Assign, Bang}
  {
    if b == ';' as Byte then Some(Semicolon)
    else if b == '(' as Byte then Some(LParen)
    else if b == ')' as Byte then Some(RParen)
    else if b == ',' as Byte then Some(Comma)
    else if b == '+' as Byte then Some(Plus)
    else if b == '{' as Byte then Some(LBrace)
    else if b == '}' as Byte then Some(RBrace)
    else if b == '-' as Byte then Some(Minus)
    else if b == '/' as Byte then Some(Slash)
    else if b == '*' as Byte then Some(Asterisk)
    else if b == '<' as Byte then Some(Lt)
    else if b == '>' as Byte then Some(Gt)
    else None
  }

  /** Conversely, every one-byte spelling other than `=` and `!` is a punctuator. */
  lemma PunctuatorComplete(k: TokenType, b: Byte)
    requires Spelling(k) == Some([b]) && k !in {Assign, Bang}
    ensures Punctuator(b) == Some(k)
  {
  }

  // Byte classes (`is_letter`, `is_digit`, and the whitespace test of `skip_whitespace`).

  predicate IsLetter(b: Byte) {
    ('a' as Byte <= b <= 'z' as Byte) || ('A' as Byte <= b <= 'Z' as Byte) || b == '_' as Byte
  }

  predicate IsDigit(b: Byte) {
    '0' as Byte <= b <= '9' as Byte
  }

  predicate IsWhitespace(b: Byte) {
    b == ' ' as Byte || b == '\t' as Byte || b == '\n' as Byte || b == '\r' as Byte
  }

  datatype CharClass = Letter | Digit | Whitespace

  predicate InClass(c: CharClass, b: Byte) {
    match c
    case Letter => IsLetter(b)
    case Digit => IsDigit(b)
    case Whitespace => IsWhitespace(b)
  }

  predicate AllIn(s: seq<Byte>, c: CharClass) {
    forall i :: 0 <= i < |s| ==> InClass(c, s[i])
  }

  /** A byte that reaches the lexer's fall-through arm. */
  predicate IsIllegalByte(b: Byte) {
    b != EQUALS_SIGN && b != EXCLAMATION && Punctuator(b).None? && b != NUL
    && !IsLetter(b) && !IsDigit(b) && !IsWhitespace(b)
  }

  /** What a token produced by the lexer looks like: the literal agrees with the kind. */
  predicate WellFormedToken(t: Token) {
    match t.kind
    case Eof => t.literal == [NUL]
    case Illegal => |t.literal| == 1 && IsIllegalByte(t.literal[0])
    case Ident => |t.literal| > 0 && AllIn(t.literal, Letter) && LookupIdent(t.literal) == Ident
    case Int => |t.literal| > 0 && AllIn(t.literal, Digit)
    case _ => Spelling(t.kind) == Some(t.literal)
  }
}
