/**
 The lexer: a byte cursor over the source text that produces one token per
 call. Its state is the input, the current position, the read position (one
 past the current position) and the byte under examination, which is 0 past
 the end of the input. Each operation is a pure function from one cursor
 state to the next.
 */
module Lexing {
  import opened Tokens

  datatype Lexer = Lexer(input: seq<Byte>, position: nat, readPosition: nat, ch: Byte)

  /** The byte at index `i`, or the sentinel 0 past the end. */
  function ByteAt(input: seq<Byte>, i: nat): Byte {
    if i < |input| then input[i] else NUL
  }

  /** The cursor invariant: the read position is one past the current one and
      `ch` is the byte at the current position. */
  predicate Valid(l: Lexer) {
    l.readPosition == l.position + 1 && l.ch == ByteAt(l.input, l.position)
  }

  /** `read_char`: move the cursor to the read position, from any state. */
  function ReadChar(l: Lexer): (r: Lexer)
    ensures Valid(r)
    ensures r.input == l.input && r.position == l.readPosition
  {
    var ch := if l.readPosition >= |l.input| then NUL else l.input[l.readPosition];
    Lexer(l.input, l.readPosition, l.readPosition + 1, ch)
  }

  /** `Lexer::new`: the cursor starts primed on the first byte. */
  function New(input: seq<Byte>): (l: Lexer)
    ensures Valid(l) && l.input == input && l.position == 0
    ensures l.ch == (if |input| == 0 then NUL else input[0])
  {
    ReadChar(Lexer(input, 0, 0, NUL))
  }

  /** `peek_char`: the byte after the current one, without moving. */
  function PeekChar(l: Lexer): Byte {
    if l.readPosition >= |l.input| then NUL else l.input[l.readPosition]
  }

  /** Peeking predicts exactly the byte the next `read_char` brings under the cursor. */
  lemma PeekPredictsRead(l: Lexer)
    requires Valid(l)
    ensures PeekChar(l) == ReadChar(l).ch == ByteAt(l.input, l.position + 1)
    ensures ReadChar(l).position == l.position + 1
  {
  }

  /**
   The loop shared by `read_identifier`, `read_number` and `skip_whitespace`:
   read while the current byte is in the class. The result is the maximal run
   of class bytes starting at the current position.
   */
  function Run(l: Lexer, c: CharClass): (r: Lexer)
    requires Valid(l)
    ensures Valid(r) && r.input == l.input
    ensures l.position <= r.position
    ensures forall i | l.position <= i < r.position :: i < |l.input| && InClass(c, l.input[i])
    ensures !InClass(c, r.ch)
    ensures l.position <= |l.input| ==> r.position <= |l.input|
    decreases |l.input| - l.position
  {
    if InClass(c, l.ch) then Run(ReadChar(l), c) else l
  }

  /** `skip_whitespace`. */
  function SkipWhitespace(l: Lexer): (r: Lexer)
    requires Valid(l)
    ensures Valid(r) && r.input == l.input
  {
    Run(l, Whitespace)
  }

  /** `read_identifier`; the slice it returns needs the start within the input. */
  function ReadIdentifier(l: Lexer): (r: (Lexer, seq<Byte>))
    requires Valid(l) && l.position <= |l.input|
    ensures Valid(r.0) && r.0.input == l.input
    ensures IsLetter(l.ch) ==> MaximalRun(l.input, l.position, r.0.position, Letter)
    ensures l.position <= r.0.position <= |l.input|
    ensures r.1 == l.input[l.position..r.0.position] && AllIn(r.1, Letter)
  {
    var e := Run(l, Letter);
    (e, l.input[l.position..e.position])
  }

  /** `read_number`; the slice it returns needs the start within the input. */
  function ReadNumber(l: Lexer): (r: (Lexer, seq<Byte>))
    requires Valid(l) && l.position <= |l.input|
    ensures Valid(r.0) && r.0.input == l.input
    ensures IsDigit(l.ch) ==> MaximalRun(l.input, l.position, r.0.position, Digit)
    ensures l.position <= r.0.position <= |l.input|
    ensures r.1 == l.input[l.position..r.0.position] && AllIn(r.1, Digit)
  {
    var e := Run(l, Digit);
    (e, l.input[l.position..e.position])
  }

  /** `[start, end)` is a maximal non-empty run of class bytes inside the input. */
  ghost predicate MaximalRun(input: seq<Byte>, start: nat, end: nat, c: CharClass) {
    && start < end <= |input|
    && (forall i | start <= i < end :: InClass(c, input[i]))
    && !InClass(c, ByteAt(input, end))
  }

  /**
   The lexical rule, stated on the input independently of the cursor: the
   token that begins at `start`, and `end`, the index where the next scan begins.
   */
  ghost predicate LexesAt(input: seq<Byte>, start: nat, tok: Token, end: nat) {
    var b := ByteAt(input, start);
    if b == EQUALS_SIGN && ByteAt(input, start + 1) == EQUALS_SIGN then
      tok == Token(Eq, [EQUALS_SIGN, EQUALS_SIGN]) && end == start + 2
    else if b == EXCLAMATION && ByteAt(input, start + 1) == EQUALS_SIGN then
      tok == Token(NotEq, [EXCLAMATION, EQUALS_SIGN]) && end == start + 2
    else if b == EQUALS_SIGN then
      tok == Token(Assign, [b]) && end == start + 1
    else if b == EXCLAMATION then
      tok == Token(Bang, [b]) && end == start + 1
    else if Punctuator(b).Some? then
      tok == Token(Punctuator(b).value, [b]) && end == start + 1
    else if b == NUL then
      tok == EOF_TOKEN && end == start + 1
    else if IsLetter(b) then
      MaximalRun(input, start, end, Letter) && tok == Token(LookupIdent(input[start..end]), input[start..end])
    else if IsDigit(b) then
      MaximalRun(input, start, end, Digit) && tok == Token(Int, input[start..end])
    else
      tok == Token(Illegal, [b]) && end == start + 1
  }

  /**
   The classification step of `next_token`, from a cursor that has just
   skipped whitespace. Identifier and number runs return straight away, with
   the cursor already past the run; every other token reads one more byte
   before returning.
   */
  function Scan(s: Lexer): (r: (Lexer, Token))
    requires Valid(s) && !IsWhitespace(s.ch)
    ensures Valid(r.0) && r.0.input == s.input
    ensures s.position < r.0.position
    ensures LexesAt(s.input, s.position, r.1, r.0.position)
    ensures s.position < |s.input| ==> r.0.position <= |s.input|
    ensures WellFormedToken(r.1)
  {
    if s.ch == EQUALS_SIGN then
      if PeekChar(s) == EQUALS_SIGN then
        var s2 := ReadChar(s);
        (ReadChar(s2), FromStr(Eq, [s.ch, s2.ch]))
      else
        (ReadChar(s), FromByte(Assign, s.ch))
    else if s.ch == EXCLAMATION then
      if PeekChar(s) == EQUALS_SIGN then
        var s2 := ReadChar(s);
        (ReadChar(s2), FromStr(NotEq, [s.ch, s2.ch]))
      else
        (ReadChar(s), FromByte(Bang, s.ch))
    else if Punctuator(s.ch).Some? then
      (ReadChar(s), FromByte(Punctuator(s.ch).value, s.ch))
    else if s.ch == NUL then
      (ReadChar(s), FromByte(Eof, NUL))
    else if IsLetter(s.ch) then
      var (e, literal) := ReadIdentifier(s);
      (e, FromStr(LookupIdent(literal), literal))
    else if IsDigit(s.ch) then
      var (e, literal) := ReadNumber(s);
      (e, FromStr(Int, literal))
    else
      (ReadChar(s), FromByte(Illegal, s.ch))
  }

  /** `next_token`: skip the maximal run of whitespace, then scan one token. */
  function NextToken(l: Lexer): (r: (Lexer, Token))
    requires Valid(l)
    ensures Valid(r.0) && r.0.input == l.input
    ensures l.position < r.0.position
    ensures var start := SkipWhitespace(l).position;
      && l.position <= start
      && (forall i | l.position <= i < start :: IsWhitespace(ByteAt(l.input, i)))
      && !IsWhitespace(ByteAt(l.input, start))
      && LexesAt(l.input, start, r.1, r.0.position)
      && (start < |l.input| ==> r.0.position <= |l.input|)
    ensures WellFormedToken(r.1)
  {
    Scan(SkipWhitespace(l))
  }

  /**
   The tokens lexed from the rest of the input, up to the point where only
   whitespace (or nothing) is left. Embedded 0 bytes give Eof tokens inside
   the stream; after the stream, the lexer yields Eof forever
   (see StreamStep). Every token consumes at least one byte.
   */
  function Stream(l: Lexer): (ts: seq<Token>)
    requires Valid(l)
    ensures forall i | 0 <= i < |ts| :: WellFormedToken(ts[i])
    ensures ts == [] || l.position + |ts| <= |l.input|
    decreases |l.input| - l.position
  {
    if SkipWhitespace(l).position >= |l.input| then []
    else
      var (next, t) := NextToken(l);
      [t] + Stream(next)
  }

  /** The `i`th token still to come: past the stream, the lexer only yields Eof. */
  function StreamAt(l: Lexer, i: nat): Token
    requires Valid(l)
  {
    var ts := Stream(l);
    if i < |ts| then ts[i] else EOF_TOKEN
  }

  /** One call of `next_token` takes the head of the stream; once the stream
      is exhausted it returns Eof and the stream stays exhausted. */
  lemma StreamStep(l: Lexer)
    requires Valid(l)
    ensures Stream(l) != [] ==> Stream(l) == [NextToken(l).1] + Stream(NextToken(l).0)
    ensures Stream(l) == [] ==> NextToken(l).1 == EOF_TOKEN && Stream(NextToken(l).0) == []
  {
    var s := SkipWhitespace(l);
    if s.position >= |l.input| {
      var next := NextToken(l).0;
      assert SkipWhitespace(next).position >= next.position > s.position;
    }
  }

  /** Calling `next_token` once more takes every later token one step closer. */
  lemma StreamAtStep(l: Lexer, i: nat)
    requires Valid(l)
    ensures StreamAt(l, 0) == NextToken(l).1
    ensures StreamAt(NextToken(l).0, i) == StreamAt(l, i + 1)
  {
    StreamStep(l);
  }

  /** A maximal run is determined by where it starts. */
  lemma MaximalRunUnique(input: seq<Byte>, start: nat, e1: nat, e2: nat, c: CharClass)
    requires MaximalRun(input, start, e1, c) && MaximalRun(input, start, e2, c)
    ensures e1 == e2
  {
  }

  /** The lexical rule is deterministic: the start fixes the token and where it ends. */
  lemma LexesAtUnique(input: seq<Byte>, start: nat, t1: Token, e1: nat, t2: Token, e2: nat)
    requires LexesAt(input, start, t1, e1) && LexesAt(input, start, t2, e2)
    ensures t1 == t2 && e1 == e2
  {
    var b := ByteAt(input, start);
    if IsLetter(b) && b != EQUALS_SIGN && b != EXCLAMATION && Punctuator(b).None? && b != NUL {
      MaximalRunUnique(input, start, e1, e2, Letter);
    } else if IsDigit(b) && b != EQUALS_SIGN && b != EXCLAMATION && Punctuator(b).None? && b != NUL {
      MaximalRunUnique(input, start, e1, e2, Digit);
    }
  }

  /**
   `next_token` is pinned down by the lexical rule: if only whitespace lies
   between the cursor and `start`, and the rule gives `tok` ending at `end`
   there, then the call returns `tok` with the cursor on `end`.
   */
  lemma NextTokenIs(l: Lexer, start: nat, tok: Token, end: nat)
    requires Valid(l) && l.position <= start
    requires forall i | l.position <= i < start :: IsWhitespace(ByteAt(l.input, i))
    requires !IsWhitespace(ByteAt(l.input, start))
    requires LexesAt(l.input, start, tok, end)
    ensures NextToken(l) == (Lexer(l.input, end, end + 1, ByteAt(l.input, end)), tok)
    ensures SkipWhitespace(l).position == start
  {
    SkipEndsAt(l, start);
    var r := NextToken(l);
    LexesAtUnique(l.input, start, tok, end, r.1, r.0.position);
  }

  /** The whitespace skip stops on the first byte that is not whitespace. */
  lemma SkipEndsAt(l: Lexer, start: nat)
    requires Valid(l) && l.position <= start
    requires forall i | l.position <= i < start :: IsWhitespace(ByteAt(l.input, i))
    requires !IsWhitespace(ByteAt(l.input, start))
    ensures SkipWhitespace(l).position == start
  {
    var r := SkipWhitespace(l);
    assert r.position < start ==> IsWhitespace(ByteAt(l.input, r.position));
    assert r.position > start ==> IsWhitespace(ByteAt(l.input, start));
  }

  /** The stream starts with the token the lexical rule gives after the leading
      whitespace, and goes on from where that token ends. */
  lemma StreamCons(l: Lexer, start: nat, tok: Token, end: nat)
    requires Valid(l) && l.position <= start < |l.input|
    requires forall i | l.position <= i < start :: IsWhitespace(l.input[i])
    requires !IsWhitespace(l.input[start])
    requires LexesAt(l.input, start, tok, end)
    ensures Stream(l) == [tok] + Stream(Lexer(l.input, end, end + 1, ByteAt(l.input, end)))
  {
    NextTokenIs(l, start, tok, end);
  }

  /** Only whitespace left: the stream is over. */
  lemma StreamEnd(l: Lexer)
    requires Valid(l)
    requires forall i | l.position <= i < |l.input| :: IsWhitespace(l.input[i])
    ensures Stream(l) == []
  {
  }

  /**
   The lexical rule applied token after token from `pos`: token `k` spans
   `spans[k]`, only whitespace lies before each token, and only whitespace
   is left after the last one.
   */
  ghost predicate Tokenizes(input: seq<Byte>, pos: nat, ts: seq<Token>, spans: seq<(nat, nat)>)
    decreases |ts|
  {
    && |spans| == |ts|
    && if |ts| == 0 then
         forall i | pos <= i < |input| :: IsWhitespace(input[i])
       else
         var (start, end) := spans[0];
         && pos <= start < |input|
         && (forall i | pos <= i < start :: IsWhitespace(input[i]))
         && !IsWhitespace(input[start])
         && LexesAt(input, start, ts[0], end)
         && Tokenizes(input, end, ts[1..], spans[1..])
  }

  /** One more token in front of a tokenization. */
  lemma TokenizesCons(input: seq<Byte>, pos: nat, ts: seq<Token>, spans: seq<(nat, nat)>)
    requires |ts| == |spans| && 0 < |ts|
    requires pos <= spans[0].0 < |input|
    requires forall i | pos <= i < spans[0].0 :: IsWhitespace(input[i])
    requires !IsWhitespace(input[spans[0].0])
    requires LexesAt(input, spans[0].0, ts[0], spans[0].1)
    requires Tokenizes(input, spans[0].1, ts[1..], spans[1..])
    ensures Tokenizes(input, pos, ts, spans)
  {
  }

  /** Where each token of the stream starts and ends. */
  ghost function Spans(l: Lexer): (spans: seq<(nat, nat)>)
    requires Valid(l)
    ensures |spans| == |Stream(l)|
    decreases |l.input| - l.position
  {
    if SkipWhitespace(l).position >= |l.input| then []
    else [(SkipWhitespace(l).position, NextToken(l).0.position)] + Spans(NextToken(l).0)
  }

  /** The stream is a tokenization of the rest of the input. */
  lemma {:induction false} StreamTokenizes(l: Lexer)
    requires Valid(l)
    ensures Tokenizes(l.input, l.position, Stream(l), Spans(l))
    decreases |l.input| - l.position
  {
    var s := SkipWhitespace(l);
    if s.position < |l.input| {
      var next := NextToken(l).0;
      StreamTokenizes(next);
      assert Stream(l)[1..] == Stream(next);
      assert Spans(l)[1..] == Spans(next);
    }
  }

  lemma HeadTail<T>(s: seq<T>)
    requires 0 < |s|
    ensures s == [s[0]] + s[1..]
  {
  }

  /** Tokenizations are unique: the input fixes the tokens and their spans. */
  lemma {:induction false} TokenizesUnique(input: seq<Byte>, pos: nat,
                                           ts1: seq<Token>, sp1: seq<(nat, nat)>,
                                           ts2: seq<Token>, sp2: seq<(nat, nat)>)
    requires Tokenizes(input, pos, ts1, sp1) && Tokenizes(input, pos, ts2, sp2)
    ensures ts1 == ts2 && sp1 == sp2
    decreases |ts1|
  {
    if |ts1| == 0 || |ts2| == 0 {
      assert |ts1| == |ts2|;
    } else {
      var (s1, e1) := sp1[0];
      var (s2, e2) := sp2[0];
      assert s1 == s2;
      LexesAtUnique(input, s1, ts1[0], e1, ts2[0], e2);
      TokenizesUnique(input, e1, ts1[1..], sp1[1..], ts2[1..], sp2[1..]);
      HeadTail(ts1);
      HeadTail(ts2);
      HeadTail(sp1);
      HeadTail(sp2);
    }
  }

  /** And it is the only one: any tokenization of the rest of the input is the stream. */
  lemma TokenizesStream(l: Lexer, ts: seq<Token>, spans: seq<(nat, nat)>)
    requires Valid(l) && Tokenizes(l.input, l.position, ts, spans)
    ensures Stream(l) == ts && Spans(l) == spans
  {
    StreamTokenizes(l);
    TokenizesUnique(l.input, l.position, Stream(l), Spans(l), ts, spans);
  }
}
