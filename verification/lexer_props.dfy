/**
 Properties of the lexer beyond single calls: how the lexing of a text splits
 at whitespace, and the lexical rule read off class by class (keywords,
 identifiers, numbers, punctuators, and how `=` and `!` are told apart).
 */
module LexerProperties {
  import opened Tokens
  import opened Lexing

  /** Spans moved `n` bytes to the right. */
  function Shift(spans: seq<(nat, nat)>, n: nat): (r: seq<(nat, nat)>)
    ensures |r| == |spans|
    ensures forall k | 0 <= k < |r| :: r[k] == (spans[k].0 + n, spans[k].1 + n)
  {
    if |spans| == 0 then [] else [(spans[0].0 + n, spans[0].1 + n)] + Shift(spans[1..], n)
  }

  lemma ByteAtAppend(a: seq<Byte>, b: seq<Byte>, i: nat)
    ensures ByteAt(a + b, |a| + i) == ByteAt(b, i)
    ensures i < |a| ==> ByteAt(a + b, i) == ByteAt(a, i)
  {
  }

  /** A token read inside `a`, which ends in whitespace, reads the same whatever follows `a`. */
  lemma LexesAtPrefix(a: seq<Byte>, b: seq<Byte>, start: nat, t: Token, end: nat)
    requires 0 < |a| && IsWhitespace(a[|a| - 1])
    requires start < |a| && !IsWhitespace(a[start])
    requires LexesAt(a, start, t, end)
    ensures end < |a|
    ensures LexesAt(a + b, start, t, end)
  {
    var ab := a + b;
    ByteAtAppend(a, b, start);
    ByteAtAppend(a, b, start + 1);
    var c := ByteAt(a, start);
    if IsLetter(c) || IsDigit(c) {
      if end < |a| {
        ByteAtAppend(a, b, end);
        assert ab[start..end] == a[start..end];
      }
    }
  }

  /** A token read in `b` reads the same, `|a|` bytes further on, in `a + b`. */
  lemma LexesAtSuffix(a: seq<Byte>, b: seq<Byte>, start: nat, t: Token, end: nat)
    requires LexesAt(b, start, t, end)
    ensures LexesAt(a + b, |a| + start, t, |a| + end)
  {
    var ab := a + b;
    ByteAtAppend(a, b, start);
    ByteAtAppend(a, b, start + 1);
    var c := ByteAt(b, start);
    if (IsLetter(c) || IsDigit(c)) && start < end <= |b| {
      ByteAtAppend(a, b, end);
      assert ab[|a| + start..|a| + end] == b[start..end];
      forall i | |a| + start <= i < |a| + end ensures ab[i] == b[i - |a|] {
      }
    }
  }

  /** LexesAtSuffix at positions named by the caller. */
  lemma LexesAtShifted(a: seq<Byte>, b: seq<Byte>, start: nat, t: Token, end: nat, at: nat, until: nat)
    requires LexesAt(b, start, t, end) && at == |a| + start && until == |a| + end
    ensures LexesAt(a + b, at, t, until)
  {
    LexesAtSuffix(a, b, start, t, end);
  }

  /** A tokenization of `b` is one of `a + b`, moved `|a|` bytes on. */
  lemma {:induction false} TokenizesSuffix(a: seq<Byte>, b: seq<Byte>, pos: nat, ts: seq<Token>, spans: seq<(nat, nat)>)
    requires Tokenizes(b, pos, ts, spans)
    ensures Tokenizes(a + b, |a| + pos, ts, Shift(spans, |a|))
    decreases |ts|
  {
    var ab := a + b;
    var shifted := Shift(spans, |a|);
    if |ts| == 0 {
      forall i | |a| + pos <= i < |ab| ensures IsWhitespace(ab[i]) {
        assert ab[i] == b[i - |a|];
      }
    } else {
      var (start, end) := spans[0];
      assert shifted[0] == (|a| + start, |a| + end);
      LexesAtShifted(a, b, start, ts[0], end, shifted[0].0, shifted[0].1);
      TokenizesSuffix(a, b, end, ts[1..], spans[1..]);
      assert shifted[1..] == Shift(spans[1..], |a|);
      assert forall i | |a| + pos <= i < |a| + start :: IsWhitespace(ab[i]) by {
        forall i | |a| + pos <= i < |a| + start ensures IsWhitespace(ab[i]) {
          assert ab[i] == b[i - |a|];
        }
      }
      assert ab[|a| + start] == b[start];
    }
  }

  /** Whitespace in front of a text does not change its tokens, only moves them. */
  lemma TokenizesAfterWhitespace(a: seq<Byte>, b: seq<Byte>, pos: nat, ts: seq<Token>, spans: seq<(nat, nat)>)
    requires pos <= |a| && forall i | pos <= i < |a| :: IsWhitespace(a[i])
    requires Tokenizes(b, 0, ts, spans)
    ensures Tokenizes(a + b, pos, ts, Shift(spans, |a|))
  {
    var ab := a + b;
    TokenizesSuffix(a, b, 0, ts, spans);
    var stop := if |ts| == 0 then |ab| else Shift(spans, |a|)[0].0;
    forall i | pos <= i < stop ensures IsWhitespace(ab[i]) {
      if i >= |a| {
        assert ab[i] == ab[|a| + (i - |a|)];
      }
    }
  }

  /**
   Lexing splits at whitespace: if `a` ends in whitespace, the tokens of
   `a + b` are those of `a` followed by those of `b`, with the spans of `b`'s
   tokens moved past `a`.
   */
  lemma {:induction false} TokenizesAppend(a: seq<Byte>, b: seq<Byte>, pos: nat,
                                           ts1: seq<Token>, sp1: seq<(nat, nat)>,
                                           ts2: seq<Token>, sp2: seq<(nat, nat)>)
    requires 0 < |a| && IsWhitespace(a[|a| - 1]) && pos <= |a|
    requires Tokenizes(a, pos, ts1, sp1)
    requires Tokenizes(b, 0, ts2, sp2)
    ensures Tokenizes(a + b, pos, ts1 + ts2, sp1 + Shift(sp2, |a|))
    decreases |ts1|
  {
    if |ts1| == 0 {
      assert ts1 + ts2 == ts2 && sp1 + Shift(sp2, |a|) == Shift(sp2, |a|);
      TokenizesAfterWhitespace(a, b, pos, ts2, sp2);
    } else {
      var (start, end) := sp1[0];
      LexesAtPrefix(a, b, start, ts1[0], end);
      TokenizesAppend(a, b, end, ts1[1..], sp1[1..], ts2, sp2);
      assert (ts1 + ts2)[1..] == ts1[1..] + ts2;
      assert (sp1 + Shift(sp2, |a|))[1..] == sp1[1..] + Shift(sp2, |a|);
      assert (a + b)[start] == a[start];
    }
  }

  /** A maximal run of letters spelling a keyword is that keyword's token. */
  lemma LexesKeyword(input: seq<Byte>, start: nat, end: nat, k: TokenType)
    requires IsKeyword(k) && start < end <= |input|
    requires input[start..end] == Spelling(k).value
    requires end == |input| || !IsLetter(input[end])
    ensures LexesAt(input, start, Token(k, input[start..end]), end)
  {
    LookupSpelling(k);
    var w := input[start..end];
    forall i | start <= i < end ensures IsLetter(input[i]) {
      assert input[i] == w[i - start];
    }
  }

  /** Any other maximal run of letters is an identifier. */
  lemma LexesIdentifier(input: seq<Byte>, start: nat, end: nat)
    requires start < end <= |input|
    requires forall i | start <= i < end :: IsLetter(input[i])
    requires end == |input| || !IsLetter(input[end])
    requires LookupIdent(input[start..end]) == Ident
    ensures LexesAt(input, start, Token(Ident, input[start..end]), end)
  {
  }

  /** A maximal run of digits is one Int token holding the digits. */
  lemma LexesNumber(input: seq<Byte>, start: nat, end: nat)
    requires start < end <= |input|
    requires forall i | start <= i < end :: IsDigit(input[i])
    requires end == |input| || !IsDigit(input[end])
    ensures LexesAt(input, start, Token(Int, input[start..end]), end)
  {
  }

  /** A punctuator byte is a token of its own, whatever follows it. */
  lemma LexesPunctuator(input: seq<Byte>, start: nat)
    requires start < |input| && Punctuator(input[start]).Some?
    ensures LexesAt(input, start, Token(Punctuator(input[start]).value, [input[start]]), start + 1)
  {
  }

  /** `=` is Eq together with a following `=`, and Assign on its own. */
  lemma LexesEqualsSign(input: seq<Byte>, start: nat)
    requires start < |input| && input[start] == EQUALS_SIGN
    ensures ByteAt(input, start + 1) == EQUALS_SIGN ==>
      LexesAt(input, start, Token(Eq, [EQUALS_SIGN, EQUALS_SIGN]), start + 2)
    ensures ByteAt(input, start + 1) != EQUALS_SIGN ==>
      LexesAt(input, start, Token(Assign, [EQUALS_SIGN]), start + 1)
  {
  }

  /** `!` is NotEq together with a following `=`, and Bang on its own. */
  lemma LexesExclamation(input: seq<Byte>, start: nat)
    requires start < |input| && input[start] == EXCLAMATION
    ensures ByteAt(input, start + 1) == EQUALS_SIGN ==>
      LexesAt(input, start, Token(NotEq, [EXCLAMATION, EQUALS_SIGN]), start + 2)
    ensures ByteAt(input, start + 1) != EQUALS_SIGN ==>
      LexesAt(input, start, Token(Bang, [EXCLAMATION]), start + 1)
  {
  }
}
