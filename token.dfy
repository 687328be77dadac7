/** Tokens of the assembly language (token.h) and the comparison of a token
    with a C string (token.c). */
module Token {
  import opened Common

  /** The five token kinds, in the order of `enum token_kind`. */
  datatype TokenKind = Identifier | Number | Comma | LeftParen | RightParen

  /** A token: its kind and the `struct str` span it covers. The span is kept
      as the offset of its first byte in the lexer's input together with the
      bytes it covers, so `|text|` is the span's size. */
  datatype Token = Token(kind: TokenKind, start: nat, text: seq<byte>)

  /** The token's span lies inside `input` and covers exactly its bytes. */
  ghost predicate SpanOf(input: seq<byte>, t: Token)
  {
    t.start + |t.text| <= |input| && input[t.start..t.start + |t.text|] == t.text
  }

  /** A C string's characters up to `strlen`: none of them is NUL. */
  predicate IsCStr(s: seq<byte>)
  {
    forall k :: 0 <= k < |s| ==> s[k] != 0
  }

  /** `strncmp(a, b, n) == 0` as the C library defines it: the first `n`
      characters agree, where a NUL common to both ends the comparison. */
  function StrNCmpEqual(a: seq<byte>, b: seq<byte>, n: nat): bool
    requires n <= |a| && n <= |b|
  {
    if n == 0 then true
    else if a[0] != b[0] then false
    else if a[0] == 0 then true
    else StrNCmpEqual(a[1..], b[1..], n - 1)
  }

  /** When `b` holds no NUL in its first `n` characters, `strncmp` reports
      equality exactly when those characters are the same. */
  lemma {:induction false} StrNCmpEqualIsPrefixEquality(a: seq<byte>, b: seq<byte>, n: nat)
    requires n <= |a| && n <= |b|
    requires forall k :: 0 <= k < n ==> b[k] != 0
    ensures StrNCmpEqual(a, b, n) <==> a[..n] == b[..n]
  {
    if n > 0 {
      if a[0] == b[0] {
        StrNCmpEqualIsPrefixEquality(a[1..], b[1..], n - 1);
        assert a[..n] == [a[0]] + a[1..][..n - 1];
        assert b[..n] == [b[0]] + b[1..][..n - 1];
      } else {
        assert a[..n][0] != b[..n][0];
      }
    }
  }

  /** `token_equals_c_str`: a length check, then `strncmp` over that length.
      Neither argument is changed (both are values here). */
  function TokenEqualsCStr(token: Token, cStr: seq<byte>): (r: bool)
    requires IsCStr(cStr)
    ensures r <==> token.text == cStr
  {
    if |cStr| != |token.text| then
      false
    else
      StrNCmpEqualIsPrefixEquality(token.text, cStr, |cStr|);
      assert token.text[..|cStr|] == token.text && cStr[..|cStr|] == cStr;
      StrNCmpEqual(token.text, cStr, |cStr|)
  }

  /** The empty C string matches exactly the tokens whose span is empty. */
  lemma EmptyCStrMatchesOnlyEmptyToken(token: Token)
    ensures TokenEqualsCStr(token, []) <==> |token.text| == 0
  {
  }
}
