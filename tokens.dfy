/** The token vector the lexer fills (tokens.c): a fixed 16 KiB buffer of
    24-byte token records, grown one record at a time. */
module Tokens {
  import opened Common
  import opened Token

  /** `token_init` reserves `4 * 4096` bytes. */
  const TokensCapacity: nat := 4 * 4096
  /** `sizeof(struct token)`: a 64-bit kind and a `struct str` of a pointer
      and a 64-bit size. */
  const TokenSize: nat := 24
  /** The number of whole records that fit in the buffer (682). */
  const MaxTokens: nat := TokensCapacity / TokenSize

  /** `struct tokens`: the byte vector and the number of records in it. */
  class Tokens {
    /** The buffer, seen as the records it can hold. */
    const data: array<Token>
    /** `vector.size`: bytes in use. */
    var size: nat
    /** Number of tokens pushed. */
    var length: nat

    ghost predicate Valid()
      reads this
    {
      data.Length == MaxTokens && length <= MaxTokens && size == length * TokenSize
    }

    /** The tokens pushed so far, in push order. */
    ghost function Contents(): seq<Token>
      reads this, data
      requires Valid()
    {
      data[..length]
    }

    /** `token_init`: an empty vector with a capacity of 4 * 4096 bytes. */
    constructor ()
      ensures Valid() && fresh(data)
      ensures length == 0 && size == 0 && Contents() == []
    {
      data := new Token[MaxTokens](_ => Token(Identifier, 0, []));
      size := 0;
      length := 0;
    }

    /** `token_push`, with `token_new` inlined: fatal when one more record
        would not fit, otherwise appends exactly one token. */
    method Push(kind: TokenKind, start: nat, text: seq<byte>) returns (ok: bool)
      requires Valid()
      modifies this, data
      ensures Valid()
      ensures ok <==> old(length) < MaxTokens
      ensures ok ==> length == old(length) + 1 && size == old(size) + TokenSize
      ensures ok ==> Contents() == old(Contents()) + [Token(kind, start, text)]
      ensures !ok ==> length == old(length) && Contents() == old(Contents())
    {
      if TokensCapacity < size + TokenSize {
        return false;
      }
      size := size + TokenSize;
      var index := length;
      length := length + 1;
      data[index] := Token(kind, start, text);
      ok := true;
    }

    /** `token_get`: fatal, with no message, for an index at or past the
        length, otherwise the
        token pushed at that position. */
    method Get(index: nat) returns (r: Result<Token>)
      requires Valid()
      ensures r.Ok? <==> index < length
      ensures r.Ok? ==> r.value == Contents()[index]
    {
      if index >= length {
        return Fatal("");
      }
      r := Ok(data[index]);
    }
  }

  /** The value `enum token_kind` gives each kind. */
  function KindCode(kind: TokenKind): (code: nat)
    ensures code < 5
  {
    match kind
    case Identifier => 0
    case Number => 1
    case Comma => 2
    case LeftParen => 3
    case RightParen => 4
  }

  /** `token_kind_c_str`: the printable name of a kind code. */
  function KindName(code: nat): (name: string)
    ensures name == "unknown" <==> code >= 5
  {
    if code == 0 then "identifier"
    else if code == 1 then "number"
    else if code == 2 then "comma"
    else if code == 3 then "left_paren"
    else if code == 4 then "right_paren"
    else "unknown"
  }

  /** The five kinds have five different names. */
  lemma KindNamesAreDistinct(a: TokenKind, b: TokenKind)
    ensures KindName(KindCode(a)) == KindName(KindCode(b)) <==> a == b
  {
  }
}
