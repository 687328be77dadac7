/** The lexer (lexer.c): a byte-level state machine with the states START,
    IDENTIFIER, NUMBER and NUMBER_HEX that pushes tokens, as spans of the
    input, into a token vector.

    `Scan` below is a reference definition written token by token (skip
    blanks, read one maximal token, go on); `Lex` is the byte loop of the
    source, proved to produce exactly what `Scan` describes. The lemmas
    after it state what `Scan` guarantees. */
module Lexer {
  import opened Common
  import opened Token
  import opened Tokens

  // ---------------------------------------------------------------------
  // Byte classes

  /** `is_whitespace`: tab, newline and space only. */
  predicate IsWhitespace(b: byte) { b == TAB || b == NEWLINE || b == SPACE }

  /** `is_alpha`: lower-case ASCII letters only. */
  predicate IsAlpha(b: byte) { LOWER_A <= b <= LOWER_Z }

  /** `is_digit`: ASCII decimal digits. */
  predicate IsDigit(b: byte) { DIGIT_0 <= b <= DIGIT_9 }

  /** `is_hex`: lower-case `a` to `f` or a decimal digit. */
  predicate IsHex(b: byte) { (LOWER_A <= b <= LOWER_F) || IsDigit(b) }

  /** The four byte classes are the characters the C code compares
      against. */
  lemma ByteClassChars(b: byte)
    ensures IsWhitespace(b) <==> b as char in "\t\n "
    ensures IsAlpha(b) <==> b as char in "abcdefghijklmnopqrstuvwxyz"
    ensures IsDigit(b) <==> b as char in "0123456789"
    ensures IsHex(b) <==> b as char in "0123456789abcdef"
  {
  }

  /** The single-byte punctuation tokens and their kinds. */
  predicate IsPunctuation(b: byte) { b == COMMA || b == LEFT_PAREN || b == RIGHT_PAREN }

  function PunctuationKind(b: byte): TokenKind
    requires IsPunctuation(b)
  {
    if b == COMMA then Comma else if b == LEFT_PAREN then LeftParen else RightParen
  }

  /** The bytes the lexer accepts anywhere in its input. */
  predicate IsAllowed(b: byte)
  {
    IsAlpha(b) || IsDigit(b) || IsPunctuation(b) || IsWhitespace(b)
  }

  /** The three kinds of run that continue a pending token. */
  datatype Run = AlnumRun | DigitRun | HexRun

  predicate Continues(r: Run, b: byte)
  {
    match r
    case AlnumRun => IsAlpha(b) || IsDigit(b)
    case DigitRun => IsDigit(b)
    case HexRun => IsDigit(b) || IsHex(b)
  }

  /** The end of the maximal run of class `r` that begins at `j`: the
      first position at or after `j` whose byte does not continue the run. */
  function RunEnd(input: seq<byte>, j: nat, r: Run): (e: nat)
    requires j <= |input|
    ensures j <= e <= |input|
    ensures e < |input| ==> !Continues(r, input[e])
    decreases |input| - j
  {
    if j == |input| || !Continues(r, input[j]) then j else RunEnd(input, j + 1, r)
  }

  /** Every byte before the end of a run continues it. */
  lemma {:induction false} RunEndCovers(input: seq<byte>, j: nat, r: Run, k: nat)
    requires j <= |input| && j <= k < RunEnd(input, j, r)
    ensures Continues(r, input[k])
    decreases k - j
  {
    if j < k {
      RunEndCovers(input, j + 1, r, k);
    }
  }

  /** A run that reaches past `i` and whose byte at `i` ends it, ends at `i`. */
  lemma RunEndAt(input: seq<byte>, j: nat, r: Run, i: nat)
    requires j <= i <= |input| && RunEnd(input, j, r) >= i
    requires i < |input| ==> !Continues(r, input[i])
    ensures RunEnd(input, j, r) == i
  {
    if RunEnd(input, j, r) > i {
      RunEndCovers(input, j, r, i);
    }
  }

  // ---------------------------------------------------------------------
  // Reference scanner

  /** The tokens of `input[i..]` appended to `acc`, read one token at a
      time from a position outside any token; `None` when the lexer stops
      with a fatal error.
      - blanks are skipped; `,` `(` `)` are one-byte tokens;
      - a letter starts an identifier running over letters and digits;
      - `0x` starts a hexadecimal number running over digits and `a`-`f`,
        which is dropped when it reaches the end of the input;
      - any other digit starts a decimal number running over digits;
      - a letter right after a number, or any other byte, is fatal. */
  function Scan(input: seq<byte>, i: nat, acc: seq<Token>): Option<seq<Token>>
    requires i <= |input|
    decreases |input| - i
  {
    if i == |input| then
      Some(acc)
    else
      var b := input[i];
      if IsAlpha(b) then
        var e := RunEnd(input, i + 1, AlnumRun);
        Scan(input, e, acc + [Token(Identifier, i, input[i..e])])
      else if IsDigit(b) then
        var hex := i + 1 < |input| && b == DIGIT_0 && input[i + 1] == LOWER_X;
        var e := if hex then RunEnd(input, i + 2, HexRun) else RunEnd(input, i + 1, DigitRun);
        if e == |input| then
          if hex then Some(acc) else Some(acc + [Token(Number, i, input[i..e])])
        else if IsAlpha(input[e]) then
          None
        else
          Scan(input, e, acc + [Token(Number, i, input[i..e])])
      else if IsPunctuation(b) then
        Scan(input, i + 1, acc + [Token(PunctuationKind(b), i, input[i..i + 1])])
      else if IsWhitespace(b) then
        Scan(input, i + 1, acc)
      else
        None
  }

  /** The tokens of the whole input, or `None` on a lexical error. */
  function LexSpec(input: seq<byte>): Option<seq<Token>>
  {
    Scan(input, 0, [])
  }

  /** The lexer succeeds: every byte is acceptable and the tokens fit in the
      token vector. */
  predicate Lexes(input: seq<byte>)
  {
    LexSpec(input).Some? && |LexSpec(input).value| <= MaxTokens
  }

  // ---------------------------------------------------------------------
  // The state machine

  datatype State = Start | InIdentifier | InNumber | InNumberHex

  /** Where the reference scanner resumes for a state of the machine: at
      the current byte between tokens, at the pending token's start inside
      one. */
  function Resume(state: State, tokenStart: nat, i: nat): nat
  {
    if state == Start then i else tokenStart
  }

  /** What the bytes already consumed into the pending token say about it:
      its first byte or bytes, and that its run reaches at least `i`. */
  ghost predicate Pending(input: seq<byte>, state: State, tokenStart: nat, i: nat)
    requires i <= |input|
  {
    match state
    case Start => true
    case InIdentifier =>
      tokenStart < i && IsAlpha(input[tokenStart])
      && RunEnd(input, tokenStart + 1, AlnumRun) >= i
    case InNumber =>
      tokenStart < i && IsDigit(input[tokenStart])
      && !(tokenStart + 1 < |input| && input[tokenStart] == DIGIT_0 && input[tokenStart + 1] == LOWER_X)
      && RunEnd(input, tokenStart + 1, DigitRun) >= i
    case InNumberHex =>
      tokenStart + 2 <= i && input[tokenStart] == DIGIT_0 && input[tokenStart + 1] == LOWER_X
      && RunEnd(input, tokenStart + 2, HexRun) >= i
  }

  /** A successful scan keeps what was already accumulated as a prefix. */
  lemma {:induction false} ScanExtends(input: seq<byte>, i: nat, acc: seq<Token>)
    requires i <= |input| && Scan(input, i, acc).Some?
    ensures |Scan(input, i, acc).value| >= |acc|
    ensures Scan(input, i, acc).value[..|acc|] == acc
    decreases |input| - i
  {
    if i < |input| {
      var b := input[i];
      if IsAlpha(b) {
        var e := RunEnd(input, i + 1, AlnumRun);
        var acc' := acc + [Token(Identifier, i, input[i..e])];
        ScanExtends(input, e, acc');
        assert acc'[..|acc|] == acc;
      } else if IsDigit(b) {
        var hex := i + 1 < |input| && b == DIGIT_0 && input[i + 1] == LOWER_X;
        var e := if hex then RunEnd(input, i + 2, HexRun) else RunEnd(input, i + 1, DigitRun);
        var acc' := acc + [Token(Number, i, input[i..e])];
        assert acc'[..|acc|] == acc;
        if e < |input| {
          ScanExtends(input, e, acc');
        }
      } else if IsPunctuation(b) {
        var acc' := acc + [Token(PunctuationKind(b), i, input[i..i + 1])];
        ScanExtends(input, i + 1, acc');
        assert acc'[..|acc|] == acc;
      } else {
        ScanExtends(input, i + 1, acc);
      }
    }
  }

  /** Once more tokens are pending than the vector holds, lexing fails. */
  lemma FullVectorOverflows(input: seq<byte>, i: nat, acc: seq<Token>)
    requires i <= |input| && |acc| > MaxTokens
    ensures var r := Scan(input, i, acc); !(r.Some? && |r.value| <= MaxTokens)
  {
    if Scan(input, i, acc).Some? {
      ScanExtends(input, i, acc);
    }
  }

  /** Between tokens a blank is skipped. */
  lemma ScanBlank(input: seq<byte>, i: nat, acc: seq<Token>)
    requires i < |input| && IsWhitespace(input[i])
    ensures Scan(input, i, acc) == Scan(input, i + 1, acc)
  {
  }

  /** Between tokens a punctuation byte is a token of its own. */
  lemma ScanPunctuation(input: seq<byte>, i: nat, acc: seq<Token>)
    requires i < |input| && IsPunctuation(input[i])
    ensures Scan(input, i, acc) == Scan(input, i + 1, acc + [Token(PunctuationKind(input[i]), i, input[i..i + 1])])
  {
  }

  /** Between tokens any byte outside the accepted classes is fatal. */
  lemma ScanForeign(input: seq<byte>, i: nat, acc: seq<Token>)
    requires i < |input| && !IsAllowed(input[i])
    ensures Scan(input, i, acc) == None
  {
  }

  /** A pending identifier ends at the first byte that is neither a letter
      nor a digit, or at the end of the input. */
  lemma ScanIdentifierEnd(input: seq<byte>, tokenStart: nat, i: nat, acc: seq<Token>)
    requires i <= |input| && Pending(input, InIdentifier, tokenStart, i)
    requires i < |input| ==> !Continues(AlnumRun, input[i])
    ensures Scan(input, tokenStart, acc) == Scan(input, i, acc + [Token(Identifier, tokenStart, input[tokenStart..i])])
  {
    RunEndAt(input, tokenStart + 1, AlnumRun, i);
  }

  /** A pending number ends at the first byte outside its run; a letter
      there is fatal. */
  lemma ScanNumberEnd(input: seq<byte>, state: State, tokenStart: nat, i: nat, acc: seq<Token>)
    requires state == InNumber || state == InNumberHex
    requires i < |input| && Pending(input, state, tokenStart, i)
    requires !Continues(if state == InNumber then DigitRun else HexRun, input[i])
    ensures Scan(input, tokenStart, acc) ==
      if IsAlpha(input[i]) then None
      else Scan(input, i, acc + [Token(Number, tokenStart, input[tokenStart..i])])
  {
    if state == InNumber {
      RunEndAt(input, tokenStart + 1, DigitRun, i);
    } else {
      RunEndAt(input, tokenStart + 2, HexRun, i);
    }
  }

  /** At the end of the input a pending decimal number is a token, a
      pending hexadecimal number is dropped. */
  lemma ScanNumberAtEnd(input: seq<byte>, state: State, tokenStart: nat, acc: seq<Token>)
    requires state == InNumber || state == InNumberHex
    requires Pending(input, state, tokenStart, |input|)
    ensures Scan(input, tokenStart, acc) ==
      if state == InNumber then Some(acc + [Token(Number, tokenStart, input[tokenStart..|input|])])
      else Some(acc)
  {
    if state == InNumber {
      RunEndAt(input, tokenStart + 1, DigitRun, |input|);
    } else {
      RunEndAt(input, tokenStart + 2, HexRun, |input|);
    }
  }

  /** The loop's view of the work so far: `acc` followed by what the
      reference scanner reads from the resume point is the whole result. */
  ghost predicate Consistent(input: seq<byte>, acc: seq<Token>, state: State, tokenStart: nat, i: nat)
  {
    i <= |input| && tokenStart <= i && Pending(input, state, tokenStart, i)
    && LexSpec(input) == Scan(input, Resume(state, tokenStart, i), acc)
  }

  /** The first half of the loop body (lexer.c lines 58-79), for a byte that
      ends the pending token: push that token and go back to START. The
      result `createdDigit` says that the token was a number. */
  method EndToken(input: seq<byte>, tokens: Tokens, state: State, tokenStart: nat, i: nat)
    returns (ok: bool, createdDigit: bool)
    requires tokens.Valid() && i < |input| && state != Start
    requires Consistent(input, tokens.Contents(), state, tokenStart, i)
    requires state == InIdentifier ==> !Continues(AlnumRun, input[i])
    requires state == InNumber ==> !Continues(DigitRun, input[i])
    requires state == InNumberHex ==> !Continues(HexRun, input[i])
    modifies tokens, tokens.data
    ensures tokens.Valid()
    ensures createdDigit <==> state != InIdentifier
    ensures !ok ==> !Lexes(input)
    ensures ok && createdDigit && IsAlpha(input[i]) ==> !Lexes(input)
    ensures ok && !(createdDigit && IsAlpha(input[i])) ==> Consistent(input, tokens.Contents(), Start, tokenStart, i)
  {
    var kind := if state == InIdentifier then Identifier else Number;
    var token := Token(kind, tokenStart, input[tokenStart..i]);
    if state == InIdentifier {
      ScanIdentifierEnd(input, tokenStart, i, tokens.Contents());
    } else {
      ScanNumberEnd(input, state, tokenStart, i, tokens.Contents());
    }
    ok := tokens.Push(kind, tokenStart, input[tokenStart..i]);
    createdDigit := state != InIdentifier;
    if !ok {
      FullVectorOverflows(input, i, tokens.Contents() + [token]);
    }
  }

  /** The second half of the loop body (lexer.c lines 81-127), in START:
      begin an identifier or a number, push a punctuation token, skip a
      blank, or stop on anything else. `next` is the position of the byte
      after the ones this step consumed. */
  method StartToken(input: seq<byte>, tokens: Tokens, createdDigit: bool, tokenStart: nat, i: nat)
    returns (ok: bool, state: State, tokenStart': nat, next: nat)
    requires tokens.Valid() && i < |input|
    requires createdDigit && IsAlpha(input[i]) ==> !Lexes(input)
    requires !(createdDigit && IsAlpha(input[i])) ==> Consistent(input, tokens.Contents(), Start, tokenStart, i)
    modifies tokens, tokens.data
    ensures tokens.Valid()
    ensures !ok ==> !Lexes(input)
    ensures ok ==> i < next <= |input| && Consistent(input, tokens.Contents(), state, tokenStart', next)
  {
    var b := input[i];
    state, tokenStart', next := Start, tokenStart, i + 1;
    if IsAlpha(b) {
      if createdDigit {
        return false, state, tokenStart', next;
      }
      state, tokenStart' := InIdentifier, i;
      return true, state, tokenStart', next;
    }
    if IsDigit(b) {
      state, tokenStart' := InNumber, i;
      if i != |input| - 1 {
        if b == DIGIT_0 && input[i + 1] == LOWER_X {
          state := InNumberHex;
          next := i + 2;
        }
      }
      return true, state, tokenStart', next;
    }
    if IsPunctuation(b) {
      var token := Token(PunctuationKind(b), i, input[i..i + 1]);
      ScanPunctuation(input, i, tokens.Contents());
      ok := tokens.Push(PunctuationKind(b), i, input[i..i + 1]);
      if !ok {
        FullVectorOverflows(input, i + 1, tokens.Contents() + [token]);
      }
      return;
    }
    if IsWhitespace(b) {
      ScanBlank(input, i, tokens.Contents());
      return true, state, tokenStart', next;
    }
    ScanForeign(input, i, tokens.Contents());
    ok := false;
  }

  /** `lex`: one pass over the input bytes; `ok` is false where the source
      stops with a fatal error ("parsed failed", or a full token vector). */
  method Lex(input: seq<byte>) returns (ok: bool, tokens: Tokens)
    ensures tokens.Valid()
    ensures ok <==> Lexes(input)
    ensures ok ==> tokens.Contents() == LexSpec(input).value
  {
    tokens := new Tokens();
    var state := Start;
    var tokenStart: nat := 0;
    var i: nat := 0;
    while i < |input|
      invariant fresh(tokens) && fresh(tokens.data) && tokens.Valid()
      invariant Consistent(input, tokens.Contents(), state, tokenStart, i)
      decreases |input| - i
    {
      ok, state, tokenStart, i := LexByte(input, tokens, state, tokenStart, i);
      if !ok {
        return;
      }
    }
    ok := LexEnd(input, tokens, state, tokenStart);
  }

  /** One turn of the loop of `lex`, at byte `i`: a byte that continues the
      pending token is consumed; any other byte ends the pending token and
      starts the next. */
  method LexByte(input: seq<byte>, tokens: Tokens, state: State, tokenStart: nat, i: nat)
    returns (ok: bool, state': State, tokenStart': nat, next: nat)
    requires tokens.Valid() && i < |input|
    requires Consistent(input, tokens.Contents(), state, tokenStart, i)
    modifies tokens, tokens.data
    ensures tokens.Valid()
    ensures !ok ==> !Lexes(input)
    ensures ok ==> i < next <= |input| && Consistent(input, tokens.Contents(), state', tokenStart', next)
  {
    var b := input[i];
    var createdDigit := false;
    if (state == InIdentifier && (IsAlpha(b) || IsDigit(b)))
       || ((state == InNumber || state == InNumberHex) && IsDigit(b))
       || (state == InNumberHex && IsHex(b)) {
      PendingContinues(input, tokens.Contents(), state, tokenStart, i);
      return true, state, tokenStart, i + 1;
    }
    if state != Start {
      ok, createdDigit := EndToken(input, tokens, state, tokenStart, i);
      if !ok {
        return false, state, tokenStart, i;
      }
    }
    ok, state', tokenStart', next := StartToken(input, tokens, createdDigit, tokenStart, i);
  }

  /** A byte that continues the pending token's run leaves the scan where
      it was. */
  lemma PendingContinues(input: seq<byte>, acc: seq<Token>, state: State, tokenStart: nat, i: nat)
    requires i < |input| && Consistent(input, acc, state, tokenStart, i)
    requires (state == InIdentifier && (IsAlpha(input[i]) || IsDigit(input[i])))
             || ((state == InNumber || state == InNumberHex) && IsDigit(input[i]))
             || (state == InNumberHex && IsHex(input[i]))
    ensures Consistent(input, acc, state, tokenStart, i + 1)
  {
    assert Resume(state, tokenStart, i + 1) == Resume(state, tokenStart, i);
  }

  /** The end of `lex`: a pending identifier or decimal number is flushed;
      a pending hexadecimal number is not. */
  method LexEnd(input: seq<byte>, tokens: Tokens, state: State, tokenStart: nat) returns (ok: bool)
    requires tokens.Valid()
    requires Consistent(input, tokens.Contents(), state, tokenStart, |input|)
    modifies tokens, tokens.data
    ensures tokens.Valid()
    ensures ok <==> Lexes(input)
    ensures ok ==> tokens.Contents() == LexSpec(input).value
  {
    var i := |input|;
    var acc := tokens.Contents();
    if state == InIdentifier {
      ScanIdentifierEnd(input, tokenStart, i, acc);
      ok := tokens.Push(Identifier, tokenStart, input[tokenStart..i]);
      if !ok {
        FullVectorOverflows(input, i, acc + [Token(Identifier, tokenStart, input[tokenStart..i])]);
      }
    } else if state == InNumber {
      ScanNumberAtEnd(input, state, tokenStart, acc);
      ok := tokens.Push(Number, tokenStart, input[tokenStart..i]);
      if !ok {
        FullVectorOverflows(input, i, acc + [Token(Number, tokenStart, input[tokenStart..i])]);
      }
    } else {
      if state == InNumberHex {
        ScanNumberAtEnd(input, state, tokenStart, acc);
      }
      ok := true;
    }
  }

  // ---------------------------------------------------------------------
  // What the reference scanner guarantees

  /** A byte outside the accepted classes anywhere in the input, an
      upper-case letter for instance, makes lexing fatal: no token run
      ever covers it, so the scanner reaches it between tokens. */
  lemma {:induction false} ScanRejectsForeignByte(input: seq<byte>, i: nat, acc: seq<Token>, k: nat)
    requires i <= k < |input| && !IsAllowed(input[k])
    ensures Scan(input, i, acc) == None
    decreases |input| - i
  {
    var b := input[i];
    if IsAlpha(b) {
      var e := RunEnd(input, i + 1, AlnumRun);
      if k < e {
        RunEndCovers(input, i + 1, AlnumRun, k);
      }
      ScanRejectsForeignByte(input, e, acc + [Token(Identifier, i, input[i..e])], k);
    } else if IsDigit(b) {
      var hex := i + 1 < |input| && b == DIGIT_0 && input[i + 1] == LOWER_X;
      var e := if hex then RunEnd(input, i + 2, HexRun) else RunEnd(input, i + 1, DigitRun);
      if k < e {
        if hex && k >= i + 2 {
          RunEndCovers(input, i + 2, HexRun, k);
        } else if !hex && k > i {
          RunEndCovers(input, i + 1, DigitRun, k);
        }
      }
      if !IsAlpha(input[e]) {
        ScanRejectsForeignByte(input, e, acc + [Token(Number, i, input[i..e])], k);
      }
    } else if IsPunctuation(b) || IsWhitespace(b) {
      var acc' := if IsPunctuation(b) then acc + [Token(PunctuationKind(b), i, input[i..i + 1])] else acc;
      ScanRejectsForeignByte(input, i + 1, acc', k);
    }
  }

  lemma ForeignByteIsFatal(input: seq<byte>, k: nat)
    requires k < |input| && !IsAllowed(input[k])
    ensures !Lexes(input)
  {
    ScanRejectsForeignByte(input, 0, [], k);
  }

  /** Upper-case letters are not letters to the lexer. */
  lemma UpperCaseIsFatal(input: seq<byte>, k: nat)
    requires k < |input| && 65 <= input[k] <= 90
    ensures !Lexes(input)
  {
    ForeignByteIsFatal(input, k);
  }

  /** `input[s..e]` is an identifier: a letter and the maximal run of
      letters and digits after it. */
  ghost predicate IdentifierSpan(input: seq<byte>, s: nat, e: nat)
  {
    s < e <= |input| && IsAlpha(input[s])
    && (forall k :: s < k < e ==> IsAlpha(input[k]) || IsDigit(input[k]))
    && (e < |input| ==> !IsAlpha(input[e]) && !IsDigit(input[e]))
  }

  /** `input[s..e]` is a decimal number: a maximal run of digits, not
      followed by a letter. */
  ghost predicate DecimalSpan(input: seq<byte>, s: nat, e: nat)
  {
    s < e <= |input|
    && (forall k :: s <= k < e ==> IsDigit(input[k]))
    && (e < |input| ==> !IsDigit(input[e]) && !IsAlpha(input[e]))
  }

  /** `input[s..e]` is a hexadecimal number: `0x`, then the maximal run of
      digits and `a`-`f` (possibly empty), followed by a byte that is
      neither of those nor a letter; it never reaches the end of input. */
  ghost predicate HexSpan(input: seq<byte>, s: nat, e: nat)
  {
    s + 2 <= e < |input| && input[s] == DIGIT_0 && input[s + 1] == LOWER_X
    && (forall k :: s + 2 <= k < e ==> IsHex(input[k]))
    && !IsHex(input[e]) && !IsAlpha(input[e])
  }

  function TokenEnd(t: Token): nat
  {
    t.start + |t.text|
  }

  /** A token the lexer can emit for `input`: its span lies in the input,
      is non-empty and has the shape its kind demands. */
  ghost predicate TokenOf(input: seq<byte>, t: Token)
  {
    var s, e := t.start, TokenEnd(t);
    e <= |input| && t.text == input[s..e]
    && match t.kind
       case Identifier => IdentifierSpan(input, s, e)
       case Number => DecimalSpan(input, s, e) || HexSpan(input, s, e)
       case _ => e == s + 1 && IsPunctuation(input[s]) && PunctuationKind(input[s]) == t.kind
  }

  /** `ts` are tokens of `input` that end by position `i`, in input order
      and without overlap. */
  ghost predicate Tokenization(input: seq<byte>, ts: seq<Token>, i: nat)
  {
    (forall k :: 0 <= k < |ts| ==> TokenOf(input, ts[k]) && TokenEnd(ts[k]) <= i)
    && (forall j, k :: 0 <= j < k < |ts| ==> TokenEnd(ts[j]) <= ts[k].start)
  }

  lemma TokenizationAppend(input: seq<byte>, ts: seq<Token>, i: nat, t: Token)
    requires Tokenization(input, ts, i) && TokenOf(input, t) && i <= t.start
    ensures Tokenization(input, ts + [t], TokenEnd(t))
  {
  }

  /** The identifier the scanner cuts at a letter is an identifier span. */
  lemma IdentifierToken(input: seq<byte>, i: nat)
    requires i < |input| && IsAlpha(input[i])
    ensures var e := RunEnd(input, i + 1, AlnumRun);
      TokenOf(input, Token(Identifier, i, input[i..e]))
  {
    var e := RunEnd(input, i + 1, AlnumRun);
    forall k | i < k < e
      ensures IsAlpha(input[k]) || IsDigit(input[k])
    {
      RunEndCovers(input, i + 1, AlnumRun, k);
    }
    assert IdentifierSpan(input, i, e);
    assert TokenEnd(Token(Identifier, i, input[i..e])) == e;
  }

  /** The number the scanner cuts at a digit is a decimal or hexadecimal
      span, when the scanner keeps it. */
  lemma NumberToken(input: seq<byte>, i: nat)
    requires i < |input| && IsDigit(input[i])
    ensures var hex := i + 1 < |input| && input[i] == DIGIT_0 && input[i + 1] == LOWER_X;
      var e := if hex then RunEnd(input, i + 2, HexRun) else RunEnd(input, i + 1, DigitRun);
      (if e == |input| then !hex else !IsAlpha(input[e])) ==>
        TokenOf(input, Token(Number, i, input[i..e]))
  {
    var hex := i + 1 < |input| && input[i] == DIGIT_0 && input[i + 1] == LOWER_X;
    if hex {
      var e := RunEnd(input, i + 2, HexRun);
      forall k | i + 2 <= k < e
        ensures IsHex(input[k])
      {
        RunEndCovers(input, i + 2, HexRun, k);
      }
      assert TokenEnd(Token(Number, i, input[i..e])) == e;
      assert e < |input| && !IsAlpha(input[e]) ==> HexSpan(input, i, e);
    } else {
      var e := RunEnd(input, i + 1, DigitRun);
      forall k | i < k < e
        ensures IsDigit(input[k])
      {
        RunEndCovers(input, i + 1, DigitRun, k);
      }
      assert TokenEnd(Token(Number, i, input[i..e])) == e;
      assert e < |input| ==> !IsAlpha(input[e]) ==> DecimalSpan(input, i, e);
    }
  }

  lemma {:induction false} ScanTokenization(input: seq<byte>, i: nat, acc: seq<Token>)
    requires i <= |input| && Tokenization(input, acc, i)
    requires Scan(input, i, acc).Some?
    ensures Tokenization(input, Scan(input, i, acc).value, |input|)
    decreases |input| - i
  {
    if i == |input| {
      return;
    }
    var b := input[i];
    if IsAlpha(b) {
      var e := RunEnd(input, i + 1, AlnumRun);
      var t := Token(Identifier, i, input[i..e]);
      IdentifierToken(input, i);
      TokenizationAppend(input, acc, i, t);
      ScanTokenization(input, e, acc + [t]);
    } else if IsDigit(b) {
      var hex := i + 1 < |input| && b == DIGIT_0 && input[i + 1] == LOWER_X;
      var e := if hex then RunEnd(input, i + 2, HexRun) else RunEnd(input, i + 1, DigitRun);
      var t := Token(Number, i, input[i..e]);
      if e == |input| && hex {
        assert Scan(input, i, acc) == Some(acc);
        return;
      }
      NumberToken(input, i);
      TokenizationAppend(input, acc, i, t);
      if e < |input| {
        ScanTokenization(input, e, acc + [t]);
      }
    } else if IsPunctuation(b) {
      var t := Token(PunctuationKind(b), i, input[i..i + 1]);
      assert TokenOf(input, t);
      TokenizationAppend(input, acc, i, t);
      ScanTokenization(input, i + 1, acc + [t]);
    } else {
      ScanTokenization(input, i + 1, acc);
    }
  }

  /** Every token of a successful lex is a well-formed span of the input,
      and the tokens come in input order without overlapping. */
  lemma LexedTokensAreSpans(input: seq<byte>)
    requires LexSpec(input).Some?
    ensures Tokenization(input, LexSpec(input).value, |input|)
  {
    ScanTokenization(input, 0, []);
  }

  /** A trailing hexadecimal number yields no token: `0x1f` lexes to
      nothing at all. */
  lemma TrailingHexIsDropped()
    ensures LexSpec([DIGIT_0, LOWER_X, DIGIT_1, LOWER_F]) == Some([])
  {
    var input := [DIGIT_0, LOWER_X, DIGIT_1, LOWER_F];
    assert RunEnd(input, 4, HexRun) == 4;
    assert RunEnd(input, 2, HexRun) == 4;
  }

  /** A letter right after a number is fatal: `12a` does not lex. */
  lemma LetterAfterNumberIsFatal()
    ensures LexSpec([DIGIT_1, DIGIT_1 + 1, LOWER_A]) == None
  {
    var input := [DIGIT_1, DIGIT_1 + 1, LOWER_A];
    assert RunEnd(input, 2, DigitRun) == 2;
  }
}
