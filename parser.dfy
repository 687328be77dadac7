/** The parser (parser.c): a recursive-descent recogniser over the token
    vector. It builds nothing; it either accepts the whole token stream or
    stops with a syntax error.

    `InstructionSize` and `ParseAll` are the grammar read the way the
    source reads it (one token of look-ahead, longest alternative first);
    `InstructionShapes` and `IsProgram` are the grammar as a plain set of
    token shapes, and `ParseAllIsProgram` shows that the two agree. */
module Parser {
  import opened Common
  import opened Token
  import opened Tokens

  /** The kinds of a token sequence, in order. */
  function KindsOf(ts: seq<Token>): (ks: seq<TokenKind>)
    ensures |ks| == |ts| && forall k :: 0 <= k < |ts| ==> ks[k] == ts[k].kind
  {
    seq(|ts|, k requires 0 <= k < |ts| => ts[k].kind)
  }

  // ---------------------------------------------------------------------
  // The grammar as the source reads it, over positions in `ks`

  /** Where the first operand that starts at `j` ends: an identifier, or a
      number optionally followed by `( identifier )`; `None` for a syntax
      error. */
  function OperandEnd(ks: seq<TokenKind>, j: nat): Option<nat>
  {
    if j < |ks| && ks[j] == Identifier then Some(j + 1)
    else if j < |ks| && ks[j] == Number then
      if j + 1 < |ks| && ks[j + 1] == LeftParen then
        if j + 3 < |ks| && ks[j + 2] == Identifier && ks[j + 3] == RightParen then Some(j + 4) else None
      else Some(j + 1)
    else None
  }

  /** Where the optional `, identifier` or `, number` that may start at
      `j` ends. */
  function TailEnd(ks: seq<TokenKind>, j: nat): Option<nat>
  {
    if j < |ks| && ks[j] == Comma then
      if j + 1 < |ks| && (ks[j + 1] == Identifier || ks[j + 1] == Number) then Some(j + 2) else None
    else Some(j)
  }

  /** Where the instruction that starts at `i` ends: mnemonic, register,
      `,`, first operand, optional tail. */
  function InstructionEnd(ks: seq<TokenKind>, i: nat): Option<nat>
  {
    if i + 3 <= |ks| && ks[i] == Identifier && ks[i + 1] == Identifier && ks[i + 2] == Comma then
      match OperandEnd(ks, i + 3)
      case None => None
      case Some(j) => TailEnd(ks, j)
    else None
  }

  /** `parse` from position `i`: instructions while the token there is an
      identifier, then the end of the tokens. */
  function ParseFrom(ks: seq<TokenKind>, i: nat): bool
    requires i <= |ks|
    decreases |ks| - i
  {
    if i == |ks| then true
    else if ks[i] != Identifier then false
    else
      match InstructionEnd(ks, i)
      case None => false
      case Some(e) => i < e <= |ks| && ParseFrom(ks, e)
  }

  function ParseAll(ks: seq<TokenKind>): bool
  {
    ParseFrom(ks, 0)
  }

  // ---------------------------------------------------------------------
  // The grammar as a set of shapes

  const InstructionHead: seq<TokenKind> := [Identifier, Identifier, Comma]
  const Operands: set<seq<TokenKind>> :=
    {[Identifier], [Number], [Number, LeftParen, Identifier, RightParen]}
  const Tails: set<seq<TokenKind>> := {[], [Comma, Identifier], [Comma, Number]}

  /** The nine token shapes of one instruction. */
  function InstructionShapes(): set<seq<TokenKind>>
  {
    set a, t | a in Operands && t in Tails :: InstructionHead + a + t
  }

  /** From position `i` on, the tokens are a sequence of instructions,
      each one of the shapes. */
  ghost predicate IsProgramFrom(ks: seq<TokenKind>, i: nat)
    requires i <= |ks|
    decreases |ks| - i
  {
    i == |ks| || exists e :: i < e <= |ks| && ks[i..e] in InstructionShapes() && IsProgramFrom(ks, e)
  }

  ghost predicate IsProgram(ks: seq<TokenKind>)
  {
    IsProgramFrom(ks, 0)
  }

  /** Every shape is at least four tokens long and starts with the
      mnemonic's identifier. */
  lemma ShapeStartsWithIdentifier(s: seq<TokenKind>)
    requires s in InstructionShapes()
    ensures |s| >= 4 && s[0] == Identifier
  {
    var a, t :| a in Operands && t in Tails && s == InstructionHead + a + t;
  }

  /** What `instruction` consumes is one of the shapes. */
  lemma InstructionEndIsShape(ks: seq<TokenKind>, i: nat)
    requires InstructionEnd(ks, i).Some?
    ensures var e := InstructionEnd(ks, i).value;
      i + 4 <= e <= |ks| && ks[i..e] in InstructionShapes()
  {
    var e := InstructionEnd(ks, i).value;
    var j := OperandEnd(ks, i + 3).value;
    var a := ks[i + 3..j];
    var t := ks[j..e];
    if j == i + 4 {
      assert a == [ks[i + 3]];
    } else {
      assert a == [Number, LeftParen, Identifier, RightParen];
    }
    if e == j + 2 {
      assert t == [Comma, ks[j + 1]];
    } else {
      assert t == [];
    }
    assert ks[i..e] == InstructionHead + a + t;
  }

  /** A shape followed by the end of the tokens or by the identifier that
      starts the next instruction is consumed whole: the tokens that would
      extend an instruction (`(` and `,`) never start one. */
  lemma ShapeIsInstructionEnd(ks: seq<TokenKind>, i: nat, e: nat)
    requires i <= e <= |ks| && ks[i..e] in InstructionShapes()
    requires e == |ks| || ks[e] == Identifier
    ensures InstructionEnd(ks, i) == Some(e)
  {
    var a, t :| a in Operands && t in Tails && ks[i..e] == InstructionHead + a + t;
    ShapeParts(ks, i, e, a, t);
    var j := i + 3 + |a|;
    if a == [Identifier] {
      assert ks[i + 3] == a[0];
    } else if a == [Number] {
      assert ks[i + 3] == a[0];
      assert t == [] || ks[j] == t[0];
    } else {
      assert ks[i + 3] == a[0] && ks[i + 4] == a[1] && ks[i + 5] == a[2] && ks[i + 6] == a[3];
    }
    assert OperandEnd(ks, i + 3) == Some(j);
    if t != [] {
      assert ks[j] == t[0] && ks[j + 1] == t[1];
    }
  }

  /** The tokens of a shape `head + a + t` found at `i` in `ks`. */
  lemma ShapeParts(ks: seq<TokenKind>, i: nat, e: nat, a: seq<TokenKind>, t: seq<TokenKind>)
    requires i <= e <= |ks| && ks[i..e] == InstructionHead + a + t
    ensures e == i + 3 + |a| + |t|
    ensures ks[i] == Identifier && ks[i + 1] == Identifier && ks[i + 2] == Comma
    ensures forall k :: 0 <= k < |a| ==> ks[i + 3 + k] == a[k]
    ensures forall k :: 0 <= k < |t| ==> ks[i + 3 + |a| + k] == t[k]
  {
    var s := ks[i..e];
    assert |s| == 3 + |a| + |t|;
    assert ks[i] == s[0] && ks[i + 1] == s[1] && ks[i + 2] == s[2];
    forall k | 0 <= k < |a|
      ensures ks[i + 3 + k] == a[k]
    {
      assert ks[i + 3 + k] == s[3 + k];
    }
    forall k | 0 <= k < |t|
      ensures ks[i + 3 + |a| + k] == t[k]
    {
      assert ks[i + 3 + |a| + k] == s[3 + |a| + k];
    }
  }

  /** From `i`, `parse` accepts exactly the sequences of shapes. */
  lemma {:induction false} ParseFromIsProgramSound(ks: seq<TokenKind>, i: nat)
    requires i <= |ks| && ParseFrom(ks, i)
    ensures IsProgramFrom(ks, i)
    decreases |ks| - i
  {
    if i < |ks| {
      var e := InstructionEnd(ks, i).value;
      InstructionEndIsShape(ks, i);
      ParseFromIsProgramSound(ks, e);
    }
  }

  lemma {:induction false} ParseFromIsProgramComplete(ks: seq<TokenKind>, i: nat)
    requires i <= |ks| && IsProgramFrom(ks, i)
    ensures ParseFrom(ks, i)
    decreases |ks| - i
  {
    if i < |ks| {
      var e :| i < e <= |ks| && ks[i..e] in InstructionShapes() && IsProgramFrom(ks, e);
      ShapeStartsWithIdentifier(ks[i..e]);
      assert ks[i] == ks[i..e][0];
      if e < |ks| {
        var e' :| e < e' <= |ks| && ks[e..e'] in InstructionShapes() && IsProgramFrom(ks, e');
        ShapeStartsWithIdentifier(ks[e..e']);
        assert ks[e] == ks[e..e'][0];
      }
      ShapeIsInstructionEnd(ks, i, e);
      ParseFromIsProgramComplete(ks, e);
    }
  }

  /** `parse` accepts exactly the token streams that are sequences of
      instruction shapes. */
  lemma ParseAllIsProgram(ks: seq<TokenKind>)
    ensures ParseAll(ks) <==> IsProgram(ks)
  {
    if ParseAll(ks) {
      ParseFromIsProgramSound(ks, 0);
    }
    if IsProgram(ks) {
      ParseFromIsProgramComplete(ks, 0);
    }
  }

  /** The bytes of a token's text as characters of a message. */
  function TextChars(text: seq<byte>): (s: string)
    ensures |s| == |text| && forall k :: 0 <= k < |text| ==> s[k] as int == text[k] as int
  {
    seq(|text|, k requires 0 <= k < |text| => text[k] as int as char)
  }

  /** The name `token_kind_c_str` gives a kind. */
  function Name(kind: TokenKind): string
  {
    KindName(KindCode(kind))
  }

  // ---------------------------------------------------------------------
  // The parser

  /** `struct parser`: the token vector and a cursor into it. */
  class Parser {
    const tokens: Tokens
    var index: nat

    ghost predicate Valid()
      reads this, tokens
    {
      tokens.Valid() && index <= tokens.length
    }

    /** The kinds of the tokens being parsed. */
    ghost function Kinds(): seq<TokenKind>
      reads this, tokens, tokens.data
      requires Valid()
    {
      KindsOf(tokens.Contents())
    }

    constructor (tokens: Tokens)
      requires tokens.Valid()
      ensures Valid() && this.tokens == tokens && index == 0
    {
      this.tokens := tokens;
      index := 0;
    }

    /** `accept`: the current token when there is one and it has the
        given kind; the cursor does not move. */
    method Accept(kind: TokenKind) returns (r: Option<Token>)
      requires Valid()
      ensures r.Some? <==> index < tokens.length && Kinds()[index] == kind
      ensures r.Some? ==> r.value == tokens.Contents()[index]
    {
      if tokens.length == index {
        return None;
      }
      var g := tokens.Get(index);
      var token := g.value;
      if token.kind == kind {
        return Some(token);
      }
      return None;
    }

    /** `next`: one step forward, but never past the end. */
    method Next()
      requires Valid()
      modifies this
      ensures Valid()
      ensures index == if old(index) < tokens.length then old(index) + 1 else tokens.length
    {
      index := index + 1;
      if index > tokens.length {
        index := tokens.length;
      }
    }

    /** `expect`: a syntax error at the end of the tokens or on a token of
        another kind; otherwise the current token, and one step forward. */
    method Expect(kind: TokenKind) returns (r: Result<Token>)
      requires Valid()
      modifies this
      ensures Valid()
      ensures r.Ok? <==> old(index) < tokens.length && Kinds()[old(index)] == kind
      ensures r.Ok? ==> index == old(index) + 1 && r.value == tokens.Contents()[old(index)]
      ensures old(index) == tokens.length ==> r == Fatal("expected " + Name(kind) + ", got end of input")
    {
      if tokens.length == index {
        return Fatal("expected " + Name(kind) + ", got end of input");
      }
      var token := Accept(kind);
      if token.None? {
        var g := tokens.Get(index);
        var got := g.value;
        return Fatal("expected " + Name(kind) + ", got " + Name(got.kind) + " '" + TextChars(got.text) + "'");
      }
      Next();
      return Ok(token.value);
    }

    /** The first operand (parser.c lines 64-77): an identifier, or a
        number optionally followed by `( identifier )`. */
    method Operand() returns (o: Outcome)
      requires Valid()
      modifies this
      ensures Valid()
      ensures o.Pass? <==> OperandEnd(Kinds(), old(index)).Some?
      ensures o.Pass? ==> index == OperandEnd(Kinds(), old(index)).value
    {
      var a := Accept(Identifier);
      if a.Some? {
        var r := Expect(Identifier);  // register
        return Pass;
      }
      a := Accept(Number);
      if a.None? {
        return Fail("expected identifier or number");
      }
      var r := Expect(Number);
      var p := Accept(LeftParen);
      if p.Some? {
        Next();
        r := Expect(Identifier);
        if r.Fatal? { return Fail(r.message); }
        r := Expect(RightParen);
        if r.Fatal? { return Fail(r.message); }
      }
      return Pass;
    }

    /** The optional second operand (parser.c lines 79-91): `,` and an
        identifier or a number. */
    method Tail() returns (o: Outcome)
      requires Valid()
      modifies this
      ensures Valid()
      ensures o.Pass? <==> TailEnd(Kinds(), old(index)).Some?
      ensures o.Pass? ==> index == TailEnd(Kinds(), old(index)).value
    {
      var c := Accept(Comma);
      if c.None? {
        return Pass;
      }
      Next();
      var a := Accept(Identifier);
      if a.Some? {
        var r := Expect(Identifier);  // register
        return Pass;
      }
      a := Accept(Number);
      if a.None? {
        return Fail("expected identifier or number");
      }
      var r := Expect(Number);
      return Pass;
    }

    /** `instruction`: consumes one instruction, as `InstructionEnd` reads
        it, or stops with a syntax error. */
    method Instruction() returns (o: Outcome)
      requires Valid()
      modifies this
      ensures Valid()
      ensures o.Pass? <==> InstructionEnd(Kinds(), old(index)).Some?
      ensures o.Pass? ==> index == InstructionEnd(Kinds(), old(index)).value > old(index)
    {
      var r := Expect(Identifier);  // mnemonic
      if r.Fatal? { return Fail(r.message); }
      r := Expect(Identifier);  // register
      if r.Fatal? { return Fail(r.message); }
      r := Expect(Comma);
      if r.Fatal? { return Fail(r.message); }
      o := Operand();
      if o.Fail? { return; }
      o := Tail();
    }
  }

  /** `parse`, without its token dump: instructions while the current token
      is an identifier, then a syntax error unless every token was used. */
  method Parse(tokens: Tokens) returns (o: Outcome)
    requires tokens.Valid()
    ensures o.Pass? <==> ParseAll(KindsOf(tokens.Contents()))
  {
    ghost var ks := KindsOf(tokens.Contents());
    var parser := new Parser(tokens);
    var t := parser.Accept(Identifier);
    while t.Some?
      invariant parser.Valid() && parser.tokens == tokens && parser.Kinds() == ks
      invariant ParseAll(ks) <==> ParseFrom(ks, parser.index)
      invariant t.Some? <==> parser.index < |ks| && ks[parser.index] == Identifier
      decreases |ks| - parser.index
    {
      o := parser.Instruction();
      if o.Fail? {
        return;
      }
      t := parser.Accept(Identifier);
    }
    if parser.index != tokens.length {
      var g := tokens.Get(parser.index);
      var got := g.value;
      return Fail("expected end of input, got " + Name(got.kind) + " '" + TextChars(got.text) + "'");
    }
    return Pass;
  }
}
