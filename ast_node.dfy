/** Syntax-tree nodes and the analysis pass (ast_node.c). The nodes are
    values; the instructions node, whose child list the source grows in
    place, is also a class. Analysis resolves every register operand and
    stops at the first one that is not `a0` or `a1`. */
module AstNode {
  import opened Common
  import opened Token

  /** A node, by the kind tag in its first field. `Other` is a node whose
      kind the analysis switch does not list (the executable and function
      nodes of ast_node.h, or a corrupted tag). */
  datatype AstNode =
    | Instructions(nodes: seq<AstNode>)
    | IType(mnemonic: Token, rd: Token, rs1: Token, imm: Token)
    | SType(mnemonic: Token, rs1: Token, rs2: Token, imm: Token)
    | UType(mnemonic: Token, rd: Token, imm: Token)
    | Other

  /** `enum ast_node_kind`. */
  const AST_NODE_INSTRUCTIONS: nat := 0
  const AST_NODE_ITYPE: nat := 1
  const AST_NODE_STYPE: nat := 2
  const AST_NODE_UTYPE: nat := 3

  /** The kind tag of a node; `Other` has none of the listed ones. */
  function Kind(n: AstNode): Option<nat>
  {
    match n
    case Instructions(_) => Some(AST_NODE_INSTRUCTIONS)
    case IType(_, _, _, _) => Some(AST_NODE_ITYPE)
    case SType(_, _, _, _) => Some(AST_NODE_STYPE)
    case UType(_, _, _) => Some(AST_NODE_UTYPE)
    case Other => None
  }

  /** `create_itype_ast_node`: tag ITYPE, and the four tokens as given. */
  function CreateItype(mnemonic: Token, rd: Token, rs1: Token, imm: Token): (n: AstNode)
    ensures Kind(n) == Some(AST_NODE_ITYPE)
    ensures n.mnemonic == mnemonic && n.rd == rd && n.rs1 == rs1 && n.imm == imm
  {
    IType(mnemonic, rd, rs1, imm)
  }

  /** `create_stype_ast_node`: tag STYPE, and the four tokens as given. */
  function CreateStype(mnemonic: Token, rs1: Token, rs2: Token, imm: Token): (n: AstNode)
    ensures Kind(n) == Some(AST_NODE_STYPE)
    ensures n.mnemonic == mnemonic && n.rs1 == rs1 && n.rs2 == rs2 && n.imm == imm
  {
    SType(mnemonic, rs1, rs2, imm)
  }

  /** `create_utype_ast_node`: tag UTYPE, and the three tokens as given. */
  function CreateUtype(mnemonic: Token, rd: Token, imm: Token): (n: AstNode)
    ensures Kind(n) == Some(AST_NODE_UTYPE)
    ensures n.mnemonic == mnemonic && n.rd == rd && n.imm == imm
  {
    UType(mnemonic, rd, imm)
  }

  /** `struct instructions_ast_node`: a child list grown in place. */
  class InstructionsAstNode {
    var nodes: seq<AstNode>
    var length: nat

    ghost predicate Valid()
      reads this
    {
      |nodes| == length
    }

    /** The node as a value. */
    function Value(): (n: AstNode)
      reads this
      ensures Kind(n) == Some(AST_NODE_INSTRUCTIONS)
    {
      Instructions(nodes)
    }

    /** `create_empty_instructions_ast_node`: no children. */
    constructor ()
      ensures Valid() && length == 0 && nodes == []
    {
      nodes := [];
      length := 0;
    }

    /** `instructions_ast_node_push`: the node goes at the old length, the
        length grows by one, the earlier children stay. */
    method Push(node: AstNode)
      requires Valid()
      modifies this
      ensures Valid()
      ensures length == old(length) + 1 && nodes[old(length)] == node
      ensures nodes[..old(length)] == old(nodes)
    {
      var index := length;
      length := length + 1;
      nodes := nodes + [node];
    }
  }

  // ---------------------------------------------------------------------
  // Registers

  const A0: nat := 10
  const A1: nat := 11

  /** The spelling of a register the analysis knows. */
  function RegisterName(index: nat): seq<byte>
    requires index == A0 || index == A1
  {
    if index == A0 then [LOWER_A, DIGIT_0] else [LOWER_A, DIGIT_1]
  }

  /** `register_index`: 10 for `a0`, 11 for `a1`; every other spelling,
      of any length, is fatal. */
  function RegisterIndex(reg: Token): (r: Result<nat>)
    ensures r.Ok? <==> reg.text == RegisterName(A0) || reg.text == RegisterName(A1)
    ensures r.Ok? ==> (r.value == A0 || r.value == A1) && reg.text == RegisterName(r.value)
    ensures r.Fatal? ==> r.message == "unknown register"
  {
    if |reg.text| != 2 then
      Fatal("unknown register")
    else if reg.text[0] == LOWER_A && reg.text[1] == DIGIT_0 then
      Ok(A0)
    else if reg.text[0] == LOWER_A && reg.text[1] == DIGIT_1 then
      Ok(A1)
    else
      Fatal("unknown register")
  }

  /** Naming a register and reading the name back gives the register. */
  lemma RegisterNameRoundTrip(index: nat, kind: TokenKind, start: nat)
    requires index == A0 || index == A1
    ensures RegisterIndex(Token(kind, start, RegisterName(index))) == Ok(index)
  {
  }

  // ---------------------------------------------------------------------
  // Analysis

  /** One operand checked as a register; the index itself is discarded. */
  function CheckRegister(reg: Token): Outcome
  {
    match RegisterIndex(reg)
    case Ok(_) => Pass
    case Fatal(message) => Fail(message)
  }

  /** The first failure of two checks made in order. */
  function Then(first: Outcome, second: Outcome): Outcome
  {
    if first.Fail? then first else second
  }

  /** `ast_node_analyze`, as a value: children in order, stopping at the
      first failure; the registers an instruction names; anything else
      fatal. */
  function Analyze(n: AstNode): Outcome
    decreases n, 1
  {
    match n
    case Instructions(nodes) => AnalyzeEach(nodes)
    case IType(_, rd, rs1, _) => Then(CheckRegister(rd), CheckRegister(rs1))
    case SType(_, rs1, rs2, _) => Then(CheckRegister(rs1), CheckRegister(rs2))
    case UType(_, rd, _) => CheckRegister(rd)
    case Other => Fail("unknown ast node")
  }

  /** The analyses of `nodes` in order, up to the first failure. */
  function AnalyzeEach(nodes: seq<AstNode>): Outcome
    decreases nodes, 0
  {
    if nodes == [] then Pass
    else Then(Analyze(nodes[0]), AnalyzeEach(nodes[1..]))
  }

  /** An instructions node passes exactly when every child passes, and a
      failure is the failure of the first child that fails. */
  lemma {:induction false} AnalyzeEachPasses(nodes: seq<AstNode>)
    ensures AnalyzeEach(nodes).Pass? <==> forall k :: 0 <= k < |nodes| ==> Analyze(nodes[k]).Pass?
    ensures AnalyzeEach(nodes).Fail? ==>
      exists k :: 0 <= k < |nodes| && AnalyzeEach(nodes) == Analyze(nodes[k])
        && forall j :: 0 <= j < k ==> Analyze(nodes[j]).Pass?
  {
    if nodes != [] {
      AnalyzeEachPasses(nodes[1..]);
      if AnalyzeEach(nodes).Fail? && Analyze(nodes[0]).Pass? {
        var k :| 0 <= k < |nodes[1..]| && AnalyzeEach(nodes[1..]) == Analyze(nodes[1..][k])
          && forall j :: 0 <= j < k ==> Analyze(nodes[1..][j]).Pass?;
        assert forall j :: 0 <= j < k + 1 ==> Analyze(nodes[j]).Pass? by {
          forall j | 0 <= j < k + 1
            ensures Analyze(nodes[j]).Pass?
          {
            if j > 0 {
              assert nodes[j] == nodes[1..][j - 1];
            }
          }
        }
        assert AnalyzeEach(nodes) == Analyze(nodes[k + 1]);
      }
    }
  }

  /** Each instruction kind checks exactly its register operands, in the
      order the source names them. */
  lemma InstructionAnalysis(n: AstNode)
    requires n.IType? || n.SType? || n.UType?
    ensures Analyze(n).Pass? <==>
      match n
      case IType(_, rd, rs1, _) => RegisterIndex(rd).Ok? && RegisterIndex(rs1).Ok?
      case SType(_, rs1, rs2, _) => RegisterIndex(rs1).Ok? && RegisterIndex(rs2).Ok?
      case UType(_, rd, _) => RegisterIndex(rd).Ok?
    ensures Analyze(n).Fail? ==> Analyze(n) == Fail("unknown register")
  {
  }

  /** `analyze_itype`, `analyze_stype` and `analyze_utype`. */
  method AnalyzeInstruction(n: AstNode) returns (o: Outcome)
    requires n.IType? || n.SType? || n.UType?
    ensures o == Analyze(n)
  {
    var first: Result<nat>, second: Result<nat>;
    if n.IType? {
      first, second := RegisterIndex(n.rd), RegisterIndex(n.rs1);
    } else if n.SType? {
      first, second := RegisterIndex(n.rs1), RegisterIndex(n.rs2);
    } else {
      first := RegisterIndex(n.rd);
      if first.Fatal? {
        return Fail(first.message);
      }
      return Pass;
    }
    if first.Fatal? {
      return Fail(first.message);
    }
    if second.Fatal? {
      return Fail(second.message);
    }
    return Pass;
  }

  /** `ast_node_analyze`: walks the children of an instructions node in a
      loop, recursing into each; reads the tree and changes nothing. */
  method AnalyzeNode(n: AstNode) returns (o: Outcome)
    ensures o == Analyze(n)
    decreases n
  {
    match n
    case Instructions(nodes) =>
      var i := 0;
      while i < |nodes|
        invariant 0 <= i <= |nodes|
        invariant Analyze(n) == AnalyzeEach(nodes[i..])
        decreases |nodes| - i
      {
        assert nodes[i..][1..] == nodes[i + 1..];
        o := AnalyzeNode(nodes[i]);
        if o.Fail? {
          return;
        }
        i := i + 1;
      }
      o := Pass;
    case IType(_, _, _, _) =>
      o := AnalyzeInstruction(n);
    case SType(_, _, _, _) =>
      o := AnalyzeInstruction(n);
    case UType(_, _, _) =>
      o := AnalyzeInstruction(n);
    case Other =>
      o := Fail("unknown ast node");
  }
}
