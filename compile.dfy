/** Building the machine-code buffer of a function (compile.c): 2-byte
    encodings for compressible instructions, 4-byte ones otherwise, stored
    little-endian into a 4096-byte vector; and the copy of a `struct str`
    into a NUL-terminated C string. */
module Compile {
  import opened Common
  import opened AstNode

  /** `instructions_init` reserves 4096 bytes. */
  const InstructionsCapacity: nat := 4096

  type U16 = x: nat | x < 0x1_0000
  type U32 = x: nat | x < 0x1_0000_0000

  /** The bytes a little-endian store of a `uint16_t` writes, low first. */
  function Le16(val: U16): (bs: seq<byte>)
    ensures |bs| == 2 && bs[0] as int + 0x100 * bs[1] as int == val
  {
    [(val % 0x100) as byte, (val / 0x100) as byte]
  }

  /** The bytes a little-endian store of a `uint32_t` writes, low first. */
  function Le32(val: U32): (bs: seq<byte>)
    ensures |bs| == 4
    ensures bs[0] as int + 0x100 * bs[1] as int + 0x1_0000 * (bs[2] as int + 0x100 * bs[3] as int) == val
  {
    Le16(val % 0x1_0000) + Le16(val / 0x1_0000)
  }

  /** The vector of machine-code bytes (`struct vector`). */
  class InstructionBuffer {
    const data: array<byte>
    var size: nat

    ghost predicate Valid()
      reads this
    {
      data.Length == InstructionsCapacity && size <= InstructionsCapacity
    }

    /** The bytes written so far. */
    ghost function Contents(): seq<byte>
      reads this, data
      requires Valid()
    {
      data[..size]
    }

    /** `instructions_init`: empty, with a capacity of 4096 bytes. */
    constructor ()
      ensures Valid() && fresh(data) && size == 0 && Contents() == []
    {
      data := new byte[InstructionsCapacity];
      size := 0;
    }

    /** `instructions_push_u16`: fatal when two more bytes do not fit,
        otherwise the value's bytes go after the old contents. */
    method PushU16(val: U16) returns (ok: bool)
      requires Valid()
      modifies this, data
      ensures Valid()
      ensures ok <==> old(size) + 2 <= InstructionsCapacity
      ensures ok ==> size == old(size) + 2 && Contents() == old(Contents()) + Le16(val)
      ensures !ok ==> size == old(size) && Contents() == old(Contents())
    {
      if InstructionsCapacity < size + 2 {
        return false;
      }
      var bs := Le16(val);
      data[size] := bs[0];
      data[size + 1] := bs[1];
      size := size + 2;
      return true;
    }

    /** `instructions_push_u32`: fatal when four more bytes do not fit,
        otherwise the value's bytes go after the old contents. */
    method PushU32(val: U32) returns (ok: bool)
      requires Valid()
      modifies this, data
      ensures Valid()
      ensures ok <==> old(size) + 4 <= InstructionsCapacity
      ensures ok ==> size == old(size) + 4 && Contents() == old(Contents()) + Le32(val)
      ensures !ok ==> size == old(size) && Contents() == old(Contents())
    {
      if InstructionsCapacity < size + 4 {
        return false;
      }
      var bs := Le32(val);
      data[size] := bs[0];
      data[size + 1] := bs[1];
      data[size + 2] := bs[2];
      data[size + 3] := bs[3];
      size := size + 4;
      return true;
    }
  }

  /** The encoders `ast_node_machine_code_is_compressible`,
      `ast_node_machine_code_u16` and `ast_node_machine_code_u32`, whose
      definitions are not part of this model. */
  datatype Encoders = Encoders(compressible: AstNode -> bool, code16: AstNode -> U16, code32: AstNode -> U32)

  /** The bytes one node contributes. */
  function Encoding(e: Encoders, node: AstNode): seq<byte>
  {
    if e.compressible(node) then Le16(e.code16(node)) else Le32(e.code32(node))
  }

  /** The bytes of `nodes`, in node order. */
  function Encoded(e: Encoders, nodes: seq<AstNode>): seq<byte>
  {
    if nodes == [] then [] else Encoded(e, nodes[..|nodes| - 1]) + Encoding(e, nodes[|nodes| - 1])
  }

  /** The size of the machine code: 2 per compressible node, 4 per other. */
  function CodeSize(e: Encoders, nodes: seq<AstNode>): nat
  {
    if nodes == [] then 0
    else (if e.compressible(nodes[0]) then 2 else 4) + CodeSize(e, nodes[1..])
  }

  lemma {:induction false} CodeSizeAppend(e: Encoders, nodes: seq<AstNode>, node: AstNode)
    ensures CodeSize(e, nodes + [node]) == CodeSize(e, nodes) + (if e.compressible(node) then 2 else 4)
  {
    if nodes != [] {
      assert (nodes + [node])[1..] == nodes[1..] + [node];
      CodeSizeAppend(e, nodes[1..], node);
    }
  }

  /** The machine code is exactly as long as the size the node kinds
      predict. */
  lemma {:induction false} EncodedSize(e: Encoders, nodes: seq<AstNode>)
    ensures |Encoded(e, nodes)| == CodeSize(e, nodes)
  {
    if nodes != [] {
      var init := nodes[..|nodes| - 1];
      EncodedSize(e, init);
      CodeSizeAppend(e, init, nodes[|nodes| - 1]);
      assert init + [nodes[|nodes| - 1]] == nodes;
    }
  }

  /** `instructions_create`: one push per node, in order; fatal (`ok`
      false) as soon as an encoding does not fit. */
  method InstructionsCreate(e: Encoders, nodes: seq<AstNode>) returns (ok: bool, buffer: InstructionBuffer)
    ensures buffer.Valid()
    ensures ok <==> CodeSize(e, nodes) <= InstructionsCapacity
    ensures ok ==> buffer.Contents() == Encoded(e, nodes)
  {
    buffer := new InstructionBuffer();
    var i := 0;
    while i < |nodes|
      invariant i <= |nodes|
      invariant fresh(buffer) && fresh(buffer.data) && buffer.Valid()
      invariant buffer.Contents() == Encoded(e, nodes[..i])
      decreases |nodes| - i
    {
      var node := nodes[i];
      assert nodes[..i + 1][..i] == nodes[..i];
      if e.compressible(node) {
        ok := buffer.PushU16(e.code16(node));
      } else {
        ok := buffer.PushU32(e.code32(node));
      }
      if !ok {
        EncodedSize(e, nodes[..i + 1]);
        CodePrefixBound(e, nodes, i + 1);
        return;
      }
      i := i + 1;
    }
    assert nodes[..i] == nodes;
    EncodedSize(e, nodes);
    ok := true;
  }

  /** A prefix never takes more room than the whole. */
  lemma CodePrefixBound(e: Encoders, nodes: seq<AstNode>, n: nat)
    requires n <= |nodes|
    ensures CodeSize(e, nodes[..n]) <= CodeSize(e, nodes)
  {
    CodeSplit(e, nodes, n);
  }

  /** The size of a sequence is the size of a prefix plus the size of the
      rest. */
  lemma {:induction false} CodeSplit(e: Encoders, nodes: seq<AstNode>, n: nat)
    requires n <= |nodes|
    ensures CodeSize(e, nodes) == CodeSize(e, nodes[..n]) + CodeSize(e, nodes[n..])
    decreases n
  {
    if n > 0 {
      assert nodes[1..][..n - 1] == nodes[1..n] && nodes[1..][n - 1..] == nodes[n..];
      CodeSplit(e, nodes[1..], n - 1);
      assert nodes[..n][1..] == nodes[1..n];
    }
  }

  /** The four-instruction program of tests/qemu-entry.c: `lui a0, 0x5`
      and `sw a0, 0(a1)` are compressible (0x6515 and 0xC188), `addiw a0,
      a0, 0x555` and `lui a1, 0x100` are not (0x5555051B and 0x001005B7);
      whatever the encoders, these encodings give exactly the twelve
      expected bytes, low byte first. */
  lemma QemuEntryBytes(e: Encoders, nodes: seq<AstNode>)
    requires |nodes| == 4
    requires e.compressible(nodes[0]) && e.code16(nodes[0]) == 0x6515
    requires !e.compressible(nodes[1]) && e.code32(nodes[1]) == 0x5555_051B
    requires !e.compressible(nodes[2]) && e.code32(nodes[2]) == 0x0010_05B7
    requires e.compressible(nodes[3]) && e.code16(nodes[3]) == 0xC188
    ensures Encoded(e, nodes) ==
      [0x15, 0x65, 0x1B, 0x05, 0x55, 0x55, 0xB7, 0x05, 0x10, 0x00, 0x88, 0xC1]
  {
    assert Le16(0x6515) == [0x15, 0x65];
    assert Le32(0x5555_051B) == [0x1B, 0x05, 0x55, 0x55];
    assert Le32(0x0010_05B7) == [0xB7, 0x05, 0x10, 0x00];
    assert Le16(0xC188) == [0x88, 0xC1];
    assert nodes[..3][..2][..1][..0] == [];
    assert nodes[..3][..2] == nodes[..2] && nodes[..2][..1] == nodes[..1] && nodes[..1][..0] == [];
    assert Encoded(e, nodes[..1]) == [0x15, 0x65];
    assert Encoded(e, nodes[..2]) == [0x15, 0x65, 0x1B, 0x05, 0x55, 0x55];
    assert Encoded(e, nodes[..3]) == [0x15, 0x65, 0x1B, 0x05, 0x55, 0x55, 0xB7, 0x05, 0x10, 0x00];
  }

  // ---------------------------------------------------------------------
  // C strings

  /** `strlen`: the position of the first NUL. */
  function Strlen(c: seq<byte>): (n: nat)
    requires exists k :: 0 <= k < |c| && c[k] == 0
    ensures n < |c| && c[n] == 0 && forall k :: 0 <= k < n ==> c[k] != 0
  {
    if c[0] == 0 then 0 else
      assert exists k :: 0 <= k < |c[1..]| && c[1..][k] == 0 by {
        var k :| 0 <= k < |c| && c[k] == 0;
        assert c[1..][k - 1] == 0;
      }
      1 + Strlen(c[1..])
  }

  /** `str_to_c_str`: a zeroed buffer of `size + 1` bytes with the string
      copied over its start. */
  function StrToCStr(s: seq<byte>): (c: seq<byte>)
    ensures |c| == |s| + 1 && c[..|s|] == s && c[|s|] == 0
  {
    s + [0]
  }

  /** A string without NUL bytes survives the round trip: `strlen` of the
      copy is the string's size and its first `strlen` bytes are the
      string. */
  lemma {:induction false} StrToCStrRoundTrip(s: seq<byte>)
    requires forall k :: 0 <= k < |s| ==> s[k] != 0
    ensures var c := StrToCStr(s); Strlen(c) == |s| && c[..Strlen(c)] == s
  {
  }
}
