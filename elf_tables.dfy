/** The growable tables of the ELF writer (elf.c): the symbol table, a
    4096-byte zero-filled vector of 24-byte `struct elf_symbol` records, and
    the string tables (`.strtab`, `.shstrtab`), 4096-byte zero-filled
    vectors of NUL-terminated names whose byte 0 is the empty name. */
module ElfTables {
  import opened Common
  import Compile

  /** Both kinds of table are created with a capacity of 4096 bytes. */
  const TableCapacity: nat := 4096
  /** `sizeof(struct elf_symbol)`. */
  const SymbolSize: nat := 24
  /** The records that fit in the symbol table: 170. */
  const MaxSymbols: nat := TableCapacity / SymbolSize

  const STB_LOCAL: nat := 0
  const STT_NOTYPE: nat := 0
  const STT_OBJECT: nat := 1
  const STT_FUNC: nat := 2
  const STT_SECTION: nat := 3
  const STV_DEFAULT: nat := 0

  /** `ST_INFO(bind, type)` stored into the `uint8_t` info field. */
  function StInfo(bind: nat, typ: nat): nat
  {
    (bind * 16 + typ % 16) % 256
  }

  /** `ST_BIND(info)`. */
  function StBind(info: nat): nat
  {
    info / 16
  }

  /** `ST_TYPE(info)`. */
  function StType(info: nat): nat
  {
    info % 16
  }

  /** Packing a binding and a type into an info byte and unpacking it gives
      them back, for every binding that fits in four bits. */
  lemma StInfoRoundTrip(bind: nat, typ: nat)
    requires bind < 16 && typ < 16
    ensures StBind(StInfo(bind, typ)) == bind && StType(StInfo(bind, typ)) == typ
  {
    assert bind * 16 + typ < 256;
  }

  /** `struct elf_symbol`. */
  datatype Symbol = Symbol(name: nat, info: nat, other: nat, shndx: nat, value: nat, size: nat)

  /** A record as `calloc` leaves it. */
  const ZeroSymbol: Symbol := Symbol(0, 0, 0, 0, 0, 0)

  /** The symbol-table vector: records in use are the first `size / 24`. */
  class SymbolTable {
    const data: array<Symbol>
    var size: nat

    /** The size is a whole number of records within the capacity, and
        every record past the size is still zero. */
    ghost predicate Valid()
      reads this, data
    {
      data.Length == MaxSymbols && size % SymbolSize == 0 && size <= TableCapacity
      && forall k :: size / SymbolSize <= k < MaxSymbols ==> data[k] == ZeroSymbol
    }

    /** The number of records in use. */
    function Count(): nat
      reads this
    {
      size / SymbolSize
    }

    /** The records in use, one per 24 bytes of the size. */
    ghost function Contents(): (c: seq<Symbol>)
      reads this, data
      requires Valid()
      ensures |c| * SymbolSize == size
    {
      data[..Count()]
    }

    /** `symtab_create_empty`: no records, all bytes zero. */
    constructor ()
      ensures Valid() && fresh(data) && size == 0 && Contents() == []
    {
      data := new Symbol[MaxSymbols](_ => ZeroSymbol);
      size := 0;
    }

    /** `symtab_next`: fatal when another record does not fit; otherwise
        the index of a fresh record, which is all zeros, and the size grows
        by one record. */
    method Next() returns (ok: bool, index: nat)
      requires Valid()
      modifies this
      ensures Valid()
      ensures ok <==> old(size) + SymbolSize <= TableCapacity
      ensures ok ==> index == old(Count()) && size == old(size) + SymbolSize
      ensures ok ==> Contents() == old(Contents()) + [ZeroSymbol]
      ensures !ok ==> size == old(size)
    {
      if size + SymbolSize > TableCapacity {
        return false, 0;
      }
      index := size / SymbolSize;
      size := size + SymbolSize;
      assert size / SymbolSize == index + 1;
      assert Contents() == old(Contents()) + [data[index]];
      ok := true;
    }

    /** The writes through the pointer `symtab_next` returned: replaces the
        record at `index`. */
    method Write(index: nat, symbol: Symbol)
      requires Valid() && index < Count()
      modifies data
      ensures Valid()
      ensures Contents() == old(Contents())[index := symbol]
    {
      data[index] := symbol;
    }
  }

  /** The name stored at `index` of a string table: the bytes up to the
      next NUL. */
  function NameAt(table: seq<byte>, index: nat): (name: seq<byte>)
    requires index < |table| && exists k :: index <= k < |table| && table[k] == 0
    ensures index + |name| < |table| && table[index + |name|] == 0
    ensures name == table[index..index + |name|]
    ensures forall k :: 0 <= k < |name| ==> name[k] != 0
  {
    assert exists k :: 0 <= k < |table[index..]| && table[index..][k] == 0 by {
      var k :| index <= k < |table| && table[k] == 0;
      assert table[index..][k - index] == 0;
    }
    var n := Compile.Strlen(table[index..]);
    assert table[index..][..n] == table[index..index + n];
    table[index..index + n]
  }

  /** A name without NUL bytes appended after a table reads back from the
      index the append returned. */
  lemma NameAtAppended(table: seq<byte>, name: seq<byte>)
    requires forall k :: 0 <= k < |name| ==> name[k] != 0
    ensures (table + name + [0])[|table| + |name|] == 0
    ensures NameAt(table + name + [0], |table|) == name
  {
    var t := table + name + [0];
    assert forall k :: 0 <= k < |name| ==> t[|table| + k] == name[k];
    assert t[|table| + |name|] == 0;
    var r := NameAt(t, |table|);
    assert |r| == |name|;
    assert r == t[|table|..|table| + |name|] == name;
  }

  /** A string-table vector: the bytes in use are the first `size`. */
  class StringTable {
    const data: array<byte>
    var size: nat

    /** Byte 0 is the empty name, the size is within the capacity, and
        every byte past the size is still zero. */
    ghost predicate Valid()
      reads this, data
    {
      data.Length == TableCapacity && 1 <= size <= TableCapacity && data[0] == 0
      && forall k :: size <= k < TableCapacity ==> data[k] == 0
    }

    ghost function Contents(): seq<byte>
      reads this, data
      requires Valid()
    {
      data[..size]
    }

    /** `strtab_create_empty`: the single NUL of the empty name at index
        0, all other bytes zero. */
    constructor ()
      ensures Valid() && fresh(data) && size == 1 && Contents() == [0]
    {
      data := new byte[TableCapacity](_ => 0);
      size := 1;
    }

    /** `strtab_add_from_c_str`: copies the C string with its terminator;
        fatal when it does not fit, otherwise it starts at the old size. */
    method AddCStr(c: seq<byte>) returns (ok: bool, index: nat)
      requires Valid()
      requires exists k :: 0 <= k < |c| && c[k] == 0
      modifies this, data
      ensures Valid()
      ensures ok <==> old(size) + Compile.Strlen(c) + 1 <= TableCapacity
      ensures ok ==> index == old(size) && size == old(size) + Compile.Strlen(c) + 1
      ensures ok ==> Contents() == old(Contents()) + c[..Compile.Strlen(c) + 1]
      ensures !ok ==> size == old(size) && Contents() == old(Contents())
    {
      var len := Compile.Strlen(c) + 1;
      if size + len > TableCapacity {
        return false, 0;
      }
      index := size;
      forall k | 0 <= k < len {
        data[index + k] := c[k];
      }
      size := size + len;
      assert Contents() == old(Contents()) + c[..len];
      ok := true;
    }

    /** `strtab_add_from_str`: copies only the string's bytes and counts
        one more, whose NUL is the zero byte already past the old size;
        fatal when it does not fit. */
    method AddStr(s: seq<byte>) returns (ok: bool, index: nat)
      requires Valid()
      modifies this, data
      ensures Valid()
      ensures ok <==> old(size) + |s| + 1 <= TableCapacity
      ensures ok ==> index == old(size) && size == old(size) + |s| + 1
      ensures ok ==> Contents() == old(Contents()) + s + [0]
      ensures !ok ==> size == old(size) && Contents() == old(Contents())
    {
      var len := |s| + 1;
      if size + len > TableCapacity {
        return false, 0;
      }
      index := size;
      forall k | 0 <= k < |s| {
        data[index + k] := s[k];
      }
      size := size + len;
      assert Contents() == old(Contents()) + s + [0];
      ok := true;
    }
  }
}
