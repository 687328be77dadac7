/** The executable being built (`struct elf_file`, elf.c): the ELF header,
    two program headers, seven section headers, the symbol and string
    tables, and the function and object tables that `elf_file_finalize`
    lays out in memory and in the file. */
module Elf {
  import opened Common
  import opened StrTables
  import opened ElfTables
  import opened ElfLayout
  import Compile

  // Section indices.
  const NullSection: nat := 0
  const TextSection: nat := 1
  const DataSection: nat := 2
  const BssSection: nat := 3
  const SymtabSection: nat := 4
  const StrtabSection: nat := 5
  const ShstrtabSection: nat := 6

  const EV_CURRENT: nat := 1
  const EM_RISCV: nat := 243
  const ET_EXEC: nat := 2
  const PT_LOAD: nat := 1
  const PF_X: nat := 1
  const PF_W: nat := 2
  const PF_R: nat := 4
  const SHT_PROGBITS: nat := 1
  const SHT_SYMTAB: nat := 2
  const SHT_STRTAB: nat := 3
  const SHT_NOBITS: nat := 8
  const SHF_WRITE: nat := 1
  const SHF_ALLOC: nat := 2
  const SHF_EXECINSTR: nat := 4
  const SHN_UNDEF: nat := 0

  /** The symbol records of the three sections, made by
      `elf_create_empty` right after the null record. */
  const TextSymbol: nat := 1
  const DataSymbol: nat := 2
  const BssSymbol: nat := 3
  /** The records every symbol table starts with. */
  const SectionSymbols: nat := 4

  /** The section names, as ASCII bytes. */
  const TextName: seq<byte> := [0x2E, 0x74, 0x65, 0x78, 0x74]                      // ".text"
  const DataName: seq<byte> := [0x2E, 0x64, 0x61, 0x74, 0x61]                      // ".data"
  const BssName: seq<byte> := [0x2E, 0x62, 0x73, 0x73]                             // ".bss"
  const SymtabName: seq<byte> := [0x2E, 0x73, 0x79, 0x6D, 0x74, 0x61, 0x62]        // ".symtab"
  const StrtabName: seq<byte> := [0x2E, 0x73, 0x74, 0x72, 0x74, 0x61, 0x62]        // ".strtab"
  const ShstrtabName: seq<byte> := [0x2E, 0x73, 0x68, 0x73, 0x74, 0x72, 0x74, 0x61, 0x62]  // ".shstrtab"

  /** A name with no NUL byte in it. */
  ghost predicate NoNul(name: seq<byte>)
  {
    forall k :: 0 <= k < |name| ==> name[k] != 0
  }

  /** `struct elf_header`. */
  datatype ElfHeader = ElfHeader(
    magic: seq<byte>, bitness: nat, endianness: nat, version: nat, osAbi: nat, osAbiVersion: nat,
    kind: nat, machine: nat, elfVersion: nat, entry: nat,
    programHeaderOffset: nat, sectionHeaderOffset: nat, flags: nat, headerSize: nat,
    programHeaderEntrySize: nat, programHeaderNumEntries: nat,
    sectionHeaderEntrySize: nat, sectionHeaderNumEntries: nat, sectionHeaderStringIndex: nat)

  /** `struct elf_program_header`. */
  datatype ProgramHeader = ProgramHeader(
    kind: nat, flags: nat, offset: nat, virtualAddress: nat, physicalAddress: nat,
    fileSize: nat, memorySize: nat, alignment: nat)

  /** `struct elf_section_header`. */
  datatype SectionHeader = SectionHeader(
    name: nat, kind: nat, flags: nat, address: nat, offset: nat, size: nat,
    link: nat, info: nat, addralign: nat, entsize: nat)

  const ZeroProgramHeader: ProgramHeader := ProgramHeader(0, 0, 0, 0, 0, 0, 0, 0)
  const ZeroSectionHeader: SectionHeader := SectionHeader(0, 0, 0, 0, 0, 0, 0, 0, 0, 0)

  /** The header `elf_create_empty` fills in: a 64-bit little-endian
      RISC-V executable, entry and counts still zero. */
  const InitialHeader: ElfHeader := ElfHeader(
    [0x7F, 0x45, 0x4C, 0x46], 2, 1, EV_CURRENT, 0, 0,
    ET_EXEC, EM_RISCV, 1, 0,
    0, 0, 0, HeaderSize,
    ProgramHeaderSize, 0,
    SectionHeaderSize, 0, 0)

  /** The section headers after `elf_create_empty`: names at their
      offsets in `.shstrtab`, kinds, flags, links and alignments; the
      addresses, sizes, offsets and the symbol table's `info` are set by
      finalization. */
  const InitialSectionHeaders: seq<SectionHeader> := [
    ZeroSectionHeader,
    SectionHeader(1, SHT_PROGBITS, SHF_ALLOC + SHF_EXECINSTR, 0, 0, 0, 0, 0, 2, 0),
    SectionHeader(7, SHT_PROGBITS, SHF_ALLOC + SHF_WRITE, 0, 0, 0, 0, 0, 8, 0),
    SectionHeader(13, SHT_NOBITS, SHF_ALLOC + SHF_WRITE, 0, 0, 0, 0, 0, 8, 0),
    SectionHeader(18, SHT_SYMTAB, 0, 0, 0, 0, StrtabSection, 0, 8, SymbolSize),
    SectionHeader(26, SHT_STRTAB, 0, 0, 0, 0, 0, 0, 1, 0),
    SectionHeader(34, SHT_STRTAB, 0, 0, 0, 0, 0, 0, 1, 0)]

  /** What finalization knows when it fills in the section headers. */
  datatype Layout = Layout(codeStart: nat, codeSize: nat, dataStart: nat, dataSize: nat, bssSize: nat,
                           symtabSize: nat, symtabInfo: nat, strtabSize: nat, shstrtabSize: nat)

  /** The section headers after finalization: `.text` at the code start
      and of the code's size, `.data` and `.bss` both at the data start,
      the three tables of their sizes, the symbol table's `info`, and
      every offset from `FileOffsets`; nothing else changes. */
  function LaidOut(hs: seq<SectionHeader>, l: Layout): (r: seq<SectionHeader>)
    requires |hs| == NumSections
    ensures |r| == NumSections && r[NullSection] == hs[NullSection]
    ensures forall k :: 0 <= k < NumSections ==>
      r[k].name == hs[k].name && r[k].kind == hs[k].kind && r[k].flags == hs[k].flags && r[k].link == hs[k].link
  {
    var f := FileOffsets(l.codeSize, l.symtabSize, l.strtabSize, l.shstrtabSize);
    hs[TextSection := hs[TextSection].(address := l.codeStart, size := l.codeSize, offset := f.text)]
      [DataSection := hs[DataSection].(address := l.dataStart, size := l.dataSize, offset := f.data)]
      [BssSection := hs[BssSection].(address := l.dataStart, size := l.bssSize, offset := f.bss)]
      [SymtabSection := hs[SymtabSection].(size := l.symtabSize, info := l.symtabInfo, offset := f.symtab)]
      [StrtabSection := hs[StrtabSection].(size := l.strtabSize, offset := f.strtab)]
      [ShstrtabSection := hs[ShstrtabSection].(size := l.shstrtabSize, offset := f.shstrtab)]
  }

  /** The ELF header after finalization: the entry point, two program
      headers right after the ELF header, seven section headers after the
      tables, and the section-name table's index. */
  function FinalHeader(h: ElfHeader, entry: nat, f: Offsets): ElfHeader
  {
    h.(entry := entry, programHeaderNumEntries := 2, sectionHeaderNumEntries := NumSections,
       sectionHeaderStringIndex := ShstrtabSection,
       programHeaderOffset := f.programHeaders, sectionHeaderOffset := f.sectionHeaders)
  }

  /** The code segment's header after finalization: as large as the code,
      in the file and in memory, at the code's offset. */
  function FinalCodeSegment(p: ProgramHeader, codeSize: nat, f: Offsets): ProgramHeader
  {
    p.(fileSize := codeSize, memorySize := codeSize, offset := f.text)
  }

  /** The data segment's header after finalization: a readable, writable,
      page-aligned load segment at the data start, holding the data in the
      file and the data and `.bss` in memory, at the data's offset. */
  function FinalDataSegment(p: ProgramHeader, dataStart: nat, dataSize: nat, bssSize: nat, f: Offsets): ProgramHeader
  {
    p.(kind := PT_LOAD, flags := PF_R + PF_W, virtualAddress := dataStart, physicalAddress := dataStart,
       fileSize := dataSize, memorySize := dataSize + bssSize, alignment := PageSize, offset := f.data)
  }

  /** The symbols with the `.text`, `.data` and `.bss` records valued at
      where their sections start. */
  function WithSectionValues(syms: seq<Symbol>, codeStart: nat, dataStart: nat, bssStart: nat): seq<Symbol>
    requires SectionSymbols <= |syms|
  {
    syms[TextSymbol := syms[TextSymbol].(value := codeStart)]
        [DataSymbol := syms[DataSymbol].(value := dataStart)]
        [BssSymbol := syms[BssSymbol].(value := bssStart)]
  }

  /** `after` is `before` with at most the values of the records from
      `from` on changed. */
  ghost predicate ValuesFrom(before: seq<Symbol>, after: seq<Symbol>, from: nat)
  {
    |before| == |after|
    && forall k :: 0 <= k < |after| ==> after[k] == if k < from then before[k] else before[k].(value := after[k].value)
  }

  /** The record of a section's own symbol. */
  function SectionSymbol(name: nat, section: nat): Symbol
  {
    Symbol(name, StInfo(STB_LOCAL, STT_SECTION), STV_DEFAULT, section, 0, 0)
  }

  /** The four records `elf_create_empty` puts in the symbol table: null,
      then `.text`, `.data` and `.bss`, named at their offsets in
      `.strtab`. */
  const InitialSymbols: seq<Symbol> := [
    Symbol(0, StInfo(STB_LOCAL, STT_NOTYPE), STV_DEFAULT, SHN_UNDEF, 0, 0),
    SectionSymbol(1, TextSection), SectionSymbol(7, DataSection), SectionSymbol(13, BssSection)]

  /** The record of a function's symbol: local, in `.text`, of the
      function's size, valued at its address. */
  function FunctionSymbol(name: nat, size: nat, address: nat): Symbol
  {
    Symbol(name, StInfo(STB_LOCAL, STT_FUNC), STV_DEFAULT, TextSection, address, size)
  }

  /** Every function of the table owns a symbol record past the four
      section records, no two functions share one, and the record holds
      the function's size and, as its value, the function's address. */
  ghost predicate FunctionsAgree(fs: seq<Option<Entry<FunctionEntry>>>, syms: seq<Symbol>)
  {
    (forall s :: 0 <= s < |fs| && fs[s].Some? ==>
       SectionSymbols <= fs[s].value.val.symbol < |syms|
       && syms[fs[s].value.val.symbol]
          == FunctionSymbol(syms[fs[s].value.val.symbol].name, |fs[s].value.val.instructions|, fs[s].value.val.address))
    && (forall s, t :: 0 <= s < t < |fs| && fs[s].Some? && fs[t].Some? ==>
          fs[s].value.val.symbol != fs[t].value.val.symbol)
  }

  /** Every symbol is local, so the symbol table's `info`, one past the
      last local symbol, is its length. */
  ghost predicate AllLocal(syms: seq<Symbol>)
  {
    forall k :: 0 <= k < |syms| ==> StBind(syms[k].info) == STB_LOCAL
  }

  /** Every object lies inside `.bss`, and no two objects overlap. */
  ghost predicate ObjectsInBss(objects: seq<Option<Entry<ObjectEntry>>>, bssSize: nat)
  {
    (forall s :: 0 <= s < |objects| && objects[s].Some? ==>
       objects[s].value.val.offset + objects[s].value.val.size <= bssSize)
    && (forall s, t :: 0 <= s < |objects| && 0 <= t < |objects| && s != t && objects[s].Some? && objects[t].Some? ==>
          objects[s].value.val.offset + objects[s].value.val.size <= objects[t].value.val.offset
          || objects[t].value.val.offset + objects[t].value.val.size <= objects[s].value.val.offset)
  }

  /** The fields of `struct elf_file` that are values. */
  datatype ElfState = ElfState(
    setEntry: bool, setCodeStart: bool, entry: seq<byte>,
    codeStart: nat, codeSize: nat, dataStart: nat, dataSize: nat, bssStart: nat, bssSize: nat,
    addresses: seq<AddressTuple>, header: ElfHeader,
    codeProgramHeader: ProgramHeader, objectProgramHeader: ProgramHeader)

  class ElfFile {
    var setEntry: bool
    var setCodeStart: bool
    /** The name of the entry function. */
    var entry: seq<byte>
    var codeStart: nat
    var codeSize: nat
    var dataStart: nat
    var dataSize: nat
    var bssStart: nat
    var bssSize: nat
    const functionTable: StrTable<FunctionEntry>
    const objectTable: StrTable<ObjectEntry>
    var addresses: seq<AddressTuple>
    var header: ElfHeader
    const symtab: SymbolTable
    const strtab: StringTable
    const shstrtab: StringTable
    var codeProgramHeader: ProgramHeader
    var objectProgramHeader: ProgramHeader
    const sectionHeaders: array<SectionHeader>

    ghost function State(): ElfState
      reads this
    {
      ElfState(setEntry, setCodeStart, entry, codeStart, codeSize, dataStart, dataSize, bssStart, bssSize,
               addresses, header, codeProgramHeader, objectProgramHeader)
    }

    /** The symbol table is well formed, starts with the four section
        records, and all its symbols are local. */
    ghost predicate SymtabOk()
      reads symtab, symtab.data
    {
      symtab.Valid() && SectionSymbols <= symtab.Count() && AllLocal(symtab.Contents())
    }

    /** The two string tables are well formed and separate. */
    ghost predicate StringsOk()
      reads strtab, strtab.data, shstrtab, shstrtab.data
    {
      strtab.Valid() && shstrtab.Valid() && strtab != shstrtab && strtab.data != shstrtab.data
    }

    /** The function table is well formed and agrees with the symbols. */
    ghost predicate FunctionsOk()
      reads functionTable, functionTable.slots, symtab, symtab.data
    {
      functionTable.Valid() && symtab.Valid() && FunctionsAgree(functionTable.slots[..], symtab.Contents())
    }

    /** The object table is well formed. */
    ghost predicate ObjectsOk()
      reads objectTable, objectTable.slots
    {
      objectTable.Valid()
    }

    /** The tables are well formed and separate, with the four section
        records; the functions agree with their symbols; every symbol is
        local. None of this depends on the scalar fields. */
    ghost predicate Valid()
      reads symtab, symtab.data, strtab, strtab.data, shstrtab, shstrtab.data,
        functionTable, functionTable.slots, objectTable, objectTable.slots
    {
      SymtabOk() && StringsOk() && FunctionsOk() && ObjectsOk() && sectionHeaders.Length == NumSections
    }

    /** Before finalization the objects tile `.bss` without overlap, and
        the symbol table holds the four section records and one record per
        function. */
    ghost predicate Building()
      reads this, symtab, symtab.data, strtab, strtab.data, shstrtab, shstrtab.data,
        functionTable, functionTable.slots, objectTable, objectTable.slots
    {
      Valid() && ObjectsInBss(objectTable.slots[..], bssSize) && symtab.Count() == SectionSymbols + functionTable.entriesSize
    }

    /** How finalization ends once the code is placed, from the state `s0`,
        the symbols `syms0` and the strings `strings0` it started from: the
        code start and the data size are those of `s0`, the data start at
        the first page boundary from the end of the code, `.bss` right after
        the data; and it fails exactly when the object loop, the entry
        point or the final check does, with the first one's message. */
    ghost predicate FinishOutcome(s0: ElfState, syms0: seq<Symbol>, strings0: seq<byte>, o: Outcome)
      reads this, functionTable, functionTable.slots, objectTable, objectTable.slots
    {
      && codeStart == s0.codeStart && dataSize == s0.dataSize
      && dataStart == DataStart(codeStart + codeSize) && bssStart == dataStart + dataSize
      && functionTable.slots.Length == EntriesCapacity
      && ObjectsOutcome(AddObjectsFrom(Tables(syms0, strings0), objectTable.slots[..], bssStart, 0),
                        EntryAddress(functionTable.slots[..], s0.entry), AllPlaced(functionTable.slots[..]), o)
    }

    /** How finalization ends once the code start and the entry are set,
        from the state `s0`, the function slots `slots0`, the symbols
        `syms0` and the strings `strings0` it started from: fatal as
        explicit placement says; otherwise the functions and the code size
        are those of explicit then automatic placement, and the rest ends
        as `FinishOutcome` says. */
    ghost predicate FinalizeOutcome(s0: ElfState, slots0: seq<Option<Entry<FunctionEntry>>>, syms0: seq<Symbol>,
                                    strings0: seq<byte>, o: Outcome)
      requires |slots0| == EntriesCapacity
      reads this, functionTable, functionTable.slots, objectTable, objectTable.slots
    {
      var p := PlaceExplicit(Placement(slots0, s0.codeSize), s0.codeStart, s0.addresses);
      if p.Fatal? then o == Fail(p.message)
      else
        var q := PlaceAuto(p.value, s0.codeStart);
        && functionTable.slots[..] == q.functions && codeSize == q.codeSize
        && FinishOutcome(s0, syms0, strings0, o)
    }

    /** The file after a successful finalization from the state `s0`, the
        symbols `syms0`, the strings `strings0` and the section headers
        `hs0` it started from: the tables are well formed, and the state,
        the tables and the section headers are as `FinalStateFrom`,
        `FinalTablesFrom` and `FinalSectionsFrom` say. */
    ghost predicate FinalizedFrom(s0: ElfState, syms0: seq<Symbol>, strings0: seq<byte>, hs0: seq<SectionHeader>)
      requires |hs0| == NumSections
      reads this, symtab, symtab.data, strtab, strtab.data, shstrtab, shstrtab.data,
        functionTable, functionTable.slots, objectTable, objectTable.slots, sectionHeaders
    {
      Valid() && FinalStateFrom(s0) && FinalTablesFrom(syms0, strings0) && FinalSectionsFrom(hs0)
    }

    /** The header's entry is the entry function's address, and only the
        code size, the data and `.bss` starts, the header and the two
        program headers differ from `s0`, as `FinalHeader`,
        `FinalCodeSegment` and `FinalDataSegment` say. */
    ghost predicate FinalStateFrom(s0: ElfState)
      reads this, symtab, strtab, shstrtab, functionTable, functionTable.slots
    {
      var f := FileOffsets(codeSize, symtab.size, strtab.size, shstrtab.size);
      && functionTable.slots.Length == EntriesCapacity
      && EntryAddress(functionTable.slots[..], entry) == Ok(header.entry)
      && State() == s0.(codeSize := codeSize, dataStart := dataStart, bssStart := bssStart,
                        header := FinalHeader(s0.header, header.entry, f),
                        codeProgramHeader := FinalCodeSegment(s0.codeProgramHeader, codeSize, f),
                        objectProgramHeader := FinalDataSegment(s0.objectProgramHeader, dataStart, dataSize, bssSize, f))
    }

    /** The strings are those the object loop gives from `syms0` and
        `strings0`, and the symbols too, except that the section records
        are valued at their sections' starts and the function records at
        the functions' addresses. */
    ghost predicate FinalTablesFrom(syms0: seq<Symbol>, strings0: seq<byte>)
      requires Valid()
      reads this, symtab, symtab.data, strtab, strtab.data, shstrtab, shstrtab.data,
        functionTable, functionTable.slots, objectTable, objectTable.slots
    {
      var n := |syms0|;
      var r := AddObjectsFrom(Tables(syms0, strings0), objectTable.slots[..], bssStart, 0);
      && SectionSymbols <= n && r.Ok? && symtab.Count() == n + objectTable.entriesSize
      && strtab.Contents() == r.value.strings && |symtab.Contents()| == |r.value.symbols|
      && n <= |symtab.Contents()| && symtab.Contents()[n..] == r.value.symbols[n..]
      && ValuesFrom(WithSectionValues(syms0, codeStart, dataStart, bssStart), symtab.Contents()[..n], SectionSymbols)
    }

    /** The section headers are those `LaidOut` gives from `hs0`. */
    ghost predicate FinalSectionsFrom(hs0: seq<SectionHeader>)
      requires |hs0| == NumSections
      reads this, symtab, strtab, shstrtab, sectionHeaders
    {
      forall k :: 0 <= k < NumSections && k < sectionHeaders.Length ==>
        sectionHeaders[k] == LaidOut(hs0, Layout(codeStart, codeSize, dataStart, dataSize, bssSize,
                                                 symtab.size, symtab.Count(), strtab.size, shstrtab.size))[k]
    }

    /** `elf_create_empty`: empty function and object tables; the symbol
        table holds the null record and the records of `.text`, `.data`
        and `.bss`; `.strtab` holds their names and `.shstrtab` the names
        of the six sections; the header and section headers are filled in
        as far as they can be before layout. */
    constructor ()
      ensures Building()
      ensures fresh(functionTable) && fresh(functionTable.slots) && fresh(objectTable) && fresh(objectTable.slots)
      ensures fresh(symtab) && fresh(symtab.data) && fresh(strtab) && fresh(strtab.data)
      ensures fresh(shstrtab) && fresh(shstrtab.data) && fresh(sectionHeaders)
      ensures State() == ElfState(false, false, [], 0, 0, 0, 0, 0, 0, [], InitialHeader, ZeroProgramHeader, ZeroProgramHeader)
      ensures functionTable.entriesSize == 0 && objectTable.entriesSize == 0
      ensures symtab.Contents() == InitialSymbols
      ensures strtab.Contents() == [0] + TextName + [0] + DataName + [0] + BssName + [0]
      ensures shstrtab.Contents() == [0] + TextName + [0] + DataName + [0] + BssName + [0]
                                     + SymtabName + [0] + StrtabName + [0] + ShstrtabName + [0]
      ensures forall k :: 0 <= k < NumSections ==> sectionHeaders[k] == InitialSectionHeaders[k]
    {
      setEntry := false;
      setCodeStart := false;
      entry := [];
      codeStart := 0;
      codeSize := 0;
      dataStart := 0;
      dataSize := 0;
      bssStart := 0;
      bssSize := 0;
      addresses := [];
      header := InitialHeader;
      var symbols, strings := NewSymbolTables();
      var sectionNames, headers := NewSectionNames();
      symtab, strtab, shstrtab, sectionHeaders := symbols, strings, sectionNames, headers;
      codeProgramHeader := ZeroProgramHeader;
      objectProgramHeader := ZeroProgramHeader;
      functionTable := new StrTable<FunctionEntry>();
      objectTable := new StrTable<ObjectEntry>();
      new;
      EmptyTablesAgree(functionTable, objectTable, symtab.Contents());
    }


    /** `elf_file_set_entry`: records the entry function's name. */
    method SetEntry(name: seq<byte>)
      modifies this
      ensures State() == old(State()).(entry := name, setEntry := true)
    {
      entry := name;
      setEntry := true;
    }

    /** `elf_file_set_code_start`: fatal the second time; otherwise the
        code starts at `address`, and the code segment is a readable,
        executable, page-aligned load segment there. */
    method SetCodeStart(address: nat) returns (o: Outcome)
      modifies this
      ensures o.Fail? <==> old(setCodeStart)
      ensures o.Fail? ==> o.message == "code program header already set"
      ensures o.Pass? ==> State() == old(State()).(
        codeStart := address, setCodeStart := true,
        codeProgramHeader := old(codeProgramHeader).(kind := PT_LOAD, flags := PF_R + PF_X,
          virtualAddress := address, physicalAddress := address, alignment := PageSize))
    {
      if setCodeStart {
        return Fail("code program header already set");
      }
      codeStart := address;
      codeProgramHeader := codeProgramHeader.(kind := PT_LOAD, flags := PF_R + PF_X,
        virtualAddress := address, physicalAddress := address, alignment := PageSize);
      setCodeStart := true;
      return Pass;
    }

    /** `elf_file_set_addresses`: records the explicit placements. */
    method SetAddresses(tuples: seq<AddressTuple>)
      modifies this
      ensures State() == old(State()).(addresses := tuples)
    {
      addresses := tuples;
    }

    /** `elf_add_function`: a local function symbol in `.text` of the
        code's size, named by the function's name added to `.strtab`, and
        an unplaced entry in the function table; fatal when either table
        is full or the name's slot is taken. */
    method AddFunction(name: seq<byte>, instructions: seq<byte>) returns (o: Outcome)
      requires Building()
      modifies symtab, symtab.data, strtab, strtab.data, functionTable, functionTable.slots
      ensures o.Pass? <==>
        old(symtab.size) + SymbolSize <= TableCapacity
        && old(strtab.size) + |name| + 1 <= TableCapacity
        && old(functionTable.slots[SlotOf(name)]).None?
      ensures o.Fail? ==>
        o.message == (if old(symtab.size) + SymbolSize > TableCapacity then "symbols out of space"
                      else if old(strtab.size) + |name| + 1 > TableCapacity then "strtab out of space"
                      else "unhandled collision")
      ensures o.Pass? ==> Building()
      ensures o.Pass? ==> symtab.Contents() == old(symtab.Contents()) + [FunctionSymbol(old(strtab.size), |instructions|, 0)]
      ensures o.Pass? ==> strtab.Contents() == old(strtab.Contents()) + name + [0]
      ensures o.Pass? ==>
        functionTable.slots[..] == old(functionTable.slots[..])[SlotOf(name) := Some(Entry(name, FunctionEntry(instructions, old(symtab.Count()), 0)))]
    {
      var index;
      o, index := AddFunctionSymbol(symtab, strtab, name, |instructions|);
      if o.Fail? {
        return;
      }
      var ok;
      ok := functionTable.Insert(name, FunctionEntry(instructions, index, 0));
      if !ok {
        return Fail("unhandled collision");
      }
      AgreeAfterAdding(old(functionTable.slots[..]), old(symtab.Contents()), SlotOf(name),
                       Entry(name, FunctionEntry(instructions, index, 0)), FunctionSymbol(old(strtab.size), |instructions|, 0));
      ObjectsKept();
      return Pass;
    }

    /** Changing only the symbols, `.strtab` and the function table keeps
        `.shstrtab` and the objects as `Building` needs them. */
    twostate lemma ObjectsKept()
      requires old(Building())
      requires unchanged(this, shstrtab, shstrtab.data, objectTable, objectTable.slots)
      ensures shstrtab.Valid() && ObjectsOk() && ObjectsInBss(objectTable.slots[..], bssSize)
    {
    }

    /** `elf_add_uninitialized_data`: the object goes at the current end
        of `.bss`, which grows by its size, and into the object table;
        fatal when the name's slot is taken. */
    method AddUninitializedData(name: seq<byte>, size: nat) returns (o: Outcome, offset: nat)
      requires Building()
      modifies this, objectTable, objectTable.slots
      ensures offset == old(bssSize)
      ensures o.Pass? <==> old(objectTable.slots[SlotOf(name)]).None?
      ensures o.Fail? ==> o.message == "unhandled collision"
      ensures o.Pass? ==> Building()
      ensures o.Pass? ==> State() == old(State()).(bssSize := old(bssSize) + size)
      ensures o.Pass? ==>
        objectTable.slots[..] == old(objectTable.slots[..])[SlotOf(name) := Some(Entry(name, ObjectEntry(size, offset)))]
    {
      offset := ReserveBss(size);
      o := AddObject(objectTable, name, size, offset);
      OtherTablesKept();
    }

    /** Changing only the object table and the scalar fields keeps the
        other tables as `Building` needs them. */
    twostate lemma OtherTablesKept()
      requires old(Valid()) && old(symtab.Count()) == SectionSymbols + old(functionTable.entriesSize)
      requires unchanged(symtab, symtab.data, strtab, strtab.data, shstrtab, shstrtab.data, functionTable, functionTable.slots)
      requires objectTable.Valid()
      ensures Valid()
      ensures symtab.Count() == SectionSymbols + functionTable.entriesSize
    {
    }

    /** The `.bss` half of `elf_add_uninitialized_data`: `size` bytes at
        the current end of `.bss`. */
    method ReserveBss(size: nat) returns (offset: nat)
      modifies this
      ensures offset == old(bssSize)
      ensures State() == old(State()).(bssSize := old(bssSize) + size)
    {
      offset := bssSize;
      bssSize := bssSize + size;
    }

    /** `elf_file_finalize`: fatal unless the code start and then the
        entry were set; then places the code explicitly and automatically,
        places the data after it, adds the object symbols, sets the data
        segment, the entry point and the header's counts and offsets, lays
        out the sections, and checks that every function has an address,
        each step fatal as it says and in that order (`FinalizeOutcome`).
        On success the new state is all of those results together
        (`FinalizedFrom`). */
    method Finalize() returns (o: Outcome)
      requires Building()
      modifies this, symtab, symtab.data, strtab, strtab.data, functionTable.slots, sectionHeaders
      ensures !old(setCodeStart) ==> o == Fail("elf file code start not set")
      ensures old(setCodeStart) && !old(setEntry) ==> o == Fail("elf file entry address not set")
      ensures old(setCodeStart) && old(setEntry) ==>
        FinalizeOutcome(old(State()), old(functionTable.slots[..]), old(symtab.Contents()), old(strtab.Contents()), o)
      ensures o.Pass? ==>
        && old(setCodeStart) && old(setEntry)
        && FinalizedFrom(old(State()), old(symtab.Contents()), old(strtab.Contents()), old(sectionHeaders[..]))
    {
      if !setCodeStart {
        return Fail("elf file code start not set");
      }
      if !setEntry {
        return Fail("elf file entry address not set");
      }
      o := Build();
    }

    /** `elf_file_finalize` once the code start and the entry are known to
        be set: places the code and the data (`Place`), then does the rest
        as `Finish` says. */
    method Build() returns (o: Outcome)
      requires Building()
      modifies this, symtab, symtab.data, strtab, strtab.data, functionTable.slots, sectionHeaders
      ensures FinalizeOutcome(old(State()), old(functionTable.slots[..]), old(symtab.Contents()), old(strtab.Contents()), o)
      ensures o.Pass? ==> FinalizedFrom(old(State()), old(symtab.Contents()), old(strtab.Contents()), old(sectionHeaders[..]))
    {
      ghost var s0, before, strings, hs := State(), symtab.Contents(), strtab.Contents(), sectionHeaders[..];
      o := Place();
      if o.Fail? {
        return;
      }
      o := Finish(s0, before, strings, hs);
    }

    /** What `elf_file_finalize` does once the code and the data are
        placed, in terms of the state `s0`, the symbols `before`, the
        strings `strings0` and the section headers `hs0` before placement;
        the state differs from `s0` in the code size and the data and
        `.bss` starts only, and the symbols from `before` in the values of
        the function records only. */
    method Finish(ghost s0: ElfState, ghost before: seq<Symbol>, ghost strings0: seq<byte>, ghost hs0: seq<SectionHeader>)
      returns (o: Outcome)
      requires Valid() && symtab.Count() == SectionSymbols + functionTable.entriesSize
      requires State() == s0.(codeSize := codeSize, dataStart := dataStart, bssStart := bssStart)
      requires dataStart == DataStart(codeStart + codeSize) && bssStart == dataStart + dataSize
      requires strtab.Contents() == strings0
      requires |hs0| == NumSections && forall k :: 0 <= k < NumSections ==> sectionHeaders[k] == hs0[k]
      requires SectionSymbols <= |before| && ValuesFrom(before, symtab.Contents(), SectionSymbols)
      modifies this, symtab, symtab.data, strtab, strtab.data, sectionHeaders
      ensures codeSize == old(codeSize)
      ensures FinishOutcome(s0, before, strings0, o)
      ensures o.Pass? ==> FinalizedFrom(s0, before, strings0, hs0)
    {
      assert sectionHeaders[..] == hs0;
      ghost var placed := symtab.Contents();
      ghost var objects := objectTable.slots[..];
      assert entry == s0.entry && codeStart == s0.codeStart && dataSize == s0.dataSize;
      ghost var r := AddObjectsFrom(Tables(before, strings0), objects, bssStart, 0);
      ghost var r' := AddObjectsFrom(Tables(placed, strings0), objects, bssStart, 0);
      ObjectsIgnoreRecords(before, placed, strings0, objects, bssStart, 0);
      ghost var b, e := bssStart, EntryAddress(functionTable.slots[..], s0.entry);
      ghost var s1 := State();
      o := Publish();
      assert objectTable.slots[..] == objects && bssStart == b && EntryAddress(functionTable.slots[..], s0.entry) == e;
      assert codeStart == s1.codeStart && codeSize == s1.codeSize && dataStart == s1.dataStart && dataSize == s1.dataSize;
      assert ObjectsOutcome(r', e, AllPlaced(functionTable.slots[..]), o);
      assert ObjectsOutcome(r, e, AllPlaced(functionTable.slots[..]), o);
      if o.Pass? {
        StateFromShift(s0, s1);
        TablesFromObjects(before, placed, strings0);
      }
    }

    /** A finalized state reached from `s1` is also reached from any `s0`
        that differs from `s1` only in what finalization sets. */
    lemma StateFromShift(s0: ElfState, s1: ElfState)
      requires FinalStateFrom(s1)
      requires s1 == s0.(codeSize := s1.codeSize, dataStart := s1.dataStart, bssStart := s1.bssStart)
      ensures FinalStateFrom(s0)
    {
    }

    /** The tables after the object loop and the section layout, from the
        placed symbols `placed`, are as `FinalTablesFrom` says from the
        symbols `before` placement. */
    lemma TablesFromObjects(before: seq<Symbol>, placed: seq<Symbol>, strings0: seq<byte>)
      requires Valid() && SectionSymbols <= |before| && ValuesFrom(before, placed, SectionSymbols)
      requires var r := AddObjectsFrom(Tables(placed, strings0), objectTable.slots[..], bssStart, 0);
        && r.Ok? && SectionSymbols <= |r.value.symbols|
        && symtab.Count() == |placed| + objectTable.entriesSize
        && symtab.Contents() == WithSectionValues(r.value.symbols, codeStart, dataStart, bssStart)
        && strtab.Contents() == r.value.strings
      ensures FinalTablesFrom(before, strings0)
    {
      FinalSymbols(before, placed, strings0, objectTable.slots[..], codeStart, dataStart, bssStart);
    }

    /** What `elf_file_finalize` does once the code and data are placed:
        adds the object symbols, sets the headers, lays out the sections,
        and checks that every function has an address, each step fatal as
        it says and in that order. */
    method Publish() returns (o: Outcome)
      requires Valid() && symtab.Count() == SectionSymbols + functionTable.entriesSize
      modifies this, symtab, symtab.data, strtab, strtab.data, sectionHeaders
      ensures ObjectsOutcome(AddObjectsFrom(Tables(old(symtab.Contents()), old(strtab.Contents())), objectTable.slots[..], old(bssStart), 0),
                             EntryAddress(functionTable.slots[..], old(entry)), AllPlaced(functionTable.slots[..]), o)
      ensures State().(header := old(header), codeProgramHeader := old(codeProgramHeader),
                       objectProgramHeader := old(objectProgramHeader)) == old(State())
      ensures o.Pass? ==> FinalStateFrom(old(State()))
      ensures o.Pass? ==>
        var r := AddObjectsFrom(Tables(old(symtab.Contents()), old(strtab.Contents())), objectTable.slots[..], bssStart, 0);
        && Valid() && r.Ok? && SectionSymbols <= |r.value.symbols|
        && symtab.Count() == old(symtab.Count()) + objectTable.entriesSize
        && symtab.Contents() == WithSectionValues(r.value.symbols, codeStart, dataStart, bssStart)
        && strtab.Contents() == r.value.strings
      ensures o.Pass? ==> FinalSectionsFrom(old(sectionHeaders[..]))
    {
      o := AddObjects();
      if o.Fail? {
        return;
      }
      o := Complete();
    }

    /** What `elf_file_finalize` does once the object symbols are added:
        sets the headers, lays out the sections, and checks that every
        function has an address, each step fatal as it says and in that
        order. */
    method Complete() returns (o: Outcome)
      requires Valid() && symtab.Count() == SectionSymbols + functionTable.entriesSize + objectTable.entriesSize
      modifies this, symtab.data, sectionHeaders
      ensures var e := EntryAddress(functionTable.slots[..], old(entry));
        && (o.Pass? <==> e.Ok? && AllPlaced(functionTable.slots[..]))
        && (o.Fail? ==> o.message == if e.Fatal? then e.message else "function address not set")
      ensures State().(header := old(header), codeProgramHeader := old(codeProgramHeader),
                       objectProgramHeader := old(objectProgramHeader)) == old(State())
      ensures o.Pass? ==> FinalStateFrom(old(State()))
      ensures o.Pass? ==>
        && Valid() && symtab.Count() == old(symtab.Count())
        && symtab.Contents() == WithSectionValues(old(symtab.Contents()), codeStart, dataStart, bssStart)
      ensures o.Pass? ==> FinalSectionsFrom(old(sectionHeaders[..]))
    {
      ghost var syms := symtab.Contents();
      o := SetHeaders();
      if o.Fail? {
        return;
      }
      assert symtab.Contents() == syms;
      o := Conclude();
    }

    /** The end of `elf_file_finalize`: lays out the sections, then checks
        that every function has an address. */
    method Conclude() returns (o: Outcome)
      requires Valid() && symtab.Count() == SectionSymbols + functionTable.entriesSize + objectTable.entriesSize
      modifies symtab.data, sectionHeaders
      ensures o.Pass? <==> AllPlaced(functionTable.slots[..])
      ensures o.Fail? ==> o.message == "function address not set"
      ensures Valid() && symtab.Contents() == WithSectionValues(old(symtab.Contents()), codeStart, dataStart, bssStart)
      ensures FinalSectionsFrom(old(sectionHeaders[..]))
    {
      LayOutSections();
      o := CheckPlaced(functionTable);
    }

    /** The header part of `elf_file_finalize`: the data program header,
        then the entry point, fatal as `EntryAddress` says, then the
        header's counts and offsets and the program headers' sizes and
        offsets. */
    method SetHeaders() returns (o: Outcome)
      requires functionTable.Valid()
      modifies this
      ensures var e := EntryAddress(functionTable.slots[..], old(entry));
        && (o.Pass? <==> e.Ok?)
        && (o.Fail? ==> o.message == e.message)
        && State().(header := old(header), codeProgramHeader := old(codeProgramHeader),
                    objectProgramHeader := old(objectProgramHeader)) == old(State())
      ensures o.Pass? ==> FinalStateFrom(old(State()))
    {
      SetDataProgramHeader();
      o := SetEntryPoint();
      if o.Fail? {
        return;
      }
      LayOutHeaders();
    }

    /** The placement part of `elf_file_finalize`: the explicit addresses,
        then the unplaced functions one after another at the end of the
        code. */
    method PlaceCode() returns (o: Outcome)
      requires Valid()
      modifies this, functionTable.slots, symtab.data
      ensures Valid() && symtab.Count() == old(symtab.Count())
      ensures ValuesFrom(old(symtab.Contents()), symtab.Contents(), SectionSymbols)
      ensures var r := PlaceExplicit(Placement(old(functionTable.slots[..]), old(codeSize)), old(codeStart), old(addresses));
        && (o.Pass? <==> r.Ok?)
        && (o.Fail? ==> o.message == r.message)
        && (o.Pass? ==>
              var q := PlaceAuto(r.value, old(codeStart));
              functionTable.slots[..] == q.functions && State() == old(State()).(codeSize := q.codeSize))
    {
      var size;
      o, size := PlaceFunctions(functionTable, symtab, addresses, codeStart, codeSize);
      PlacingKept();
      if o.Pass? {
        SetCodeSize(size);
      }
    }

    /** The placement part of `elf_file_finalize`: the code as `PlaceCode`
        says, then the data and `.bss` after it. */
    method Place() returns (o: Outcome)
      requires Valid()
      modifies this, functionTable.slots, symtab.data
      ensures Valid() && symtab.Count() == old(symtab.Count())
      ensures ValuesFrom(old(symtab.Contents()), symtab.Contents(), SectionSymbols)
      ensures var r := PlaceExplicit(Placement(old(functionTable.slots[..]), old(codeSize)), old(codeStart), old(addresses));
        && (o.Pass? <==> r.Ok?)
        && (o.Fail? ==> o.message == r.message)
        && (o.Pass? ==>
              var q := PlaceAuto(r.value, old(codeStart));
              var start := DataStart(old(codeStart) + q.codeSize);
              && functionTable.slots[..] == q.functions
              && State() == old(State()).(codeSize := q.codeSize, dataStart := start, bssStart := start + old(dataSize)))
    {
      o := PlaceCode();
      if o.Pass? {
        PlaceData();
      }
    }

    /** The code size once the code is placed. */
    method SetCodeSize(size: nat)
      modifies this
      ensures State() == old(State()).(codeSize := size)
    {
      codeSize := size;
    }

    /** Changing only the function table's slots and the symbol records, in
        agreement, keeps the tables valid. */
    twostate lemma PlacingKept()
      requires old(Valid()) && Placing(functionTable, symtab)
      requires unchanged(symtab, strtab, strtab.data, shstrtab, shstrtab.data, functionTable, objectTable, objectTable.slots)
      ensures Valid() && symtab.Count() == old(symtab.Count())
    {
    }

    /** Once the code size is final: the data starts at the first page
        boundary at or after the end of the code, and `.bss` right after
        the data. */
    method PlaceData()
      requires Valid()
      modifies this
      ensures Valid()
      ensures var start := DataStart(old(codeStart) + old(codeSize));
        State() == old(State()).(dataStart := start, bssStart := start + old(dataSize))
    {
      var start := DataStart(codeStart + codeSize);
      dataStart, bssStart := start, start + dataSize;
    }

    /** The object part of `elf_file_finalize`: the object symbols go after
        the function symbols, as `AddObjectsFrom` says, so the symbol table
        then counts the four section records, the functions and the
        objects. */
    method AddObjects() returns (o: Outcome)
      requires Valid()
      modifies symtab, symtab.data, strtab, strtab.data
      ensures var r := AddObjectsFrom(Tables(old(symtab.Contents()), old(strtab.Contents())), objectTable.slots[..], bssStart, 0);
        && (o.Pass? <==> r.Ok?)
        && (o.Fail? ==> o.message == r.message)
        && (o.Pass? ==> Valid() && Tables(symtab.Contents(), strtab.Contents()) == r.value)
      ensures o.Pass? ==> symtab.Count() == old(symtab.Count()) + objectTable.entriesSize
      ensures o.Pass? ==>
        var order := OccupiedFrom(objectTable.slots[..], 0);
        forall k :: 0 <= k < |order| ==>
          ObjectRecord(Tables(symtab.Contents(), strtab.Contents()), old(symtab.Count()) + k,
                       objectTable.slots[order[k]].value, bssStart, old(strtab.size))
    {
      ghost var t := Tables(symtab.Contents(), strtab.Contents());
      o := AddObjectSymbols(objectTable, symtab, strtab, bssStart);
      if o.Pass? {
        ObjectsAppended(t, objectTable, bssStart);
        AgreeAfterAppending(functionTable.slots[..], t.symbols, symtab.Contents());
        SymbolsKept();
      }
    }

    /** Changing only the symbols and `.strtab`, keeping the symbols local
        and in agreement with the functions, keeps the tables valid. */
    twostate lemma SymbolsKept()
      requires old(Valid())
      requires unchanged(shstrtab, shstrtab.data, functionTable, functionTable.slots, objectTable, objectTable.slots)
      requires symtab.Valid() && strtab.Valid() && old(symtab.Count()) <= symtab.Count()
      requires AllLocal(symtab.Contents()) && FunctionsAgree(functionTable.slots[..], symtab.Contents())
      ensures Valid()
    {
    }

    /** The data segment's program header: a readable, writable,
        page-aligned load segment at the data start, holding the data in
        the file and the data and `.bss` in memory. */
    method SetDataProgramHeader()
      modifies this
      ensures State() == old(State()).(objectProgramHeader := old(objectProgramHeader).(
        kind := PT_LOAD, flags := PF_R + PF_W, virtualAddress := old(dataStart), physicalAddress := old(dataStart),
        fileSize := old(dataSize), memorySize := old(dataSize) + old(bssSize), alignment := PageSize))
    {
      objectProgramHeader := objectProgramHeader.(
        kind := PT_LOAD, flags := PF_R + PF_W, virtualAddress := dataStart, physicalAddress := dataStart,
        fileSize := dataSize, memorySize := dataSize + bssSize, alignment := PageSize);
    }

    /** The entry point is the entry function's address; fatal as
        `EntryAddress` says. */
    method SetEntryPoint() returns (o: Outcome)
      requires functionTable.Valid()
      modifies this
      ensures var r := EntryAddress(functionTable.slots[..], old(entry));
        && (o.Pass? <==> r.Ok?)
        && (o.Fail? ==> o.message == r.message)
        && State() == (if o.Pass? then old(State()).(header := old(header).(entry := r.value)) else old(State()))
    {
      var address;
      o, address := ResolveEntry(functionTable, entry);
      if o.Pass? {
        header := header.(entry := address);
      }
    }

    /** The header's counts and offsets and the program headers' sizes
        and offsets: two program headers right after the ELF header, the
        code segment as large as the code and at the code's offset, the
        data segment at the data's offset, seven section headers after the
        tables, and the section-name table's index. */
    method LayOutHeaders()
      modifies this
      ensures var f := FileOffsets(old(codeSize), symtab.size, strtab.size, shstrtab.size);
        State() == old(State()).(
          header := old(header).(programHeaderNumEntries := 2, sectionHeaderNumEntries := NumSections,
                                 sectionHeaderStringIndex := ShstrtabSection,
                                 programHeaderOffset := f.programHeaders, sectionHeaderOffset := f.sectionHeaders),
          codeProgramHeader := old(codeProgramHeader).(fileSize := old(codeSize), memorySize := old(codeSize), offset := f.text),
          objectProgramHeader := old(objectProgramHeader).(offset := f.data))
    {
      var f := FileOffsets(codeSize, symtab.size, strtab.size, shstrtab.size);
      codeProgramHeader := codeProgramHeader.(fileSize := codeSize, memorySize := codeSize, offset := f.text);
      header := header.(programHeaderNumEntries := 2, sectionHeaderNumEntries := NumSections,
                        sectionHeaderStringIndex := ShstrtabSection,
                        programHeaderOffset := f.programHeaders, sectionHeaderOffset := f.sectionHeaders);
      objectProgramHeader := objectProgramHeader.(offset := f.data);
    }

    /** The section headers, as `LaidOut` says, with the symbol table's
        `info` one past the four section records, the functions and the
        objects, which is the number of records; and the values of the
        three section symbols: where each section starts. */
    method LayOutSections()
      requires Valid()
      requires symtab.Count() == SectionSymbols + functionTable.entriesSize + objectTable.entriesSize
      modifies symtab.data, sectionHeaders
      ensures Valid()
      ensures FinalSectionsFrom(old(sectionHeaders[..]))
      ensures sectionHeaders[SymtabSection].info == symtab.Count()
      ensures symtab.Contents() == WithSectionValues(old(symtab.Contents()), codeStart, dataStart, bssStart)
    {
      LayOutSectionHeaders();
      LayOutSectionSymbols();
    }

    /** The section headers half of `LayOutSections`. */
    method LayOutSectionHeaders()
      requires Valid()
      requires symtab.Count() == SectionSymbols + functionTable.entriesSize + objectTable.entriesSize
      modifies sectionHeaders
      ensures var l := Layout(codeStart, codeSize, dataStart, dataSize, bssSize,
                              symtab.size, symtab.Count(), strtab.size, shstrtab.size);
        forall k :: 0 <= k < NumSections ==> sectionHeaders[k] == LaidOut(old(sectionHeaders[..]), l)[k]
      ensures sectionHeaders[SymtabSection].info == symtab.Count()
    {
      var info := SymtabInfo(functionTable, objectTable);
      FillSectionHeaders(sectionHeaders, Layout(codeStart, codeSize, dataStart, dataSize, bssSize,
                                                symtab.size, info, strtab.size, shstrtab.size));
    }

    /** The section symbols half of `LayOutSections`. */
    method LayOutSectionSymbols()
      requires Valid()
      modifies symtab.data
      ensures Valid() && symtab.Count() == old(symtab.Count())
      ensures symtab.Contents() == WithSectionValues(old(symtab.Contents()), codeStart, dataStart, bssStart)
    {
      SectionValuesKeep(functionTable.slots[..], symtab.Contents(), codeStart, dataStart, bssStart);
      SetSectionValues(symtab, codeStart, dataStart, bssStart);
    }
  }

  /** The symbol table and `.strtab` of a new file: the null record and
      the records of `.text`, `.data` and `.bss`, whose names `.strtab`
      holds. */
  method NewSymbolTables() returns (symtab: SymbolTable, strtab: StringTable)
    ensures fresh(symtab) && fresh(symtab.data) && fresh(strtab) && fresh(strtab.data)
    ensures symtab.Valid() && strtab.Valid()
    ensures symtab.Count() == SectionSymbols && AllLocal(symtab.Contents())
    ensures symtab.Contents() == InitialSymbols
    ensures strtab.Contents() == [0] + TextName + [0] + DataName + [0] + BssName + [0]
  {
    symtab := new SymbolTable();
    strtab := new StringTable();
    AddSectionSymbols(symtab, strtab);
    LocalInfos();
  }

  /** `.shstrtab` and the section headers of a new file. */
  method NewSectionNames() returns (shstrtab: StringTable, sectionHeaders: array<SectionHeader>)
    ensures fresh(shstrtab) && fresh(shstrtab.data) && fresh(sectionHeaders)
    ensures shstrtab.Valid() && sectionHeaders.Length == NumSections
    ensures shstrtab.Contents() == [0] + TextName + [0] + DataName + [0] + BssName + [0]
                                   + SymtabName + [0] + StrtabName + [0] + ShstrtabName + [0]
    ensures forall k :: 0 <= k < NumSections ==> sectionHeaders[k] == InitialSectionHeaders[k]
  {
    shstrtab := new StringTable();
    sectionHeaders := new SectionHeader[NumSections](_ => ZeroSectionHeader);
    AddSectionNames(shstrtab, sectionHeaders);
  }

  /** The symbol part of `elf_add_function`: a local function record of
      the given size at address 0, named by the name added to `.strtab`;
      fatal when either table is full. */
  method AddFunctionSymbol(symtab: SymbolTable, strtab: StringTable, name: seq<byte>, size: nat) returns (o: Outcome, index: nat)
    requires symtab.Valid() && strtab.Valid() && AllLocal(symtab.Contents())
    modifies symtab, symtab.data, strtab, strtab.data
    ensures symtab.Valid() && strtab.Valid()
    ensures o.Pass? <==>
      old(symtab.size) + SymbolSize <= TableCapacity && old(strtab.size) + |name| + 1 <= TableCapacity
    ensures o.Fail? ==>
      o.message == (if old(symtab.size) + SymbolSize > TableCapacity then "symbols out of space" else "strtab out of space")
    ensures o.Pass? ==> index == old(symtab.Count()) && symtab.size == old(symtab.size) + SymbolSize
    ensures o.Pass? ==> AllLocal(symtab.Contents())
    ensures o.Pass? ==> symtab.Contents() == old(symtab.Contents()) + [FunctionSymbol(old(strtab.size), size, 0)]
    ensures o.Pass? ==> strtab.Contents() == old(strtab.Contents()) + name + [0]
  {
    var ok;
    ok, index := symtab.Next();
    if !ok {
      return Fail("symbols out of space"), index;
    }
    var nameIndex;
    ok, nameIndex := strtab.AddStr(name);
    if !ok {
      return Fail("strtab out of space"), index;
    }
    symtab.Write(index, FunctionSymbol(nameIndex, size, 0));
    LocalInfos();
    AllLocalAppended(old(symtab.Contents()), FunctionSymbol(nameIndex, size, 0));
    o := Pass;
  }

  /** The four section records and their names in `.strtab`. */
  method AddSectionSymbols(symtab: SymbolTable, strtab: StringTable)
    requires symtab.Valid() && strtab.Valid() && symtab.size == 0 && strtab.size == 1
    modifies symtab, symtab.data, strtab, strtab.data
    ensures symtab.Valid() && strtab.Valid()
    ensures symtab.Contents() == InitialSymbols
    ensures strtab.Contents() == [0] + TextName + [0] + DataName + [0] + BssName + [0]
  {
    AddNullAndTextSymbols(symtab, strtab);
    AddSectionSymbol(symtab, strtab, DataName, DataSection);
    AddSectionSymbol(symtab, strtab, BssName, BssSection);
  }

  /** The null record and the record of `.text`. */
  method AddNullAndTextSymbols(symtab: SymbolTable, strtab: StringTable)
    requires symtab.Valid() && strtab.Valid() && symtab.size == 0 && strtab.size == 1
    modifies symtab, symtab.data, strtab, strtab.data
    ensures symtab.Valid() && strtab.Valid() && symtab.size == 2 * SymbolSize && strtab.size == 7
    ensures symtab.Contents() == InitialSymbols[..2]
    ensures strtab.Contents() == [0] + TextName + [0]
  {
    var ok, index := symtab.Next();
    symtab.Write(index, InitialSymbols[0]);
    AddSectionSymbol(symtab, strtab, TextName, TextSection);
  }

  /** One section record, named by the section's name added to
      `.strtab`. */
  method AddSectionSymbol(symtab: SymbolTable, strtab: StringTable, name: seq<byte>, section: nat)
    requires symtab.Valid() && strtab.Valid()
    requires NoNul(name)
    requires symtab.size + SymbolSize <= TableCapacity && strtab.size + |name| + 1 <= TableCapacity
    modifies symtab, symtab.data, strtab, strtab.data
    ensures symtab.Valid() && strtab.Valid()
    ensures symtab.size == old(symtab.size) + SymbolSize && strtab.size == old(strtab.size) + |name| + 1
    ensures symtab.Contents() == old(symtab.Contents()) + [SectionSymbol(old(strtab.size), section)]
    ensures strtab.Contents() == old(strtab.Contents()) + name + [0]
  {
    var ok, index := symtab.Next();
    NamesAreCStrings(name);
    var nameIndex;
    ok, nameIndex := strtab.AddCStr(name + [0]);
    symtab.Write(index, SectionSymbol(nameIndex, section));
  }

  /** The six section names in `.shstrtab` and the section headers. */
  method AddSectionNames(shstrtab: StringTable, sectionHeaders: array<SectionHeader>)
    requires shstrtab.Valid() && shstrtab.size == 1 && sectionHeaders.Length == NumSections
    requires forall k :: 0 <= k < NumSections ==> sectionHeaders[k] == ZeroSectionHeader
    modifies shstrtab, shstrtab.data, sectionHeaders
    ensures shstrtab.Valid()
    ensures shstrtab.Contents() == [0] + TextName + [0] + DataName + [0] + BssName + [0]
                                   + SymtabName + [0] + StrtabName + [0] + ShstrtabName + [0]
    ensures forall k :: 0 <= k < NumSections ==> sectionHeaders[k] == InitialSectionHeaders[k]
  {
    AddLoadedSectionNames(shstrtab, sectionHeaders);
    AddTableSectionNames(shstrtab, sectionHeaders);
  }

  /** The names and headers of `.text`, `.data` and `.bss`. */
  method AddLoadedSectionNames(shstrtab: StringTable, sectionHeaders: array<SectionHeader>)
    requires shstrtab.Valid() && shstrtab.size == 1 && sectionHeaders.Length == NumSections
    requires forall k :: 0 <= k < NumSections ==> sectionHeaders[k] == ZeroSectionHeader
    modifies shstrtab, shstrtab.data, sectionHeaders
    ensures shstrtab.Valid() && shstrtab.size == 18
    ensures shstrtab.Contents() == old(shstrtab.Contents()) + TextName + [0] + DataName + [0] + BssName + [0]
    ensures forall k :: 0 <= k < SymtabSection ==> sectionHeaders[k] == InitialSectionHeaders[k]
    ensures forall k :: SymtabSection <= k < NumSections ==> sectionHeaders[k] == ZeroSectionHeader
  {
    AddSectionName(shstrtab, sectionHeaders, TextName, TextSection);
    AddSectionName(shstrtab, sectionHeaders, DataName, DataSection);
    AddSectionName(shstrtab, sectionHeaders, BssName, BssSection);
  }

  /** The names and headers of `.symtab`, `.strtab` and `.shstrtab`. */
  method AddTableSectionNames(shstrtab: StringTable, sectionHeaders: array<SectionHeader>)
    requires shstrtab.Valid() && shstrtab.size == 18 && sectionHeaders.Length == NumSections
    modifies shstrtab, shstrtab.data, sectionHeaders
    ensures shstrtab.Valid()
    ensures shstrtab.Contents() == old(shstrtab.Contents()) + SymtabName + [0] + StrtabName + [0] + ShstrtabName + [0]
    ensures forall k :: 0 <= k < SymtabSection ==> sectionHeaders[k] == old(sectionHeaders[k])
    ensures forall k :: SymtabSection <= k < NumSections ==> sectionHeaders[k] == InitialSectionHeaders[k]
  {
    AddSectionName(shstrtab, sectionHeaders, SymtabName, SymtabSection);
    AddSectionName(shstrtab, sectionHeaders, StrtabName, StrtabSection);
    AddSectionName(shstrtab, sectionHeaders, ShstrtabName, ShstrtabSection);
  }

  /** One section's name added to `.shstrtab`, and its header. */
  method AddSectionName(shstrtab: StringTable, sectionHeaders: array<SectionHeader>, name: seq<byte>, section: nat)
    requires shstrtab.Valid() && sectionHeaders.Length == NumSections && 0 < section < NumSections
    requires NoNul(name)
    requires shstrtab.size + |name| + 1 <= TableCapacity
    modifies shstrtab, shstrtab.data, sectionHeaders
    ensures shstrtab.Valid() && shstrtab.size == old(shstrtab.size) + |name| + 1
    ensures shstrtab.Contents() == old(shstrtab.Contents()) + name + [0]
    ensures sectionHeaders[section] == InitialSectionHeaders[section].(name := old(shstrtab.size))
    ensures forall k :: 0 <= k < NumSections && k != section ==> sectionHeaders[k] == old(sectionHeaders[k])
  {
    NamesAreCStrings(name);
    var ok, nameIndex := shstrtab.AddCStr(name + [0]);
    sectionHeaders[section] := InitialSectionHeaders[section].(name := nameIndex);
  }

  /** Section, function, object and null records are all local. */
  lemma LocalInfos()
    ensures StBind(StInfo(STB_LOCAL, STT_NOTYPE)) == STB_LOCAL
    ensures StBind(StInfo(STB_LOCAL, STT_OBJECT)) == STB_LOCAL
    ensures StBind(StInfo(STB_LOCAL, STT_FUNC)) == STB_LOCAL
    ensures StBind(StInfo(STB_LOCAL, STT_SECTION)) == STB_LOCAL
  {
    StInfoRoundTrip(STB_LOCAL, STT_NOTYPE);
    StInfoRoundTrip(STB_LOCAL, STT_OBJECT);
    StInfoRoundTrip(STB_LOCAL, STT_FUNC);
    StInfoRoundTrip(STB_LOCAL, STT_SECTION);
  }

  /** Empty function and object tables agree with any symbols and with
      an empty `.bss`. */
  lemma EmptyTablesAgree(functions: StrTable<FunctionEntry>, objects: StrTable<ObjectEntry>, syms: seq<Symbol>)
    requires functions.Valid() && functions.entriesSize == 0
    requires objects.Valid() && objects.entriesSize == 0
    ensures FunctionsAgree(functions.slots[..], syms) && ObjectsInBss(objects.slots[..], 0)
  {
    assert functions.Occupied() == {} && objects.Occupied() == {};
    forall s | 0 <= s < EntriesCapacity
      ensures functions.slots[s].None? && objects.slots[s].None?
    {
      assert s !in functions.Occupied() && s !in objects.Occupied();
    }
  }

  /** Appending a local record keeps every symbol local. */
  lemma AllLocalAppended(syms: seq<Symbol>, sym: Symbol)
    requires AllLocal(syms) && StBind(sym.info) == STB_LOCAL
    ensures AllLocal(syms + [sym])
  {
    assert forall k :: 0 <= k < |syms| ==> (syms + [sym])[k] == syms[k];
  }

  /** The section names are C strings once terminated. */
  lemma NamesAreCStrings(name: seq<byte>)
    requires NoNul(name)
    ensures exists k :: 0 <= k < |name + [0]| && (name + [0])[k] == 0
    ensures Compile.Strlen(name + [0]) == |name| && (name + [0])[..|name| + 1] == name + [0]
  {
    assert (name + [0])[|name|] == 0;
    Compile.StrToCStrRoundTrip(name);
  }

  /** Adding a function whose record is appended keeps functions and
      symbols in agreement. */
  lemma AgreeAfterAdding(fs: seq<Option<Entry<FunctionEntry>>>, syms: seq<Symbol>, slot: nat, e: Entry<FunctionEntry>, sym: Symbol)
    requires FunctionsAgree(fs, syms) && slot < |fs| && fs[slot].None?
    requires SectionSymbols <= |syms| && e.val.symbol == |syms|
    requires sym == FunctionSymbol(sym.name, |e.val.instructions|, e.val.address)
    ensures FunctionsAgree(fs[slot := Some(e)], syms + [sym])
  {
  }

  /** The object table half of `elf_add_uninitialized_data`: the object
      goes into its name's slot at `offset`, the end of `.bss`. */
  method AddObject(objects: StrTable<ObjectEntry>, name: seq<byte>, size: nat, offset: nat) returns (o: Outcome)
    requires objects.Valid() && ObjectsInBss(objects.slots[..], offset)
    modifies objects, objects.slots
    ensures objects.Valid()
    ensures o.Pass? <==> old(objects.slots[SlotOf(name)]).None?
    ensures o.Fail? ==> o.message == "unhandled collision"
    ensures o.Pass? ==> ObjectsInBss(objects.slots[..], offset + size)
    ensures o.Pass? ==> objects.slots[..] == old(objects.slots[..])[SlotOf(name) := Some(Entry(name, ObjectEntry(size, offset)))]
  {
    var ok := objects.Insert(name, ObjectEntry(size, offset));
    if !ok {
      return Fail("unhandled collision");
    }
    ObjectsInBssAfterAdding(old(objects.slots[..]), offset, SlotOf(name), Entry(name, ObjectEntry(size, offset)));
    o := Pass;
  }

  /** An object placed at the end of `.bss` keeps the objects inside it
      and apart. */
  lemma ObjectsInBssAfterAdding(objects: seq<Option<Entry<ObjectEntry>>>, bssSize: nat, slot: nat, e: Entry<ObjectEntry>)
    requires ObjectsInBss(objects, bssSize) && slot < |objects| && objects[slot].None?
    requires e.val.offset == bssSize
    ensures ObjectsInBss(objects[slot := Some(e)], bssSize + e.val.size)
  {
  }

  /** Placing a function keeps functions and symbols in agreement when
      its symbol record takes the same address as its value. */
  lemma AgreeAfterPlacing(fs: seq<Option<Entry<FunctionEntry>>>, syms: seq<Symbol>, slot: nat, address: nat)
    requires FunctionsAgree(fs, syms) && slot < |fs| && fs[slot].Some?
    ensures fs[slot].value.val.symbol < |syms|
    ensures var k := fs[slot].value.val.symbol;
      FunctionsAgree(WithAddress(fs, slot, address), syms[k := syms[k].(value := address)])
  {
    var k := fs[slot].value.val.symbol;
    var fs' := WithAddress(fs, slot, address);
    var syms' := syms[k := syms[k].(value := address)];
    forall s | 0 <= s < |fs'| && fs'[s].Some?
      ensures SectionSymbols <= fs'[s].value.val.symbol < |syms'|
      ensures syms'[fs'[s].value.val.symbol]
              == FunctionSymbol(syms'[fs'[s].value.val.symbol].name, |fs'[s].value.val.instructions|, fs'[s].value.val.address)
    {
      if s != slot {
        assert fs'[s] == fs[s];
        assert fs[s].value.val.symbol != k by {
          if s < slot {
            assert fs[s].value.val.symbol != fs[slot].value.val.symbol;
          } else {
            assert fs[slot].value.val.symbol != fs[s].value.val.symbol;
          }
        }
      }
    }
  }

  /** Changing a record's value keeps every symbol local. */
  lemma AllLocalSetValue(syms: seq<Symbol>, k: nat, value: nat)
    requires AllLocal(syms) && k < |syms|
    ensures AllLocal(syms[k := syms[k].(value := value)])
  {
    var syms' := syms[k := syms[k].(value := value)];
    assert forall j :: 0 <= j < |syms| ==> syms'[j].info == syms[j].info;
  }

  /** Records appended after the function records, or a section record
      whose value changes, leave functions and symbols in agreement. */
  lemma AgreeAfterAppending(fs: seq<Option<Entry<FunctionEntry>>>, syms: seq<Symbol>, syms': seq<Symbol>)
    requires FunctionsAgree(fs, syms) && syms <= syms'
    ensures FunctionsAgree(fs, syms')
  {
    assert forall j :: 0 <= j < |syms| ==> syms'[j] == syms[j];
  }

  /** What adding the object symbols appends, counted by `entries_size`. */
  lemma ObjectsAppended(t: Tables, objects: StrTable<ObjectEntry>, bssStart: nat)
    requires objects.Valid() && AddObjectsFrom(t, objects.slots[..], bssStart, 0).Ok?
    ensures var r := AddObjectsFrom(t, objects.slots[..], bssStart, 0).value;
      && |r.symbols| == |t.symbols| + objects.entriesSize
      && t.symbols <= r.symbols
      && var order := OccupiedFrom(objects.slots[..], 0);
         forall k :: 0 <= k < |order| ==> ObjectRecord(r, |t.symbols| + k, objects.slots[order[k]].value, bssStart, |t.strings|)
  {
    ObjectTablesGrow(t, objects.slots[..], bssStart, 0);
    ObjectSymbolsAppended(t, objects.slots[..], bssStart, 0);
    OccupiedFromCount(objects.slots[..], 0);
    assert objects.Occupied() == OccupiedSet(objects.slots[..], 0);
  }

  lemma AgreeAfterSectionValue(fs: seq<Option<Entry<FunctionEntry>>>, syms: seq<Symbol>, k: nat, value: nat)
    requires FunctionsAgree(fs, syms) && k < SectionSymbols && k < |syms|
    ensures FunctionsAgree(fs, syms[k := syms[k].(value := value)])
  {
  }

  /** How the end of `elf_file_finalize` fails: exactly when the object
      loop `r`, the entry point `e` or the final check `placed` does, with
      the first failure's message. */
  predicate ObjectsOutcome(r: Result<Tables>, e: Result<nat>, placed: bool, o: Outcome)
  {
    && (o.Pass? <==> r.Ok? && e.Ok? && placed)
    && (o.Fail? ==> o.message == if r.Fatal? then r.message else if e.Fatal? then e.message else "function address not set")
  }

  /** Changing only values, twice, changes only values. */
  lemma ValuesFromTrans(a: seq<Symbol>, b: seq<Symbol>, c: seq<Symbol>, from: nat)
    requires ValuesFrom(a, b, from) && ValuesFrom(b, c, from)
    ensures ValuesFrom(a, c, from)
  {
  }

  /** Finalization's symbols, from the ones before placement: placement
      changes only the values of the function records, the object loop
      appends records that do not depend on those values, and layout sets
      the values of the section records. */
  lemma FinalSymbols(before: seq<Symbol>, placed: seq<Symbol>, strings: seq<byte>,
                     objects: seq<Option<Entry<ObjectEntry>>>, codeStart: nat, dataStart: nat, bssStart: nat)
    requires SectionSymbols <= |before| && ValuesFrom(before, placed, SectionSymbols)
    requires var r := AddObjectsFrom(Tables(placed, strings), objects, bssStart, 0);
      r.Ok? && SectionSymbols <= |r.value.symbols|
    ensures var r := AddObjectsFrom(Tables(before, strings), objects, bssStart, 0);
      var after := WithSectionValues(AddObjectsFrom(Tables(placed, strings), objects, bssStart, 0).value.symbols,
                                     codeStart, dataStart, bssStart);
      && r.Ok? && r.value.strings == AddObjectsFrom(Tables(placed, strings), objects, bssStart, 0).value.strings
      && |after| == |r.value.symbols| && |before| <= |after|
      && after[|before|..] == r.value.symbols[|before|..]
      && ValuesFrom(WithSectionValues(before, codeStart, dataStart, bssStart), after[..|before|], SectionSymbols)
  {
    var t := Tables(placed, strings);
    var r' := AddObjectsFrom(t, objects, bssStart, 0).value;
    ObjectsIgnoreRecords(before, placed, strings, objects, bssStart, 0);
    ObjectTablesGrow(t, objects, bssStart, 0);
    var after := WithSectionValues(r'.symbols, codeStart, dataStart, bssStart);
    assert after[..|before|] == WithSectionValues(placed, codeStart, dataStart, bssStart);
  }

  /** Where an iterator stands: its slot, or the capacity once it is
      done. */
  function Pos(at: Option<nat>): nat
  {
    if at.None? then EntriesCapacity else at.value
  }

  /** The function table and the symbol table are well formed and agree,
      and every symbol is local: what placement keeps. */
  ghost predicate Placing(functions: StrTable<FunctionEntry>, symtab: SymbolTable)
    reads functions, functions.slots, symtab, symtab.data
  {
    functions.Valid() && symtab.Valid()
    && FunctionsAgree(functions.slots[..], symtab.Contents()) && AllLocal(symtab.Contents())
  }

  /** Gives the function in `slot`, and its symbol, an address. */
  method PlaceAt(functions: StrTable<FunctionEntry>, symtab: SymbolTable, slot: nat, address: nat)
    requires Placing(functions, symtab) && slot < EntriesCapacity && functions.slots[slot].Some?
    modifies functions.slots, symtab.data
    ensures Placing(functions, symtab)
    ensures ValuesFrom(old(symtab.Contents()), symtab.Contents(), SectionSymbols)
    ensures functions.slots[..] == WithAddress(old(functions.slots[..]), slot, address)
  {
    var e := functions.slots[slot].value.val;
    ghost var before := functions.slots[..];
    ghost var syms := symtab.Contents();
    AgreeAfterPlacing(before, syms, slot, address);
    AllLocalSetValue(syms, e.symbol, address);
    functions.SetValue(slot, e.(address := address));
    symtab.Write(e.symbol, symtab.data[e.symbol].(value := address));
  }

  /** The first loop of `elf_file_finalize`: each address tuple gives its
      function, and the function's symbol, that address, and the code size
      grows to cover the function; fatal as `PlaceExplicit` says. */
  method PlaceExplicitly(functions: StrTable<FunctionEntry>, symtab: SymbolTable, addresses: seq<AddressTuple>,
                         codeStart: nat, codeSize: nat) returns (o: Outcome, newCodeSize: nat)
    requires Placing(functions, symtab)
    modifies functions.slots, symtab.data
    ensures Placing(functions, symtab)
    ensures ValuesFrom(old(symtab.Contents()), symtab.Contents(), SectionSymbols)
    ensures var r := PlaceExplicit(Placement(old(functions.slots[..]), codeSize), codeStart, addresses);
      && (o.Pass? <==> r.Ok?)
      && (o.Fail? ==> o.message == r.message)
      && (o.Pass? ==> functions.slots[..] == r.value.functions && newCodeSize == r.value.codeSize)
  {
    ghost var spec := PlaceExplicit(Placement(functions.slots[..], codeSize), codeStart, addresses);
    newCodeSize := codeSize;
    o := Pass;
    var i := 0;
    while i < |addresses| && o.Pass?
      invariant i <= |addresses|
      invariant Placing(functions, symtab)
      invariant ValuesFrom(old(symtab.Contents()), symtab.Contents(), SectionSymbols)
      invariant o.Pass? ==> spec == PlaceExplicitFrom(Placement(functions.slots[..], newCodeSize), codeStart, addresses, i)
      invariant o.Fail? ==> spec == Fatal(o.message)
    {
      ghost var syms := symtab.Contents();
      o, newCodeSize := PlaceTuple(functions, symtab, addresses, i, codeStart, newCodeSize);
      ValuesFromTrans(old(symtab.Contents()), syms, symtab.Contents(), SectionSymbols);
      i := i + 1;
    }
  }

  /** One turn of the first loop: tuple `i` gives its function its
      address, and the code size grows to cover the function. */
  method PlaceTuple(functions: StrTable<FunctionEntry>, symtab: SymbolTable, addresses: seq<AddressTuple>, i: nat,
                    codeStart: nat, codeSize: nat) returns (o: Outcome, newCodeSize: nat)
    requires Placing(functions, symtab) && i < |addresses|
    modifies functions.slots, symtab.data
    ensures Placing(functions, symtab)
    ensures ValuesFrom(old(symtab.Contents()), symtab.Contents(), SectionSymbols)
    ensures var r := PlaceExplicitFrom(Placement(old(functions.slots[..]), codeSize), codeStart, addresses, i);
      if o.Pass? then r == PlaceExplicitFrom(Placement(functions.slots[..], newCodeSize), codeStart, addresses, i + 1)
      else r == Fatal(o.message)
  {
    var t := addresses[i];
    var slot := functions.Get(t.name);
    if slot.None? {
      return Fail("address set for unknown function"), codeSize;
    }
    var e := functions.slots[slot.value].value.val;
    ghost var p := Placement(functions.slots[..], codeSize);
    assert CodeEnd(p.functions, t) == t.imm + |e.instructions|;
    PlaceAt(functions, symtab, slot.value, t.imm);
    var codeEnd := t.imm + |e.instructions|;
    if codeEnd <= codeStart {
      return Fail("end of code needs to come after start"), codeSize;
    }
    var needed := codeEnd - codeStart;
    newCodeSize := if needed > codeSize then needed else codeSize;
    ExplicitStep(p, codeStart, addresses, i, newCodeSize);
    o := Pass;
  }

  /** Both placement loops of `elf_file_finalize`. */
  method PlaceFunctions(functions: StrTable<FunctionEntry>, symtab: SymbolTable, addresses: seq<AddressTuple>,
                        codeStart: nat, codeSize: nat) returns (o: Outcome, newCodeSize: nat)
    requires Placing(functions, symtab)
    modifies functions.slots, symtab.data
    ensures Placing(functions, symtab)
    ensures ValuesFrom(old(symtab.Contents()), symtab.Contents(), SectionSymbols)
    ensures var r := PlaceExplicit(Placement(old(functions.slots[..]), codeSize), codeStart, addresses);
      && (o.Pass? <==> r.Ok?)
      && (o.Fail? ==> o.message == r.message)
      && (o.Pass? ==> functions.slots[..] == PlaceAuto(r.value, codeStart).functions
                      && newCodeSize == PlaceAuto(r.value, codeStart).codeSize)
  {
    o, newCodeSize := PlaceExplicitly(functions, symtab, addresses, codeStart, codeSize);
    if o.Pass? {
      ghost var syms := symtab.Contents();
      newCodeSize := PlaceAutomatically(functions, symtab, codeStart, newCodeSize);
      ValuesFromTrans(old(symtab.Contents()), syms, symtab.Contents(), SectionSymbols);
    }
  }

  /** The second loop of `elf_file_finalize`: in slot order, each function
      still without an address, and its symbol, goes at the current end of
      the code, which grows by the function's size; as `PlaceAuto` says. */
  method PlaceAutomatically(functions: StrTable<FunctionEntry>, symtab: SymbolTable, codeStart: nat, codeSize: nat)
    returns (newCodeSize: nat)
    requires Placing(functions, symtab)
    modifies functions.slots, symtab.data
    ensures Placing(functions, symtab)
    ensures ValuesFrom(old(symtab.Contents()), symtab.Contents(), SectionSymbols)
    ensures var q := PlaceAuto(Placement(old(functions.slots[..]), codeSize), codeStart);
      functions.slots[..] == q.functions && newCodeSize == q.codeSize
  {
    ghost var spec := PlaceAuto(Placement(functions.slots[..], codeSize), codeStart);
    newCodeSize := codeSize;
    var at: Option<nat> := functions.Iterator();
    SkippedSlotsAreEmpty(functions.slots[..], 0);
    AutoSkipsEmpty(Placement(functions.slots[..], codeSize), codeStart, 0, Pos(at));
    while at.Some?
      invariant Placing(functions, symtab)
      invariant ValuesFrom(old(symtab.Contents()), symtab.Contents(), SectionSymbols)
      invariant at.Some? ==> at.value < EntriesCapacity && functions.slots[at.value].Some?
      invariant spec == PlaceAutoFrom(Placement(functions.slots[..], newCodeSize), codeStart, Pos(at))
      decreases EntriesCapacity - Pos(at)
    {
      ghost var syms := symtab.Contents();
      at, newCodeSize := AutoStep(functions, symtab, at.value, codeStart, newCodeSize);
      ValuesFromTrans(old(symtab.Contents()), syms, symtab.Contents(), SectionSymbols);
    }
  }

  /** One turn of the second loop, up to the next occupied slot after `s`. */
  method AutoStep(functions: StrTable<FunctionEntry>, symtab: SymbolTable, s: nat, codeStart: nat, codeSize: nat)
    returns (next: Option<nat>, newCodeSize: nat)
    requires Placing(functions, symtab) && s < EntriesCapacity && functions.slots[s].Some?
    modifies functions.slots, symtab.data
    ensures Placing(functions, symtab)
    ensures ValuesFrom(old(symtab.Contents()), symtab.Contents(), SectionSymbols)
    ensures next.Some? ==> next.value < EntriesCapacity && functions.slots[next.value].Some?
    ensures Pos(next) > s
    ensures PlaceAutoFrom(Placement(old(functions.slots[..]), codeSize), codeStart, s)
            == PlaceAutoFrom(Placement(functions.slots[..], newCodeSize), codeStart, Pos(next))
  {
    newCodeSize := PlaceIfUnplaced(functions, symtab, s, codeStart, codeSize);
    next := functions.IteratorNext(s);
    SkippedSlotsAreEmpty(functions.slots[..], s + 1);
    AutoSkipsEmpty(Placement(functions.slots[..], newCodeSize), codeStart, s + 1, Pos(next));
  }

  /** One turn of the second loop: the function in slot `s`, when it has
      no address, goes at the current end of the code. */
  method PlaceIfUnplaced(functions: StrTable<FunctionEntry>, symtab: SymbolTable, s: nat, codeStart: nat, codeSize: nat)
    returns (newCodeSize: nat)
    requires Placing(functions, symtab) && s < EntriesCapacity && functions.slots[s].Some?
    modifies functions.slots, symtab.data
    ensures Placing(functions, symtab) && functions.slots[s].Some?
    ensures ValuesFrom(old(symtab.Contents()), symtab.Contents(), SectionSymbols)
    ensures Placement(functions.slots[..], newCodeSize) == PlaceSlot(Placement(old(functions.slots[..]), codeSize), codeStart, s)
  {
    var e := functions.slots[s].value.val;
    newCodeSize := codeSize;
    if e.address == 0 {
      PlaceAt(functions, symtab, s, codeStart + codeSize);
      newCodeSize := codeSize + |e.instructions|;
    }
  }

  /** The final loop of `elf_file_finalize`: fatal when some function of
      the table still has no address. */
  method CheckPlaced(functions: StrTable<FunctionEntry>) returns (o: Outcome)
    requires functions.Valid()
    ensures o.Pass? <==> AllPlaced(functions.slots[..])
    ensures o.Fail? ==> o.message == "function address not set"
  {
    var at: Option<nat> := functions.Iterator();
    PlacedBelowFirst(functions.slots[..], 0);
    while at.Some?
      invariant at.Some? ==> at.value < EntriesCapacity && functions.slots[at.value].Some?
      invariant PlacedBelow(functions.slots[..], Pos(at))
      decreases EntriesCapacity - Pos(at)
    {
      var s := at.value;
      if functions.slots[s].value.val.address == 0 {
        return Fail("function address not set");
      }
      at := functions.IteratorNext(s);
      PlacedBelowFirst(functions.slots[..], s + 1);
    }
    o := Pass;
  }

  /** Every occupied slot below `n` has an address. */
  ghost predicate PlacedBelow(fs: seq<Option<Entry<FunctionEntry>>>, n: nat)
    requires n <= |fs|
  {
    forall k :: 0 <= k < n && fs[k].Some? ==> fs[k].value.val.address != 0
  }

  /** Skipping from slot `i` to the next occupied slot passes no function. */
  lemma PlacedBelowFirst(fs: seq<Option<Entry<FunctionEntry>>>, i: nat)
    requires i <= |fs|
    requires i > 0 ==> PlacedBelow(fs, i - 1) && fs[i - 1].Some? && fs[i - 1].value.val.address != 0
    ensures var next := OccupiedFrom(fs, i);
      PlacedBelow(fs, if next == [] then |fs| else next[0])
  {
    SkippedSlotsAreEmpty(fs, i);
  }

  /** The object loop of `elf_file_finalize`: in slot order, each object
      of the table gets a local object symbol in `.bss` and its name in
      `.strtab`; as `AddObjectsFrom` says, fatal when either table is
      full. */
  method AddObjectSymbols(objects: StrTable<ObjectEntry>, symtab: SymbolTable, strtab: StringTable, bssStart: nat)
    returns (o: Outcome)
    requires objects.Valid() && symtab.Valid() && strtab.Valid() && AllLocal(symtab.Contents())
    modifies symtab, symtab.data, strtab, strtab.data
    ensures symtab.Valid() && strtab.Valid()
    ensures var r := AddObjectsFrom(Tables(old(symtab.Contents()), old(strtab.Contents())), objects.slots[..], bssStart, 0);
      && (o.Pass? <==> r.Ok?)
      && (o.Fail? ==> o.message == r.message)
      && (o.Pass? ==> AllLocal(symtab.Contents()) && Tables(symtab.Contents(), strtab.Contents()) == r.value)
  {
    ghost var spec := AddObjectsFrom(Tables(symtab.Contents(), strtab.Contents()), objects.slots[..], bssStart, 0);
    var at: Option<nat> := objects.Iterator();
    SkippedSlotsAreEmpty(objects.slots[..], 0);
    ObjectsSkipEmpty(Tables(symtab.Contents(), strtab.Contents()), objects.slots[..], bssStart, 0, Pos(at));
    while at.Some?
      invariant symtab.Valid() && strtab.Valid() && AllLocal(symtab.Contents())
      invariant at.Some? ==> at.value < EntriesCapacity && objects.slots[at.value].Some?
      invariant spec == AddObjectsFrom(Tables(symtab.Contents(), strtab.Contents()), objects.slots[..], bssStart, Pos(at))
      decreases EntriesCapacity - Pos(at)
    {
      o, at := ObjectStep(objects, symtab, strtab, at.value, bssStart);
      if o.Fail? {
        return;
      }
    }
    o := Pass;
  }

  /** One turn of the object loop, up to the next occupied slot after
      `s`. */
  method ObjectStep(objects: StrTable<ObjectEntry>, symtab: SymbolTable, strtab: StringTable, s: nat, bssStart: nat)
    returns (o: Outcome, next: Option<nat>)
    requires objects.Valid() && symtab.Valid() && strtab.Valid() && AllLocal(symtab.Contents())
    requires s < EntriesCapacity && objects.slots[s].Some?
    modifies symtab, symtab.data, strtab, strtab.data
    ensures symtab.Valid() && strtab.Valid()
    ensures next.Some? ==> next.value < EntriesCapacity && objects.slots[next.value].Some?
    ensures Pos(next) > s
    ensures o.Pass? ==> AllLocal(symtab.Contents())
    ensures var r := AddObjectsFrom(Tables(old(symtab.Contents()), old(strtab.Contents())), objects.slots[..], bssStart, s);
      if o.Pass? then r == AddObjectsFrom(Tables(symtab.Contents(), strtab.Contents()), objects.slots[..], bssStart, Pos(next))
      else r == Fatal(o.message)
  {
    o := AddObjectSymbol(symtab, strtab, objects.slots[s].value, bssStart);
    if o.Fail? {
      return o, None;
    }
    next := objects.IteratorNext(s);
    SkippedSlotsAreEmpty(objects.slots[..], s + 1);
    ObjectsSkipEmpty(Tables(symtab.Contents(), strtab.Contents()), objects.slots[..], bssStart, s + 1, Pos(next));
  }

  /** The symbol of one object: a local object record in `.bss` at
      `bssStart` plus the object's offset, named by the object's name
      added to `.strtab`; fatal when either table is full. */
  method AddObjectSymbol(symtab: SymbolTable, strtab: StringTable, e: Entry<ObjectEntry>, bssStart: nat) returns (o: Outcome)
    requires symtab.Valid() && strtab.Valid() && AllLocal(symtab.Contents())
    modifies symtab, symtab.data, strtab, strtab.data
    ensures symtab.Valid() && strtab.Valid()
    ensures var syms, strings := old(symtab.Contents()), old(strtab.Contents());
      if |syms| * SymbolSize + SymbolSize > TableCapacity then o == Fail("symbols out of space")
      else if |strings| + |e.key| + 1 > TableCapacity then o == Fail("strtab out of space")
      else o.Pass? && AllLocal(symtab.Contents())
           && symtab.Contents() == syms + [ObjectSymbol(|strings|, e.val, bssStart)]
           && strtab.Contents() == strings + e.key + [0]
  {
    var ok, index := symtab.Next();
    if !ok {
      return Fail("symbols out of space");
    }
    var nameIndex;
    ok, nameIndex := strtab.AddStr(e.key);
    if !ok {
      return Fail("strtab out of space");
    }
    symtab.Write(index, ObjectSymbol(nameIndex, e.val, bssStart));
    LocalInfos();
    AllLocalAppended(old(symtab.Contents()), ObjectSymbol(nameIndex, e.val, bssStart));
    o := Pass;
  }

  /** The entry-point block of `elf_file_finalize`: the entry function's
      address, fatal as `EntryAddress` says. */
  method ResolveEntry(functions: StrTable<FunctionEntry>, entry: seq<byte>) returns (o: Outcome, address: nat)
    requires functions.Valid()
    ensures var r := EntryAddress(functions.slots[..], entry);
      && (o.Pass? <==> r.Ok?)
      && (o.Fail? ==> o.message == r.message)
      && (o.Pass? ==> address == r.value && address != 0)
  {
    var slot := functions.Get(entry);
    if slot.None? {
      return Fail("entry function does not exist"), 0;
    }
    var e := functions.slots[slot.value].value.val;
    if e.address == 0 {
      return Fail("entry function address not set"), 0;
    }
    return Pass, e.address;
  }

  /** The section-header part of `elf_file_finalize`, as `LaidOut`
      says. */
  method FillSectionHeaders(sectionHeaders: array<SectionHeader>, l: Layout)
    requires sectionHeaders.Length == NumSections
    modifies sectionHeaders
    ensures forall k :: 0 <= k < NumSections ==> sectionHeaders[k] == LaidOut(old(sectionHeaders[..]), l)[k]
    ensures sectionHeaders[SymtabSection].info == l.symtabInfo
  {
    var f := FileOffsets(l.codeSize, l.symtabSize, l.strtabSize, l.shstrtabSize);
    sectionHeaders[TextSection] := sectionHeaders[TextSection].(address := l.codeStart, size := l.codeSize, offset := f.text);
    sectionHeaders[DataSection] := sectionHeaders[DataSection].(address := l.dataStart, size := l.dataSize, offset := f.data);
    sectionHeaders[BssSection] := sectionHeaders[BssSection].(address := l.dataStart, size := l.bssSize, offset := f.bss);
    sectionHeaders[SymtabSection] := sectionHeaders[SymtabSection].(size := l.symtabSize, info := l.symtabInfo, offset := f.symtab);
    sectionHeaders[StrtabSection] := sectionHeaders[StrtabSection].(size := l.strtabSize, offset := f.strtab);
    sectionHeaders[ShstrtabSection] := sectionHeaders[ShstrtabSection].(size := l.shstrtabSize, offset := f.shstrtab);
  }

  /** The symbol table's `info`: one past the four section records, the
      functions and the objects. */
  method SymtabInfo(functions: StrTable<FunctionEntry>, objects: StrTable<ObjectEntry>) returns (info: nat)
    requires functions.Valid() && objects.Valid()
    ensures info == SectionSymbols + functions.entriesSize + objects.entriesSize
  {
    var n := functions.Size();
    var m := objects.Size();
    info := SectionSymbols + n + m;
  }

  /** The values of the `.text`, `.data` and `.bss` symbols: where each
      section starts. */
  method SetSectionValues(symtab: SymbolTable, codeStart: nat, dataStart: nat, bssStart: nat)
    requires symtab.Valid() && SectionSymbols <= symtab.Count()
    modifies symtab.data
    ensures symtab.Valid()
    ensures symtab.Contents() == WithSectionValues(old(symtab.Contents()), codeStart, dataStart, bssStart)
  {
    symtab.Write(TextSymbol, symtab.data[TextSymbol].(value := codeStart));
    symtab.Write(DataSymbol, symtab.data[DataSymbol].(value := dataStart));
    symtab.Write(BssSymbol, symtab.data[BssSymbol].(value := bssStart));
  }

  /** Setting the section records' values keeps every symbol local and
      the functions in agreement with their records. */
  lemma SectionValuesKeep(fs: seq<Option<Entry<FunctionEntry>>>, syms: seq<Symbol>, codeStart: nat, dataStart: nat, bssStart: nat)
    requires FunctionsAgree(fs, syms) && AllLocal(syms) && SectionSymbols <= |syms|
    ensures var syms' := WithSectionValues(syms, codeStart, dataStart, bssStart);
      FunctionsAgree(fs, syms') && AllLocal(syms')
  {
    var s1 := syms[TextSymbol := syms[TextSymbol].(value := codeStart)];
    var s2 := s1[DataSymbol := s1[DataSymbol].(value := dataStart)];
    AgreeAfterSectionValue(fs, syms, TextSymbol, codeStart);
    AgreeAfterSectionValue(fs, s1, DataSymbol, dataStart);
    AgreeAfterSectionValue(fs, s2, BssSymbol, bssStart);
    AllLocalSetValue(syms, TextSymbol, codeStart);
    AllLocalSetValue(s1, DataSymbol, dataStart);
    AllLocalSetValue(s2, BssSymbol, bssStart);
  }
}
