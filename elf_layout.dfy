/** The layout decisions of `elf_file_finalize` (elf.c) as functions of the
    tables they read: explicit and then automatic placement of functions,
    the page-aligned start of the data segment, the object symbols added to
    the symbol and string tables, the entry address, and the file offsets
    of the parts of the output file. */
module ElfLayout {
  import opened Common
  import opened StrTables
  import opened ElfTables

  /** A function-table entry (`struct function_table_entry`): the
      function's machine code, the index of its symbol record and its
      address, 0 while it is unplaced. The table key is the function's
      name. */
  datatype FunctionEntry = FunctionEntry(instructions: seq<byte>, symbol: nat, address: nat)

  /** An object-table entry (an uninitialised data node): its size and its
      offset in `.bss`. The table key is the object's name. */
  datatype ObjectEntry = ObjectEntry(size: nat, offset: nat)

  /** `struct executable_address_tuple`: a function name and the address
      the executable node gives it. */
  datatype AddressTuple = AddressTuple(name: seq<byte>, imm: nat)

  /** The function table's slots and the code size, the two things
      placement changes. */
  datatype Placement = Placement(functions: seq<Option<Entry<FunctionEntry>>>, codeSize: nat)

  /** Both tables list the same keys in the same slots, with the same
      machine code and symbol index: at most the addresses differ. */
  ghost predicate SameShape(a: seq<Option<Entry<FunctionEntry>>>, b: seq<Option<Entry<FunctionEntry>>>)
  {
    |a| == |b|
    && forall s :: 0 <= s < |a| ==>
      a[s].Some? == b[s].Some?
      && (a[s].Some? ==> a[s].value.key == b[s].value.key
                         && a[s].value.val.instructions == b[s].value.val.instructions
                         && a[s].value.val.symbol == b[s].value.val.symbol)
  }

  lemma SameShapeTransitive(a: seq<Option<Entry<FunctionEntry>>>, b: seq<Option<Entry<FunctionEntry>>>, c: seq<Option<Entry<FunctionEntry>>>)
    requires SameShape(a, b) && SameShape(b, c)
    ensures SameShape(a, c)
  {
  }

  /** The entry in slot `s` with its address replaced. */
  function WithAddress(fs: seq<Option<Entry<FunctionEntry>>>, s: nat, address: nat): (r: seq<Option<Entry<FunctionEntry>>>)
    requires s < |fs| && fs[s].Some?
    ensures SameShape(fs, r) && r[s].value.val.address == address
    ensures forall t :: 0 <= t < |fs| && t != s ==> r[t] == fs[t]
  {
    fs[s := Some(Entry(fs[s].value.key, fs[s].value.val.(address := address)))]
  }

  /** Lookups agree on tables of the same shape, up to the address. */
  lemma LookupSameShape(a: seq<Option<Entry<FunctionEntry>>>, b: seq<Option<Entry<FunctionEntry>>>, key: seq<byte>)
    requires |a| == EntriesCapacity && SameShape(a, b)
    ensures Lookup(a, key).Some? <==> Lookup(b, key).Some?
    ensures Lookup(a, key).Some? ==>
      Lookup(a, key).value.val.instructions == Lookup(b, key).value.val.instructions
  {
  }

  /** Where the code of the function named in `t` ends when placed at the
      tuple's address; 0 for a name that is not in the table. */
  function CodeEnd(fs: seq<Option<Entry<FunctionEntry>>>, t: AddressTuple): nat
    requires |fs| == EntriesCapacity
  {
    match Lookup(fs, t.name)
    case None => 0
    case Some(e) => t.imm + |e.val.instructions|
  }

  // ---------------------------------------------------------------------
  // Explicit placement

  /** The loop over the executable's address tuples from tuple `i` on:
      each names a function that must be in the table, which gets the
      tuple's address; its code must end after the code start, and the
      code size grows to cover it. */
  function PlaceExplicitFrom(p: Placement, codeStart: nat, addresses: seq<AddressTuple>, i: nat): (r: Result<Placement>)
    requires |p.functions| == EntriesCapacity && i <= |addresses|
    ensures r.Ok? ==> |r.value.functions| == EntriesCapacity
    decreases |addresses| - i
  {
    if i == |addresses| then Ok(p)
    else
      var t := addresses[i];
      if Lookup(p.functions, t.name).None? then Fatal("address set for unknown function")
      else
        var functions := WithAddress(p.functions, SlotOf(t.name), t.imm);
        var codeEnd := CodeEnd(p.functions, t);
        if codeEnd <= codeStart then Fatal("end of code needs to come after start")
        else
          var needed := codeEnd - codeStart;
          PlaceExplicitFrom(Placement(functions, if needed > p.codeSize then needed else p.codeSize), codeStart, addresses, i + 1)
  }

  /** One step of explicit placement, for a tuple naming a function of
      the table whose code ends after the code start. */
  lemma ExplicitStep(p: Placement, codeStart: nat, addresses: seq<AddressTuple>, i: nat, codeSize: nat)
    requires |p.functions| == EntriesCapacity && i < |addresses|
    requires Lookup(p.functions, addresses[i].name).Some?
    requires codeStart < CodeEnd(p.functions, addresses[i])
    requires codeSize == if CodeEnd(p.functions, addresses[i]) - codeStart > p.codeSize
                         then CodeEnd(p.functions, addresses[i]) - codeStart else p.codeSize
    ensures PlaceExplicitFrom(p, codeStart, addresses, i)
            == PlaceExplicitFrom(Placement(WithAddress(p.functions, SlotOf(addresses[i].name), addresses[i].imm), codeSize),
                                 codeStart, addresses, i + 1)
  {
  }

  /** Explicit placement only changes addresses, and never shrinks the
      code. */
  lemma {:induction false} ExplicitKeepsShape(p: Placement, codeStart: nat, addresses: seq<AddressTuple>, i: nat)
    requires |p.functions| == EntriesCapacity && i <= |addresses|
    requires PlaceExplicitFrom(p, codeStart, addresses, i).Ok?
    ensures SameShape(p.functions, PlaceExplicitFrom(p, codeStart, addresses, i).value.functions)
    ensures p.codeSize <= PlaceExplicitFrom(p, codeStart, addresses, i).value.codeSize
    decreases |addresses| - i
  {
    if i < |addresses| {
      var t := addresses[i];
      var functions := WithAddress(p.functions, SlotOf(t.name), t.imm);
      var codeEnd := CodeEnd(p.functions, t);
      var needed := codeEnd - codeStart;
      var p' := Placement(functions, if needed > p.codeSize then needed else p.codeSize);
      ExplicitKeepsShape(p', codeStart, addresses, i + 1);
      SameShapeTransitive(p.functions, functions, PlaceExplicitFrom(p', codeStart, addresses, i + 1).value.functions);
    }
  }

  /** A tuple naming a function that is not in the table is fatal. */
  lemma {:induction false} UnknownFunctionIsFatal(p: Placement, codeStart: nat, addresses: seq<AddressTuple>, i: nat, k: nat)
    requires |p.functions| == EntriesCapacity && i <= k < |addresses|
    requires Lookup(p.functions, addresses[k].name).None?
    ensures PlaceExplicitFrom(p, codeStart, addresses, i).Fatal?
    decreases |addresses| - i
  {
    var t := addresses[i];
    if i < k && Lookup(p.functions, t.name).Some? {
      var functions := WithAddress(p.functions, SlotOf(t.name), t.imm);
      LookupSameShape(p.functions, functions, addresses[k].name);
      var needed := CodeEnd(p.functions, t) - codeStart;
      UnknownFunctionIsFatal(Placement(functions, if needed > p.codeSize then needed else p.codeSize), codeStart, addresses, i + 1, k);
    }
  }

  /** After explicit placement every tuple's code ends after the code
      start and within the code size, and the code size is the old one or
      the end of some tuple's code: it is the maximum of the two. */
  lemma {:induction false} ExplicitCodeSize(p: Placement, codeStart: nat, addresses: seq<AddressTuple>, i: nat)
    requires |p.functions| == EntriesCapacity && i <= |addresses|
    requires PlaceExplicitFrom(p, codeStart, addresses, i).Ok?
    ensures var q := PlaceExplicitFrom(p, codeStart, addresses, i).value;
      && (forall k :: i <= k < |addresses| ==>
            Lookup(p.functions, addresses[k].name).Some?
            && codeStart < CodeEnd(p.functions, addresses[k])
            && CodeEnd(p.functions, addresses[k]) - codeStart <= q.codeSize)
      && (q.codeSize == p.codeSize
          || exists k :: i <= k < |addresses| && q.codeSize == CodeEnd(p.functions, addresses[k]) - codeStart)
    decreases |addresses| - i
  {
    if i < |addresses| {
      var t := addresses[i];
      var functions := WithAddress(p.functions, SlotOf(t.name), t.imm);
      var needed := CodeEnd(p.functions, t) - codeStart;
      var p' := Placement(functions, if needed > p.codeSize then needed else p.codeSize);
      ExplicitCodeSize(p', codeStart, addresses, i + 1);
      ExplicitKeepsShape(p', codeStart, addresses, i + 1);
      forall k | i <= k < |addresses|
        ensures CodeEnd(p.functions, addresses[k]) == CodeEnd(functions, addresses[k])
      {
        LookupSameShape(p.functions, functions, addresses[k].name);
      }
    }
  }

  /** Giving the function named `name` an address changes the lookup of
      that name only. */
  lemma LookupWithAddress(fs: seq<Option<Entry<FunctionEntry>>>, name: seq<byte>, address: nat, key: seq<byte>)
    requires |fs| == EntriesCapacity && Lookup(fs, name).Some?
    ensures var r := Lookup(WithAddress(fs, SlotOf(name), address), key);
      if key == name then r.Some? && r.value.val.address == address
      else r == Lookup(fs, key)
  {
  }

  /** After explicit placement a function named by a tuple has the address
      of the last tuple naming it, and every key no tuple names looks up
      as before. */
  lemma ExplicitAddresses(p: Placement, codeStart: nat, addresses: seq<AddressTuple>, i: nat)
    requires |p.functions| == EntriesCapacity && i <= |addresses|
    requires PlaceExplicitFrom(p, codeStart, addresses, i).Ok?
    ensures var q := PlaceExplicitFrom(p, codeStart, addresses, i).value;
      forall k :: i <= k < |addresses|
                  && (forall j :: k < j < |addresses| ==> addresses[j].name != addresses[k].name) ==>
        Lookup(q.functions, addresses[k].name).Some?
        && Lookup(q.functions, addresses[k].name).value.val.address == addresses[k].imm
    ensures var q := PlaceExplicitFrom(p, codeStart, addresses, i).value;
      forall key :: (forall k :: i <= k < |addresses| ==> addresses[k].name != key) ==>
        Lookup(q.functions, key) == Lookup(p.functions, key)
  {
    var q := PlaceExplicitFrom(p, codeStart, addresses, i).value;
    forall k | i <= k < |addresses|
               && (forall j :: k < j < |addresses| ==> addresses[j].name != addresses[k].name)
      ensures Lookup(q.functions, addresses[k].name).Some?
      ensures Lookup(q.functions, addresses[k].name).value.val.address == addresses[k].imm
    {
      ExplicitLastAddress(p, codeStart, addresses, i, k);
    }
    forall key | forall k :: i <= k < |addresses| ==> addresses[k].name != key
      ensures Lookup(q.functions, key) == Lookup(p.functions, key)
    {
      ExplicitKeepsUnnamed(p, codeStart, addresses, i, key);
    }
  }

  /** Explicit placement leaves a key no tuple names as it was. */
  lemma {:induction false} ExplicitKeepsUnnamed(p: Placement, codeStart: nat, addresses: seq<AddressTuple>, i: nat, key: seq<byte>)
    requires |p.functions| == EntriesCapacity && i <= |addresses|
    requires PlaceExplicitFrom(p, codeStart, addresses, i).Ok?
    requires forall k :: i <= k < |addresses| ==> addresses[k].name != key
    ensures Lookup(PlaceExplicitFrom(p, codeStart, addresses, i).value.functions, key) == Lookup(p.functions, key)
    decreases |addresses| - i
  {
    if i < |addresses| {
      var t := addresses[i];
      var functions := WithAddress(p.functions, SlotOf(t.name), t.imm);
      var needed := CodeEnd(p.functions, t) - codeStart;
      var p' := Placement(functions, if needed > p.codeSize then needed else p.codeSize);
      assert PlaceExplicitFrom(p, codeStart, addresses, i) == PlaceExplicitFrom(p', codeStart, addresses, i + 1);
      ExplicitKeepsUnnamed(p', codeStart, addresses, i + 1, key);
      LookupWithAddress(p.functions, t.name, t.imm, key);
    }
  }

  /** After explicit placement the function named by tuple `k` has that
      tuple's address when no later tuple names it. */
  lemma {:induction false} ExplicitLastAddress(p: Placement, codeStart: nat, addresses: seq<AddressTuple>, i: nat, k: nat)
    requires |p.functions| == EntriesCapacity && i <= k < |addresses|
    requires PlaceExplicitFrom(p, codeStart, addresses, i).Ok?
    requires forall j :: k < j < |addresses| ==> addresses[j].name != addresses[k].name
    ensures var q := PlaceExplicitFrom(p, codeStart, addresses, i).value;
      Lookup(q.functions, addresses[k].name).Some?
      && Lookup(q.functions, addresses[k].name).value.val.address == addresses[k].imm
    decreases |addresses| - i
  {
    var t := addresses[i];
    var functions := WithAddress(p.functions, SlotOf(t.name), t.imm);
    var needed := CodeEnd(p.functions, t) - codeStart;
    var p' := Placement(functions, if needed > p.codeSize then needed else p.codeSize);
    assert PlaceExplicitFrom(p, codeStart, addresses, i) == PlaceExplicitFrom(p', codeStart, addresses, i + 1);
    if i < k {
      ExplicitLastAddress(p', codeStart, addresses, i + 1, k);
    } else {
      ExplicitKeepsUnnamed(p', codeStart, addresses, i + 1, t.name);
      LookupWithAddress(p.functions, t.name, t.imm, t.name);
    }
  }

  /** Explicit placement from the first tuple. */
  function PlaceExplicit(p: Placement, codeStart: nat, addresses: seq<AddressTuple>): (r: Result<Placement>)
    requires |p.functions| == EntriesCapacity
    ensures r.Ok? ==> |r.value.functions| == EntriesCapacity
  {
    PlaceExplicitFrom(p, codeStart, addresses, 0)
  }

  // ---------------------------------------------------------------------
  // Automatic placement

  /** Slot `s` holds a function that has no address yet. */
  predicate Unplaced(fs: seq<Option<Entry<FunctionEntry>>>, s: nat)
  {
    s < |fs| && fs[s].Some? && fs[s].value.val.address == 0
  }

  /** The machine-code size of the function in slot `s`. */
  function SizeAt(fs: seq<Option<Entry<FunctionEntry>>>, s: nat): nat
    requires s < |fs| && fs[s].Some?
  {
    |fs[s].value.val.instructions|
  }

  /** The address of the function in slot `s`. */
  function AddressAt(fs: seq<Option<Entry<FunctionEntry>>>, s: nat): nat
    requires s < |fs| && fs[s].Some?
  {
    fs[s].value.val.address
  }

  /** The loop over the function table from slot `s` on, in slot order:
      a function without an address goes at the current end of the code,
      which then grows by its size. */
  function PlaceAutoFrom(p: Placement, codeStart: nat, s: nat): (q: Placement)
    requires |p.functions| == EntriesCapacity && s <= EntriesCapacity
    ensures |q.functions| == EntriesCapacity
    decreases EntriesCapacity - s
  {
    if s == EntriesCapacity then p
    else if Unplaced(p.functions, s) then
      PlaceAutoFrom(Placement(WithAddress(p.functions, s, codeStart + p.codeSize),
                              p.codeSize + SizeAt(p.functions, s)), codeStart, s + 1)
    else PlaceAutoFrom(p, codeStart, s + 1)
  }

  /** One slot of automatic placement: a function without an address goes
      at the current end of the code, which grows by its size. */
  function PlaceSlot(p: Placement, codeStart: nat, s: nat): (q: Placement)
    requires |p.functions| == EntriesCapacity && s < EntriesCapacity
    ensures |q.functions| == EntriesCapacity
    ensures PlaceAutoFrom(p, codeStart, s) == PlaceAutoFrom(q, codeStart, s + 1)
  {
    if Unplaced(p.functions, s) then
      Placement(WithAddress(p.functions, s, codeStart + p.codeSize), p.codeSize + SizeAt(p.functions, s))
    else p
  }

  /** Automatic placement over the whole table. */
  function PlaceAuto(p: Placement, codeStart: nat): (q: Placement)
    requires |p.functions| == EntriesCapacity
    ensures |q.functions| == EntriesCapacity
  {
    PlaceAutoFrom(p, codeStart, 0)
  }

  /** The sizes of the unplaced functions from slot `s` on. */
  function UnplacedSize(fs: seq<Option<Entry<FunctionEntry>>>, s: nat): nat
    requires s <= |fs|
    decreases |fs| - s
  {
    if s == |fs| then 0
    else (if Unplaced(fs, s) then SizeAt(fs, s) else 0) + UnplacedSize(fs, s + 1)
  }

  /** Empty slots change nothing: placement from `i` is placement from the
      next occupied slot `n`. */
  lemma {:induction false} AutoSkipsEmpty(p: Placement, codeStart: nat, i: nat, n: nat)
    requires |p.functions| == EntriesCapacity && i <= n <= EntriesCapacity
    requires forall k :: i <= k < n ==> p.functions[k].None?
    ensures PlaceAutoFrom(p, codeStart, i) == PlaceAutoFrom(p, codeStart, n)
    decreases n - i
  {
    if i < n {
      AutoSkipsEmpty(p, codeStart, i + 1, n);
    }
  }

  /** Automatic placement changes only the addresses of the functions
      that had none, and the code grows by exactly their sizes. */
  lemma {:induction false} AutoKeepsPlaced(p: Placement, codeStart: nat, s: nat)
    requires |p.functions| == EntriesCapacity && s <= EntriesCapacity
    ensures var q := PlaceAutoFrom(p, codeStart, s);
      && SameShape(p.functions, q.functions)
      && q.codeSize == p.codeSize + UnplacedSize(p.functions, s)
      && forall t :: 0 <= t < EntriesCapacity && !(s <= t && Unplaced(p.functions, t)) ==>
           q.functions[t] == p.functions[t]
    decreases EntriesCapacity - s
  {
    if s < EntriesCapacity {
      if Unplaced(p.functions, s) {
        var p' := Placement(WithAddress(p.functions, s, codeStart + p.codeSize), p.codeSize + SizeAt(p.functions, s));
        AutoKeepsPlaced(p', codeStart, s + 1);
        assert UnplacedSize(p'.functions, s + 1) == UnplacedSize(p.functions, s + 1) by {
          UnplacedSizeSame(p.functions, p'.functions, s + 1);
        }
        SameShapeTransitive(p.functions, p'.functions, PlaceAutoFrom(p', codeStart, s + 1).functions);
      } else {
        AutoKeepsPlaced(p, codeStart, s + 1);
      }
    }
  }

  /** The unplaced sizes from `s` on depend only on the slots from `s`
      on. */
  lemma {:induction false} UnplacedSizeSame(a: seq<Option<Entry<FunctionEntry>>>, b: seq<Option<Entry<FunctionEntry>>>, s: nat)
    requires |a| == |b| && s <= |a|
    requires forall t :: s <= t < |a| ==> a[t] == b[t]
    ensures UnplacedSize(a, s) == UnplacedSize(b, s)
    decreases |a| - s
  {
    if s < |a| {
      UnplacedSizeSame(a, b, s + 1);
    }
  }

  /** Every function placed automatically lies after the code that was
      there before the loop and inside the final code; and of two such
      functions the one in the lower slot ends before the other starts. */
  lemma {:induction false} AutoPlacesInOrder(p: Placement, codeStart: nat, s: nat)
    requires |p.functions| == EntriesCapacity && s <= EntriesCapacity
    ensures var q := PlaceAutoFrom(p, codeStart, s);
      && (forall t :: s <= t < EntriesCapacity && Unplaced(p.functions, t) ==>
            q.functions[t].Some?
            && codeStart + p.codeSize <= AddressAt(q.functions, t)
            && AddressAt(q.functions, t) + SizeAt(q.functions, t) <= codeStart + q.codeSize)
      && (forall t, u :: s <= t < u < EntriesCapacity && Unplaced(p.functions, t) && Unplaced(p.functions, u) ==>
            q.functions[t].Some? && q.functions[u].Some?
            && AddressAt(q.functions, t) + SizeAt(q.functions, t) <= AddressAt(q.functions, u))
    decreases EntriesCapacity - s
  {
    if s < EntriesCapacity {
      if Unplaced(p.functions, s) {
        var p' := Placement(WithAddress(p.functions, s, codeStart + p.codeSize), p.codeSize + SizeAt(p.functions, s));
        AutoPlacesInOrder(p', codeStart, s + 1);
        AutoKeepsPlaced(p', codeStart, s + 1);
        var q := PlaceAutoFrom(p', codeStart, s + 1);
        assert q.functions[s] == p'.functions[s];
        forall t | s + 1 <= t < EntriesCapacity && Unplaced(p.functions, t)
          ensures Unplaced(p'.functions, t)
        {
          assert p'.functions[t] == p.functions[t];
        }
      } else {
        AutoPlacesInOrder(p, codeStart, s + 1);
      }
    }
  }

  /** No function of the table is left without an address. */
  predicate AllPlaced(fs: seq<Option<Entry<FunctionEntry>>>)
  {
    forall s :: 0 <= s < |fs| && fs[s].Some? ==> fs[s].value.val.address != 0
  }

  /** With a non-zero code start, automatic placement leaves no function
      at address 0, so the final "function address not set" check passes. */
  lemma AutoPlacesAll(p: Placement, codeStart: nat)
    requires |p.functions| == EntriesCapacity && codeStart > 0
    ensures AllPlaced(PlaceAuto(p, codeStart).functions)
  {
    AutoKeepsPlaced(p, codeStart, 0);
    AutoPlacesInOrder(p, codeStart, 0);
  }

  // ---------------------------------------------------------------------
  // The data segment

  const PageSize: nat := 0x1000

  /** The start of the data segment: the end of the code, cleared to a
      page boundary and moved one page on when it was not already on
      one. */
  function DataStart(codeEnd: nat): (r: nat)
    ensures r % PageSize == 0 && codeEnd <= r < codeEnd + PageSize
    ensures codeEnd % PageSize == 0 ==> r == codeEnd
  {
    if codeEnd % PageSize != 0 then codeEnd - codeEnd % PageSize + PageSize else codeEnd
  }

  /** No page boundary at or after the end of the code comes before the
      data start: it is the least one. */
  lemma DataStartIsLeast(codeEnd: nat, m: nat)
    requires m % PageSize == 0 && codeEnd <= m
    ensures DataStart(codeEnd) <= m
  {
    if codeEnd % PageSize != 0 {
      var q := codeEnd / PageSize;
      assert codeEnd == q * PageSize + codeEnd % PageSize;
      assert m == (m / PageSize) * PageSize;
      assert m / PageSize > q;
      assert DataStart(codeEnd) == (q + 1) * PageSize;
    }
  }

  // ---------------------------------------------------------------------
  // Object symbols

  /** The symbol table and the string table as sequences. */
  datatype Tables = Tables(symbols: seq<Symbol>, strings: seq<byte>)

  /** The section index of `.bss`. */
  const BssSectionIndex: nat := 3

  /** The symbol of an object named at `name` in the string table. */
  function ObjectSymbol(name: nat, e: ObjectEntry, bssStart: nat): Symbol
  {
    Symbol(name, StInfo(STB_LOCAL, STT_OBJECT), STV_DEFAULT, BssSectionIndex, bssStart + e.offset, e.size)
  }

  /** The loop over the object table from slot `s` on, in slot order: one
      symbol record per object, fatal when the symbol table is full,
      and its name added to the string table, fatal when that is full. */
  function AddObjectsFrom(t: Tables, objects: seq<Option<Entry<ObjectEntry>>>, bssStart: nat, s: nat): Result<Tables>
    requires s <= |objects|
    decreases |objects| - s
  {
    if s == |objects| then Ok(t)
    else if objects[s].None? then AddObjectsFrom(t, objects, bssStart, s + 1)
    else if |t.symbols| * SymbolSize + SymbolSize > TableCapacity then Fatal("symbols out of space")
    else
      var e := objects[s].value;
      if |t.strings| + |e.key| + 1 > TableCapacity then Fatal("strtab out of space")
      else
        AddObjectsFrom(Tables(t.symbols + [ObjectSymbol(|t.strings|, e.val, bssStart)], t.strings + e.key + [0]),
                       objects, bssStart, s + 1)
  }

  lemma {:induction false} ObjectsSkipEmpty(t: Tables, objects: seq<Option<Entry<ObjectEntry>>>, bssStart: nat, i: nat, n: nat)
    requires i <= n <= |objects|
    requires forall k :: i <= k < n ==> objects[k].None?
    ensures AddObjectsFrom(t, objects, bssStart, i) == AddObjectsFrom(t, objects, bssStart, n)
    decreases n - i
  {
    if i < n {
      ObjectsSkipEmpty(t, objects, bssStart, i + 1, n);
    }
  }

  /** On success the old records and names stay, in front of one new
      record per occupied slot. */
  lemma {:induction false} ObjectTablesGrow(t: Tables, objects: seq<Option<Entry<ObjectEntry>>>, bssStart: nat, s: nat)
    requires s <= |objects|
    requires AddObjectsFrom(t, objects, bssStart, s).Ok?
    ensures var r := AddObjectsFrom(t, objects, bssStart, s).value;
      && |r.symbols| == |t.symbols| + |OccupiedFrom(objects, s)|
      && t.symbols <= r.symbols && t.strings <= r.strings
    decreases |objects| - s
  {
    if s < |objects| {
      if objects[s].None? {
        ObjectTablesGrow(t, objects, bssStart, s + 1);
      } else {
        var e := objects[s].value;
        var t' := Tables(t.symbols + [ObjectSymbol(|t.strings|, e.val, bssStart)], t.strings + e.key + [0]);
        ObjectTablesGrow(t', objects, bssStart, s + 1);
      }
    }
  }

  /** The object loop reads the symbol table only for its length: over
      two symbol tables of one length and the same strings it fails alike,
      or appends the same records and names. */
  lemma {:induction false} ObjectsIgnoreRecords(s1: seq<Symbol>, s2: seq<Symbol>, strings: seq<byte>,
                                                objects: seq<Option<Entry<ObjectEntry>>>, bssStart: nat, s: nat)
    requires s <= |objects| && |s1| == |s2|
    ensures var r1 := AddObjectsFrom(Tables(s1, strings), objects, bssStart, s);
      var r2 := AddObjectsFrom(Tables(s2, strings), objects, bssStart, s);
      && (r1.Ok? <==> r2.Ok?)
      && (r1.Fatal? ==> r1 == r2)
      && (r1.Ok? ==> && r1.value.strings == r2.value.strings && |r1.value.symbols| == |r2.value.symbols|
                     && |s1| <= |r1.value.symbols| && r1.value.symbols[|s1|..] == r2.value.symbols[|s2|..])
    decreases |objects| - s
  {
    if s < |objects| {
      if objects[s].None? {
        ObjectsIgnoreRecords(s1, s2, strings, objects, bssStart, s + 1);
      } else if |s1| * SymbolSize + SymbolSize <= TableCapacity && |strings| + |objects[s].value.key| + 1 <= TableCapacity {
        var e := objects[s].value;
        var sym := ObjectSymbol(|strings|, e.val, bssStart);
        var strings' := strings + e.key + [0];
        ObjectsIgnoreRecords(s1 + [sym], s2 + [sym], strings', objects, bssStart, s + 1);
        var r1 := AddObjectsFrom(Tables(s1 + [sym], strings'), objects, bssStart, s + 1);
        var r2 := AddObjectsFrom(Tables(s2 + [sym], strings'), objects, bssStart, s + 1);
        if r1.Ok? {
          ObjectTablesGrow(Tables(s1 + [sym], strings'), objects, bssStart, s + 1);
          ObjectTablesGrow(Tables(s2 + [sym], strings'), objects, bssStart, s + 1);
          assert r1.value.symbols[|s1|..] == [sym] + r1.value.symbols[|s1| + 1..];
          assert r2.value.symbols[|s2|..] == [sym] + r2.value.symbols[|s2| + 1..];
        }
      }
    }
  }

  /** Record `at` of `r` is the symbol of the object entry `e`: a local
      object symbol in `.bss` at `bssStart` plus the object's offset, of
      the object's size, whose name index, at or after `namesFrom`, points
      at the object's name followed by a NUL. */
  ghost predicate ObjectRecord(r: Tables, at: nat, e: Entry<ObjectEntry>, bssStart: nat, namesFrom: nat)
  {
    at < |r.symbols|
    && var sym := r.symbols[at];
    && sym == ObjectSymbol(sym.name, e.val, bssStart)
    && namesFrom <= sym.name && sym.name + |e.key| < |r.strings|
    && r.strings[sym.name..sym.name + |e.key|] == e.key && r.strings[sym.name + |e.key|] == 0
  }

  /** On success the new records are, in slot order, the symbols of the
      objects of the occupied slots, named by names added after the old
      string table. */
  lemma {:induction false} ObjectSymbolsAppended(t: Tables, objects: seq<Option<Entry<ObjectEntry>>>, bssStart: nat, s: nat)
    requires s <= |objects|
    requires AddObjectsFrom(t, objects, bssStart, s).Ok?
    ensures var r := AddObjectsFrom(t, objects, bssStart, s).value;
      var order := OccupiedFrom(objects, s);
      forall k :: 0 <= k < |order| ==> ObjectRecord(r, |t.symbols| + k, objects[order[k]].value, bssStart, |t.strings|)
    decreases |objects| - s
  {
    if s < |objects| {
      if objects[s].None? {
        ObjectSymbolsAppended(t, objects, bssStart, s + 1);
        assert OccupiedFrom(objects, s) == OccupiedFrom(objects, s + 1);
        assert AddObjectsFrom(t, objects, bssStart, s) == AddObjectsFrom(t, objects, bssStart, s + 1);
      } else {
        var e := objects[s].value;
        var t' := Tables(t.symbols + [ObjectSymbol(|t.strings|, e.val, bssStart)], t.strings + e.key + [0]);
        ObjectSymbolsAppended(t', objects, bssStart, s + 1);
        ObjectTablesGrow(t', objects, bssStart, s + 1);
        assert AddObjectsFrom(t, objects, bssStart, s) == AddObjectsFrom(t', objects, bssStart, s + 1);
        var r := AddObjectsFrom(t', objects, bssStart, s + 1).value;
        var order := OccupiedFrom(objects, s);
        assert order == [s] + OccupiedFrom(objects, s + 1);
        forall k | 0 <= k < |order|
          ensures ObjectRecord(r, |t.symbols| + k, objects[order[k]].value, bssStart, |t.strings|)
        {
          if k == 0 {
            NewObjectRecord(t, e, bssStart, r);
          } else {
            var rest := OccupiedFrom(objects, s + 1);
            assert order[k] == rest[k - 1] && |t'.symbols| + (k - 1) == |t.symbols| + k;
            assert ObjectRecord(r, |t'.symbols| + (k - 1), objects[rest[k - 1]].value, bssStart, |t'.strings|);
          }
        }
      }
    }
  }

  /** The record and name appended for `e` survive further appends. */
  lemma NewObjectRecord(t: Tables, e: Entry<ObjectEntry>, bssStart: nat, r: Tables)
    requires t.symbols + [ObjectSymbol(|t.strings|, e.val, bssStart)] <= r.symbols
    requires t.strings + e.key + [0] <= r.strings
    ensures ObjectRecord(r, |t.symbols|, e, bssStart, |t.strings|)
  {
    var strings := t.strings + e.key + [0];
    assert r.symbols[|t.symbols|] == ObjectSymbol(|t.strings|, e.val, bssStart);
    assert r.strings[|t.strings|..|t.strings| + |e.key|] == strings[|t.strings|..|t.strings| + |e.key|] == e.key;
    assert r.strings[|t.strings| + |e.key|] == strings[|t.strings| + |e.key|] == 0;
  }

  // ---------------------------------------------------------------------
  // The entry point

  /** The entry function's address: fatal when the function is not in
      the table or has no address. */
  function EntryAddress(fs: seq<Option<Entry<FunctionEntry>>>, entry: seq<byte>): (r: Result<nat>)
    requires |fs| == EntriesCapacity
  {
    match Lookup(fs, entry)
    case None => Fatal("entry function does not exist")
    case Some(e) => if e.val.address == 0 then Fatal("entry function address not set") else Ok(e.val.address)
  }

  /** When the last tuple naming the entry function gives it a non-zero
      address, that address is the entry point after both placements. */
  lemma EntryIsLastExplicitAddress(p: Placement, codeStart: nat, addresses: seq<AddressTuple>, k: nat)
    requires |p.functions| == EntriesCapacity && k < |addresses|
    requires PlaceExplicit(p, codeStart, addresses).Ok?
    requires addresses[k].imm != 0
    requires forall j :: k < j < |addresses| ==> addresses[j].name != addresses[k].name
    ensures EntryAddress(PlaceAuto(PlaceExplicit(p, codeStart, addresses).value, codeStart).functions,
                         addresses[k].name) == Ok(addresses[k].imm)
  {
    var q := PlaceExplicit(p, codeStart, addresses).value;
    ExplicitAddresses(p, codeStart, addresses, 0);
    ExplicitKeepsShape(p, codeStart, addresses, 0);
    AutoKeepsPlaced(q, codeStart, 0);
    var slot := SlotOf(addresses[k].name);
    assert !Unplaced(q.functions, slot);
  }

  // ---------------------------------------------------------------------
  // File offsets

  const HeaderSize: nat := 64
  const ProgramHeaderSize: nat := 56
  const SectionHeaderSize: nat := 64
  const NumSections: nat := 7

  /** The offsets `elf_file_finalize` computes: the program headers after
      the ELF header, then the code, the (empty) data, `.bss`, the symbol
      table, the string table, the section-name table and the section
      headers. */
  datatype Offsets = Offsets(programHeaders: nat, text: nat, data: nat, bss: nat,
                             symtab: nat, strtab: nat, shstrtab: nat, sectionHeaders: nat)

  function FileOffsets(codeSize: nat, symtabSize: nat, strtabSize: nat, shstrtabSize: nat): Offsets
  {
    var text := HeaderSize + 2 * ProgramHeaderSize;
    var data := text + codeSize;
    var bss := data + 0;
    var strtab := bss + symtabSize;
    var shstrtab := strtab + strtabSize;
    Offsets(HeaderSize, text, data, bss, bss, strtab, shstrtab, shstrtab + shstrtabSize)
  }

  /** A part of the file: where it starts and how long it is. */
  datatype Region = Region(offset: nat, size: nat)

  /** The parts `elf_write` writes one after another: the ELF header, the
      two program headers, the code, the symbol table, the string table,
      the section-name table and the seven section headers. */
  function Regions(o: Offsets, codeSize: nat, symtabSize: nat, strtabSize: nat, shstrtabSize: nat): seq<Region>
  {
    [Region(0, HeaderSize), Region(o.programHeaders, 2 * ProgramHeaderSize), Region(o.text, codeSize),
     Region(o.symtab, symtabSize), Region(o.strtab, strtabSize), Region(o.shstrtab, shstrtabSize),
     Region(o.sectionHeaders, NumSections * SectionHeaderSize)]
  }

  /** Each region starts where the one before it ends, from offset 0. */
  predicate BackToBack(rs: seq<Region>)
  {
    |rs| > 0 && rs[0].offset == 0
    && forall k :: 0 < k < |rs| ==> rs[k].offset == rs[k - 1].offset + rs[k - 1].size
  }

  /** The offsets lay the file out without gaps or overlaps in the order
      it is written, so each part lands at the offset its header records;
      the data and `.bss` sections, which have no bytes in the file, share
      the offset of the symbol table. */
  lemma OffsetsAreBackToBack(codeSize: nat, symtabSize: nat, strtabSize: nat, shstrtabSize: nat)
    ensures var o := FileOffsets(codeSize, symtabSize, strtabSize, shstrtabSize);
      && BackToBack(Regions(o, codeSize, symtabSize, strtabSize, shstrtabSize))
      && o.data == o.symtab && o.bss == o.symtab
      && o.sectionHeaders == HeaderSize + 2 * ProgramHeaderSize + codeSize + symtabSize + strtabSize + shstrtabSize
  {
  }
}
