/** The string-keyed table (str_table.c): 1024 slots addressed directly by
    the djb2 hash of the key, no collision handling (a second key for an
    occupied slot is fatal), lookup by slot and key bytes, and iteration
    over the occupied slots in slot order. */
module StrTables {
  import opened Common

  // ---------------------------------------------------------------------
  // djb2

  const Modulus: nat := 0x1_0000_0000_0000_0000  // 2^64, for uint64_t
  const Djb2Start: nat := 5381

  /** One step of `hash` in uint64_t arithmetic: `(h << 5) + h`, then the
      byte, each operation wrapping modulo 2^64. */
  function Djb2Step(h: nat, b: byte): (h': nat)
    ensures h' < Modulus
  {
    ((h * 32 % Modulus + h) % Modulus + b as nat) % Modulus
  }

  /** `hash`: the steps over the key's bytes from 5381. */
  function Djb2(key: seq<byte>): (h: nat)
    ensures h < Modulus
  {
    if key == [] then Djb2Start else Djb2Step(Djb2(key[..|key| - 1]), key[|key| - 1])
  }

  /** The djb2 polynomial without any wrapping:
      5381 * 33^n + key[0] * 33^(n-1) + ... + key[n-1]. */
  function Djb2Unbounded(key: seq<byte>): nat
  {
    if key == [] then Djb2Start else Djb2Unbounded(key[..|key| - 1]) * 33 + key[|key| - 1] as nat
  }

  /** Reducing a multiple of the modulus away. */
  lemma ModMultipleAdd(k: nat, y: nat)
    ensures (Modulus * k + y) % Modulus == y % Modulus
  {
  }

  /** A wrapping step agrees with the unwrapped step reduced once. */
  lemma Djb2StepIsMod(h: nat, b: byte, x: nat)
    requires h == x % Modulus
    ensures Djb2Step(h, b) == (x * 33 + b as nat) % Modulus
  {
    var q := x / Modulus;
    assert x == Modulus * q + h;
    assert x * 33 + b as nat == Modulus * (33 * q) + (h * 33 + b as nat);
    ModMultipleAdd(33 * q, h * 33 + b as nat);
    var q2 := h * 32 / Modulus;
    assert h * 33 + b as nat == Modulus * q2 + (h * 32 % Modulus + h + b as nat);
    ModMultipleAdd(q2, h * 32 % Modulus + h + b as nat);
    var s := h * 32 % Modulus + h;
    assert s == Modulus * (s / Modulus) + s % Modulus;
    ModMultipleAdd(s / Modulus, s % Modulus + b as nat);
  }

  /** The wrapping hash is the unwrapped polynomial modulo 2^64. */
  lemma {:induction false} Djb2IsPolynomialMod(key: seq<byte>)
    ensures Djb2(key) == Djb2Unbounded(key) % Modulus
  {
    if key != [] {
      var init := key[..|key| - 1];
      Djb2IsPolynomialMod(init);
      Djb2StepIsMod(Djb2(init), key[|key| - 1], Djb2Unbounded(init));
    }
  }

  /** `hash`, the loop of the source. */
  method Hash(key: seq<byte>) returns (h: nat)
    ensures h == Djb2(key)
  {
    h := Djb2Start;
    var i := 0;
    while i < |key|
      invariant i <= |key| && h == Djb2(key[..i])
      decreases |key| - i
    {
      assert key[..i + 1][..i] == key[..i];
      h := ((h * 32 % Modulus + h) % Modulus + key[i] as nat) % Modulus;
      i := i + 1;
    }
    assert key[..i] == key;
  }

  // ---------------------------------------------------------------------
  // The table

  /** `entries_capacity`. */
  const EntriesCapacity: nat := 1024

  /** The slot a key lives in. */
  function SlotOf(key: seq<byte>): (i: nat)
    ensures i < EntriesCapacity
  {
    Djb2(key) % EntriesCapacity
  }

  /** 1024 divides 2^64, so the slot does not depend on the wrapping. */
  lemma SlotOfUnbounded(key: seq<byte>)
    ensures SlotOf(key) == Djb2Unbounded(key) % EntriesCapacity
  {
    Djb2IsPolynomialMod(key);
    var x := Djb2Unbounded(key);
    var q := x / Modulus;
    assert x == Modulus * q + x % Modulus;
    assert Modulus * q == EntriesCapacity * (0x40_0000_0000_0000 * q);
    SlotMultipleAdd(0x40_0000_0000_0000 * q, x % Modulus);
  }

  lemma SlotMultipleAdd(k: nat, y: nat)
    ensures (EntriesCapacity * k + y) % EntriesCapacity == y % EntriesCapacity
  {
  }

  /** `struct str_table_entry`: the key and the value stored with it. */
  datatype Entry<V> = Entry(key: seq<byte>, val: V)

  /** `str_table_get` on the slots as a value: the entry in the key's slot
      exactly when that entry has the same key bytes. */
  function Lookup<V>(slots: seq<Option<Entry<V>>>, key: seq<byte>): (r: Option<Entry<V>>)
    requires |slots| == EntriesCapacity
    ensures r.Some? ==> r.value.key == key && slots[SlotOf(key)] == r
    ensures slots[SlotOf(key)].Some? && slots[SlotOf(key)].value.key == key ==> r == slots[SlotOf(key)]
  {
    var slot := slots[SlotOf(key)];
    if slot.None? then None
    else if |slot.value.key| != |key| then None
    else if slot.value.key == key then slot
    else None
  }

  /** After storing `(key, val)` in the key's slot, looking `key` up finds
      that entry; keys of other slots find what they found before. */
  lemma LookupAfterStore<V>(slots: seq<Option<Entry<V>>>, key: seq<byte>, val: V, other: seq<byte>)
    requires |slots| == EntriesCapacity
    ensures Lookup(slots[SlotOf(key) := Some(Entry(key, val))], key) == Some(Entry(key, val))
    ensures SlotOf(other) != SlotOf(key) ==>
      Lookup(slots[SlotOf(key) := Some(Entry(key, val))], other) == Lookup(slots, other)
  {
  }

  /** The occupied slots from `i` on, in ascending order. */
  function OccupiedFrom<V>(slots: seq<Option<Entry<V>>>, i: nat): (r: seq<nat>)
    requires i <= |slots|
    ensures forall k :: 0 <= k < |r| ==> i <= r[k] < |slots| && slots[r[k]].Some?
    decreases |slots| - i
  {
    if i == |slots| then []
    else if slots[i].Some? then [i] + OccupiedFrom(slots, i + 1)
    else OccupiedFrom(slots, i + 1)
  }

  /** `OccupiedFrom` lists every occupied slot from `i` on exactly once,
      in strictly ascending order. */
  lemma {:induction false} OccupiedFromIsSortedAndComplete<V>(slots: seq<Option<Entry<V>>>, i: nat)
    requires i <= |slots|
    ensures forall j, k :: 0 <= j < k < |OccupiedFrom(slots, i)| ==> OccupiedFrom(slots, i)[j] < OccupiedFrom(slots, i)[k]
    ensures forall s :: i <= s < |slots| && slots[s].Some? ==> s in OccupiedFrom(slots, i)
    decreases |slots| - i
  {
    OccupiedFromIsSorted(slots, i);
    OccupiedFromIsComplete(slots, i);
  }

  lemma {:induction false} OccupiedFromIsSorted<V>(slots: seq<Option<Entry<V>>>, i: nat)
    requires i <= |slots|
    ensures forall j, k :: 0 <= j < k < |OccupiedFrom(slots, i)| ==> OccupiedFrom(slots, i)[j] < OccupiedFrom(slots, i)[k]
    decreases |slots| - i
  {
    if i < |slots| {
      OccupiedFromIsSorted(slots, i + 1);
      var rest := OccupiedFrom(slots, i + 1);
      if slots[i].Some? {
        var r := [i] + rest;
        assert OccupiedFrom(slots, i) == r;
        forall j, k | 0 <= j < k < |r| ensures r[j] < r[k] {
          assert r[k] == rest[k - 1];
          if j > 0 {
            assert r[j] == rest[j - 1];
          }
        }
      }
    }
  }

  lemma {:induction false} OccupiedFromIsComplete<V>(slots: seq<Option<Entry<V>>>, i: nat)
    requires i <= |slots|
    ensures forall s :: i <= s < |slots| && slots[s].Some? ==> s in OccupiedFrom(slots, i)
    decreases |slots| - i
  {
    if i < |slots| {
      OccupiedFromIsComplete(slots, i + 1);
      var rest := OccupiedFrom(slots, i + 1);
      if slots[i].Some? {
        assert OccupiedFrom(slots, i) == [i] + rest;
      }
    }
  }

  /** The table: its 1024 slots and `entries_size`. */
  class StrTable<V> {
    const slots: array<Option<Entry<V>>>
    var entriesSize: nat

    /** Every entry sits in its key's slot, and `entries_size` counts the
        occupied slots. */
    ghost predicate Valid()
      reads this, slots
    {
      slots.Length == EntriesCapacity
      && (forall i :: 0 <= i < EntriesCapacity && slots[i].Some? ==> SlotOf(slots[i].value.key) == i)
      && entriesSize == |Occupied()|
    }

    ghost function Occupied(): set<nat>
      reads this, slots
    {
      set i: nat | i < slots.Length && slots[i].Some?
    }

    /** `str_table_create`: 1024 empty slots, no entries. */
    constructor ()
      ensures Valid() && fresh(slots) && entriesSize == 0
      ensures forall i :: 0 <= i < EntriesCapacity ==> slots[i].None?
    {
      slots := new Option<Entry<V>>[EntriesCapacity](_ => None);
      entriesSize := 0;
      new;
      assert Occupied() == {};
    }

    /** `str_table_insert`: writes only the key's slot; fatal when that
        slot is taken, by this key or any other. */
    method Insert(key: seq<byte>, val: V) returns (ok: bool)
      requires Valid()
      modifies this, slots
      ensures Valid()
      ensures ok <==> old(slots[SlotOf(key)]).None?
      ensures ok ==> slots[..] == old(slots[..])[SlotOf(key) := Some(Entry(key, val))]
      ensures ok ==> entriesSize == old(entriesSize) + 1
      ensures !ok ==> slots[..] == old(slots[..]) && entriesSize == old(entriesSize)
    {
      var h := Hash(key);
      var index := h % EntriesCapacity;
      if slots[index].Some? {
        return false;  // "unhandled collision"
      }
      ghost var before := Occupied();
      slots[index] := Some(Entry(key, val));
      entriesSize := entriesSize + 1;
      assert Occupied() == before + {index};
      return true;
    }

    /** `str_table_size`: the number of slots iteration visits. */
    method Size() returns (n: nat)
      requires Valid()
      ensures n == |Occupied()| == |OccupiedFrom(slots[..], 0)|
    {
      OccupiedFromCount(slots[..], 0);
      assert Occupied() == OccupiedSet(slots[..], 0);
      return entriesSize;
    }

    /** `str_table_get`: the slot holding an entry with these key bytes,
        or nothing when the key's slot is empty or holds another key. */
    method Get(key: seq<byte>) returns (r: Option<nat>)
      requires Valid()
      ensures r.Some? <==> Lookup(slots[..], key).Some?
      ensures r.Some? ==> r.value == SlotOf(key) && slots[r.value] == Lookup(slots[..], key)
    {
      var h := Hash(key);
      var index := h % EntriesCapacity;
      var entry := slots[index];
      if entry.None? {
        return None;
      }
      if |entry.value.key| != |key| {
        return None;
      }
      if entry.value.key == key {
        return Some(index);
      }
      return None;
    }

    /** The first occupied slot at or after `from`. */
    method Scan(from: nat) returns (r: Option<nat>)
      requires Valid() && from <= EntriesCapacity
      ensures r == if OccupiedFrom(slots[..], from) == [] then None else Some(OccupiedFrom(slots[..], from)[0])
    {
      var i := from;
      while i < EntriesCapacity
        invariant from <= i <= EntriesCapacity
        invariant OccupiedFrom(slots[..], from) == OccupiedFrom(slots[..], i)
        decreases EntriesCapacity - i
      {
        if slots[i].Some? {
          return Some(i);
        }
        i := i + 1;
      }
      return None;
    }

    /** `str_table_iterator`: the first occupied slot, if any. */
    method Iterator() returns (r: Option<nat>)
      requires Valid()
      ensures r == if OccupiedFrom(slots[..], 0) == [] then None else Some(OccupiedFrom(slots[..], 0)[0])
    {
      r := Scan(0);
    }

    /** `str_table_iterator_next`: the next occupied slot after the one
        the iterator is at, if any. */
    method IteratorNext(at: nat) returns (r: Option<nat>)
      requires Valid() && at < EntriesCapacity
      ensures r == if OccupiedFrom(slots[..], at + 1) == [] then None else Some(OccupiedFrom(slots[..], at + 1)[0])
    {
      r := Scan(at + 1);
    }

    /** Replaces the value of an occupied slot: the write the linker makes
        through an entry it looked up. */
    method SetValue(index: nat, val: V)
      requires Valid() && index < EntriesCapacity && slots[index].Some?
      modifies slots
      ensures Valid()
      ensures slots[..] == old(slots[..])[index := Some(Entry(old(slots[index]).value.key, val))]
    {
      ghost var before := Occupied();
      slots[index] := Some(Entry(slots[index].value.key, val));
      assert Occupied() == before;
    }
  }

  /** The occupied slots from `i` on, as a set. */
  ghost function OccupiedSet<V>(slots: seq<Option<Entry<V>>>, i: nat): set<nat>
  {
    set k: nat | i <= k < |slots| && slots[k].Some?
  }

  /** Iteration visits as many slots as `entries_size` counts. */
  lemma {:induction false} OccupiedFromCount<V>(slots: seq<Option<Entry<V>>>, i: nat)
    requires i <= |slots|
    ensures |OccupiedFrom(slots, i)| == |OccupiedSet(slots, i)|
    decreases |slots| - i
  {
    if i < |slots| {
      OccupiedFromCount(slots, i + 1);
      if slots[i].Some? {
        assert OccupiedSet(slots, i) == {i} + OccupiedSet(slots, i + 1);
      } else {
        assert OccupiedSet(slots, i) == OccupiedSet(slots, i + 1);
      }
    } else {
      assert OccupiedSet(slots, i) == {};
    }
  }

  /** What an iterator step skips: every slot before the head of
      `OccupiedFrom(slots, i)` is empty, and when the list is empty every
      slot from `i` on is. */
  lemma SkippedSlotsAreEmpty<V>(slots: seq<Option<Entry<V>>>, i: nat)
    requires i <= |slots|
    ensures OccupiedFrom(slots, i) == [] ==> forall k :: i <= k < |slots| ==> slots[k].None?
    ensures OccupiedFrom(slots, i) != [] ==>
      forall k :: i <= k < OccupiedFrom(slots, i)[0] ==> slots[k].None?
  {
    OccupiedFromIsSortedAndComplete(slots, i);
    var r := OccupiedFrom(slots, i);
    forall k | i <= k < |slots| && slots[k].Some?
      ensures r != [] && r[0] <= k
    {
      var j :| 0 <= j < |r| && r[j] == k;
      if j > 0 {
        assert r[0] < r[j];
      }
    }
  }

  /** Walking with `Iterator` and then `IteratorNext` from each slot found
      visits the occupied slots in ascending order: the slot found after
      `at` starts the rest of the list after `at`. */
  lemma IterationStep<V>(slots: seq<Option<Entry<V>>>, at: nat)
    requires at < |slots| && slots[at].Some?
    ensures OccupiedFrom(slots, at) == [at] + OccupiedFrom(slots, at + 1)
  {
  }
}
