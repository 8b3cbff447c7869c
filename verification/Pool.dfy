/**
 `vk_pool.c`: a fixed number of equal objects, behind a table of entries in one buffer or each in a
 mapping of its own. The entries that are not in use form a LIFO free list.
 */
module Pool {
  import opened Machine
  import opened WrapGuard

  /** The memory of an object: a part of the pool's buffer, or a mapping. */
  datatype Area = Slice(at: nat, len: nat) | Mapped(len: nat)

  function End(s: Area): nat
    requires s.Slice?
  {
    s.at + s.len
  }

  /** An entry of the table: its own index and the memory of its object. */
  datatype Entry = Entry(id: nat, heap: Area)

  /** The sizes of the entry table and of the item area, rounded to whole pages. */
  datatype Sizes = Sizes(table: size_t, objects: size_t)

  /** Where the memory or a callback of an entry fails while the entries are initialised. */
  datatype Stage = AtHeap | AtFree | AtInit

  datatype Fault = Fault(index: nat, stage: Stage)

  /** The page-aligned size of one object. */
  function ObjectLen(objectSize: size_t, page: size_t): Option<size_t>
    requires page > 0
  {
    AlignedLen(1, objectSize, page)
  }

  function NeededSizes(objectSize: size_t, count: size_t, entrySize: size_t, page: size_t): Option<Sizes>
    requires page > 0
  {
    var table, item := AlignedLen(count, entrySize, page), ObjectLen(objectSize, page);
    if table.None? || item.None? || item.value * count > SIZE_MAX then None
    else Some(Sizes(table.value, item.value * count))
  }

  /** `vk_pool_needed_buffer_size` */
  method NeededBufferSize(objectSize: size_t, count: size_t, entrySize: size_t, page: size_t) returns (r: Option<Sizes>)
    requires page > 0
    ensures r == NeededSizes(objectSize, count, entrySize, page)
  {
    var table := SafeAlignedLen(count, entrySize, page);
    if table.None? {
      return None;
    }
    var item := SafeAlignedLen(1, objectSize, page);
    if item.None? {
      return None;
    }
    var objects := SafeMult(item.value, count);
    if objects.None? {
      return None;
    }
    r := Some(Sizes(table.value, objects.value));
  }

  /** How many entries the initialising loop visits: its index is an `int`. */
  function Initialised(count: size_t): (n: nat)
    ensures n <= count
    ensures n == count <==> count < 0x8000_0000
  {
    if AsInt(count) < 0 then 0 else AsInt(count)
  }

  /** The ids `from`, ..., `to - 1`. */
  function Ids(from: nat, to: nat): seq<nat>
    requires from <= to
  {
    seq(to - from, i requires 0 <= i < to - from => from + i)
  }

  lemma IdsStep(i: nat, n: nat)
    requires i < n
    ensures [i] + Ids(i + 1, n) == Ids(i, n)
  {
  }

  lemma IdsDistinct(from: nat, to: nat)
    requires from <= to
    ensures forall i, j :: 0 <= i < j < to - from ==> Ids(from, to)[i] != Ids(from, to)[j]
    ensures forall k :: from <= k < to ==> k in Ids(from, to)
    ensures forall i :: 0 <= i < to - from ==> Ids(from, to)[i] < to
  {
    forall k | from <= k < to
      ensures k in Ids(from, to)
    {
      assert Ids(from, to)[k - from] == k;
    }
  }

  /** The lowest entry that is on the free list where the loop has stopped. */
  function Filled(fault: Fault): nat {
    if fault.stage == AtHeap then fault.index + 1 else fault.index
  }

  /** The entry that the initialising loop writes at index `k`: `carved` from a buffer, or mapped. */
  function EntryAt(carved: bool, table: nat, item: nat, k: nat): Entry {
    ProductGrows(0, 0, item, k);
    Entry(k, if carved then Slice(table + item * k, item) else Mapped(item))
  }

  /** The object areas lie back to back after the table and end where the buffer ends. */
  ghost predicate Carved(entries: seq<Entry>, table: nat, item: nat, end: nat) {
    && (forall i :: 0 <= i < |entries| ==> entries[i] == EntryAt(true, table, item, i))
    && table + item * |entries| == end
  }

  /** Carved slices start behind the table, end inside the buffer, and never overlap. */
  lemma CarvedApart(entries: seq<Entry>, table: nat, item: nat, end: nat, i: nat, j: nat)
    requires Carved(entries, table, item, end) && i < j < |entries|
    ensures End(entries[i].heap) <= entries[j].heap.at
    ensures table <= entries[i].heap.at && End(entries[j].heap) <= end
  {
    ProductGrows(item, i + 1, item, j);
    ProductGrows(item, j + 1, item, |entries|);
    Distribute(i, 1, item);
    Distribute(j, 1, item);
  }

  /**
   The loop starts at one less than the count as an `int`. Where that overflows, C leaves the program
   undefined.
   */
  predicate Countable(count: size_t) {
    count % 0x1_0000_0000 != 0x8000_0000
  }

  class Pool {
    const page: size_t
    const entries: array<Entry>
    const objectSize: size_t
    /** The length of the caller's buffer, when there is one. */
    const bufLen: Option<size_t>
    var free: seq<nat>

    /** The entries handed out and not yet given back. */
    ghost var taken: set<nat>

    /** The free list holds distinct entries of the table, and no entry is both free and handed out. */
    ghost predicate Valid()
      reads this, entries
    {
      && entries.Length <= SIZE_MAX
      && (forall i :: 0 <= i < |free| ==> free[i] < Initialised(entries.Length))
      && (forall i, j :: 0 <= i < j < |free| ==> free[i] != free[j])
      && (forall id :: id in taken ==> id < Initialised(entries.Length) && id !in free)
    }

    /** Every initialised entry is free or handed out. */
    ghost predicate Partitioned()
      reads this, entries
    {
      entries.Length <= SIZE_MAX && forall id :: 0 <= id < Initialised(entries.Length) ==> id in free || id in taken
    }

    constructor (page: size_t, entries: array<Entry>, objectSize: size_t, bufLen: Option<size_t>)
      requires entries.Length <= SIZE_MAX
      ensures this.page == page && this.entries == entries && this.objectSize == objectSize && this.bufLen == bufLen
      ensures Valid() && free == [] && taken == {}
    {
      this.page := page;
      this.entries := entries;
      this.objectSize := objectSize;
      this.bufLen := bufLen;
      free := [];
      taken := {};
    }

    /** The buffer that the caller gave, if any, has exactly the size that is needed. */
    predicate Sized(sizes: Option<Sizes>) {
      sizes.Some? && (bufLen.Some? ==> bufLen.value == Add64(sizes.value.table, sizes.value.objects))
    }

    /**
     `vk_pool_init`, where the memory of the table fails, or at most one entry's memory or callback fails
     first. The needed size is a plain sum, so it is exact only while it does not wrap.
     */
    method Init(entrySize: size_t, tableOk: bool, fault: Option<Fault>) returns (r: Result<nat>)
      requires Valid() && page > 0
      modifies this, entries
      ensures Valid()
      ensures var sizes, n := NeededSizes(objectSize, entries.Length, entrySize, page), entries.Length;
              Countable(n) ==>
                && (r.Ok? <==> Sized(sizes) && tableOk && (fault.None? || fault.value.index >= Initialised(n)))
                && (r.Ok? ==> free == Ids(0, Initialised(n)) && taken == {} && Partitioned())
                && (r.Err? && Sized(sizes) ==>
                      free == if tableOk then Ids(Filled(fault.value), Initialised(n)) else [])
                && (r.Ok? && bufLen.Some? && n < 0x8000_0000 && sizes.value.table + sizes.value.objects <= SIZE_MAX ==>
                      && Carved(entries[..], sizes.value.table, ObjectLen(objectSize, page).value, bufLen.value)
                      && objectSize <= ObjectLen(objectSize, page).value)
                && (r.Ok? && bufLen.None? ==>
                      forall k :: 0 <= k < Initialised(n) ==>
                        && entries[k] == Entry(k, Mapped(ObjectLen(objectSize, page).value))
                        && objectSize <= ObjectLen(objectSize, page).value)
    {
      var item := SafeAlignedLen(1, objectSize, page);
      if item.None? {
        return Err(ERANGE);
      }
      AlignedLenExact(1, objectSize, page, 0);
      var sizes := NeededBufferSize(objectSize, entries.Length, entrySize, page);
      if sizes.None? {
        return Err(ERANGE);
      }
      if bufLen.Some? && bufLen.value != Add64(sizes.value.table, sizes.value.objects) {
        return Err(ERANGE);
      }
      if !tableOk {
        free := [];
        taken := {};
        return Err(ENOMEM);
      }
      var ok := Fill(sizes.value.table, item.value, fault);
      r := if ok then Ok(0) else Err(EINVAL);
    }

    /** One turn of the initialising loop: the record of an entry and where its object lies. */
    method Initialise(i: nat, table: size_t, item: size_t)
      requires i < entries.Length
      modifies entries
      ensures entries[i] == EntryAt(bufLen.Some?, table, item, i)
      ensures forall k :: 0 <= k < entries.Length && k != i ==> entries[k] == old(entries[k])
    {
      entries[i] := EntryAt(bufLen.Some?, table, item, i);
    }

    /**
     The initialising loop runs from the last entry to the first, so the first is allocated first. A
     failure stops it; the entry at which it happens is free already unless its memory failed.
     */
    method Fill(table: size_t, item: size_t, fault: Option<Fault>) returns (ok: bool)
      requires Valid()
      modifies this`free, this`taken, entries
      ensures Valid() && taken == {}
      ensures Countable(entries.Length) ==>
                && (ok <==> fault.None? || fault.value.index >= Initialised(entries.Length))
                && free == Ids(if ok then 0 else Filled(fault.value), Initialised(entries.Length))
                && (ok ==> Partitioned())
      ensures Countable(entries.Length) ==>
                forall k :: 0 <= k < Initialised(entries.Length) && (ok || fault.value.index < k) ==>
                  entries[k] == EntryAt(bufLen.Some?, table, item, k)
    {
      free := [];
      taken := {};
      var n := Initialised(entries.Length);
      var i: int := AsInt(entries.Length) - 1;
      while i >= 0
        invariant taken == {}
        invariant if n == 0 then i < 0 && free == [] else -1 <= i < n && free == Ids(i + 1, n)
        invariant fault.Some? && fault.value.index < n ==> fault.value.index <= i
        invariant forall k :: 0 <= k < n && i < k ==> entries[k] == EntryAt(bufLen.Some?, table, item, k)
      {
        var fails := fault.Some? && fault.value.index == i;
        Initialise(i, table, item);
        if fails && fault.value.stage == AtHeap {
          IdsDistinct(i + 1, n);
          return false;
        }
        IdsStep(i, n);
        free := [i] + free;
        if fails {
          IdsDistinct(i, n);
          return false;
        }
        i := i - 1;
      }
      IdsDistinct(0, n);
      ok := true;
    }

    /** `vk_pool_alloc_entry` fails exactly when every entry is in use. */
    method Alloc() returns (r: Result<nat>)
      requires Valid() && Partitioned()
      modifies this`free, this`taken
      ensures Valid() && Partitioned()
      ensures r.Err? <==> forall id :: 0 <= id < Initialised(entries.Length) ==> id in old(taken)
      ensures r.Err? ==> r.errno == ENOMEM && free == old(free) && taken == old(taken)
      ensures r.Ok? ==>
                && r.value < entries.Length && r.value !in old(taken)
                && taken == old(taken) + {r.value}
                && old(free) == [r.value] + free
    {
      if free == [] {
        return Err(ENOMEM);
      }
      assert free[0] !in taken;
      r := Ok(free[0]);
      free := free[1..];
      taken := taken + {r.value};
      assert forall id :: id in old(free) ==> id == r.value || id in free;
    }

    /** `vk_pool_free_entry`; the entry is back in the list even when the callback fails. */
    method Free(entry: Option<nat>, callbackOk: bool) returns (r: Result<nat>)
      requires Valid() && Partitioned()
      requires entry.Some? ==> entry.value in taken
      modifies this`free, this`taken
      ensures Valid() && Partitioned()
      ensures r.Ok? <==> entry.Some? && callbackOk
      ensures entry.None? ==> r == Err(ENOENT) && free == old(free) && taken == old(taken)
      ensures entry.Some? ==>
                && taken == old(taken) - {entry.value}
                && free == [entry.value] + old(free)
    {
      if entry.None? {
        return Err(ENOENT);
      }
      free := [entry.value] + free;
      taken := taken - {entry.value};
      assert forall id :: id in free <==> id == entry.value || id in old(free);
      if !callbackOk {
        return Err(EINVAL);
      }
      return Ok(0);
    }
  }
}
