/**
 * The bump arena of components/mapmini/src/memory.c: a fixed region of
 * `capacity` bytes (the static `reg` of ARENA_DEFAULT_SIZE bytes), a usable
 * `size` set by arena_init and a cursor `current`.
 */
module Memory {
  import opened Wrappers

  /** A block handed out by arena_malloc, as an offset into the region and a length. */
  datatype Region = Region(offset: nat, length: nat)

  /**
   * The blocks, in allocation order, tile [0, end) without gaps: each starts
   * where the previous one ends.
   */
  ghost predicate Tiles(rs: seq<Region>, end: nat)
    decreases |rs|
  {
    if rs == [] then end == 0
    else
      var last := rs[|rs| - 1];
      last.offset + last.length == end && Tiles(rs[..|rs| - 1], last.offset)
  }

  /** Blocks that tile [0, end) are ascending, pairwise disjoint and inside [0, end). */
  lemma {:induction false} TilesDisjoint(rs: seq<Region>, end: nat)
    requires Tiles(rs, end)
    ensures forall i :: 0 <= i < |rs| ==> rs[i].offset + rs[i].length <= end
    ensures forall i, j :: 0 <= i < j < |rs| ==> rs[i].offset + rs[i].length <= rs[j].offset
    decreases |rs|
  {
    if rs != [] {
      var init := rs[..|rs| - 1];
      TilesDisjoint(init, rs[|rs| - 1].offset);
      assert forall i :: 0 <= i < |init| ==> rs[i] == init[i];
    }
  }

  class Arena {
    /** ARENA_DEFAULT_SIZE: the length of the backing region. */
    const capacity: nat
    /** arena->size */
    var size: nat
    /** arena->current */
    var current: nat
    /** The blocks returned since the last arena_free. */
    ghost var blocks: seq<Region>

    ghost predicate Valid()
      reads this
    {
      current <= size <= capacity && Tiles(blocks, current)
    }

    /** The arena before arena_init: its region exists and nothing is usable yet. */
    constructor (capacity: nat)
      ensures Valid() && this.capacity == capacity && size == 0 && current == 0 && blocks == []
    {
      this.capacity := capacity;
      size, current, blocks := 0, 0, [];
    }

    /** arena_init: the usable size must fit in the backing region. */
    method Init(size: nat)
      requires size <= capacity
      modifies this
      ensures Valid() && this.size == size && current == 0 && blocks == []
    {
      this.size := size;
      current := 0;
      blocks := [];
    }

    /**
     * arena_malloc: the offset of a fresh block of `request` bytes, or None
     * (NULL) when it does not fit, in which case nothing changes.
     */
    method Malloc(request: nat) returns (r: Option<nat>)
      requires Valid()
      modifies this
      ensures Valid() && size == old(size)
      ensures r.None? <==> old(current) + request > size
      ensures r.None? ==> current == old(current) && blocks == old(blocks)
      ensures r.Some? ==> r.value == old(current) && current == old(current) + request &&
                          blocks == old(blocks) + [Region(r.value, request)]
    {
      if current + request > size {
        return None;
      }
      var at := current;
      current := current + request;
      blocks := blocks + [Region(at, request)];
      assert blocks[..|blocks| - 1] == old(blocks);
      return Some(at);
    }

    /** arena_free: every block is released at once; the bytes that were in use are returned. */
    method Free() returns (used: nat)
      requires Valid()
      modifies this
      ensures Valid() && size == old(size)
      ensures used == old(current) && current == 0 && blocks == []
    {
      used := current;
      current := 0;
      blocks := [];
    }
  }

  /**
   * The blocks of a valid arena are pairwise disjoint, ascending and inside
   * [0, size).
   */
  lemma BlocksDisjoint(a: Arena)
    requires a.Valid()
    ensures forall i :: 0 <= i < |a.blocks| ==> a.blocks[i].offset + a.blocks[i].length <= a.size
    ensures forall i, j :: 0 <= i < j < |a.blocks| ==>
              a.blocks[i].offset + a.blocks[i].length <= a.blocks[j].offset
  {
    TilesDisjoint(a.blocks, a.current);
  }

  /** The total length of a sequence of blocks. */
  function Total(rs: seq<Region>): nat
  {
    if rs == [] then 0 else Total(rs[..|rs| - 1]) + rs[|rs| - 1].length
  }

  /** After any run of allocations since the last reset, the cursor is the sum of their lengths. */
  lemma {:induction false} CursorIsTotal(rs: seq<Region>, end: nat)
    requires Tiles(rs, end)
    ensures end == Total(rs)
    decreases |rs|
  {
    if rs != [] {
      CursorIsTotal(rs[..|rs| - 1], rs[|rs| - 1].offset);
    }
  }

  /** Width of size_t on the ESP32-C3 target. */
  const SizeWidth: nat := 0x1_0000_0000

  /**
   * The overflow test of arena_malloc as compiled: `current + size` is a
   * size_t sum and wraps. It never refuses a request that fits; it only
   * lets through some that do not.
   */
  function OverflowsAsWritten(current: nat, request: nat, size: nat): (overflow: bool)
    requires current < SizeWidth && request < SizeWidth
    ensures overflow ==> size < current + request
  {
    (current + request) % SizeWidth > size
  }

  /** A request of almost 4 GiB passes the wrapped test of an arena of 16 bytes. */
  lemma WrappedRequestPasses()
    ensures !OverflowsAsWritten(1, SizeWidth - 1, 16)
  {
  }

  /**
   * Below the wrap-around the wrapped test agrees with the unbounded one that
   * Arena.Malloc uses, in both directions.
   */
  lemma OverflowAgreesBelowWrap(current: nat, request: nat, size: nat)
    requires current + request < SizeWidth
    ensures OverflowsAsWritten(current, request, size) <==> current + request > size
  {
  }
}
