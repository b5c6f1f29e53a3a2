/** Writing to and reading from a chain of blocks. */
module SeriStream {
  import opened Common
  import opened LuaValues
  import opened SeriBytes
  import opened SeriBlocks

  /** The C heap, as far as blocks are concerned. Every access needs a block that is not freed. */
  class Heap {
    var mem: map<nat, Block>
    var brk: nat

    ghost predicate Valid()
      reads this
    {
      brk > NULL && forall b :: b in mem ==> b < brk
    }

    constructor ()
      ensures Valid() && mem == map[]
    {
      mem := map[];
      brk := NULL + 1;
    }

    /** A block that nobody has. */
    method Malloc() returns (b: nat)
      requires Valid()
      modifies this
      ensures Valid() && b !in old(mem) && b != NULL
      ensures b in mem && mem[b].next == NULL && |mem[b].buffer| == BLOCK_SIZE && mem == old(mem)[b := mem[b]]
    {
      b := brk;
      brk := brk + 1;
      mem := mem[b := Block(NULL, seq(BLOCK_SIZE, _ => 0))];
    }

    method Free(b: nat)
      requires Valid() && b in mem
      modifies this
      ensures Valid() && mem == old(mem) - {b}
    {
      mem := mem - {b};
    }
  }

  class WriteBlock {
    const heap: Heap
    var head: nat
    var len: nat
    var current: nat
    var ptr: nat
    ghost var blocks: seq<nat>
    ghost var flat: seq<byte>

    ghost predicate Shape()
      reads this
    {
      && blocks != [] && |flat| == BLOCK_SIZE * |blocks| && head == blocks[0] && current == Last(blocks)
      && ptr <= BLOCK_SIZE && len == BLOCK_SIZE * (|blocks| - 1) + ptr
    }

    ghost predicate Valid()
      reads this, heap
    {
      Shape() && heap.Valid() && Chain(heap.mem, blocks, flat)
    }

    /** What has been written. */
    ghost function Contents(): seq<byte>
      reads this
    {
      if len <= |flat| then flat[..len] else flat
    }

    /** What the heap holds besides. */
    ghost function Rest(): map<nat, Block>
      reads this, heap
    {
      Others(heap.mem, blocks)
    }

    /** A first block with room for the length. */
    constructor (h: Heap)
      requires h.Valid()
      modifies h
      ensures Valid() && heap == h && |Contents()| == 4 && Rest() == old(h.mem)
    {
      heap := h;
      new;
      var b := heap.Malloc();
      head, current, ptr, len := b, b, 0, 0;
      blocks, flat := [b], heap.mem[b].buffer;
      assert Piece(flat, 0) == flat;
      Copy([0, 0, 0, 0]);
    }

    method Extend()
      requires Valid() && ptr == BLOCK_SIZE
      modifies this, heap
      ensures Valid() && ptr == 0 && Contents() == old(Contents()) && Rest() == old(Rest())
    {
      hide Chain, Others, Piece;
      ghost var mem := heap.mem;
      var b := heap.Malloc();
      ChainAppend(mem, blocks, flat, b, heap.mem[b].buffer);
      flat, blocks := flat + heap.mem[b].buffer, blocks + [b];
      heap.mem := heap.mem[current := heap.mem[current].(next := b)];
      current := b;
      ptr := 0;
    }

    /** Copies what fits in the current block. */
    method Copy(x: seq<byte>)
      requires Valid() && ptr + |x| <= BLOCK_SIZE
      modifies this, heap
      ensures Valid() && ptr == old(ptr) + |x|
      ensures Contents() == old(Contents()) + x && Rest() == old(Rest())
    {
      hide Chain, Others, Overwrite;
      ChainWrite(heap.mem, blocks, flat, ptr, x);
      heap.mem := heap.mem[current := heap.mem[current].(buffer := Overwrite(heap.mem[current].buffer, ptr, x))];
      flat := Overwrite(flat, len, x);
      ptr := ptr + |x|;
      len := len + |x|;
    }

    /** Appends bytes, filling block after block. */
    method Push(buf: seq<byte>)
      requires Valid()
      modifies this, heap
      ensures Valid() && Contents() == old(Contents()) + buf && Rest() == old(Rest())
    {
      hide Chain, Others;
      ghost var c := Contents();
      var x := buf;
      if ptr == BLOCK_SIZE { Extend(); }
      assert c + buf == Contents() + x;
      hide Contents, Rest;
      while ptr > BLOCK_SIZE - |x|
        invariant Valid() && Contents() + x == c + buf && Rest() == old(Rest()) && ptr < BLOCK_SIZE
        decreases |x|
      {
        var copy := BLOCK_SIZE - ptr;
        TakeDrop(Contents(), x, copy);
        Copy(x[..copy]);
        x := x[copy..];
        Extend();
      }
      Copy(x);
    }

    /** Writes the length to the front and hands over the chain. */
    method Close() returns (b: nat, ghost bs: seq<nat>, ghost bytes: seq<byte>)
      requires Valid() && |Contents()| >= 4
      modifies this, heap
      ensures heap.Valid() && Chain(heap.mem, bs, bytes) && bs != [] && b == bs[0]
      ensures Others(heap.mem, bs) == old(Rest())
      ensures |old(Contents())| <= |bytes|
      ensures bytes[..|old(Contents())|] == LE(|old(Contents())|, 4) + old(Contents())[4..]
    {
      var n := LE(len, 4);
      ChainHead(heap.mem, blocks, flat, n);
      hide Chain, Others, Overwrite;
      current, ptr := head, 0;
      heap.mem := heap.mem[current := heap.mem[current].(buffer := Overwrite(heap.mem[current].buffer, ptr, n))];
      ptr := ptr + 4;
      len := len + 4;
      current := NULL;
      b, bs, bytes := head, blocks, n + flat[4..];
    }

    /** Gives back every block. */
    method Free()
      requires Valid()
      modifies this, heap
      ensures heap.Valid() && heap.mem == old(Rest())
    {
      FreeAll(heap, head, blocks, flat);
      head, current, ptr, len := NULL, NULL, 0, 0;
    }
  }

  /** Frees a chain block by block. */
  method FreeAll(heap: Heap, head: nat, ghost blocks: seq<nat>, ghost flat: seq<byte>)
    requires heap.Valid() && Chain(heap.mem, blocks, flat) && head == First(blocks)
    modifies heap
    ensures heap.Valid() && heap.mem == Others(old(heap.mem), blocks)
  {
    var blk := head;
    ghost var bs, bytes := blocks, flat;
    while blk != NULL
      invariant heap.Valid() && Chain(heap.mem, bs, bytes) && blk == First(bs)
      invariant Others(heap.mem, bs) == Others(old(heap.mem), blocks)
      decreases |bs|
    {
      ChainFree(heap.mem, bs, bytes);
      var next := heap.mem[blk].next;
      heap.Free(blk);
      blk := next;
      bs, bytes := bs[1..], bytes[BLOCK_SIZE..];
    }
    NoOthers(heap.mem);
  }

  lemma NoOthers(mem: map<nat, Block>)
    ensures Others(mem, []) == mem
  {
  }

  class ReadBlock {
    const heap: Heap
    var current: nat
    var len: nat
    var ptr: nat
    ghost var blocks: seq<nat>
    ghost var flat: seq<byte>

    ghost predicate Valid()
      reads this, heap
    {
      && heap.Valid() && Chain(heap.mem, blocks, flat) && current == First(blocks)
      && ptr <= BLOCK_SIZE && ptr + len <= |flat|
    }

    /** What is left to read. */
    ghost function Data(): seq<byte>
      reads this
    {
      if ptr + len <= |flat| then flat[ptr..ptr + len] else flat
    }

    /** What the heap holds besides the blocks still to be read. */
    ghost function Rest(): map<nat, Block>
      reads this, heap
    {
      Others(heap.mem, blocks)
    }

    /** Starts after the length at the front. */
    constructor (h: Heap, b: nat, ghost bs: seq<nat>, ghost bytes: seq<byte>)
      requires h.Valid() && Chain(h.mem, bs, bytes) && bs != [] && b == bs[0]
      requires 4 <= FromLE(bytes[..4]) <= |bytes|
      ensures Valid() && heap == h && Data() == bytes[4..FromLE(bytes[..4])] && Rest() == Others(h.mem, bs)
    {
      heap := h;
      current := b;
      HeaderBytes(h.mem, bs, bytes);
      len := FromLE(h.mem[b].buffer[..4]) - 4;
      ptr := 4;
      blocks, flat := bs, bytes;
    }

    /** Frees the block that has been read. */
    method Leave()
      requires heap.Valid() && Chain(heap.mem, blocks, flat) && blocks != [] && current == blocks[0]
      modifies this, heap
      ensures heap.Valid() && Chain(heap.mem, blocks, flat) && current == First(blocks)
      ensures ptr == old(ptr) && len == old(len) && |flat| + BLOCK_SIZE == |old(flat)|
      ensures flat == old(flat)[BLOCK_SIZE..]
      ensures Rest() == old(Rest())
    {
      ChainFree(heap.mem, blocks, flat);
      hide Others;
      var next := heap.mem[current].next;
      heap.Free(current);
      current := next;
      blocks, flat := blocks[1..], flat[BLOCK_SIZE..];
    }

    /** Bytes of the current block; nothing is touched to read none. */
    method Bytes(from: nat, to: nat) returns (x: seq<byte>)
      requires heap.Valid() && Chain(heap.mem, blocks, flat) && current == First(blocks)
      requires from <= to <= BLOCK_SIZE && to <= |flat|
      ensures x == flat[from..to]
    {
      if from == to {
        return [];
      }
      HeadBytes(heap.mem, blocks, flat, from, to);
      x := heap.mem[current].buffer[from..to];
    }

    /** The next sz bytes, if there are so many; blocks are freed as they are used up. */
    method Read(sz: nat) returns (r: Option<seq<byte>>)
      requires Valid()
      modifies this, heap
      ensures Valid() && Rest() == old(Rest())
      ensures r.None? <==> sz > |old(Data())|
      ensures r.None? ==> Data() == old(Data())
      ensures r.Some? ==> r.value == old(Data())[..sz] && Data() == old(Data())[sz..]
    {
      hide Chain, Others;
      if len < sz {
        return None;
      }
      if ptr == BLOCK_SIZE {
        Turn();
      }
      var x := ReadHere(sz);
      return Some(x);
    }

    /** On to the next block. */
    method Turn()
      requires Valid() && ptr == BLOCK_SIZE
      modifies this, heap
      ensures Valid() && ptr == 0 && len == old(len) && Data() == old(Data()) && Rest() == old(Rest())
    {
      Leave();
      ptr := 0;
    }

    /** Reads in the current block. */
    method Take(sz: nat) returns (x: seq<byte>)
      requires Valid() && sz <= len && ptr + sz <= BLOCK_SIZE
      modifies this
      ensures Valid() && Rest() == old(Rest())
      ensures x == old(Data())[..sz] && Data() == old(Data())[sz..]
    {
      hide Chain, Others;
      x := Bytes(ptr, ptr + sz);
      ptr := ptr + sz;
      len := len - sz;
    }

    /** The next bytes, from the current block and the ones after it. */
    method ReadHere(sz: nat) returns (x: seq<byte>)
      requires Valid() && sz <= len && ptr < BLOCK_SIZE
      modifies this, heap
      ensures Valid() && Rest() == old(Rest())
      ensures x == old(Data())[..sz] && Data() == old(Data())[sz..]
    {
      hide Chain, Others, Data;
      var copy := BLOCK_SIZE - ptr;
      if sz <= copy {
        x := Take(sz);
        return;
      }
      NonEmpty(heap.mem, blocks, flat);
      CrossBlock(flat, ptr, len, sz);
      DataIs();
      var tmp := Bytes(ptr, BLOCK_SIZE);
      len := len - copy;
      var rest := ReadOn(sz - copy);
      x := tmp + rest;
    }

    lemma DataIs()
      requires ptr + len <= |flat|
      ensures Data() == flat[ptr..ptr + len]
    {
    }

    /** Reads at the start of the current block. */
    method TakeFirst(sz: nat) returns (x: seq<byte>)
      requires heap.Valid() && Chain(heap.mem, blocks, flat) && current == First(blocks)
      requires sz <= BLOCK_SIZE && sz <= len <= |flat|
      modifies this
      ensures Valid() && Rest() == old(Rest())
      ensures x == old(flat[0..len])[..sz] && Data() == old(flat[0..len])[sz..]
    {
      hide Chain, Others, Data;
      ptr := 0;
      DataIs();
      x := Take(sz);
    }

    /** Goes on reading in the next block. */
    method ReadOn(more: nat) returns (tmp: seq<byte>)
      requires heap.Valid() && Chain(heap.mem, blocks, flat) && current == First(blocks) && blocks != []
      requires more <= len && BLOCK_SIZE + len <= |flat|
      modifies this, heap
      ensures Valid() && Rest() == old(Rest())
      ensures tmp == old(flat[BLOCK_SIZE..BLOCK_SIZE + len])[..more]
      ensures Data() == old(flat[BLOCK_SIZE..BLOCK_SIZE + len])[more..]
    {
      hide Others, Chain, Data, Valid, Piece;
      tmp := [];
      var sz: nat := more;
      ghost var d := flat[BLOCK_SIZE..BLOCK_SIZE + len];
      ghost var want, tail := d[..sz], d[sz..];
      while true
        invariant heap.Valid() && Chain(heap.mem, blocks, flat) && current == First(blocks) && blocks != []
        invariant Rest() == old(Rest()) && sz <= len && BLOCK_SIZE + len <= |flat|
        invariant d == flat[BLOCK_SIZE..BLOCK_SIZE + len] && tmp + d[..sz] == want && d[sz..] == tail
        decreases sz
      {
        NextBytes(heap.mem, blocks, flat, len, sz, d, tmp);
        Leave();
        NonEmpty(heap.mem, blocks, flat);
        if sz < BLOCK_SIZE {
          var x := TakeFirst(sz);
          tmp := tmp + x;
          return;
        }
        var x := Bytes(0, BLOCK_SIZE);
        tmp := tmp + x;
        sz := sz - BLOCK_SIZE;
        len := len - BLOCK_SIZE;
        d := d[BLOCK_SIZE..];
      }
    }

    lemma HeapOk()
      requires Valid()
      ensures heap.Valid()
    {
    }

    /** Frees what is left. */
    method Close()
      requires Valid()
      modifies this, heap
      ensures heap.Valid() && heap.mem == old(Rest())
    {
      FreeAll(heap, current, blocks, flat);
      current, len, ptr := NULL, 0, 0;
    }
  }

  lemma HeadBytes(mem: map<nat, Block>, blocks: seq<nat>, flat: seq<byte>, from: nat, to: nat)
    requires Chain(mem, blocks, flat) && from < to <= BLOCK_SIZE && to <= |flat|
    ensures blocks != [] && blocks[0] in mem && |mem[blocks[0]].buffer| == BLOCK_SIZE
    ensures mem[blocks[0]].buffer[from..to] == flat[from..to]
  {
  }

  lemma HeaderBytes(mem: map<nat, Block>, blocks: seq<nat>, flat: seq<byte>)
    requires Chain(mem, blocks, flat) && blocks != []
    ensures blocks[0] in mem && |mem[blocks[0]].buffer| == BLOCK_SIZE && mem[blocks[0]].buffer[..4] == flat[..4]
  {
  }

  lemma TakeDrop(c: seq<byte>, x: seq<byte>, n: nat)
    requires n <= |x|
    ensures c + x[..n] + x[n..] == c + x
  {
  }

  /** Reading over the end of a block. */
  lemma CrossBlock(flat: seq<byte>, ptr: nat, len: nat, sz: nat)
    requires ptr < BLOCK_SIZE && BLOCK_SIZE - ptr <= sz <= len && ptr + len <= |flat|
    ensures var copy := BLOCK_SIZE - ptr;
      var d, d' := flat[ptr..ptr + len], flat[BLOCK_SIZE..BLOCK_SIZE + (len - copy)];
      flat[ptr..BLOCK_SIZE] + d'[..sz - copy] == d[..sz] && d'[sz - copy..] == d[sz..]
  {
  }

  lemma NonEmpty(mem: map<nat, Block>, blocks: seq<nat>, flat: seq<byte>)
    requires Chain(mem, blocks, flat)
    ensures blocks == [] <==> flat == []
    ensures |flat| > 0 ==> |flat| >= BLOCK_SIZE
  {
  }

  /** What the bytes of the next block are, and what is still to be read after it. */
  lemma NextBytes(mem: map<nat, Block>, blocks: seq<nat>, flat: seq<byte>, len: nat, sz: nat, d: seq<byte>,
        tmp: seq<byte>)
    requires Chain(mem, blocks, flat)
    requires BLOCK_SIZE + len <= |flat| && sz <= len && d == flat[BLOCK_SIZE..BLOCK_SIZE + len]
    ensures |flat[BLOCK_SIZE..]| >= len && flat[BLOCK_SIZE..][0..len] == d
    ensures sz >= BLOCK_SIZE ==> |blocks| > 1 && BLOCK_SIZE + (len - BLOCK_SIZE) <= |flat[BLOCK_SIZE..]|
    ensures sz >= BLOCK_SIZE ==> d[BLOCK_SIZE..] == flat[BLOCK_SIZE..][BLOCK_SIZE..BLOCK_SIZE + (len - BLOCK_SIZE)]
    ensures sz >= BLOCK_SIZE ==>
      tmp + flat[BLOCK_SIZE..][0..BLOCK_SIZE] + d[BLOCK_SIZE..][..sz - BLOCK_SIZE] == tmp + d[..sz]
    ensures sz >= BLOCK_SIZE ==> d[BLOCK_SIZE..][sz - BLOCK_SIZE..] == d[sz..]
  {
  }
}
