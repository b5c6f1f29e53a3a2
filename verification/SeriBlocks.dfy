/** Messages are kept in a chain of blocks on the heap, allocated while they are written
    and freed while they are read. */
module SeriBlocks {
  import opened Common
  import opened SeriBytes

  const BLOCK_SIZE: nat := 128
  const NULL: nat := 0

  datatype Block = Block(next: nat, buffer: seq<byte>)

  /** The bytes of block i. */
  function Piece(flat: seq<byte>, i: nat): seq<byte>
    requires BLOCK_SIZE * (i + 1) <= |flat|
  {
    flat[BLOCK_SIZE * i..BLOCK_SIZE * (i + 1)]
  }

  function Overwrite(b: seq<byte>, at: nat, x: seq<byte>): (r: seq<byte>)
    requires at + |x| <= |b|
    ensures |r| == |b|
  {
    b[..at] + x + b[at + |x|..]
  }

  function After(blocks: seq<nat>, i: nat): nat {
    if i + 1 < |blocks| then blocks[i + 1] else NULL
  }

  /** The blocks are linked one after the other, none is freed, and together they hold flat. */
  ghost predicate Chain(mem: map<nat, Block>, blocks: seq<nat>, flat: seq<byte>) {
    && |flat| == BLOCK_SIZE * |blocks| && NoRepeats(blocks)
    && forall i: nat :: i < |blocks| ==>
      blocks[i] != NULL && blocks[i] in mem && mem[blocks[i]] == Block(After(blocks, i), Piece(flat, i))
  }

  function Addrs(blocks: seq<nat>): set<nat> {
    set b | b in blocks
  }

  /** The part of the heap that is not in the chain. */
  function Others(mem: map<nat, Block>, blocks: seq<nat>): map<nat, Block> {
    mem - Addrs(blocks)
  }

  function First(blocks: seq<nat>): nat {
    if blocks == [] then NULL else blocks[0]
  }

  function Last(blocks: seq<nat>): nat
    requires blocks != []
  {
    blocks[|blocks| - 1]
  }

  // ----- changes to a chain -----

  lemma PieceAppend(flat: seq<byte>, x: seq<byte>, n: nat, i: nat)
    requires |flat| == BLOCK_SIZE * n && |x| == BLOCK_SIZE && i <= n
    ensures Piece(flat + x, i) == if i < n then Piece(flat, i) else x
  {
  }

  /** A new block is linked in at the end. */
  lemma ChainAppend(mem: map<nat, Block>, blocks: seq<nat>, flat: seq<byte>, b: nat, x: seq<byte>)
    requires Chain(mem, blocks, flat) && blocks != [] && b !in mem && b != NULL && |x| == BLOCK_SIZE
    ensures var last := Last(blocks); var mem' := mem[b := Block(NULL, x)][last := mem[last].(next := b)];
      && last in mem && last != b
      && Chain(mem', blocks + [b], flat + x) && Others(mem', blocks + [b]) == Others(mem, blocks)
      && (flat + x)[..|flat|] == flat
  {
    var n, last := |blocks|, Last(blocks);
    var mem' := mem[b := Block(NULL, x)][last := mem[last].(next := b)];
    var blocks' := blocks + [b];
    OthersAppend(mem, blocks, b, Block(NULL, x), mem[last].(next := b));
    hide Piece, Others;
    forall i: nat | i <= n
      ensures blocks'[i] != NULL && blocks'[i] in mem'
      ensures mem'[blocks'[i]] == Block(After(blocks', i), Piece(flat + x, i))
    {
      PieceAppend(flat, x, n, i);
    }
  }

  lemma OthersAppend(mem: map<nat, Block>, blocks: seq<nat>, b: nat, x: Block, y: Block)
    requires blocks != [] && b !in mem
    ensures Others(mem[b := x][Last(blocks) := y], blocks + [b]) == Others(mem, blocks)
  {
    assert Addrs(blocks + [b]) == Addrs(blocks) + {b} && Last(blocks) in blocks;
  }

  lemma PieceOverwrite(flat: seq<byte>, n: nat, ptr: nat, x: seq<byte>, i: nat)
    requires |flat| == BLOCK_SIZE * (n + 1) && ptr + |x| <= BLOCK_SIZE && i <= n
    ensures Piece(Overwrite(flat, BLOCK_SIZE * n + ptr, x), i) == if i < n then Piece(flat, i)
      else Overwrite(Piece(flat, n), ptr, x)
    ensures Overwrite(flat, BLOCK_SIZE * n + ptr, x)[..BLOCK_SIZE * n + ptr + |x|] == flat[..BLOCK_SIZE * n + ptr] + x
  {
  }

  /** Bytes are written to the last block. */
  lemma ChainWrite(mem: map<nat, Block>, blocks: seq<nat>, flat: seq<byte>, ptr: nat, x: seq<byte>)
    requires Chain(mem, blocks, flat) && blocks != [] && ptr + |x| <= BLOCK_SIZE
    ensures var last := Last(blocks); var len := BLOCK_SIZE * (|blocks| - 1) + ptr;
      && last in mem && |mem[last].buffer| == BLOCK_SIZE
      && var mem' := mem[last := mem[last].(buffer := Overwrite(mem[last].buffer, ptr, x))];
         var flat' := Overwrite(flat, len, x);
         Chain(mem', blocks, flat') && Others(mem', blocks) == Others(mem, blocks)
           && flat'[..len + |x|] == flat[..len] + x
  {
    var n, last := |blocks| - 1, Last(blocks);
    var mem' := mem[last := mem[last].(buffer := Overwrite(mem[last].buffer, ptr, x))];
    var flat' := Overwrite(flat, BLOCK_SIZE * n + ptr, x);
    assert mem[last] == Block(NULL, Piece(flat, n)) && last in blocks;
    PieceOverwrite(flat, n, ptr, x, n);
    hide Piece, Overwrite, Others;
    OthersUpdate(mem, blocks, last, mem'[last]);
    forall i: nat | i <= n ensures blocks[i] in mem' && mem'[blocks[i]] == Block(After(blocks, i), Piece(flat', i)) {
      PieceOverwrite(flat, n, ptr, x, i);
    }
    PieceOverwrite(flat, n, ptr, x, n);
  }

  lemma OthersUpdate(mem: map<nat, Block>, blocks: seq<nat>, b: nat, x: Block)
    requires b in blocks
    ensures Others(mem[b := x], blocks) == Others(mem, blocks)
  {
    assert b in Addrs(blocks);
  }

  lemma PieceHead(flat: seq<byte>, n: nat, x: seq<byte>, i: nat)
    requires |flat| == BLOCK_SIZE * n && |x| <= BLOCK_SIZE && i < n
    ensures |x + flat[|x|..]| == |flat|
    ensures Piece(x + flat[|x|..], i) == if i > 0 then Piece(flat, i) else Overwrite(Piece(flat, 0), 0, x)
  {
  }

  /** Bytes are written over the start of the first block. */
  lemma ChainHead(mem: map<nat, Block>, blocks: seq<nat>, flat: seq<byte>, x: seq<byte>)
    requires Chain(mem, blocks, flat) && blocks != [] && |x| <= BLOCK_SIZE
    ensures var b := blocks[0];
      && b in mem && |mem[b].buffer| == BLOCK_SIZE
      && var mem' := mem[b := mem[b].(buffer := Overwrite(mem[b].buffer, 0, x))];
         Chain(mem', blocks, x + flat[|x|..]) && Others(mem', blocks) == Others(mem, blocks)
  {
    var b, flat' := blocks[0], x + flat[|x|..];
    assert mem[b] == Block(After(blocks, 0), Piece(flat, 0));
    var mem' := mem[b := mem[b].(buffer := Overwrite(mem[b].buffer, 0, x))];
    OthersUpdate(mem, blocks, b, mem'[b]);
    PieceHead(flat, |blocks|, x, 0);
    hide Piece, Overwrite, Others;
    forall i: nat | i < |blocks| ensures blocks[i] in mem'
      && mem'[blocks[i]] == Block(After(blocks, i), Piece(flat', i)) {
      PieceHead(flat, |blocks|, x, i);
    }
  }

  lemma OthersFree(mem: map<nat, Block>, blocks: seq<nat>)
    requires blocks != []
    ensures Others(mem - {blocks[0]}, blocks[1..]) == Others(mem, blocks)
  {
    assert Addrs(blocks) == Addrs(blocks[1..]) + {blocks[0]} by { assert blocks == [blocks[0]] + blocks[1..]; }
  }

  lemma PieceTail(flat: seq<byte>, n: nat, i: nat)
    requires |flat| == BLOCK_SIZE * n && i < n
    ensures i > 0 ==> Piece(flat[BLOCK_SIZE..], i - 1) == Piece(flat, i)
    ensures Piece(flat, 0) == flat[..BLOCK_SIZE]
  {
  }

  /** The first block is freed. */
  lemma ChainFree(mem: map<nat, Block>, blocks: seq<nat>, flat: seq<byte>)
    requires Chain(mem, blocks, flat) && blocks != []
    ensures var mem' := mem - {blocks[0]};
      && blocks[0] in mem && mem[blocks[0]] == Block(First(blocks[1..]), flat[..BLOCK_SIZE])
      && Chain(mem', blocks[1..], flat[BLOCK_SIZE..]) && Others(mem', blocks[1..]) == Others(mem, blocks)
  {
    var mem', rest, flat' := mem - {blocks[0]}, blocks[1..], flat[BLOCK_SIZE..];
    OthersFree(mem, blocks);
    PieceTail(flat, |blocks|, 0);
    hide Piece, Others;
    forall i: nat | i < |rest|
      ensures rest[i] != NULL && rest[i] in mem' && mem'[rest[i]] == Block(After(rest, i), Piece(flat', i))
    {
      assert rest[i] == blocks[i + 1] && blocks[i + 1] != blocks[0];
      PieceTail(flat, |blocks|, i + 1);
    }
  }
}
