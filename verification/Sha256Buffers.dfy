/** The three ways the code feeds SHA-256: byte by byte, in file chunks, and padded as a whole.  The block
    function is a parameter; all three compute its fold over the padded message of FIPS 180-4, 5.1.1. */
module Sha256Buffers {
  import opened Options
  import opened Bytes
  import opened Wire

  /** One application of the block function. */
  type BlockFunction<!S> = (S, seq<byte>) -> S

  const BLOCK: nat := 64

  // ----- the specification -----

  /** Zero bytes between the 0x80 and the length: the fewest that fill the last block. */
  function ZeroCount(n: nat): (k: nat)
    ensures k < BLOCK && (n + 1 + k + 8) % BLOCK == 0
  {
    (119 - n % BLOCK) % BLOCK
  }

  function Padded(message: seq<byte>): (p: seq<byte>)
    ensures |p| % BLOCK == 0
  {
    message + [0x80] + Zeros(ZeroCount(|message|)) + BigEndian(8 * |message|, 8)
  }

  function Fold<S>(step: BlockFunction<S>, start: S, data: seq<byte>): S
    requires |data| % BLOCK == 0
  {
    if data == [] then start
    else step(Fold(step, start, data[..|data| - BLOCK]), data[|data| - BLOCK..])
  }

  function Hashed<S>(step: BlockFunction<S>, start: S, message: seq<byte>): S {
    Fold(step, start, Padded(message))
  }

  lemma FoldBlock<S>(step: BlockFunction<S>, start: S, data: seq<byte>, block: seq<byte>)
    requires |data| % BLOCK == 0 && |block| == BLOCK
    ensures Fold(step, start, data + block) == step(Fold(step, start, data), block)
  {
    assert (data + block)[..|data|] == data && (data + block)[|data|..] == block;
  }

  /** The padding is what section 5.1.1 asks for: one bit, the fewest zeros, the length; and it tells
      messages apart. */
  lemma PaddingIsMinimal(n: nat, k: nat)
    requires (n + 1 + k + 8) % BLOCK == 0
    ensures ZeroCount(n) <= k
  {
  }

  lemma PaddingInjective(a: seq<byte>, b: seq<byte>)
    requires 8 * |a| < Pow256(8) && 8 * |b| < Pow256(8) && Padded(a) == Padded(b)
    ensures a == b
  {
    var p := Padded(a);
    assert p[|p| - 8..] == BigEndian(8 * |a|, 8) && p[|p| - 8..] == BigEndian(8 * |b|, 8);
    ValueOfBigEndian(8 * |a|, 8);
    ValueOfBigEndian(8 * |b|, 8);
    assert a == p[..|a|] && b == p[..|b|];
  }

  // ----- the block buffer -----

  /** What the buffer holds: state covers the full blocks of consumed, block[..size] the rest. */
  ghost predicate Holding<S>(step: BlockFunction<S>, start: S, consumed: seq<byte>, state: S, block: seq<byte>, size: nat) {
    && size < BLOCK && |block| == BLOCK && size <= |consumed| && (|consumed| - size) % BLOCK == 0
    && state == Fold(step, start, consumed[..|consumed| - size])
    && block[..size] == consumed[|consumed| - size..]
  }

  /** More bytes copied behind those the buffer holds, ... */
  lemma HoldMore<S>(step: BlockFunction<S>, start: S, consumed: seq<byte>, state: S, block: seq<byte>, size: nat,
                    more: seq<byte>, after: seq<byte>)
    requires Holding(step, start, consumed, state, block, size) && size + |more| < BLOCK && |after| == BLOCK
    requires after[..size + |more|] == block[..size] + more
    ensures Holding(step, start, consumed + more, state, after, size + |more|)
  {
    hide Fold;
    var front, all := consumed[..|consumed| - size], consumed + more;
    assert consumed == front + block[..size];
    assert all == front + after[..size + |more|];
    assert all[..|front|] == front;
  }

  /** ... until the block is full. */
  lemma HoldFull<S>(step: BlockFunction<S>, start: S, consumed: seq<byte>, state: S, block: seq<byte>, size: nat,
                    more: seq<byte>, after: seq<byte>)
    requires Holding(step, start, consumed, state, block, size) && size + |more| == BLOCK == |after|
    requires after == block[..size] + more
    ensures Holding(step, start, consumed + more, step(state, after), after, 0)
  {
    hide Fold;
    var front, all := consumed[..|consumed| - size], consumed + more;
    assert consumed == front + block[..size];
    FoldBlock(step, start, front, after);
    assert all == front + after;
    assert all[..|all| - 0] == all;
  }

  method FillZeros(block: array<byte>, from: nat, to: nat)
    requires from <= to <= block.Length
    modifies block
    ensures block[..] == old(block[..from]) + Zeros(to - from) + old(block[to..])
  {
    for i := from to to
      invariant block[..] == old(block[..from]) + Zeros(i - from) + old(block[i..])
    {
      block[i] := 0;
    }
  }

  /** The length, most significant byte first. */
  method PutLength(block: array<byte>, bits: nat)
    requires block.Length == BLOCK
    modifies block
    ensures block[..] == old(block[..56]) + BigEndian(bits, 8)
  {
    hide BigEndian, Shifted;
    ghost var head, length := block[..56], BigEndian(bits, 8);
    for i := 0 to 8
      invariant block[..56 + i] == head + length[..i]
    {
      BigEndianAt(bits, 8, i);
      block[56 + i] := Shifted(bits, 7 - i) % 256;
    }
  }

  /** Byte i of the big-endian form is the value shifted right, cut to eight bits. */
  lemma {:induction false} BigEndianAt(v: nat, n: nat, i: nat)
    requires i < n
    ensures BigEndian(v, n)[i] == Shifted(v, n - 1 - i) % 256
  {
    BigEndianFirst(v, n);
    if i > 0 { BigEndianAt(v, n - 1, i - 1); }
  }

  /** The bytes of the last blocks that come before the length. */
  function Tail(tail: seq<byte>): (blocks: seq<byte>)
    requires |tail| < BLOCK
    ensures |blocks| % BLOCK == 56
  {
    if |tail| + 1 > 56 then tail + [0x80] + Zeros(BLOCK - |tail| - 1) + Zeros(56) else tail + [0x80] + Zeros(56 - |tail| - 1)
  }

  lemma TailCount(n: nat, size: nat)
    requires size < BLOCK && n % BLOCK == size
    ensures ZeroCount(n) == if size + 1 > 56 then BLOCK - size - 1 + 56 else 56 - size - 1
  {
  }

  lemma ZerosAdd(a: nat, b: nat)
    ensures Zeros(a) + Zeros(b) == Zeros(a + b)
  {
  }

  lemma FrontSize(front: seq<byte>, tail: seq<byte>)
    requires |tail| < BLOCK && |front| % BLOCK == 0
    ensures |front + tail| % BLOCK == |tail|
  {
  }

  lemma TailIs(tail: seq<byte>, n: nat)
    requires |tail| < BLOCK && n % BLOCK == |tail|
    ensures Tail(tail) == tail + [0x80] + Zeros(ZeroCount(n))
  {
    hide ZeroCount, Zeros;
    TailCount(n, |tail|);
    ZerosAdd(BLOCK - |tail| - 1, 56);
    if |tail| + 1 > 56 { Regroup(tail + [0x80], Zeros(BLOCK - |tail| - 1), Zeros(56)); }
  }

  lemma Regroup(a: seq<byte>, b: seq<byte>, c: seq<byte>)
    ensures a + b + c == a + (b + c)
  {
  }

  lemma TailPads(front: seq<byte>, tail: seq<byte>)
    requires |tail| < BLOCK && |front| % BLOCK == 0
    ensures front + (Tail(tail) + BigEndian(8 * |front + tail|, 8)) == Padded(front + tail)
  {
    hide BigEndian, ZeroCount, Zeros, Tail;
    var n, mark := |front + tail|, [0x80];
    FrontSize(front, tail);
    TailIs(tail, n);
    var zeros, length := Zeros(ZeroCount(n)), BigEndian(8 * n, 8);
    Regroup(front, tail + mark + zeros, length);
    Regroup(front, tail + mark, zeros);
    Regroup(front, tail, mark);
  }

  /** The 0x80 and the zeros, with one more block when they leave no room for the length. */
  method PutPadding<S>(step: BlockFunction<S>, ghost start: S, ghost front: seq<byte>, state: S, block: array<byte>, size: nat)
    returns (r: S, ghost flushed: seq<byte>)
    requires block.Length == BLOCK && size < BLOCK && |front| % BLOCK == 0 && state == Fold(step, start, front)
    modifies block
    ensures |flushed| % BLOCK == 0 && r == Fold(step, start, front + flushed)
    ensures flushed + block[..56] == Tail(old(block[..size]))
  {
    hide Fold;
    ghost var tail := block[..size];
    var blockSize := size;
    r, flushed := state, [];
    block[blockSize] := 0x80;
    blockSize := blockSize + 1;
    assert block[..blockSize] == tail + [0x80];
    if blockSize > 56 {
      FillZeros(block, blockSize, BLOCK);
      flushed := block[..];
      FoldBlock(step, start, front, flushed);
      r := step(r, block[..]);
      blockSize := 0;
    }
    assert front + [] == front;
    FillZeros(block, blockSize, 56);
  }

  lemma Reassociated(a: seq<byte>, b: seq<byte>, c: seq<byte>, d: seq<byte>)
    ensures a + b + (c + d) == a + (b + c + d)
  {
  }

  /** Padding and the last one or two blocks, as the first two forms do it. */
  method Finish<S>(step: BlockFunction<S>, ghost start: S, ghost message: seq<byte>, state: S, block: array<byte>, size: nat,
                   bytes: nat)
    returns (r: S)
    requires block.Length == BLOCK && bytes == |message| && Holding(step, start, message, state, block[..], size)
    modifies block
    ensures r == Hashed(step, start, message)
  {
    hide BigEndian, Fold, Tail, Padded;
    ghost var front, tail := message[..|message| - size], block[..size];
    assert message == front + tail;
    ghost var flushed: seq<byte>;
    r, flushed := PutPadding(step, start, front, state, block, size);
    ghost var head := block[..56];
    PutLength(block, 8 * bytes);
    FoldBlock(step, start, front + flushed, block[..]);
    TailPads(front, tail);
    ghost var length := BigEndian(8 * bytes, 8);
    assert block[..] == head + length;
    Reassociated(front, flushed, head, length);
    r := step(r, block[..]);
  }

  // ----- byte by byte: model_manifest.cc -----

  method HashBytes<S>(step: BlockFunction<S>, start: S, input: seq<byte>) returns (r: S)
    ensures r == Hashed(step, start, input)
  {
    hide Fold;
    var state, blockSize := start, 0;
    var block := new byte[BLOCK](_ => 0);
    HoldNothing(step, start, block[..]);
    for i := 0 to |input|
      invariant 0 <= blockSize < BLOCK && Holding(step, start, input[..i], state, block[..], blockSize)
    {
      ghost var before := block[..];
      block[blockSize] := input[i];
      assert input[..i] + [input[i]] == input[..i + 1];
      assert block[..blockSize + 1] == before[..blockSize] + [input[i]];
      if blockSize + 1 < BLOCK { HoldMore(step, start, input[..i], state, before, blockSize, [input[i]], block[..]); }
      blockSize := blockSize + 1;
      if blockSize == BLOCK {
        HoldFull(step, start, input[..i], state, before, BLOCK - 1, [input[i]], block[..]);
        state := step(state, block[..]);
        blockSize := 0;
      }
    }
    assert input[..|input|] == input;
    r := Finish(step, start, input, state, block, blockSize, |input|);
  }

  lemma HoldingSize<S>(step: BlockFunction<S>, start: S, consumed: seq<byte>, state: S, block: seq<byte>, size: nat)
    requires Holding(step, start, consumed, state, block, size)
    ensures size < BLOCK
  {
  }

  lemma HoldNothing<S>(step: BlockFunction<S>, start: S, block: seq<byte>)
    requires |block| == BLOCK
    ensures Holding(step, start, [], start, block, 0)
  {
  }

  // ----- file chunks: mlvc_codec_runtime.cc -----

  /** What the pieces of a file give: up to the first empty one. */
  function Contents(pieces: seq<seq<byte>>): seq<byte> {
    if pieces == [] || pieces[0] == [] then [] else pieces[0] + Contents(pieces[1..])
  }

  const MAX_FILE_BYTES: nat := 0x1FFF_FFFF_FFFF_FFFF

  /** Fails when the size is not the expected one, or its bit count would not fit. */
  method HashFile<S>(step: BlockFunction<S>, start: S, pieces: seq<seq<byte>>, expected: nat) returns (r: Option<S>)
    ensures r == if expected <= MAX_FILE_BYTES && |Contents(pieces)| == expected
                 then Some(Hashed(step, start, Contents(pieces))) else None
  {
    hide Fold, Hashed;
    if expected > MAX_FILE_BYTES { return None; }
    var state, blockSize, bytesRead, next := start, 0, 0, 0;
    var block := new byte[BLOCK](_ => 0);
    ghost var consumed: seq<byte> := [];
    HoldNothing(step, start, block[..]);
    assert pieces[0..] == pieces;
    while next < |pieces| && pieces[next] != []
      invariant next <= |pieces| && bytesRead == |consumed| && consumed + Contents(pieces[next..]) == Contents(pieces)
      invariant 0 <= blockSize < BLOCK && Holding(step, start, consumed, state, block[..], blockSize)
    {
      state, blockSize := TakeChunk(step, start, consumed, state, block, blockSize, pieces[next]);
      assert pieces[next..][1..] == pieces[next + 1..];
      consumed := consumed + pieces[next];
      bytesRead := bytesRead + |pieces[next]|;
      next := next + 1;
    }
    assert Contents(pieces[next..]) == [];
    assert consumed == Contents(pieces);
    if bytesRead != expected { return None; }
    var digest := Finish(step, start, consumed, state, block, blockSize, expected);
    return Some(digest);
  }

  /** std::copy_n into the block */
  method CopyPiece(block: array<byte>, at: nat, chunk: seq<byte>, offset: nat, copied: nat)
    requires at + copied <= block.Length && offset + copied <= |chunk|
    modifies block
    ensures block[..at + copied] == old(block[..at]) + chunk[offset..offset + copied]
  {
    for k := 0 to copied
      invariant block[..at + k] == old(block[..at]) + chunk[offset..offset + k]
    {
      block[at + k] := chunk[offset + k];
    }
  }

  /** The inner loop: copies as much as fits, and hashes whenever the block is full. */
  method TakeChunk<S>(step: BlockFunction<S>, ghost start: S, ghost consumed: seq<byte>, before: S, block: array<byte>,
                      size: nat, chunk: seq<byte>)
    returns (state: S, blockSize: nat)
    requires block.Length == BLOCK && Holding(step, start, consumed, before, block[..], size)
    modifies block
    ensures Holding(step, start, consumed + chunk, state, block[..], blockSize)
  {
    hide Fold, Holding;
    HoldingSize(step, start, consumed, before, block[..], size);
    state, blockSize := before, size;
    var offset := 0;
    assert consumed + chunk[..0] == consumed;
    while offset < |chunk|
      invariant offset <= |chunk| && blockSize < BLOCK
      invariant Holding(step, start, consumed + chunk[..offset], state, block[..], blockSize)
    {
      var copied := if BLOCK - blockSize < |chunk| - offset then BLOCK - blockSize else |chunk| - offset;
      ghost var was, piece := block[..], chunk[offset..offset + copied];
      CopyPiece(block, blockSize, chunk, offset, copied);
      ghost var seen := consumed + chunk[..offset];
      assert seen + piece == consumed + chunk[..offset + copied];
      if blockSize + copied < BLOCK { HoldMore(step, start, seen, state, was, blockSize, piece, block[..]); }
      blockSize := blockSize + copied;
      offset := offset + copied;
      if blockSize == BLOCK {
        HoldFull(step, start, seen, state, was, blockSize - copied, piece, block[..]);
        state := step(state, block[..]);
        blockSize := 0;
      }
    }
    assert chunk[..|chunk|] == chunk;
  }

  // ----- padded as a whole: mlvc_media_unit.cc -----

  method HashWhole<S>(step: BlockFunction<S>, start: S, input: seq<byte>) returns (state: S)
    ensures state == Hashed(step, start, input)
  {
    hide Fold, Padded;
    var padded := PadWhole(input);
    state := start;
    FoldNothing(step, start);
    var block := 0;
    while block < |padded|
      invariant block <= |padded| && block % BLOCK == 0 && state == Fold(step, start, padded[..block])
    {
      assert padded[..block] + padded[block..block + BLOCK] == padded[..block + BLOCK];
      FoldBlock(step, start, padded[..block], padded[block..block + BLOCK]);
      state := step(state, padded[block..block + BLOCK]);
      block := block + BLOCK;
    }
    assert padded[..|padded|] == padded;
  }

  method PadWhole(input: seq<byte>) returns (padded: seq<byte>)
    ensures padded == Padded(input)
  {
    hide BigEndian, ZeroCount;
    padded := input + [0x80];
    ghost var zeros := 0;
    while |padded| % BLOCK != 56
      invariant zeros <= ZeroCount(|input|) && padded == input + [0x80] + Zeros(zeros)
      decreases ZeroCount(|input|) - zeros
    {
      ZerosLeft(|input|, zeros);
      padded := padded + [0];
      zeros := zeros + 1;
    }
    ZerosDone(|input|, zeros);
    padded := Put(padded, 8 * |input|, 8);
  }

  lemma ZerosLeft(n: nat, k: nat)
    requires k <= ZeroCount(n) && (n + 1 + k) % BLOCK != 56
    ensures k < ZeroCount(n)
  {
  }

  lemma FoldNothing<S>(step: BlockFunction<S>, start: S)
    ensures Fold(step, start, []) == start
  {
  }

  lemma ZerosDone(n: nat, k: nat)
    requires k <= ZeroCount(n) && (n + 1 + k) % BLOCK == 56
    ensures k == ZeroCount(n)
  {
    PaddingIsMinimal(n, k);
  }
}
