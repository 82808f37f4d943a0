/** Block-wise download of an image or app file (RFC 7959). */
module Blocks {
  import opened Addresses
  import opened Words

  const DEFAULT_BLOCK_SIZE := 512

  // Block numbers have twenty bits, option values twenty-four.
  const BLOCKS := 0x10_0000

  type Value = n: nat | n < 0x100_0000

  /* The Block2 option, section 2.2 of RFC 7959: NUM, then the more bit, then the size exponent */

  function BlockSize(value: nat): nat {
    var szx := value % 8;
    if szx == 0 then 16 else if szx == 1 then 32 else if szx == 2 then 64 else if szx == 3 then 128
    else if szx == 4 then 256 else if szx == 5 then 512 else if szx == 6 then 1024 else 2048
  }

  function BlockNumber(value: nat): nat {
    value / 16
  }

  function ByteOffset(value: nat): nat {
    BlockNumber(value) * BlockSize(value) % U32
  }

  function SizeExponent(size: nat): nat {
    if size == 16 then 0 else if size == 32 then 1 else if size == 64 then 2 else if size == 128 then 3
    else if size == 256 then 4 else if size == 512 then 5 else if size == 1024 then 6 else 7
  }

  function MakeBlock(num: nat, more: bool, size: nat): nat {
    num * 16 + (if more then 8 else 0) + SizeExponent(size)
  }

  datatype Response =
    | Content(size2: nat, block2: nat, payload: seq<Byte>)
    | OutOfBound
    | FileNotFound

  function Min(x: nat, y: nat): nat {
    if x < y then x else y
  }

  // What a request with this option value is answered: the size is cast to 32 bits.
  function Answer(file: seq<Byte>, value: Value): Response {
    var size, offset, bs := |file| % U32, ByteOffset(value), BlockSize(value);
    if offset > size then OutOfBound
    else
      var left := size - offset;
      Content(size, MakeBlock(BlockNumber(value), left >= bs, bs), file[offset..offset + Min(left, bs)])
  }

  // get_ota_handler and get_app_handler
  method Serve(file: Option<seq<Byte>>, option: Option<Value>) returns (r: Response)
    ensures file.None? <==> r.FileNotFound?
    ensures file.Some? && option.Some? ==> r == Answer(file.value, option.value)
    ensures file.Some? && option.None? ==>
              var size := |file.value| % U32;
              r == Content(size, MakeBlock(0, true, DEFAULT_BLOCK_SIZE), file.value[..Min(size, DEFAULT_BLOCK_SIZE)])
  {
    if file.None? {
      return FileNotFound;
    }
    var size := |file.value| % U32;
    var blockSize, blockNum, offset, left, more := DEFAULT_BLOCK_SIZE, 0, 0, size, true;
    if option.Some? {
      blockSize := BlockSize(option.value);
      blockNum := BlockNumber(option.value);
      offset := ByteOffset(option.value);
      if offset > size {
        return OutOfBound;
      }
      left := left - offset;
      if left < blockSize {
        more := false;
      }
    }
    var len := if left > blockSize then blockSize else left;
    var buffer := file.value[offset..offset + len];
    r := Content(size, MakeBlock(blockNum, more, blockSize), buffer);
  }

  /* The client: blocks in sequence while the more flag is set, never raising the block size */

  predicate More(block2: nat) {
    block2 / 8 % 2 == 1
  }

  predicate Valid(szx: nat) {
    szx <= 6
  }

  function SizeOf(szx: nat): nat {
    BlockSize(szx)
  }

  predicate Askable(pos: nat, szx: nat) {
    SizeOf(szx) > 0 && pos / SizeOf(szx) < BLOCKS
  }

  // The option value asking for the bytes at pos in blocks of the given size
  function Ask(pos: nat, szx: nat): Value
    requires Valid(szx) && Askable(pos, szx)
  {
    pos / SizeOf(szx) * 16 + szx
  }

  // The size lies in the lowest three bits.
  lemma SizeBits(value: nat)
    ensures BlockSize(value) == BlockSize(value % 8)
  {
  }

  lemma AskParts(num: nat, szx: nat)
    requires Valid(szx)
    ensures (num * 16 + szx) % 8 == szx && (num * 16 + szx) / 16 == num
  {
    Unique(8, num * 16 + szx, num * 2, szx);
    Unique(16, num * 16 + szx, num, szx);
  }

  lemma OffsetIs(value: nat, num: nat, size: nat, pos: nat)
    requires BlockNumber(value) == num && BlockSize(value) == size && num * size == pos < U32
    ensures ByteOffset(value) == pos
  {
    hide BlockNumber, BlockSize;
  }

  lemma WholeBlocks(pos: nat, size: nat)
    requires size > 0 && pos % size == 0
    ensures pos / size * size == pos
  {
  }

  lemma AskIs(pos: nat, szx: nat)
    requires Valid(szx) && pos % SizeOf(szx) == 0 && pos < U32 && Askable(pos, szx)
    ensures BlockSize(Ask(pos, szx)) == SizeOf(szx) && ByteOffset(Ask(pos, szx)) == pos
    ensures BlockNumber(Ask(pos, szx)) == pos / SizeOf(szx)
  {
    hide BlockSize, ByteOffset;
    SizeAtLeast(szx);
    SizeBits(Ask(pos, szx));
    AskParts(pos / SizeOf(szx), szx);
    WholeBlocks(pos, SizeOf(szx));
    OffsetIs(Ask(pos, szx), pos / SizeOf(szx), SizeOf(szx), pos);
  }

  lemma MoreIs(num: nat, more: bool, szx: nat)
    requires Valid(szx)
    ensures var b := MakeBlock(num, more, SizeOf(szx));
            More(b) == more && BlockNumber(b) == num && BlockSize(b) == SizeOf(szx)
  {
  }

  function Lower(szx: nat, wish: nat): nat {
    if wish < szx then wish else szx
  }

  lemma SizeAtLeast(szx: nat)
    ensures SizeOf(szx) >= 16
  {
  }

  lemma Doubles(szx: nat)
    requires 0 < szx && Valid(szx)
    ensures SizeOf(szx) == 2 * SizeOf(szx - 1)
  {
  }

  lemma MultipleOf(d: nat, k: nat)
    requires d > 0
    ensures d * k % d == 0
  {
    if k > 0 {
      MultipleOf(d, k - 1);
      StepMod(d, d * (k - 1));
      assert d * k == d * (k - 1) + d;
    }
  }

  lemma StepMod(d: nat, n: nat)
    requires d > 0
    ensures (n + d) % d == n % d && (n + d) / d == n / d + 1
  {
    var q, r := n / d, n % d;
    assert n + d == d * (q + 1) + r by {
      assert n == d * q + r;
      assert d * (q + 1) == d * q + d;
    }
    Unique(d, n + d, q + 1, r);
  }

  lemma Unique(d: nat, n: nat, q: nat, r: nat)
    requires n == d * q + r && r < d
    ensures n / d == q && n % d == r
  {
    var p := n / d;
    assert n == d * p + n % d;
    Monotone(d, p + 1, q);
    Monotone(d, q + 1, p);
    assert d * (p + 1) == d * p + d && d * (q + 1) == d * q + d;
  }

  lemma Monotone(d: nat, p: nat, q: nat)
    ensures p <= q ==> d * p <= d * q
  {
  }

  lemma HalfDivides(d: nat, n: nat)
    requires d > 0 && n % (2 * d) == 0
    ensures n % d == 0
  {
    var q := n / (2 * d);
    assert n == d * (2 * q);
    MultipleOf(d, 2 * q);
  }

  // What a block size divides, a smaller one divides too
  lemma {:induction false} LowerFits(pos: nat, szx: nat, low: nat)
    requires Valid(szx) && low <= szx
    requires SizeOf(szx) > 0 && pos % SizeOf(szx) == 0
    ensures SizeOf(low) > 0 && pos % SizeOf(low) == 0
    decreases szx
  {
    if low < szx {
      Doubles(szx);
      SizeAtLeast(szx - 1);
      HalfDivides(SizeOf(szx - 1), pos);
      LowerFits(pos, szx - 1, low);
    }
  }

  // The position after a whole block is a multiple of the block size the client goes on with.
  lemma NextFits(szx: nat, wish: nat, pos: nat)
    requires Valid(szx) && pos % SizeOf(szx) == 0
    ensures Valid(Lower(szx, wish)) && (pos + SizeOf(szx)) % SizeOf(Lower(szx, wish)) == 0
  {
    hide BlockSize;
    SizeAtLeast(szx);
    StepMod(SizeOf(szx), pos);
    LowerFits(pos + SizeOf(szx), szx, Lower(szx, wish));
  }

  // What a client collects, and whether it was told that this is all
  datatype Transfer = Transfer(parts: seq<seq<Byte>>, done: bool)

  // The client goes on from byte pos while the more flag is set, and stops short of a block number it cannot
  // ask for. Before each further request it may lower the block size as it wishes.
  function Fetch(file: seq<Byte>, pos: nat, szx: nat, wish: nat -> nat): Transfer
    requires Valid(szx) && pos % SizeOf(szx) == 0 && pos <= |file| % U32 && Askable(pos, szx)
    decreases |file| - pos
  {
    AskIs(pos, szx);
    var r := Answer(file, Ask(pos, szx));
    var next := pos + SizeOf(szx);
    MoreIs(pos / SizeOf(szx), |file| % U32 - pos >= SizeOf(szx), szx);
    if !More(r.block2) then Transfer([r.payload], true)
    else
      NextFits(szx, wish(next), pos);
      var low := Lower(szx, wish(next));
      if !Askable(next, low) then Transfer([r.payload], false)
      else
        var rest := Fetch(file, next, low, wish);
        Transfer([r.payload] + rest.parts, rest.done)
  }

  function Concat(parts: seq<seq<Byte>>): seq<Byte> {
    if parts == [] then [] else parts[0] + Concat(parts[1..])
  }

  // No request a client can make is answered "out of bound", and the block of every answer is the one asked for.
  lemma NeverOutOfBound(file: seq<Byte>, pos: nat, szx: nat)
    requires Valid(szx) && pos % SizeOf(szx) == 0 && pos <= |file| % U32 && Askable(pos, szx)
    ensures var r := Answer(file, Ask(pos, szx));
            && r.Content? && r.size2 == |file| % U32
            && BlockNumber(r.block2) == pos / SizeOf(szx) && BlockSize(r.block2) == SizeOf(szx)
            && (More(r.block2) <==> pos + SizeOf(szx) <= |file| % U32)
            && r.payload == file[pos..Min(pos + SizeOf(szx), |file| % U32)]
  {
    hide BlockSize, ByteOffset, BlockNumber, MakeBlock, More, Ask;
    SizeAtLeast(szx);
    AskIs(pos, szx);
    MoreIs(pos / SizeOf(szx), |file| % U32 - pos >= SizeOf(szx), szx);
  }

  function Pow2(n: nat): nat {
    if n == 0 then 1 else 2 * Pow2(n - 1)
  }

  lemma SizeIs(szx: nat)
    requires szx < 8
    ensures BlockSize(szx) == 16 * Pow2(szx) && 16 <= BlockSize(szx) <= 2048
    ensures SizeExponent(BlockSize(szx)) == szx
  {
    if szx > 0 { SizeIs(szx - 1); }
  }

  lemma ValueParts(num: nat, flag: nat, szx: nat)
    requires szx < 8 && (flag == 0 || flag == 8)
    ensures BlockSize(num * 16 + flag + szx) == BlockSize(szx) && BlockNumber(num * 16 + flag + szx) == num
  {
    hide BlockSize;
    Unique(8, num * 16 + flag + szx, num * 2 + flag / 8, szx);
    Unique(16, num * 16 + flag + szx, num, flag + szx);
    SizeBits(num * 16 + flag + szx);
  }

  lemma InBounds(num: nat, size: nat)
    requires num < BLOCKS && 16 <= size <= 2048
    ensures num * size < U32
  {
    Monotone(num, size, 2048);
  }

  // The answer to a request for a block that begins at one byte of the file and has some size
  predicate AnswerIs(file: seq<Byte>, num: nat, szx: nat, begin: nat, size: nat, r: Response) {
    var length := |file| % U32;
    if length < begin then r == OutOfBound
    else if begin + size <= length then r == Content(length, num * 16 + 8 + szx, file[begin..begin + size])
    else r == Content(length, num * 16 + szx, file[begin..length])
  }

  // Any request: its number, whatever its more bit, and its exponent name a block of sixteen bytes or a power of two
  // times that. One that begins past the file's size is out of bound; any other gets the bytes there are, and the
  // more flag if they fill the block.
  lemma AnswerExact(file: seq<Byte>, num: nat, flag: nat, szx: nat)
    requires num < BLOCKS && szx < 8 && (flag == 0 || flag == 8)
    ensures AnswerIs(file, num, szx, num * (16 * Pow2(szx)), 16 * Pow2(szx), Answer(file, num * 16 + flag + szx))
  {
    hide BlockSize, BlockNumber, ByteOffset, SizeExponent, Pow2;
    ValueParts(num, flag, szx);
    SizeIs(szx);
    InBounds(num, BlockSize(szx));
    OffsetIs(num * 16 + flag + szx, num, BlockSize(szx), num * BlockSize(szx));
  }

  // One request and its answer
  lemma FetchStep(file: seq<Byte>, pos: nat, szx: nat, wish: nat -> nat)
    requires Valid(szx) && pos % SizeOf(szx) == 0 && pos <= |file| % U32 && Askable(pos, szx)
    ensures var size, next := |file| % U32, pos + SizeOf(szx);
            var low := Lower(szx, wish(next));
            && Valid(low) && SizeOf(low) > 0 && next % SizeOf(low) == 0
            && Fetch(file, pos, szx, wish) ==
               if next > size then Transfer([file[pos..size]], true)
               else if !Askable(next, low) then Transfer([file[pos..next]], false)
               else
                 var rest := Fetch(file, next, low, wish);
                 Transfer([file[pos..next]] + rest.parts, rest.done)
  {
    hide BlockSize, Answer, Ask, Lower, Askable;
    SizeAtLeast(szx);
    SizeAtLeast(Lower(szx, wish(pos + SizeOf(szx))));
    NeverOutOfBound(file, pos, szx);
    NextFits(szx, wish(pos + SizeOf(szx)), pos);
  }

  lemma ConcatFirst(part: seq<Byte>, parts: seq<seq<Byte>>)
    ensures Concat([part] + parts) == part + Concat(parts)
  {
    assert ([part] + parts)[1..] == parts;
  }

  lemma ConcatOne(part: seq<Byte>)
    ensures Concat([part]) == part
  {
  }

  lemma Halves(file: seq<Byte>, i: nat, j: nat, k: nat)
    requires i <= j <= k <= |file|
    ensures file[i..k] == file[i..j] + file[j..k]
  {
  }

  // The payloads join up to the file from pos on, whatever block sizes the client goes down to; when it is told
  // that this is all, up to the file's length as the cast to 32 bits leaves it.
  lemma {:induction false} FetchesAll(file: seq<Byte>, pos: nat, szx: nat, wish: nat -> nat)
    requires Valid(szx) && pos % SizeOf(szx) == 0 && pos <= |file| % U32 && Askable(pos, szx)
    ensures var t := Fetch(file, pos, szx, wish);
            var end := pos + |Concat(t.parts)|;
            end <= |file| % U32 && Concat(t.parts) == file[pos..end] && (t.done ==> end == |file| % U32)
    decreases |file| - pos
  {
    hide BlockSize, Fetch, Concat, Askable;
    FetchStep(file, pos, szx, wish);
    SizeAtLeast(szx);
    var size, next := |file| % U32, pos + SizeOf(szx);
    var low := Lower(szx, wish(next));
    if next > size {
      ConcatOne(file[pos..size]);
    } else if !Askable(next, low) {
      ConcatOne(file[pos..next]);
    } else {
      var rest := Fetch(file, next, low, wish).parts;
      FetchesAll(file, next, low, wish);
      ConcatFirst(file[pos..next], rest);
      Halves(file, pos, next, next + |Concat(rest)|);
    }
  }

  /* Whether the client is told that it has all */

  // The block size of the last request, had all been asked
  function Settled(size: nat, pos: nat, szx: nat, wish: nat -> nat): (last: nat)
    requires Valid(szx)
    ensures last <= szx
    decreases size - pos
  {
    SizeAtLeast(szx);
    var next := pos + SizeOf(szx);
    if next <= size then Settled(size, next, Lower(szx, wish(next)), wish) else szx
  }

  lemma AtLeast(n: nat, d: nat, q: nat)
    requires d > 0 && d * q <= n
    ensures q <= n / d
  {
    var p := n / d;
    assert n < d * (p + 1) by {
      assert n == d * p + n % d && d * (p + 1) == d * p + d;
    }
    Monotone(d, p + 1, q);
  }

  lemma {:induction false} SizesFall(szx: nat, low: nat)
    requires Valid(szx) && low <= szx
    ensures SizeOf(low) <= SizeOf(szx)
    decreases szx
  {
    if low < szx {
      Doubles(szx);
      SizesFall(szx - 1, low);
    }
  }

  // A later position in smaller blocks has no lower number.
  lemma NumberGrows(pos: nat, size: nat, next: nat, low: nat)
    requires 0 < low <= size && pos <= next
    ensures pos / size <= next / low
  {
    var q := pos / size;
    assert pos == size * q + pos % size;
    Monotone(q, low, size);
    assert low * q == q * low && size * q == q * size;
    AtLeast(next, low, q);
  }

  lemma {:induction false} SettledLast(size: nat, pos: nat, szx: nat, wish: nat -> nat)
    requires Valid(szx) && pos <= size
    ensures SizeOf(Settled(size, pos, szx, wish)) > 0 && SizeOf(szx) > 0
    ensures pos / SizeOf(szx) <= size / SizeOf(Settled(size, pos, szx, wish))
    decreases size - pos
  {
    hide BlockSize;
    SizeAtLeast(szx);
    var next := pos + SizeOf(szx);
    if next <= size {
      var low := Lower(szx, wish(next));
      SizeAtLeast(low);
      SizesFall(szx, low);
      SettledLast(size, next, low, wish);
      NumberGrows(pos, SizeOf(szx), next, SizeOf(low));
    } else {
      NumberGrows(pos, SizeOf(szx), size, SizeOf(szx));
    }
  }

  // It is told so exactly when the last block, empty or not, has a number below 2^20.
  lemma {:induction false} DoneExact(file: seq<Byte>, pos: nat, szx: nat, wish: nat -> nat)
    requires Valid(szx) && pos % SizeOf(szx) == 0 && pos <= |file| % U32 && Askable(pos, szx)
    ensures SizeOf(Settled(|file| % U32, pos, szx, wish)) > 0
    ensures Fetch(file, pos, szx, wish).done <==>
            (|file| % U32) / SizeOf(Settled(|file| % U32, pos, szx, wish)) < BLOCKS
    decreases |file| - pos
  {
    hide BlockSize, Fetch;
    SizeAtLeast(szx);
    FetchStep(file, pos, szx, wish);
    var size, next := |file| % U32, pos + SizeOf(szx);
    var low := Lower(szx, wish(next));
    if next > size {
      WholeBlocks(pos, SizeOf(szx));
      assert size == SizeOf(szx) * (pos / SizeOf(szx)) + (size - pos);
      Unique(SizeOf(szx), size, pos / SizeOf(szx), size - pos);
    } else {
      SettledLast(size, next, low, wish);
      if Askable(next, low) {
        DoneExact(file, next, low, wish);
      }
    }
  }

  lemma StartAskable(szx: nat)
    ensures SizeOf(szx) >= 16 && 0 % SizeOf(szx) == 0 && Askable(0, szx)
  {
    SizeAtLeast(szx);
    Unique(SizeOf(szx), 0, 0, 0);
  }

  lemma SizeAtMost(szx: nat)
    requires Valid(szx)
    ensures 16 <= SizeOf(szx) <= 1024
  {
  }

  lemma FewBlocks(n: nat, d: nat)
    requires 0 < d <= 1024 && n / d < BLOCKS
    ensures n < BLOCKS * 1024
  {
    var q := n / d;
    assert n < d * (q + 1) by {
      assert n == d * q + n % d && d * (q + 1) == d * q + d;
    }
    Monotone(d, q + 1, BLOCKS);
    assert d * BLOCKS <= 1024 * BLOCKS;
  }

  // The client gets the whole file and is told so exactly when the number of the file's last block, in the
  // block size it settles on, is below 2^20. Such a file's length survives the cast to 32 bits.
  lemma TransferExact(file: seq<Byte>, szx: nat, wish: nat -> nat)
    requires Valid(szx)
    ensures 0 % SizeOf(szx) == 0 && Askable(0, szx)
    ensures var t, last := Fetch(file, 0, szx, wish), SizeOf(Settled(|file| % U32, 0, szx, wish));
            && last > 0
            && (t.done && Concat(t.parts) == file <==> |file| / last < BLOCKS)
            && (|file| / last < BLOCKS ==> |file| < U32)
  {
    hide BlockSize, Fetch, Concat, Settled, Askable;
    StartAskable(szx);
    FetchesAll(file, 0, szx, wish);
    DoneExact(file, 0, szx, wish);
    var t, last := Fetch(file, 0, szx, wish), SizeOf(Settled(|file| % U32, 0, szx, wish));
    SizeAtMost(Settled(|file| % U32, 0, szx, wish));
    if |file| / last < BLOCKS {
      FewBlocks(|file|, last);
      assert |file| % U32 == |file|;
      assert file[0..|file|] == file;
    }
  }

  // Sixteen megabytes in the smallest blocks: all bytes arrive, but the empty block that would say so has a
  // number the option cannot hold.
  lemma NeverTold(file: seq<Byte>, wish: nat -> nat)
    requires |file| == 0x100_0000
    ensures 0 % SizeOf(0) == 0 && Askable(0, 0)
    ensures !Fetch(file, 0, 0, wish).done
  {
    hide Fetch;
    StartAskable(0);
    DoneExact(file, 0, 0, wish);
  }

  // A file of 2^32 bytes or more: the client may be told that it has all of a beginning.
  lemma ToldTooEarly(file: seq<Byte>, szx: nat, wish: nat -> nat)
    requires Valid(szx) && |file| >= U32 && |file| % U32 < SizeOf(szx)
    ensures 0 % SizeOf(szx) == 0 && Askable(0, szx)
    ensures var t := Fetch(file, 0, szx, wish); t.done && Concat(t.parts) == file[..|file| % U32] != file
  {
    hide BlockSize, Fetch, Concat, Askable;
    StartAskable(szx);
    FetchStep(file, 0, szx, wish);
    ConcatOne(file[0..|file| % U32]);
    assert file[0..|file| % U32] == file[..|file| % U32];
  }

  // With one block size throughout, size / block + 1 responses, as far as block numbers go
  lemma {:induction false} FetchCount(file: seq<Byte>, pos: nat, szx: nat, wish: nat -> nat)
    requires Valid(szx) && pos % SizeOf(szx) == 0 && pos <= |file| % U32 && Askable(pos, szx)
    requires forall p :: wish(p) >= szx
    ensures |Fetch(file, pos, szx, wish).parts| + pos / SizeOf(szx) ==
            Min(|file| % U32 / SizeOf(szx), BLOCKS - 1) + 1
    decreases |file| - pos
  {
    hide BlockSize, Fetch;
    SizeAtLeast(szx);
    FetchStep(file, pos, szx, wish);
    var size, next := |file| % U32, pos + SizeOf(szx);
    StepMod(SizeOf(szx), pos);
    if next > size {
      WholeBlocks(pos, SizeOf(szx));
      assert size == SizeOf(szx) * (pos / SizeOf(szx)) + (size - pos);
      Unique(SizeOf(szx), size, pos / SizeOf(szx), size - pos);
    } else {
      assert Lower(szx, wish(next)) == szx;
      NumberGrows(next, SizeOf(szx), size, SizeOf(szx));
      if Askable(next, szx) {
        FetchCount(file, next, szx, wish);
      }
    }
  }

  lemma Scale(n: nat, low: nat, high: nat)
    requires low <= high
    ensures n * low <= n * high && (n + 1) * high == n * high + high && (n + 1) * low == n * low + low
  {
  }

  lemma NotAskable(pos: nat, szx: nat, last: nat)
    requires last <= szx && Valid(szx) && SizeOf(szx) > 0 && !Askable(pos, szx)
    ensures pos >= BLOCKS * SizeOf(last)
  {
    hide BlockSize;
    var d := SizeOf(szx);
    SizesFall(szx, last);
    assert pos == d * (pos / d) + pos % d;
    Monotone(d, BLOCKS, pos / d);
    Monotone(BLOCKS, SizeOf(last), d);
  }

  // Every response but the last carries at least a block of the size settled on, and none more than one of the
  // first size.
  lemma {:induction false} FetchSteps(file: seq<Byte>, pos: nat, szx: nat, wish: nat -> nat)
    requires Valid(szx) && pos % SizeOf(szx) == 0 && pos <= |file| % U32 && Askable(pos, szx)
    ensures var t, size := Fetch(file, pos, szx, wish), |file| % U32;
            var first, last := SizeOf(szx), SizeOf(Settled(size, pos, szx, wish));
            && |t.parts| > 0 && (|t.parts| - 1) * last <= size - pos
            && (t.done ==> |t.parts| * first > size - pos)
            && (!t.done ==> |t.parts| * first + pos >= BLOCKS * last)
    decreases |file| - pos
  {
    hide BlockSize, Fetch, Askable;
    SizeAtLeast(szx);
    FetchStep(file, pos, szx, wish);
    var size, next := |file| % U32, pos + SizeOf(szx);
    if next <= size {
      var low := Lower(szx, wish(next));
      var s := Settled(size, next, low, wish);
      SizesFall(szx, low);
      SizesFall(szx, s);
      if Askable(next, low) {
        FetchSteps(file, next, low, wish);
        var n := |Fetch(file, next, low, wish).parts|;
        Scale(n, SizeOf(low), SizeOf(szx));
        Scale(n - 1, SizeOf(s), SizeOf(szx));
      } else {
        NotAskable(next, low, s);
      }
    }
  }

  // With lowering the number of responses lies between those the first size and the size settled on would take;
  // where block numbers run out, it is at least what the first size takes to that point.
  lemma FetchBounds(file: seq<Byte>, szx: nat, wish: nat -> nat)
    requires Valid(szx)
    ensures 0 % SizeOf(szx) == 0 && Askable(0, szx)
    ensures var t, size := Fetch(file, 0, szx, wish), |file| % U32;
            var first, last := SizeOf(szx), SizeOf(Settled(size, 0, szx, wish));
            && last > 0 && |t.parts| <= size / last + 1
            && (t.done ==> size / first + 1 <= |t.parts|)
            && (!t.done ==> BLOCKS * last / first <= |t.parts|)
  {
    hide BlockSize, Fetch, Askable, Settled;
    StartAskable(szx);
    FetchSteps(file, 0, szx, wish);
    var t, size := Fetch(file, 0, szx, wish), |file| % U32;
    var first, last := SizeOf(szx), SizeOf(Settled(size, 0, szx, wish));
    SizeAtLeast(Settled(size, 0, szx, wish));
    AtLeast(size, last, |t.parts| - 1);
    AtMost(size, first, |t.parts|);
    AtMost(BLOCKS * last, first, |t.parts|);
  }

  lemma AtMost(n: nat, d: nat, q: nat)
    requires d > 0
    ensures n < q * d ==> n / d < q
    ensures n <= q * d ==> n / d <= q
  {
    var p := n / d;
    assert n == d * p + n % d;
    if p > q { Monotone(d, q + 1, p); assert d * (q + 1) == q * d + d; }
    if p == q { assert d * p == q * d; }
  }
}
