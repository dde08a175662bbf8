/** The linear allocator of slkc/src/slkc/memory.c: a buffer, a bump pointer, and no way to
    free. Addresses are words of `w` bits. */
module Arenas {
  import opened Outcomes
  import opened Alignment

  // ----- the bump pointer

  /** The three pointers of an `skLinearAllocator`, and whether the checks of a debug build
      (`_DEBUG`) are in it. */
  datatype Arena = Arena(w: nat, checked: bool, head: nat, tail: nat, curr: nat)

  /** A block that was handed out. */
  datatype Block = Block(start: nat, size: nat, alignment: nat)

  /** A debug build does not set up a buffer at the null address. */
  ghost predicate Sound(s: Arena) {
    s.head <= s.curr && s.head <= s.tail < Pow2(s.w) && s.curr < Pow2(s.w) && (s.checked ==> 0 < s.head)
  }

  /** What a debug build asserts on the way: an alignment, no null pointer before and after
      aligning, and the new pointer inside the buffer. */
  predicate Passes(s: Arena, start: nat, next: nat, alignment: nat) {
    alignment != 0 && s.curr != 0 && start != 0 && InRange(next, s.head, s.tail)
  }

  /** `linear_malloc`: the block and the pointer behind it, or nothing when a check stops the
      program. */
  function Bump(s: Arena, size: nat, alignment: nat): Option<(nat, Arena)> {
    var start := AlignForward(s.w, s.curr, alignment);
    var next := Word(s.w, start + size);
    if s.checked && !Passes(s, start, next, alignment) then None
    else Some((start, s.(curr := next)))
  }

  /** Neither the alignment nor the size runs over the end of the address space. */
  predicate NoWrap(s: Arena, size: nat, alignment: nat) {
    s.curr + (alignment - 1) < Pow2(s.w) && AlignForward(s.w, s.curr, alignment) + size < Pow2(s.w)
  }

  /** A block lies inside the part of the buffer that was free in `s`. */
  predicate InFree(s: Arena, start: nat, size: nat) {
    s.curr <= start && start + size < s.tail
  }

  /** The checks accept exactly the requests that fit, but let no block reach the last
      byte, and a request that wraps around can slip through: then the block is not in the
      free part. With a power of two as alignment only the size can do so, because a
      wrapped alignment gives the null address. */
  lemma {:induction false} CheckedExactly(s: Arena, size: nat, alignment: nat)
    requires Sound(s) && s.checked && alignment < Pow2(s.w)
    ensures Bump(s, size, alignment).Some?
            ==> (InFree(s, Bump(s, size, alignment).value.0, size) <==> NoWrap(s, size, alignment))
    ensures alignment != 0 && NoWrap(s, size, alignment)
            ==> (Bump(s, size, alignment).Some? <==> AlignForward(s.w, s.curr, alignment) + size < s.tail)
    ensures Bump(s, size, alignment).Some? && PowerOfTwo(alignment)
            ==> (NoWrap(s, size, alignment) <==> AlignForward(s.w, s.curr, alignment) + size < Pow2(s.w))
  {
    if PowerOfTwo(alignment) && s.curr + (alignment - 1) >= Pow2(s.w) {
      MaskWraps(s.w, s.curr, alignment);
    }
    hide AlignForward, Word, Pow2, PowerOfTwo;
    var start := AlignForward(s.w, s.curr, alignment);
    if alignment == 0 {
    } else if s.curr + (alignment - 1) < Pow2(s.w) {
      AlignForwardBounds(s.w, s.curr, alignment);
    } else {
      WrappedBelow(s.w, s.curr, alignment);
    }
    if start + size < Pow2(s.w) {
      WordFits(s.w, start + size);
    }
  }

  /** A request whose size wraps is answered, with a block that ends far behind the buffer:
      a buffer from 16 to 100, the pointer at 90, 200 bytes, words of eight bits. */
  lemma SizeWrapAnswered()
    ensures var s := Arena(8, true, 16, 100, 90);
            Bump(s, 200, 1) == Some((90, s.(curr := 34))) && !NoWrap(s, 200, 1) && !InFree(s, 90, 200)
  {
    hide *;
    EightBits();
    AlignForwardBounds(8, 90, 1);
    WordWraps(8, 34);
    Answered(90, 200, 1, 90, 34, 100);
  }

  /** So is one whose alignment is no power of two and wraps: the block begins in front of
      the buffer. */
  lemma AlignmentWrapAnswered()
    ensures var s := Arena(8, true, 16, 255, 250);
            Bump(s, 20, 11) == Some((4, s.(curr := 24))) && !NoWrap(s, 20, 11) && !InFree(s, 4, 20)
  {
    EightBits();
    assert And(4, 245) == 4 by {
      assert And(1, 61) == 1;
    }
    hide Pow2, And;
    WordFits(8, 10);
    WordWraps(8, 4);
    WordFits(8, 24);
  }

  /** What such a request comes to. */
  lemma Answered(curr: nat, size: nat, alignment: nat, start: nat, next: nat, tail: nat)
    requires 0 < curr && alignment != 0 && 0 < start && 16 <= next < tail && Pow2(8) == 256
    requires AlignForward(8, curr, alignment) == start && Word(8, start + size) == next && start + size != next
    ensures var s := Arena(8, true, 16, tail, curr);
            && Bump(s, size, alignment) == Some((start, s.(curr := next))) && !NoWrap(s, size, alignment)
            && (InFree(s, start, size) <==> curr <= start && start + size < tail)
  {
    hide AlignForward;
    if start + size < Pow2(8) {
      WordFits(8, start + size);
    }
  }

  lemma EightBits()
    ensures Pow2(8) == 256
  {
    assert Pow2(4) == 16;
  }

  lemma WrappedBelow(w: nat, p: nat, a: nat)
    requires p < Pow2(w) && 0 < a < Pow2(w) && p + (a - 1) >= Pow2(w)
    ensures AlignForward(w, p, a) < p
  {
    hide Pow2, And;
    WordFits(w, a - 1);
    WordWraps(w, p + (a - 1) - Pow2(w));
  }

  // ----- whole runs

  datatype Request =
    | Alloc(size: nat, alignment: nat)
    | Realloc(oldSize: nat, newSize: nat, alignment: nat)
    | Clear

  /** The size a request takes from the buffer, if it takes any. */
  function Taken(q: Request): Option<nat> {
    match q
    case Alloc(n, _) => Some(n)
    case Realloc(m, n, _) => if m < n then Some(n) else None
    case Clear => None
  }

  /** One request: the pointers, and the blocks handed out since the last clear. */
  function Step(s: Arena, blocks: seq<Block>, q: Request): Option<(Arena, seq<Block>)> {
    if q.Clear? then Some((s.(curr := s.head), []))
    else if Taken(q) == None then Some((s, blocks))
    else
      var n := Taken(q).value;
      match Bump(s, n, q.alignment)
      case None => None
      case Some(p) => Some((p.1, blocks + [Block(p.0, n, q.alignment)]))
  }

  /** The blocks are inside the buffer, each behind all those before it, and aligned. */
  ghost predicate Laid(s: Arena, blocks: seq<Block>) {
    && (forall b :: b in blocks ==> s.head <= b.start && b.start + b.size < s.tail)
    && (forall i, j :: 0 <= i < j < |blocks| ==> blocks[i].start + blocks[i].size <= blocks[j].start)
    && (forall b :: b in blocks && b.alignment != 0 && PowerOfTwo(b.alignment) ==> IsAligned(b.start, b.alignment))
  }

  /** After every request of the run, up to the one at which the check ends it. */
  ghost predicate AlwaysLaid(s: Arena, blocks: seq<Block>, run: seq<Request>)
    decreases |run|
  {
    && Laid(s, blocks)
    && (run != [] && Step(s, blocks, run[0]).Some?
        ==> AlwaysLaid(Step(s, blocks, run[0]).value.0, Step(s, blocks, run[0]).value.1, run[1..]))
  }

  /** No request that is answered wraps around. */
  predicate NeverWraps(s: Arena, blocks: seq<Block>, run: seq<Request>)
    decreases |run|
  {
    run != [] && Step(s, blocks, run[0]).Some?
    ==> && (Taken(run[0]).Some? ==> NoWrap(s, Taken(run[0]).value, run[0].alignment))
        && NeverWraps(Step(s, blocks, run[0]).value.0, Step(s, blocks, run[0]).value.1, run[1..])
  }

  predicate GoodRequest(w: nat, q: Request) {
    !q.Clear? ==> q.alignment < Pow2(w)
  }

  /** The bump pointer stands behind the last block. */
  ghost predicate Standing(s: Arena, blocks: seq<Block>) {
    && Sound(s) && s.checked && Laid(s, blocks)
    && s.curr == if blocks == [] then s.head else blocks[|blocks| - 1].start + blocks[|blocks| - 1].size
  }

  /** Over a whole run in a debug build, the blocks handed out since the last clear are
      always inside the buffer, aligned and one behind the other, if and only if no
      answered request wraps around the address space. */
  lemma {:induction false} RunsExactly(s: Arena, blocks: seq<Block>, run: seq<Request>)
    requires Standing(s, blocks) && forall q :: q in run ==> GoodRequest(s.w, q)
    ensures AlwaysLaid(s, blocks, run) <==> NeverWraps(s, blocks, run)
    decreases |run|
  {
    if run != [] && Step(s, blocks, run[0]).Some? {
      hide Laid, Step, Standing;
      var n := Step(s, blocks, run[0]).value;
      StepExactly(s, blocks, run[0]);
      if Standing(n.0, n.1) {
        RunsExactly(n.0, n.1, run[1..]);
      }
    }
  }

  lemma StepExactly(s: Arena, blocks: seq<Block>, q: Request)
    requires Standing(s, blocks) && GoodRequest(s.w, q) && Step(s, blocks, q).Some?
    ensures var n := Step(s, blocks, q).value;
            && n.0.w == s.w
            && (Laid(n.0, n.1) <==> (Taken(q).Some? ==> NoWrap(s, Taken(q).value, q.alignment)))
            && (Laid(n.0, n.1) ==> Standing(n.0, n.1))
    ensures Laid(s, blocks)
  {
    if Taken(q).Some? {
      var size := Taken(q).value;
      CheckedExactly(s, size, q.alignment);
      var start := AlignForward(s.w, s.curr, q.alignment);
      BumpAligns(s, q.alignment);
      NextPointer(s, size, q.alignment);
      hide Bump, NoWrap, PowerOfTwo, IsAligned, AlignForward;
      Appended(s, blocks, Block(start, size, q.alignment));
    }
  }

  lemma BumpAligns(s: Arena, a: nat)
    requires 0 < a < Pow2(s.w)
    ensures PowerOfTwo(a) ==> IsAligned(AlignForward(s.w, s.curr, a), a)
  {
    if PowerOfTwo(a) {
      MaskIsMultiple(s.w, s.curr, a);
    }
  }

  lemma NextPointer(s: Arena, size: nat, a: nat)
    requires Bump(s, size, a).Some?
    ensures var p := Bump(s, size, a).value;
            && p.0 == AlignForward(s.w, s.curr, a) && p.1 == s.(curr := p.1.curr)
            && (p.0 + size < Pow2(s.w) ==> p.1.curr == p.0 + size)
  {
    hide AlignForward, Word, Pow2;
    var start := AlignForward(s.w, s.curr, a);
    if start + size < Pow2(s.w) {
      WordFits(s.w, start + size);
    }
  }

  lemma Appended(s: Arena, blocks: seq<Block>, b: Block)
    requires Standing(s, blocks) && (PowerOfTwo(b.alignment) ==> b.alignment != 0 && IsAligned(b.start, b.alignment))
    ensures Laid(s, blocks + [b]) <==> InFree(s, b.start, b.size)
  {
    hide PowerOfTwo, IsAligned;
    var all := blocks + [b];
    assert all[|blocks|] == b && b in all;
    if blocks != [] {
      assert all[|blocks| - 1] == blocks[|blocks| - 1];
      assert blocks[|blocks| - 1] in blocks;
    }
  }

  /** No address belongs to two blocks that are laid out. */
  lemma LaidDisjoint(s: Arena, blocks: seq<Block>, i: nat, j: nat, at: nat)
    requires Laid(s, blocks) && i < |blocks| && j < |blocks|
    requires blocks[i].start <= at < blocks[i].start + blocks[i].size
             && blocks[j].start <= at < blocks[j].start + blocks[j].size
    ensures i == j
  {
    hide PowerOfTwo, IsAligned;
  }

  // ----- builds without checks

  /** A build without checks answers every request. For a power of two, without wrap-around,
      the block begins at the least multiple of the alignment that is not below the pointer,
      and the pointer goes right behind it. */
  lemma {:induction false} UncheckedAnswers(s: Arena, size: nat, alignment: nat)
    requires !s.checked
    ensures Bump(s, size, alignment).Some?
    ensures PowerOfTwo(alignment) && alignment < Pow2(s.w) && NoWrap(s, size, alignment)
            ==> var p := Bump(s, size, alignment).value;
                && LeastMultiple(p.0, s.curr, alignment)
                && p.1 == Arena(s.w, false, s.head, s.tail, p.0 + size)
  {
    if PowerOfTwo(alignment) && alignment < Pow2(s.w) && NoWrap(s, size, alignment) {
      MaskIsArithmetic(s.w, s.curr, alignment);
      WordFits(s.w, AlignForward(s.w, s.curr, alignment) + size);
    }
  }

  /** The two builds agree wherever the checks let a request pass: same block, same
      pointer. */
  lemma {:induction false} BuildsAgree(s: Arena, size: nat, alignment: nat)
    requires s.checked && Bump(s, size, alignment).Some?
    ensures var p := Bump(s, size, alignment).value;
            Bump(s.(checked := false), size, alignment) == Some((p.0, p.1.(checked := false)))
  {
    hide AlignForward, Word;
  }

  /** The requests of a run one after the other, until a check stops the program. */
  function Run(s: Arena, blocks: seq<Block>, run: seq<Request>): Option<(Arena, seq<Block>)>
    decreases |run|
  {
    if run == [] then Some((s, blocks))
    else
      match Step(s, blocks, run[0])
      case None => None
      case Some(n) => Run(n.0, n.1, run[1..])
  }

  /** Over a whole run: without checks every run comes to its end, and a run that comes to
      its end with checks hands out the same blocks and leaves the same pointers without. */
  lemma {:induction false} ChecksOnlyStop(s: Arena, blocks: seq<Block>, run: seq<Request>)
    requires s.checked
    ensures var free := Run(s.(checked := false), blocks, run);
            && free.Some?
            && (Run(s, blocks, run).Some?
                ==> var n := Run(s, blocks, run).value; free == Some((n.0.(checked := false), n.1)))
    decreases |run|
  {
    hide Bump;
    RunsOn(s.(checked := false), blocks, run);
    if run != [] && Step(s, blocks, run[0]).Some? {
      var n := Step(s, blocks, run[0]).value;
      StepsAgree(s, blocks, run[0]);
      ChecksOnlyStop(n.0, n.1, run[1..]);
    }
  }

  lemma StepsAgree(s: Arena, blocks: seq<Block>, q: Request)
    requires s.checked && Step(s, blocks, q).Some?
    ensures var n := Step(s, blocks, q).value;
            n.0.checked && Step(s.(checked := false), blocks, q) == Some((n.0.(checked := false), n.1))
  {
    if Taken(q).Some? {
      BuildsAgree(s, Taken(q).value, q.alignment);
      NextPointer(s, Taken(q).value, q.alignment);
    }
    hide Bump;
  }

  lemma {:induction false} RunsOn(s: Arena, blocks: seq<Block>, run: seq<Request>)
    requires !s.checked
    ensures Run(s, blocks, run).Some?
    decreases |run|
  {
    hide AlignForward, Word;
    if run != [] {
      var n := Step(s, blocks, run[0]).value;
      RunsOn(n.0, n.1, run[1..]);
    }
  }

  /** The blocks lie between the buffer's head and the pointer, each behind all those before
      it, and aligned. */
  ghost predicate Stacked(s: Arena, blocks: seq<Block>) {
    && s.head <= s.curr < Pow2(s.w)
    && (forall b :: b in blocks ==> s.head <= b.start && b.start + b.size <= s.curr)
    && (forall i, j :: 0 <= i < j < |blocks| ==> blocks[i].start + blocks[i].size <= blocks[j].start)
    && (forall b :: b in blocks && b.alignment != 0 && PowerOfTwo(b.alignment) ==> IsAligned(b.start, b.alignment))
  }

  /** Without checks nothing keeps the blocks inside the buffer, but as long as nothing wraps
      around, every run keeps them apart and aligned. */
  lemma {:induction false} UncheckedRunsStack(s: Arena, blocks: seq<Block>, run: seq<Request>)
    requires !s.checked && Stacked(s, blocks) && NeverWraps(s, blocks, run)
    requires forall q :: q in run && !q.Clear? ==> 0 < q.alignment < Pow2(s.w)
    ensures Run(s, blocks, run).Some?
    ensures Stacked(Run(s, blocks, run).value.0, Run(s, blocks, run).value.1)
    decreases |run|
  {
    RunsOn(s, blocks, run);
    if run != [] {
      StepStacks(s, blocks, run[0]);
      hide Step, Stacked;
      var n := Step(s, blocks, run[0]).value;
      UncheckedRunsStack(n.0, n.1, run[1..]);
    }
  }

  lemma StepStacks(s: Arena, blocks: seq<Block>, q: Request)
    requires !s.checked && Stacked(s, blocks) && (!q.Clear? ==> 0 < q.alignment < Pow2(s.w))
    requires Taken(q).Some? ==> NoWrap(s, Taken(q).value, q.alignment)
    ensures Step(s, blocks, q).Some?
    ensures var n := Step(s, blocks, q).value; !n.0.checked && n.0.w == s.w && Stacked(n.0, n.1)
  {
    if Taken(q).Some? {
      var size, a := Taken(q).value, q.alignment;
      NextPointer(s, size, a);
      AlignForwardBounds(s.w, s.curr, a);
      BumpAligns(s, a);
      var b := Block(AlignForward(s.w, s.curr, a), size, a);
      hide Bump, AlignForward, PowerOfTwo, IsAligned, Pow2;
      assert forall k :: 0 <= k < |blocks| ==> (blocks + [b])[k] == blocks[k] && blocks[k] in blocks;
    }
  }

  // ----- the allocator and its buffer

  class LinearAllocator {
    const w: nat
    const checked: bool
    const head: nat
    const buffer: array<bv8>
    var curr: nat

    /** `sk_linear_allocator_init` on a buffer at address `head`. */
    constructor (w: nat, checked: bool, head: nat, buffer: array<bv8>)
      ensures State() == Arena(w, checked, head, head + buffer.Length, head) && this.buffer == buffer
    {
      this.w := w;
      this.checked := checked;
      this.head := head;
      this.buffer := buffer;
      curr := head;
    }

    ghost function State(): Arena
      reads `curr
    {
      Arena(w, checked, head, head + buffer.Length, curr)
    }

    /** `linear_malloc`. */
    method Malloc(size: nat, alignment: nat) returns (p: Option<nat>)
      modifies `curr
      ensures p == None <==> Bump(old(State()), size, alignment) == None
      ensures p == None ==> curr == old(curr)
      ensures p.Some? ==> Bump(old(State()), size, alignment) == Some((p.value, State()))
    {
      hide AlignForward, Word;
      var start := AlignForward(w, curr, alignment);
      var next := Word(w, start + size);
      if checked && (alignment == 0 || curr == 0 || start == 0 || !InRange(next, head, head + buffer.Length)) {
        return None;
      }
      curr := next;
      return Some(start);
    }

    /** The buffer's bytes at an address. */
    ghost function Bytes(p: nat, size: nat): seq<bv8>
      requires head <= p && p + size <= head + buffer.Length
      reads buffer
    {
      buffer[p - head..p - head + size]
    }

    /** `linear_realloc` on a block of the buffer; the bytes it moves have to go into the
        buffer as well. */
    method Realloc(p: nat, oldSize: nat, newSize: nat, alignment: nat) returns (q: Option<nat>)
      requires head <= p && p + oldSize <= head + buffer.Length
      requires var b := Bump(State(), newSize, alignment);
               oldSize < newSize && b.Some? ==> head <= b.value.0 && b.value.0 + oldSize <= head + buffer.Length
      modifies `curr, buffer
      ensures oldSize >= newSize ==> q == Some(p) && curr == old(curr) && buffer[..] == old(buffer[..])
      ensures oldSize < newSize ==> (q == None <==> Bump(old(State()), newSize, alignment) == None)
      ensures q == None ==> curr == old(curr) && buffer[..] == old(buffer[..])
      ensures oldSize < newSize && q.Some? ==> Bump(old(State()), newSize, alignment) == Some((q.value, State()))
      ensures oldSize < newSize && q.Some? ==> Bytes(q.value, oldSize) == old(Bytes(p, oldSize))
      ensures oldSize < newSize && q.Some? ==>
                forall i :: 0 <= i < buffer.Length && !(q.value <= head + i < q.value + oldSize) ==>
                              buffer[i] == old(buffer[i])
    {
      hide Bump;
      if oldSize < newSize {
        q := Malloc(newSize, alignment);
        if q.Some? {
          Move(q.value - head, p - head, oldSize);
        }
        return;
      }
      return Some(p);
    }

    /** `memmove` within the buffer. */
    method Move(to: nat, from: nat, count: nat)
      requires to + count <= buffer.Length && from + count <= buffer.Length
      modifies buffer
      ensures buffer[to..to + count] == old(buffer[from..from + count])
      ensures forall i :: 0 <= i < buffer.Length && !(to <= i < to + count) ==> buffer[i] == old(buffer[i])
    {
      forall i | 0 <= i < count {
        buffer[to + i] := buffer[from + i];
      }
    }

    /** `linear_clear`. */
    method ClearAll()
      modifies `curr
      ensures State() == old(State()).(curr := head)
    {
      curr := head;
    }
  }

  /** Growing a block that was handed out: the new block starts with the old bytes, no other
      block changes, and the blocks stay laid out. */
  method Grow(arena: LinearAllocator, p: nat, oldSize: nat, newSize: nat, alignment: nat, ghost blocks: seq<Block>)
    returns (q: Option<nat>)
    requires Standing(arena.State(), blocks) && 0 < alignment < Pow2(arena.w)
    requires oldSize < newSize && NoWrap(arena.State(), newSize, alignment)
    requires exists b :: b in blocks && b.start == p && b.size == oldSize
    modifies arena`curr, arena.buffer
    ensures q.Some? ==> Standing(arena.State(), blocks + [Block(q.value, newSize, alignment)])
    ensures q.Some? ==> arena.head <= p && p + oldSize <= arena.head + arena.buffer.Length
    ensures q.Some? ==> arena.head <= q.value && q.value + oldSize <= arena.head + arena.buffer.Length
    ensures q.Some? ==> arena.Bytes(q.value, oldSize) == old(arena.Bytes(p, oldSize))
    ensures forall i :: 0 <= i < arena.buffer.Length && Owned(blocks, arena.head + i) ==>
                          arena.buffer[i] == old(arena.buffer[i])
  {
    ghost var s := arena.State();
    GrowFits(s, blocks, newSize, alignment);
    hide Bump, NoWrap, AlignForward, PowerOfTwo, IsAligned;
    q := arena.Realloc(p, oldSize, newSize, alignment);
  }

  /** An address of one of the blocks. */
  ghost predicate Owned(blocks: seq<Block>, at: nat) {
    exists b :: b in blocks && b.start <= at < b.start + b.size
  }

  lemma GrowFits(s: Arena, blocks: seq<Block>, size: nat, a: nat)
    requires Standing(s, blocks) && 0 < a < Pow2(s.w) && NoWrap(s, size, a)
    ensures Bump(s, size, a).Some? ==>
              var p := Bump(s, size, a).value;
              && InFree(s, p.0, size) && Standing(p.1, blocks + [Block(p.0, size, a)])
              && forall b :: b in blocks ==> b.start + b.size <= p.0
  {
    if Bump(s, size, a).Some? {
      CheckedExactly(s, size, a);
      StepExactly(s, blocks, Alloc(size, a));
      hide Bump, NoWrap, AlignForward, PowerOfTwo, IsAligned;
    }
  }
}
