/** The shape of the blocks under construction, and how single emissions keep it: a terminator stands
    at the end of its block only and names blocks that exist, never the entry; allocas are kept apart from
    the blocks; and blocks made earlier are left as they are, apart from the one being written. */
module LowerShape {
  import opened Ir
  import opened Lower

  // ----- the invariant -----

  ghost predicate InRange(target: nat, n: nat) {
    0 < target < n
  }

  ghost predicate TargetsIn(i: Instr, n: nat) {
    match i
    case Br(t) => InRange(t, n)
    case Cbr(_, t, f) => InRange(t, n) && InRange(f, n)
    case _ => true
  }

  ghost predicate BlockOk(b: Block, n: nat) {
    forall p | 0 <= p < |b| :: !b[p].Alloca? && TargetsIn(b[p], n) && (b[p].IsTerminator() ==> p == |b| - 1)
  }

  // Each property of all blocks is a predicate of one block under a quantifier that is only
  // instantiated where that predicate is mentioned.

  ghost predicate ShapeAt(blocks: seq<Block>, b: int) {
    0 <= b < |blocks| ==> BlockOk(blocks[b], |blocks|)
  }

  ghost predicate LoopAt(loops: seq<Targets>, n: nat, i: int) {
    0 <= i < |loops| ==> InRange(loops[i].onBreak, n) && InRange(loops[i].onContinue, n)
  }

  /** Terminators only at the end of a block; branches only into the function and never to its entry. */
  ghost predicate Valid(st: State) {
    && st.cur < |st.blocks|
    && (forall i {:trigger LoopAt(st.loops, |st.blocks|, i)} :: LoopAt(st.loops, |st.blocks|, i))
    && (forall b {:trigger ShapeAt(st.blocks, b)} :: ShapeAt(st.blocks, b))
  }

  ghost predicate GrowsAt(a: seq<Block>, b: seq<Block>, k: int) {
    0 <= k < |a| ==> k < |b| && a[k] <= b[k]
  }

  /** Code only grows at the ends of blocks. */
  ghost predicate Grows(st: State, st': State) {
    && |st.blocks| <= |st'.blocks|
    && (forall b {:trigger GrowsAt(st.blocks, st'.blocks, b)} :: GrowsAt(st.blocks, st'.blocks, b))
  }

  ghost predicate KeptAt(a: seq<Block>, b: seq<Block>, cur: nat, k: int) {
    0 <= k < |a| && k != cur ==> k < |b| && b[k] == a[k]
  }

  /** Only the current block and new blocks are written, and lowering goes on in one of those. */
  ghost predicate Local(st: State, st': State) {
    && |st.blocks| <= |st'.blocks|
    && (forall b {:trigger KeptAt(st.blocks, st'.blocks, st.cur, b)} :: KeptAt(st.blocks, st'.blocks, st.cur, b))
    && (st'.cur == st.cur || |st.blocks| <= st'.cur)
  }

  ghost predicate Advance(st: State, st': State) {
    Valid(st') && Grows(st, st') && Local(st, st') && st'.loops == st.loops && st.syms.Keys <= st'.syms.Keys
  }

  lemma {:induction false} GrowsTrans(a: State, b: State, c: State)
    requires Grows(a, b) && Grows(b, c)
    ensures Grows(a, c)
  {
    forall k
      ensures GrowsAt(a.blocks, c.blocks, k)
    {
      assert GrowsAt(a.blocks, b.blocks, k) && GrowsAt(b.blocks, c.blocks, k);
    }
  }

  lemma {:induction false} AdvanceTrans(a: State, b: State, c: State)
    requires Advance(a, b) && Advance(b, c)
    ensures Advance(a, c)
  {
    GrowsTrans(a, b, c);
    forall k
      ensures KeptAt(a.blocks, c.blocks, a.cur, k)
    {
      assert KeptAt(a.blocks, b.blocks, a.cur, k) && KeptAt(b.blocks, c.blocks, b.cur, k);
    }
  }

  /** A block that is not current is left alone. */
  lemma {:induction false} Kept(a: State, b: State, k: nat)
    requires Local(a, b) && k < |a.blocks| && k != a.cur
    ensures k < |b.blocks| && b.blocks[k] == a.blocks[k]
  {
    assert KeptAt(a.blocks, b.blocks, a.cur, k);
  }

  /** Moving to a block made since `a`. */
  lemma {:induction false} AdvanceJump(a: State, b: State, t: nat)
    requires Advance(a, b) && |a.blocks| <= t < |b.blocks|
    ensures Advance(a, b.(cur := t))
  {
  }

  // ----- single emissions -----

  lemma {:induction false} EmitOk(st: State, i: Instr)
    requires Valid(st) && !Closed(st)
    requires !i.Alloca? && TargetsIn(i, |st.blocks|)
    ensures Advance(st, Emit(st, i))
    ensures Closed(Emit(st, i)) == i.IsTerminator()
  {
    var st' := Emit(st, i);
    var b, b' := st.blocks[st.cur], st'.blocks[st.cur];
    assert forall p | 0 <= p < |b| :: b'[p] == b[p];
    assert ShapeAt(st.blocks, st.cur);
    forall k
      ensures ShapeAt(st'.blocks, k) && GrowsAt(st.blocks, st'.blocks, k) && KeptAt(st.blocks, st'.blocks, st.cur, k)
    {
      assert ShapeAt(st.blocks, k);
    }
  }

  lemma {:induction false} EmitDefOk(st: State, i: Instr)
    requires Valid(st) && !Closed(st)
    requires !i.Alloca? && !i.IsTerminator()
    ensures Advance(st, EmitDef(st, i))
    ensures !Closed(EmitDef(st, i))
  {
    EmitOk(st, i);
  }

  lemma {:induction false} EmitEndOk(st: State, i: Instr)
    requires Valid(st)
    requires i.IsTerminator() && TargetsIn(i, |st.blocks|)
    ensures Advance(st, EmitEnd(st, i))
    ensures Closed(EmitEnd(st, i))
    ensures EmitEnd(st, i).cur == st.cur && |EmitEnd(st, i).blocks| == |st.blocks|
  {
    if !Closed(st) {
      EmitOk(st, i);
    }
  }

  lemma {:induction false} AddBlocksOk(st: State, n: nat)
    requires Valid(st)
    ensures Advance(st, AddBlocks(st, n))
    ensures forall b | |st.blocks| <= b < |st.blocks| + n :: AddBlocks(st, n).blocks[b] == []
    ensures Closed(AddBlocks(st, n)) == Closed(st)
  {
    var st' := AddBlocks(st, n);
    forall b
      ensures ShapeAt(st'.blocks, b) && GrowsAt(st.blocks, st'.blocks, b) && KeptAt(st.blocks, st'.blocks, st.cur, b)
    {
      assert ShapeAt(st.blocks, b);
    }
    forall i
      ensures LoopAt(st'.loops, |st'.blocks|, i)
    {
      assert LoopAt(st.loops, |st.blocks|, i);
    }
  }

  lemma {:induction false} AddSlotOk(st: State, x: string)
    requires Valid(st)
    ensures Advance(st, AddSlot(st, x))
    ensures Closed(AddSlot(st, x)) == Closed(st)
  {
  }

  // ----- entering and leaving a loop -----

  lemma {:induction false} InsideValid(st: State, onBreak: nat, onContinue: nat)
    requires Valid(st) && InRange(onBreak, |st.blocks|) && InRange(onContinue, |st.blocks|)
    ensures Valid(Inside(st, onBreak, onContinue))
  {
    forall i
      ensures LoopAt(Inside(st, onBreak, onContinue).loops, |st.blocks|, i)
    {
      assert LoopAt(st.loops, |st.blocks|, i);
    }
  }

  lemma {:induction false} OutsideValid(st: State, st': State)
    requires Valid(st) && Valid(st') && |st.blocks| <= |st'.blocks|
    ensures Valid(st'.(loops := st.loops))
  {
    forall i
      ensures LoopAt(st.loops, |st'.blocks|, i)
    {
      assert LoopAt(st.loops, |st.blocks|, i);
    }
  }
}
