/** How a source store is represented while the lowered code runs: every binding of every open scope in
    the cell of a slot of its own, globals and calls made so far as they are. */
module Relation {
  import opened Wrappers
  import opened Ast
  import opened Ir
  import opened Source
  import opened Lower
  import opened LowerNames

  // ----- frames -----

  /** The slots of the names of one scope. */
  type Frame = map<string, Operand>

  /** The slots of all open scopes, outermost first: what a table with scopes would hold. */
  type Frames = seq<Frame>

  /** What a name means by the rules of scoping. */
  function Meaning(r: Frames, globals: set<string>, x: string): Option<Operand> {
    if r == [] then if x in globals then Some(Global(x)) else None
    else
      var top := r[|r| - 1];
      if x in top then Some(top[x]) else Meaning(r[..|r| - 1], globals, x)
  }

  function DeclareSlot(r: Frames, x: string, o: Operand): Frames
    requires |r| > 0
  {
    r[..|r| - 1] + [r[|r| - 1][x := o]]
  }

  /** The slots after a statement: a declaration adds its own. */
  function FramesAfter(stmt: Stmt, st: State, fr: Frames): Frames
    requires |fr| > 0
  {
    if stmt.VarDecl? then DeclareSlot(fr, stmt.name, Temp(st.nextTemp)) else fr
  }

  /** The slots in the loop of a For: a scope with its variable. */
  function ForFrames(stmt: Stmt, st: State, fr: Frames): Frames
    requires stmt.For?
  {
    fr + [map[stmt.name := Temp(st.nextTemp)]]
  }

  ghost predicate BelowAt(r: Frames, n: nat, i: int, x: string) {
    0 <= i < |r| && x in r[i] ==> r[i][x].Temp? && r[i][x].id < n
  }

  /** All slots were made before temporary `n`. */
  ghost predicate Below(r: Frames, n: nat) {
    forall i, x {:trigger BelowAt(r, n, i, x)} :: BelowAt(r, n, i, x)
  }

  ghost predicate ApartAt(r: Frames, i: int, x: string, j: int, y: string) {
    0 <= i < |r| && x in r[i] && 0 <= j < |r| && y in r[j] && (i != j || x != y) ==> r[i][x] != r[j][y]
  }

  /** No two bindings share a slot. */
  ghost predicate Apart(r: Frames) {
    forall i, x, j, y {:trigger ApartAt(r, i, x, j, y)} :: ApartAt(r, i, x, j, y)
  }

  lemma {:induction false} BelowMore(r: Frames, n: nat, n': nat)
    requires Below(r, n) && n <= n'
    ensures Below(r, n')
  {
    forall i, x
      ensures BelowAt(r, n', i, x)
    {
      assert BelowAt(r, n, i, x);
    }
  }

  lemma {:induction false} DeclareBelow(r: Frames, x: string, n: nat)
    requires |r| > 0 && Below(r, n)
    ensures Below(DeclareSlot(r, x, Temp(n)), n + 1)
  {
    var r', n' := DeclareSlot(r, x, Temp(n)), n + 1;
    forall i, y
      ensures BelowAt(r', n', i, y)
    {
      assert BelowAt(r, n, i, y);
    }
  }

  lemma {:induction false} BelowPush(r: Frames, n: nat)
    requires Below(r, n)
    ensures Below(r + [map[]], n)
  {
    var r' := r + [map[]];
    forall i, x
      ensures BelowAt(r', n, i, x)
    {
      assert BelowAt(r, n, i, x);
    }
  }

  // ----- the innermost binding -----

  /** The scope in which a name is found. */
  lemma {:induction false} Innermost(env: Env, x: string) returns (i: nat)
    requires x in Keys(env)
    ensures i < |env| && x in env[i] && Lookup(env, x) == env[i][x]
    ensures forall j | i < j < |env| :: x !in env[j]
    decreases |env|
  {
    if x in env[|env| - 1] {
      i := |env| - 1;
    } else {
      i := Innermost(Pop(env), x);
    }
  }

  lemma {:induction false} MeaningAt(r: Frames, globals: set<string>, x: string, i: nat)
    requires i < |r| && x in r[i] && forall j | i < j < |r| :: x !in r[j]
    ensures Meaning(r, globals, x) == Some(r[i][x])
    decreases |r|
  {
    if i < |r| - 1 {
      MeaningAt(r[..|r| - 1], globals, x, i);
    }
  }

  lemma {:induction false} MeaningOutside(env: Env, r: Frames, globals: set<string>, x: string)
    requires SameNames(env, r) && x !in Keys(env)
    ensures Meaning(r, globals, x) == if x in globals then Some(Global(x)) else None
    decreases |r|
  {
    if r == [] {
    } else {
      assert r[|r| - 1].Keys == env[|env| - 1].Keys;
      MeaningOutside(Pop(env), r[..|r| - 1], globals, x);
    }
  }

  lemma {:induction false} UpdateAt(env: Env, x: string, n: int, i: nat)
    requires x in Keys(env) && i < |env| && x in env[i] && forall j | i < j < |env| :: x !in env[j]
    ensures Update(env, x, n) == env[i := env[i][x := n]]
    decreases |env|
  {
    if i < |env| - 1 {
      UpdateAt(Pop(env), x, n, i);
    }
  }

  lemma {:induction false} DeclareKeys(env: Env, x: string, n: int)
    requires |env| > 0
    ensures Keys(Declare(env, x, n)) == Keys(env) + {x}
  {
    assert Pop(Declare(env, x, n)) == Pop(env);
  }

  // ----- the relation -----

  ghost predicate SlotReady(fin: State, mem: Memory, k: int) {
    0 <= k < |fin.slots| ==>
      fin.slots[k].Alloca? && fin.slots[k].dest in mem.regs && mem.regs[fin.slots[k].dest] == Cell(k)
  }

  /** The slots of the finished function have been executed, in order. */
  ghost predicate SlotsReady(fin: State, mem: Memory) {
    forall k {:trigger SlotReady(fin, mem, k)} :: SlotReady(fin, mem, k)
  }

  ghost predicate Holds(fin: State, mem: Memory, o: Operand, v: int) {
    && o.Temp?
    && Alloca(o.id) in fin.slots
    && o.id in mem.regs
    && mem.regs[o.id].Cell?
    && mem.regs[o.id].address in mem.cells
    && mem.cells[mem.regs[o.id].address] == v
  }

  predicate SameNames(env: Env, r: Frames) {
    |r| == |env| && forall i | 0 <= i < |r| :: r[i].Keys == env[i].Keys
  }

  ghost predicate LocalAt(env: Env, r: Frames, fin: State, mem: Memory, i: int, x: string) {
    0 <= i < |env| && i < |r| && x in env[i] && x in r[i] ==> Holds(fin, mem, r[i][x], env[i][x])
  }

  ghost predicate Rel(c: Context, s: Mem, r: Frames, fin: State, mem: Memory) {
    && mem.globals == s.globals
    && mem.trace == s.trace
    && SlotsReady(fin, mem)
    && SameNames(s.env, r)
    && Apart(r)
    && (forall i, x {:trigger LocalAt(s.env, r, fin, mem, i, x)} :: LocalAt(s.env, r, fin, mem, i, x))
  }

  function Visible(c: Context, s: Mem): set<string> {
    Keys(s.env) + c.globals
  }

  // ----- names the flat table has right -----

  ghost predicate GoodAt(syms: Syms, r: Frames, globals: set<string>, good: set<string>, x: string) {
    x in good ==> x in syms && Meaning(r, globals, x) == Some(syms[x])
  }

  /** For the names of `good` the table holds what they mean. */
  ghost predicate Good(syms: Syms, r: Frames, globals: set<string>, good: set<string>) {
    forall x {:trigger GoodAt(syms, r, globals, good, x)} :: GoodAt(syms, r, globals, good, x)
  }

  /** Lowering that declares nothing visible in these scopes: the names it declares are not right any
      more, the others are. */
  lemma {:induction false} GoodKept(
      st: State, st': State, decls: set<string>, r: Frames, globals: set<string>, good: set<string>)
    requires Good(st.syms, r, globals, good) && Renames(st, st', decls)
    ensures Good(st'.syms, r, globals, good - decls)
  {
    forall x
      ensures GoodAt(st'.syms, r, globals, good - decls, x)
    {
      assert GoodAt(st.syms, r, globals, good, x) && EntryFrom(st.syms, st.nextTemp, st'.syms, st'.slots, decls, x);
    }
  }

  /** A declaration makes its name right, whatever it was. */
  lemma {:induction false} GoodDeclared(syms: Syms, r: Frames, globals: set<string>, good: set<string>, x: string,
        o: Operand)
    requires Good(syms, r, globals, good) && |r| > 0
    ensures Good(syms[x := o], DeclareSlot(r, x, o), globals, good + {x})
  {
    var syms', r', good' := syms[x := o], DeclareSlot(r, x, o), good + {x};
    assert r'[..|r'| - 1] == r[..|r| - 1];
    forall y
      ensures GoodAt(syms', r', globals, good', y)
    {
      assert GoodAt(syms, r, globals, good, y);
    }
  }

  /** A new scope hides nothing. */
  lemma {:induction false} GoodPush(syms: Syms, r: Frames, globals: set<string>, good: set<string>)
    requires Good(syms, r, globals, good)
    ensures Good(syms, r + [map[]], globals, good)
  {
    assert (r + [map[]])[..|r|] == r;
    forall y
      ensures GoodAt(syms, r + [map[]], globals, good, y)
    {
      assert GoodAt(syms, r, globals, good, y);
    }
  }

  // ----- steps that keep the relation -----

  lemma {:induction false} RelPush(c: Context, s: Mem, r: Frames, fin: State, mem: Memory)
    requires Rel(c, s, r, fin, mem)
    ensures Rel(c, s.(env := Push(s.env)), r + [map[]], fin, mem)
    ensures Visible(c, s.(env := Push(s.env))) == Visible(c, s)
  {
    var env, r' := Push(s.env), r + [map[]];
    assert Pop(env) == s.env;
    forall i, x
      ensures LocalAt(env, r', fin, mem, i, x)
    {
      assert LocalAt(s.env, r, fin, mem, i, x);
    }
    forall i, x, j, y
      ensures ApartAt(r', i, x, j, y)
    {
      assert ApartAt(r, i, x, j, y);
    }
  }

  lemma {:induction false} RelPop(c: Context, s: Mem, r: Frames, fin: State, mem: Memory)
    requires Rel(c, s, r, fin, mem) && |s.env| > 0
    ensures Rel(c, s.(env := Pop(s.env)), r[..|r| - 1], fin, mem)
  {
    var env, r' := Pop(s.env), r[..|r| - 1];
    forall i, x
      ensures LocalAt(env, r', fin, mem, i, x)
    {
      assert LocalAt(s.env, r, fin, mem, i, x);
    }
    forall i, x, j, y
      ensures ApartAt(r', i, x, j, y)
    {
      assert ApartAt(r, i, x, j, y);
    }
  }

  lemma {:induction false} RelSetReg(c: Context, s: Mem, r: Frames, fin: State, mem: Memory, d: nat, v: Value)
    requires Rel(c, s, r, fin, mem) && Alloca(d) !in fin.slots
    ensures Rel(c, s, r, fin, SetReg(mem, d, v))
  {
    var mem' := SetReg(mem, d, v);
    forall k
      ensures SlotReady(fin, mem', k)
    {
      assert SlotReady(fin, mem, k);
      if 0 <= k < |fin.slots| {
        assert fin.slots[k] in fin.slots;
      }
    }
    forall i, x
      ensures LocalAt(s.env, r, fin, mem', i, x)
    {
      assert LocalAt(s.env, r, fin, mem, i, x);
    }
  }

  /** Globals and calls may change together. */
  lemma {:induction false} RelOutside(c: Context, s: Mem, r: Frames, fin: State, mem: Memory, g: Globals,
        trace: seq<Event>)
    requires Rel(c, s, r, fin, mem)
    ensures Rel(c, s.(globals := g, trace := trace), r, fin, mem.(globals := g, trace := trace))
  {
    var mem' := mem.(globals := g, trace := trace);
    forall k
      ensures SlotReady(fin, mem', k)
    {
      assert SlotReady(fin, mem, k);
    }
    forall i, x
      ensures LocalAt(s.env, r, fin, mem', i, x)
    {
      assert LocalAt(s.env, r, fin, mem, i, x);
    }
  }

  lemma {:induction false} RelCall(
      c: Context, s: Mem, r: Frames, fin: State, mem: Memory, f: string, ns: seq<Option<int>>, t: Option<nat>)
    requires Rel(c, s, r, fin, mem)
    requires t.Some? ==> Alloca(t.value) !in fin.slots
    ensures Rel(c, EvalCall(c, f, ns, s).1, r, fin, Invoke(c.world, mem, t, f, ns))
  {
    var a := c.world.call(mem.trace + [Event(f, ns)], mem.globals, f, ns);
    RelOutside(c, s, r, fin, mem, a.globals, a.trace);
    if t.Some? {
      RelSetReg(c, s.(globals := a.globals, trace := a.trace), r, fin, mem.(globals := a.globals, trace := a.trace),
                t.value, Int(a.n));
    }
  }

  /** What the meaning of a name loads is the value of the name. */
  lemma {:induction false} RelRead(c: Context, s: Mem, r: Frames, fin: State, m: Machine, mem: Memory, x: string)
    requires Rel(c, s, r, fin, mem) && Meaning(r, c.globals, x).Some?
    ensures LoadFrom(mem, Operate(m, mem, Meaning(r, c.globals, x).value)) == Read(c, s, x)
    ensures Read(c, s, x).Some?
  {
    if x in Keys(s.env) {
      var i := Innermost(s.env, x);
      MeaningAt(r, c.globals, x, i);
      assert LocalAt(s.env, r, fin, mem, i, x);
    } else {
      MeaningOutside(s.env, r, c.globals, x);
    }
  }

  /** Two slots never share a cell. */
  lemma {:induction false} CellsDiffer(fin: State, mem: Memory, a: nat, b: nat)
    requires SlotsReady(fin, mem) && a != b
    requires Alloca(a) in fin.slots && Alloca(b) in fin.slots
    ensures a in mem.regs && b in mem.regs && mem.regs[a].Cell? && mem.regs[b].Cell?
    ensures mem.regs[a].address != mem.regs[b].address
  {
    var i :| 0 <= i < |fin.slots| && fin.slots[i] == Alloca(a);
    var j :| 0 <= j < |fin.slots| && fin.slots[j] == Alloca(b);
    assert SlotReady(fin, mem, i) && SlotReady(fin, mem, j);
  }

  /** Writing one slot's cell leaves the other names as they are. */
  lemma {:induction false} CellWrite(fin: State, mem: Memory, t: nat, n: int)
    requires SlotsReady(fin, mem) && Alloca(t) in fin.slots
    ensures t in mem.regs && mem.regs[t].Cell?
    ensures var mem' := mem.(cells := mem.cells[mem.regs[t].address := n]);
            && SlotsReady(fin, mem')
            && Holds(fin, mem', Temp(t), n)
            && forall o, v | Holds(fin, mem, o, v) && o != Temp(t) :: Holds(fin, mem', o, v)
  {
    var i :| 0 <= i < |fin.slots| && fin.slots[i] == Alloca(t);
    assert SlotReady(fin, mem, i);
    var mem' := mem.(cells := mem.cells[mem.regs[t].address := n]);
    forall k
      ensures SlotReady(fin, mem', k)
    {
      assert SlotReady(fin, mem, k);
    }
    forall o, v | Holds(fin, mem, o, v) && o != Temp(t)
      ensures Holds(fin, mem', o, v)
    {
      CellsDiffer(fin, mem, o.id, t);
    }
  }

  /** Storing to the slot of one binding changes that binding. */
  lemma {:induction false} RelCell(
      c: Context, s: Mem, r: Frames, fin: State, mem: Memory, i: nat, x: string, n: int)
    requires Rel(c, s, r, fin, mem) && i < |s.env| && x in s.env[i]
    ensures r[i][x].Temp? && r[i][x].id in mem.regs && mem.regs[r[i][x].id].Cell?
    ensures var mem' := mem.(cells := mem.cells[mem.regs[r[i][x].id].address := n]);
            Rel(c, s.(env := s.env[i := s.env[i][x := n]]), r, fin, mem')
  {
    assert LocalAt(s.env, r, fin, mem, i, x);
    var t := r[i][x].id;
    CellWrite(fin, mem, t, n);
    var mem' := mem.(cells := mem.cells[mem.regs[t].address := n]);
    var env' := s.env[i := s.env[i][x := n]];
    forall j, y
      ensures LocalAt(env', r, fin, mem', j, y)
    {
      assert LocalAt(s.env, r, fin, mem, j, y) && ApartAt(r, i, x, j, y);
    }
  }

  /** Storing through the meaning of a name is assigning to the name. */
  lemma {:induction false} RelWrite(c: Context, s: Mem, r: Frames, fin: State, m: Machine, mem: Memory, x: string,
        n: int)
    requires Rel(c, s, r, fin, mem) && Meaning(r, c.globals, x).Some?
    ensures var w := StoreTo(mem, Operate(m, mem, Meaning(r, c.globals, x).value), n);
            w.Some? && Rel(c, Write(c, s, x, n), r, fin, w.value) && w.value.regs == mem.regs
  {
    if x in Keys(s.env) {
      var i := Innermost(s.env, x);
      MeaningAt(r, c.globals, x, i);
      UpdateAt(s.env, x, n, i);
      RelCell(c, s, r, fin, mem, i, x, n);
    } else {
      MeaningOutside(s.env, r, c.globals, x);
      RelOutside(c, s, r, fin, mem, mem.globals[x := n], mem.trace);
    }
  }

  /** Storing into a new slot is declaring its name, whether the name is in use or not. */
  lemma {:induction false} RelDeclare(
      c: Context, s: Mem, r: Frames, t: nat, fin: State, m: Machine, mem: Memory, x: string, n: int)
    requires Rel(c, s, r, fin, mem) && |s.env| > 0 && Below(r, t) && Alloca(t) in fin.slots
    ensures var w := StoreTo(mem, Operate(m, mem, Temp(t)), n);
            && w.Some?
            && Rel(c, s.(env := Declare(s.env, x, n)), DeclareSlot(r, x, Temp(t)), fin, w.value)
            && w.value.regs == mem.regs
  {
    CellWrite(fin, mem, t, n);
    var mem' := mem.(cells := mem.cells[mem.regs[t].address := n]);
    var env', r' := Declare(s.env, x, n), DeclareSlot(r, x, Temp(t));
    forall j, y
      ensures LocalAt(env', r', fin, mem', j, y)
    {
      assert LocalAt(s.env, r, fin, mem, j, y) && BelowAt(r, t, j, y);
    }
    forall i, y, j, z
      ensures ApartAt(r', i, y, j, z)
    {
      assert ApartAt(r, i, y, j, z) && BelowAt(r, t, i, y) && BelowAt(r, t, j, z);
    }
  }
}
