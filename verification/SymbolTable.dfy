/** The scoped hash table of src/stm.c against a stack of maps. */
module SymbolTable {
  import opened Wrappers
  import opened Bytes

  type Name = Text

  datatype Entry = Entry(name: Name, type_: Text, isMutable: bool, size: nat, declLine: Text,
                         usageLine: Option<Text>, address: Option<Text>)

  /** The linked entries of a bucket. */
  datatype Chain = End | Link(entry: Entry, next: Chain)

  const TABLE_SIZE := 1009

  /** The hash of a name, 32 bits wide. */
  function HashFrom(name: Name, i: nat, value: nat): (h: nat)
    requires i <= |name| && value < 0x1_0000_0000
    ensures h < 0x1_0000_0000
    decreases |name| - i
  {
    if i == |name| then value else HashFrom(name, i + 1, (value * 33 + name[i]) % 0x1_0000_0000)
  }

  method Hash(name: Option<Name>) returns (h: nat)
    ensures h == if name.None? then 0 else HashFrom(name.value, 0, 5531)
  {
    if name.None? {
      return 0;
    }
    h := 5531;
    for i := 0 to |name.value|
      invariant h < 0x1_0000_0000 && HashFrom(name.value, i, h) == HashFrom(name.value, 0, 5531)
    {
      h := (h * 33 + name.value[i]) % 0x1_0000_0000;
    }
  }

  /** The same sum with nothing cut off: 5531, times 33 and plus the next byte, for each byte. */
  function WholeHash(name: Name): nat {
    if name == [] then 5531 else WholeHash(name[..|name| - 1]) * 33 + name[|name| - 1]
  }

  lemma {:induction false} ModStep(value: nat, b: nat)
    ensures (value % 0x1_0000_0000 * 33 + b) % 0x1_0000_0000 == (value * 33 + b) % 0x1_0000_0000
  {
    var q := value / 0x1_0000_0000;
    assert value * 33 + b == (value % 0x1_0000_0000 * 33 + b) + 33 * q * 0x1_0000_0000;
  }

  lemma {:induction false} HashSnoc(name: Name, b: Byte, i: nat, value: nat)
    requires i <= |name| && value < 0x1_0000_0000
    ensures HashFrom(name + [b], i, value) == (HashFrom(name, i, value) * 33 + b) % 0x1_0000_0000
    decreases |name| - i
  {
    if i < |name| {
      HashSnoc(name, b, i + 1, (value * 33 + name[i]) % 0x1_0000_0000);
    }
  }

  /** Cutting to 32 bits after each byte is cutting once at the end. */
  lemma {:induction false} HashIsWhole(name: Name)
    ensures HashFrom(name, 0, 5531) == WholeHash(name) % 0x1_0000_0000
    decreases |name|
  {
    if name == [] {
    } else {
      var front, b := name[..|name| - 1], name[|name| - 1];
      assert name == front + [b];
      HashSnoc(front, b, 0, 5531);
      HashIsWhole(front);
      ModStep(WholeHash(front), b);
    }
  }

  function Bucket(name: Name): (b: nat)
    ensures b < TABLE_SIZE
  {
    HashFrom(name, 0, 5531) % TABLE_SIZE
  }

  function FindIn(c: Chain, name: Name): Option<Entry> {
    match c
    case End => None
    case Link(entry, next) => if entry.name == name then Some(entry) else FindIn(next, name)
  }

  /** Every entry of the chain belongs to bucket `b`, and no name stands in it twice. */
  predicate ChainOk(c: Chain, b: nat) {
    c.Link? ==> Bucket(c.entry.name) == b && FindIn(c.next, c.entry.name).None? && ChainOk(c.next, b)
  }

  // ----- a stack of maps -----

  type Table = map<Name, Entry>

  /** The innermost scope first. */
  type Scopes = seq<Table>

  function Get(table: Table, name: Name): Option<Entry> {
    if name in table then Some(table[name]) else None
  }

  function Lookup(scopes: Scopes, name: Name): Option<Entry> {
    if scopes == [] then None
    else if name in scopes[0] then Some(scopes[0][name])
    else Lookup(scopes[1..], name)
  }

  /** What is asked to be inserted; a name, a type or a line may be missing. */
  datatype Request = Request(name: Option<Name>, type_: Option<Text>, isMutable: bool, size: nat,
    declLine: Option<Text>, usageLine: Option<Text>, address: Option<Text>)

  predicate Complete(r: Request) {
    r.name.Some? && r.type_.Some? && r.declLine.Some?
  }

  function EntryOf(r: Request): Entry
    requires Complete(r)
  {
    Entry(r.name.value, r.type_.value, r.isMutable, r.size, r.declLine.value, r.usageLine, r.address)
  }

  /** A name that is there stays as it is. */
  function Insert(table: Table, r: Request): Table {
    if Complete(r) && r.name.value !in table then table[r.name.value := EntryOf(r)] else table
  }

  // ----- managers -----

  class Manager {
    var buckets: array<Chain>
    var parent: Manager?
    var scopeLevel: nat
    ghost var Repr: set<object>
    ghost var table: Table
    ghost var scopes: Scopes

    ghost predicate Valid()
      reads this, Repr
      ensures Valid() ==> this in Repr
      decreases Repr
    {
      && this in Repr && buckets in Repr
      && Holds(buckets, table)
      && scopeLevel + 1 == |scopes|
      && (if parent == null then scopes == [table]
          else
            && parent in Repr && parent.Repr <= Repr && {this, buckets} !! parent.Repr && parent.Valid()
            && scopes == [table] + parent.scopes)
    }

    constructor (parent: Manager?)
      requires parent != null ==> parent.Valid()
      ensures Valid() && this.parent == parent && table == map[]
      ensures scopes == [map[]] + if parent == null then [] else parent.scopes
      ensures fresh(Repr - if parent == null then {} else parent.Repr) && buckets.Length == 1009
    {
      this.parent := parent;
      var empty := new Chain[TABLE_SIZE](_ => End);
      buckets := empty;
      scopeLevel := if parent == null then 0 else parent.scopeLevel + 1;
      table := map[];
      scopes := [map[]] + if parent == null then [] else parent.scopes;
      Repr := {this, empty} + if parent == null then {} else parent.Repr;
    }

    method SearchBuckets(name: Option<Name>) returns (found: Option<Entry>)
      requires Valid()
      ensures found == if name.None? then None else Get(table, name.value)
    {
      if name.None? {
        return None;
      }
      var h := Hash(name);
      var entry := buckets[h % TABLE_SIZE];
      assert h % TABLE_SIZE == Bucket(name.value);
      assert FindIn(entry, name.value) == Get(table, name.value);
      while entry.Link?
        invariant FindIn(entry, name.value) == Get(table, name.value)
        decreases entry
      {
        if entry.entry.name == name.value {
          return Some(entry.entry);
        }
        entry := entry.next;
      }
      return None;
    }

    /** The entry of the innermost scope that has the name, starting here. */
    method LookupFrom(name: Name) returns (found: Option<Entry>)
      requires Valid()
      ensures found == Lookup(scopes, name)
      decreases Repr
    {
      found := SearchBuckets(Some(name));
      if found.None? && parent != null {
        assert scopes[1..] == parent.scopes;
        found := parent.LookupFrom(name);
      }
    }

    method InsertHere(r: Request)
      requires Valid()
      modifies this, buckets
      ensures Valid() && Repr == old(Repr) && parent == old(parent)
      ensures table == Insert(old(table), r)
      ensures scopes == [table] + old(scopes)[1..]
    {
      var found := SearchBuckets(r.name);
      if found.Some? {
        return;
      }
      if r.name.None? || r.type_.None? || r.declLine.None? {
        return;
      }
      var node := EntryOf(r);
      LinkEntry(buckets, table, node);
      table := table[node.name := node];
      scopes := [table] + scopes[1..];
    }
  }

  /** The buckets hold exactly the entries of the table, each in the bucket of its hash, none twice. */
  ghost predicate Holds(buckets: array<Chain>, table: Table)
    reads buckets
  {
    && buckets.Length == TABLE_SIZE
    && (forall b | 0 <= b < TABLE_SIZE :: ChainOk(buckets[b], b))
    && (forall name: Name :: FindIn(buckets[Bucket(name)], name) == Get(table, name))
  }

  lemma {:induction false} LinkHolds(buckets: array<Chain>, table: Table, node: Entry)
    requires Holds(buckets, table) && node.name !in table
    ensures var b := Bucket(node.name); ChainOk(Link(node, buckets[b]), b)
  {
  }

  /** A new entry becomes the first of the chain in the bucket of its hash. */
  method LinkEntry(buckets: array<Chain>, ghost table: Table, node: Entry)
    requires Holds(buckets, table) && node.name !in table
    modifies buckets
    ensures Holds(buckets, table[node.name := node])
  {
    var h := Hash(Some(node.name));
    var bucket := h % TABLE_SIZE;
    LinkHolds(buckets, table, node);
    buckets[bucket] := Link(node, buckets[bucket]);
  }

  // ----- the stack -----

  datatype Action = Push | Pop | Declare(request: Request) | Query(name: Name)

  function Step(scopes: Scopes, a: Action): Scopes {
    match a
    case Push => [map[]] + scopes
    case Pop => if scopes == [] then [] else scopes[1..]
    case Declare(r) => if scopes == [] then [] else [Insert(scopes[0], r)] + scopes[1..]
    case Query(_) => scopes
  }

  /** What the lookups of a run answer. */
  function Answers(scopes: Scopes, actions: seq<Action>): seq<Option<Entry>>
    decreases |actions|
  {
    if actions == [] then []
    else
      (if actions[0].Query? then [Lookup(scopes, actions[0].name)] else [])
        + Answers(Step(scopes, actions[0]), actions[1..])
  }

  function Run(scopes: Scopes, actions: seq<Action>): Scopes
    decreases |actions|
  {
    if actions == [] then scopes else Run(Step(scopes, actions[0]), actions[1..])
  }

  class Stack {
    var currentScope: Manager?

    ghost predicate Valid()
      reads this, currentScope, if currentScope == null then {} else currentScope.Repr
    {
      currentScope != null ==> this !in currentScope.Repr && currentScope.Valid()
    }

    ghost function Scopes(): Scopes
      reads this, currentScope
    {
      if currentScope == null then [] else currentScope.scopes
    }

    ghost function Footprint(): set<object>
      reads this, currentScope
    {
      if currentScope == null then {this} else {this} + currentScope.Repr
    }

    constructor ()
      ensures Valid() && Scopes() == [map[]] && fresh(Footprint())
    {
      var manager := new Manager(null);
      currentScope := manager;
    }

    method PushScope()
      requires Valid()
      modifies this
      ensures Valid() && Scopes() == Step(old(Scopes()), Push) && fresh(Footprint() - old(Footprint()))
    {
      var scope := new Manager(currentScope);
      currentScope := scope;
    }

    /** Popping the last scope leaves none; popping none does nothing. */
    method PopScope()
      requires Valid()
      modifies this
      ensures Valid() && Scopes() == Step(old(Scopes()), Pop) && Footprint() <= old(Footprint())
    {
      if currentScope == null {
        return;
      }
      currentScope := currentScope.parent;
    }

    method DeclareName(r: Request)
      requires Valid()
      modifies Footprint()
      ensures Valid() && Scopes() == Step(old(Scopes()), Declare(r)) && Footprint() == old(Footprint())
    {
      if currentScope != null {
        currentScope.InsertHere(r);
      }
    }

    method LookupName(name: Name) returns (found: Option<Entry>)
      requires Valid()
      ensures found == Lookup(Scopes(), name)
    {
      if currentScope == null {
        return None;
      }
      found := currentScope.LookupFrom(name);
    }

    method Do(a: Action) returns (answers: seq<Option<Entry>>)
      requires Valid()
      modifies Footprint()
      ensures Valid() && Scopes() == Step(old(Scopes()), a) && fresh(Footprint() - old(Footprint()))
      ensures answers == if a.Query? then [Lookup(old(Scopes()), a.name)] else []
    {
      answers := [];
      match a
      case Push => PushScope();
      case Pop => PopScope();
      case Declare(r) => DeclareName(r);
      case Query(name) =>
        var found := LookupName(name);
        answers := [found];
    }

    /** Any run of pushes, pops, insertions and lookups does what it does on a stack of maps. */
    method Perform(actions: seq<Action>) returns (answers: seq<Option<Entry>>)
      requires Valid()
      modifies Footprint()
      ensures Valid() && Scopes() == Run(old(Scopes()), actions)
      ensures answers == Answers(old(Scopes()), actions)
    {
      answers := [];
      ghost var start := Scopes();
      for i := 0 to |actions|
        invariant Valid() && fresh(Footprint() - old(Footprint()))
        invariant Scopes() == Run(start, actions[..i]) && answers == Answers(start, actions[..i])
      {
        var found := Do(actions[i]);
        RunSnoc(start, actions[..i], actions[i]);
        assert actions[..i + 1] == actions[..i] + [actions[i]];
        answers := answers + found;
      }
      assert actions[..|actions|] == actions;
    }
  }

  lemma {:induction false} RunSnoc(scopes: Scopes, actions: seq<Action>, a: Action)
    ensures Run(scopes, actions + [a]) == Step(Run(scopes, actions), a)
    ensures Answers(scopes, actions + [a])
         == Answers(scopes, actions) + if a.Query? then [Lookup(Run(scopes, actions), a.name)] else []
    decreases |actions|
  {
    var all := actions + [a];
    if actions == [] {
      assert all == [a] && all[1..] == [];
    } else {
      assert all[1..] == actions[1..] + [a] && all[0] == actions[0];
      var next := Step(scopes, actions[0]);
      RunSnoc(next, actions[1..], a);
      var first := if actions[0].Query? then [Lookup(scopes, actions[0].name)] else [];
      var last := if a.Query? then [Lookup(Run(scopes, actions), a.name)] else [];
      assert first + (Answers(next, actions[1..]) + last) == (first + Answers(next, actions[1..])) + last;
    }
  }

  // ----- scopes over whole runs -----

  /** How many scopes are open after the actions, if the last of `depth` open ones is never closed. */
  function DepthAfter(actions: seq<Action>, depth: nat): Option<nat>
    decreases |actions|
  {
    if actions == [] then Some(depth)
    else if actions[0].Push? then DepthAfter(actions[1..], depth + 1)
    else if actions[0].Pop? then if depth <= 1 then None else DepthAfter(actions[1..], depth - 1)
    else DepthAfter(actions[1..], depth)
  }

  lemma {:induction false} StepBelow(inner: Scopes, outer: Scopes, a: Action)
    requires inner != []
    ensures Step(inner + outer, a) == Step(inner, a) + outer
  {
    assert (inner + outer)[1..] == inner[1..] + outer;
    assert [map[]] + (inner + outer) == ([map[]] + inner) + outer;
  }

  /** Scopes outside the open ones are not touched. */
  lemma {:induction false} OuterKept(inner: Scopes, outer: Scopes, actions: seq<Action>) returns (after: Scopes)
    requires inner != [] && DepthAfter(actions, |inner|).Some?
    ensures Run(inner + outer, actions) == after + outer && |after| == DepthAfter(actions, |inner|).value
    decreases |actions|
  {
    if actions == [] {
      after := inner;
    } else {
      var next := Step(inner, actions[0]);
      StepBelow(inner, outer, actions[0]);
      after := OuterKept(next, outer, actions[1..]);
    }
  }

  lemma {:induction false} RunAppend(scopes: Scopes, a: seq<Action>, b: seq<Action>)
    ensures Run(scopes, a + b) == Run(Run(scopes, a), b)
    decreases |a|
  {
    if a == [] {
      assert a + b == b;
    } else {
      assert (a + b)[1..] == a[1..] + b;
      RunAppend(Step(scopes, a[0]), a[1..], b);
    }
  }

  /** A scope opened and closed again leaves every binding as it was, whatever happened inside. */
  lemma {:induction false} ClosedScopeRestores(scopes: Scopes, body: seq<Action>)
    requires DepthAfter(body, 1) == Some(1)
    ensures Run(scopes, [Push] + body + [Pop]) == scopes
  {
    var inside: Scopes := [map[]];
    var after := OuterKept(inside, scopes, body);
    RunAppend(scopes, [Push] + body, [Pop]);
    RunAppend(scopes, [Push], body);
    assert Run(scopes, [Push]) == inside + scopes;
    assert Run(after + scopes, [Pop]) == Step(after + scopes, Pop);
    assert (after + scopes)[1..] == scopes;
  }

  /** In the innermost scope a first complete insertion is found again, and a second one of the same name
      changes nothing. */
  lemma {:induction false} FirstInsertionWins(scopes: Scopes, r: Request, again: Request)
    requires scopes != [] && r.name.Some? && r.type_.Some? && r.declLine.Some?
    requires r.name.value !in scopes[0] && again.name == r.name
    ensures var found := Lookup(Step(scopes, Declare(r)), r.name.value);
      && found.Some? && found.value.name == r.name.value && found.value.type_ == r.type_.value
      && found.value.isMutable == r.isMutable && found.value.size == r.size
      && found.value.declLine == r.declLine.value && found.value.usageLine == r.usageLine
      && found.value.address == r.address
    ensures Step(Step(scopes, Declare(r)), Declare(again)) == Step(scopes, Declare(r))
  {
  }

  /** An insertion without a name, a type or a line changes nothing, and no insertion changes another name. */
  lemma {:induction false} IncompleteIgnored(scopes: Scopes, r: Request, name: Name)
    requires scopes != []
    ensures r.name.None? || r.type_.None? || r.declLine.None? ==> Step(scopes, Declare(r)) == scopes
    ensures r.name != Some(name) ==> Lookup(Step(scopes, Declare(r)), name) == Lookup(scopes, name)
  {
    assert [scopes[0]] + scopes[1..] == scopes;
  }
}
