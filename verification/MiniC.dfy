/**
 * The small part of C the generated destructors use, run over an object tree.
 *
 * An access expression is kept as the sequence of tokens the generator glues
 * together, so an ill-formed one (a trailing arrow, a dot on a pointer, an
 * arrow on a list) has no value.  Running a statement fails on such an
 * expression, on reading through a released block and on releasing a block
 * twice.
 */
module MiniC {
  import opened Wrappers
  import opened CTypes

  /** Element(n) is `items[index_n]`. */
  datatype Token = Root | Arrow | Dot | Member(name: string) | Items | Count | Element(index: nat)

  type Access = seq<Token>

  datatype Stmt =
    | IfNotNull(access: Access, body: seq<Stmt>)
    | CountDown(index: nat, count: Access, body: seq<Stmt>)
    | Block(body: seq<Stmt>)
    | Free(access: Access)
    | FreeUnlessJson(access: Access)
    | Destroy(routine: string, addressOf: bool, access: Access)
    | IfFreePointers(body: seq<Stmt>)
    | FreeJson

  /**
   * One call: the pointed-to root object, whether json is non-null, free_pointers, and
   * the names of the routines the program is linked with.
   */
  datatype Call = Call(root: Obj, json: bool, freePointers: bool, routines: set<string>)

  datatype Value = Object(o: Obj) | ItemsOf(list: Obj) | CountOf(n: nat)

  type Indexes = map<nat, int>

  // ---------------------------------------------------------------------
  // Access expressions

  /** The object a member is selected from: the target for an arrow, the object itself for a dot. */
  function Container(v: Option<Value>, op: Token): Option<Obj> {
    match v
    case Some(Object(PointerObj(_, x))) => if op == Arrow then Some(x) else None
    case Some(Object(o)) => if op == Dot then Some(o) else None
    case _ => None
  }

  function FieldIndex(names: seq<string>, name: string): Option<nat> {
    if names == [] then None
    else if names[0] == name then Some(0)
    else match FieldIndex(names[1..], name) case Some(i) => Some(i + 1) case None => None
  }

  function Select(c: Obj, t: Token, idx: Indexes): Option<Value> {
    match t
    case Member(n) =>
      if c.StructObj? && |c.names| == |c.values| then
        match FieldIndex(c.names, n)
        case Some(i) => if i < |c.values| then Some(Object(c.values[i])) else None
        case None => None
      else None
    case Items => if c.ListObj? || c.NullList? then Some(ItemsOf(c)) else None
    case Count =>
      if c.ListObj? then Some(CountOf(|c.elems|)) else if c.NullList? then Some(CountOf(c.count)) else None
    case Element(k) =>
      if c.ListObj? && k in idx && 0 <= idx[k] < |c.elems| then Some(Object(c.elems[idx[k]])) else None
    case _ => None
  }

  /** The value of an access expression, whatever has been released. */
  function Walk(root: Obj, p: Access, idx: Indexes): Option<Value> {
    if p == [Root] then Some(Object(root))
    else if |p| < 3 then None
    else
      match Container(Walk(root, p[..|p| - 2], idx), p[|p| - 2])
      case Some(c) => Select(c, p[|p| - 1], idx)
      case None => None
  }

  /** The blocks an access expression reads through. */
  function Uses(root: Obj, p: Access, idx: Indexes): set<Addr> {
    if |p| < 3 then {}
    else
      var q := p[..|p| - 2];
      var v := Walk(root, q, idx);
      Uses(root, q, idx) + Through(v, p[|p| - 2], p[|p| - 1])
  }

  function Through(v: Option<Value>, op: Token, t: Token): set<Addr> {
    (if v.Some? && v.value.Object? && v.value.o.PointerObj? then {v.value.o.addr} else {})
    + (if t.Element? && Container(v, op).Some? && Container(v, op).value.ListObj?
       then {Container(v, op).value.addr} else {})
  }

  function Read(root: Obj, live: set<Addr>, p: Access, idx: Indexes): Option<Value> {
    if Uses(root, p, idx) <= live then Walk(root, p, idx) else None
  }

  lemma WalkStep(root: Obj, q: Access, op: Token, t: Token, idx: Indexes)
    requires |q| > 0
    ensures Walk(root, q + [op] + [t], idx) ==
            match Container(Walk(root, q, idx), op) { case Some(c) => Select(c, t, idx) case None => None }
    ensures Uses(root, q + [op] + [t], idx) == Uses(root, q, idx) + Through(Walk(root, q, idx), op, t)
  {
    var p := q + [op] + [t];
    assert p[..|p| - 2] == q;
  }

  ghost predicate IndexesBelow(p: Access, depth: nat) {
    forall i :: 0 <= i < |p| && p[i].Element? ==> p[i].index < depth
  }

  /** An access expression is not affected by loop indexes it does not mention. */
  lemma {:induction false} WalkFrame(root: Obj, p: Access, idx: Indexes, depth: nat, k: nat, v: int)
    requires IndexesBelow(p, depth) && depth <= k
    ensures Walk(root, p, idx[k := v]) == Walk(root, p, idx)
    ensures Uses(root, p, idx[k := v]) == Uses(root, p, idx)
  {
    if p != [Root] && |p| >= 3 {
      WalkFrame(root, p[..|p| - 2], idx, depth, k, v);
    }
  }

  // ---------------------------------------------------------------------
  // Statements

  datatype State = State(live: set<Addr>, freed: seq<Addr>)

  function Release(s: State, a: Addr): Option<State> {
    if a in s.live then Some(State(s.live - {a}, s.freed + [a])) else None
  }

  function ReleaseAll(s: State, addrs: seq<Addr>): Option<State>
    decreases |addrs|
  {
    if addrs == [] then Some(s)
    else match Release(s, addrs[0]) case Some(s') => ReleaseAll(s', addrs[1..]) case None => None
  }

  /** free(p): releases the block p points to; a null pointer is fine. */
  function RunFree(v: Option<Value>, s: State): Option<State> {
    match v
    case Some(Object(PointerObj(a, _))) => Release(s, a)
    case Some(Object(TextObj(a))) => Release(s, a)
    case Some(ItemsOf(ListObj(a, _))) => Release(s, a)
    case Some(Object(NullPointer)) => Some(s)
    case Some(Object(NullText)) => Some(s)
    case Some(ItemsOf(NullList(_))) => Some(s)
    case _ => None
  }

  function NotNull(v: Option<Value>): Option<bool> {
    match v
    case Some(Object(PointerObj(_, _))) => Some(true)
    case Some(ItemsOf(ListObj(_, _))) => Some(true)
    case Some(Object(NullPointer)) => Some(false)
    case Some(ItemsOf(NullList(_))) => Some(false)
    case _ => None
  }

  /**
   * A call to another destructor that exists, with free_pointers false.  Its contract
   * is that it releases what the object it is given owns, texts only without json; a
   * scalar or a text is not such an object.
   */
  function RunDestroy(v: Option<Value>, addressOf: bool, json: bool, s: State): Option<State> {
    match v
    case Some(Object(DelegatedObj(bs, ts))) =>
      if addressOf then ReleaseAll(s, if json then bs else bs + ts) else None
    case Some(Object(PointerObj(a, DelegatedObj(bs, ts)))) =>
      if !addressOf && a in s.live then ReleaseAll(s, if json then bs else bs + ts) else None
    case _ => None
  }

  /** The object root points to is the tree; the variable itself is a pointer object. */
  function Run(ss: seq<Stmt>, c: Call, idx: Indexes, s: State): Option<State>
    decreases ss, 0
  {
    if ss == [] then Some(s)
    else match RunOne(ss[0], c, idx, s) case Some(s') => Run(ss[1..], c, idx, s') case None => None
  }

  function RunOne(stmt: Stmt, c: Call, idx: Indexes, s: State): Option<State>
    decreases stmt, 0
  {
    match stmt
    case IfNotNull(p, body) =>
      (match NotNull(Read(c.root, s.live, p, idx))
       case Some(b) => if b then Run(body, c, idx, s) else Some(s)
       case None => None)
    case CountDown(k, p, body) =>
      (match Read(c.root, s.live, p, idx)
       case Some(CountOf(n)) => Loop(k, n, body, c, idx, s)
       case _ => None)
    case Block(body) => Run(body, c, idx, s)
    case Free(p) => RunFree(Read(c.root, s.live, p, idx), s)
    case FreeUnlessJson(p) =>
      // the access expression has to be valid C either way
      if Walk(c.root, p, idx).None? then None
      else if c.json then Some(s) else RunFree(Read(c.root, s.live, p, idx), s)
    case Destroy(r, addressOf, p) =>
      if r in c.routines then RunDestroy(Read(c.root, s.live, p, idx), addressOf, c.json, s) else None
    case IfFreePointers(body) => if c.freePointers then Run(body, c, idx, s) else Some(s)
    case FreeJson => Some(s)
  }

  /** for (int index_k = n; --index_k >= 0; ) body */
  function Loop(k: nat, n: nat, body: seq<Stmt>, c: Call, idx: Indexes, s: State): Option<State>
    decreases body, 1, n
  {
    if n == 0 then Some(s)
    else
      match Run(body, c, idx[k := n - 1], s)
      case Some(s') => Loop(k, n - 1, body, c, idx, s')
      case None => None
  }

  lemma {:induction false} RunAppend(a: seq<Stmt>, b: seq<Stmt>, c: Call, idx: Indexes, s: State)
    ensures Run(a + b, c, idx, s) ==
            match Run(a, c, idx, s) { case Some(s') => Run(b, c, idx, s') case None => None }
  {
    if a == [] {
      assert a + b == b;
    } else {
      assert (a + b)[0] == a[0] && (a + b)[1..] == a[1..] + b;
      match RunOne(a[0], c, idx, s)
      case Some(s') => RunAppend(a[1..], b, c, idx, s');
      case None =>
    }
  }

  lemma RunSingle(stmt: Stmt, c: Call, idx: Indexes, s: State)
    ensures Run([stmt], c, idx, s) == RunOne(stmt, c, idx, s)
  {
    assert [stmt][1..] == [];
    match RunOne(stmt, c, idx, s)
    case Some(s') => assert Run([], c, idx, s') == Some(s');
    case None =>
  }

  lemma RunTwo(a: Stmt, b: Stmt, c: Call, idx: Indexes, s: State)
    ensures Run([a, b], c, idx, s) ==
            match RunOne(a, c, idx, s) { case Some(s') => RunOne(b, c, idx, s') case None => None }
  {
    assert [a, b] == [a] + [b];
    RunAppend([a], [b], c, idx, s);
    RunSingle(a, c, idx, s);
    match RunOne(a, c, idx, s)
    case Some(s') => RunSingle(b, c, idx, s');
    case None =>
  }

  // ---------------------------------------------------------------------
  // What any program can do

  /** From s to s' blocks are released: live ones only, each once. */
  ghost predicate OnlyReleases(s: State, s': State) {
    && s.freed <= s'.freed && s'.live <= s.live
    && (forall a :: a in s'.freed[|s.freed|..] <==> a in s.live && a !in s'.live)
    && |s'.freed| - |s.freed| == |s.live| - |s'.live|
  }

  lemma ReleasesMore(s: State, s1: State, s2: State)
    requires OnlyReleases(s, s1) && OnlyReleases(s1, s2)
    ensures OnlyReleases(s, s2)
  {
    var n := |s.freed|;
    assert s2.freed[n..] == s1.freed[n..] + s2.freed[|s1.freed|..];
  }

  lemma OneReleased(s: State, a: Addr)
    requires a in s.live
    ensures Release(s, a).Some? && OnlyReleases(s, Release(s, a).value)
  {
    var s' := Release(s, a).value;
    assert s'.freed[|s.freed|..] == [a];
  }

  lemma {:induction false} AllReleased(s: State, addrs: seq<Addr>)
    ensures ReleaseAll(s, addrs).Some? ==> OnlyReleases(s, ReleaseAll(s, addrs).value)
    decreases |addrs|
  {
    NothingReleased(s);
    if addrs != [] && addrs[0] in s.live {
      OneReleased(s, addrs[0]);
      var s1 := Release(s, addrs[0]).value;
      AllReleased(s1, addrs[1..]);
      if ReleaseAll(s1, addrs[1..]).Some? {
        ReleasesMore(s, s1, ReleaseAll(s1, addrs[1..]).value);
      }
    }
  }

  lemma FreeReleases(v: Option<Value>, s: State)
    ensures RunFree(v, s).Some? ==> OnlyReleases(s, RunFree(v, s).value)
  {
    NothingReleased(s);
    match v
    case Some(Object(PointerObj(a, _))) => MaybeReleased(s, a);
    case Some(Object(TextObj(a))) => MaybeReleased(s, a);
    case Some(ItemsOf(ListObj(a, _))) => MaybeReleased(s, a);
    case _ =>
  }

  lemma NothingReleased(s: State)
    ensures OnlyReleases(s, s)
  {
  }

  lemma MaybeReleased(s: State, a: Addr)
    ensures Release(s, a).Some? ==> OnlyReleases(s, Release(s, a).value)
  {
    if a in s.live {
      OneReleased(s, a);
    }
  }

  lemma DestroyReleases(v: Option<Value>, addressOf: bool, json: bool, s: State)
    ensures RunDestroy(v, addressOf, json, s).Some? ==> OnlyReleases(s, RunDestroy(v, addressOf, json, s).value)
  {
    match v
    case Some(Object(DelegatedObj(bs, ts))) => AllReleased(s, if json then bs else bs + ts);
    case Some(Object(PointerObj(a, DelegatedObj(bs, ts)))) => AllReleased(s, if json then bs else bs + ts);
    case _ =>
  }

  /** Whatever a program that does not fail does: it releases live blocks, and none of them twice. */
  lemma {:induction false} RunOnlyReleases(ss: seq<Stmt>, c: Call, idx: Indexes, s: State)
    ensures Run(ss, c, idx, s).Some? ==> OnlyReleases(s, Run(ss, c, idx, s).value)
    decreases ss, 0
  {
    if ss != [] && RunOne(ss[0], c, idx, s).Some? {
      OneOnlyReleases(ss[0], c, idx, s);
      var s1 := RunOne(ss[0], c, idx, s).value;
      RunOnlyReleases(ss[1..], c, idx, s1);
      if Run(ss[1..], c, idx, s1).Some? {
        ReleasesMore(s, s1, Run(ss[1..], c, idx, s1).value);
      }
    }
  }

  lemma {:induction false} OneOnlyReleases(stmt: Stmt, c: Call, idx: Indexes, s: State)
    ensures RunOne(stmt, c, idx, s).Some? ==> OnlyReleases(s, RunOne(stmt, c, idx, s).value)
    decreases stmt, 0
  {
    match stmt
    case IfNotNull(p, body) => RunOnlyReleases(body, c, idx, s);
    case CountDown(k, p, body) =>
      var v := Read(c.root, s.live, p, idx);
      if v.Some? && v.value.CountOf? {
        LoopOnlyReleases(k, v.value.n, body, c, idx, s);
      }
    case Block(body) => RunOnlyReleases(body, c, idx, s);
    case Free(p) => FreeReleases(Read(c.root, s.live, p, idx), s);
    case FreeUnlessJson(p) => FreeReleases(Read(c.root, s.live, p, idx), s);
    case Destroy(r, addressOf, p) => DestroyReleases(Read(c.root, s.live, p, idx), addressOf, c.json, s);
    case IfFreePointers(body) => RunOnlyReleases(body, c, idx, s);
    case FreeJson =>
  }

  lemma {:induction false} LoopOnlyReleases(k: nat, n: nat, body: seq<Stmt>, c: Call, idx: Indexes, s: State)
    ensures Loop(k, n, body, c, idx, s).Some? ==> OnlyReleases(s, Loop(k, n, body, c, idx, s).value)
    decreases body, 1, n
  {
    if n > 0 && Run(body, c, idx[k := n - 1], s).Some? {
      RunOnlyReleases(body, c, idx[k := n - 1], s);
      var s1 := Run(body, c, idx[k := n - 1], s).value;
      LoopOnlyReleases(k, n - 1, body, c, idx, s1);
      if Loop(k, n - 1, body, c, idx, s1).Some? {
        ReleasesMore(s, s1, Loop(k, n - 1, body, c, idx, s1).value);
      }
    }
  }

  /** After a block is released, whatever reads through the pointer to it fails, and so does releasing it again. */
  lemma NothingAfterFree(p: Access, m: Token, body: seq<Stmt>, c: Call, idx: Indexes, s: State)
    requires p != [] && Walk(c.root, p, idx).Some? && Walk(c.root, p, idx).value.Object?
    requires Walk(c.root, p, idx).value.o.PointerObj?
    ensures Run([Free(p), Free(p)], c, idx, s) == None
    ensures Run([Free(p), Free(p + [Arrow] + [m])], c, idx, s) == None
    ensures Run([Free(p), IfNotNull(p + [Arrow] + [m], body)], c, idx, s) == None
    ensures Run([Free(p), CountDown(0, p + [Arrow] + [m], body)], c, idx, s) == None
  {
    RunTwo(Free(p), Free(p), c, idx, s);
    RunTwo(Free(p), Free(p + [Arrow] + [m]), c, idx, s);
    RunTwo(Free(p), IfNotNull(p + [Arrow] + [m], body), c, idx, s);
    RunTwo(Free(p), CountDown(0, p + [Arrow] + [m], body), c, idx, s);
    WalkStep(c.root, p, Arrow, m, idx);
  }

  // ---------------------------------------------------------------------
  // The printed form: one line per statement, braces closing a body

  datatype Line =
    | OpenIfNotNull(access: Access)
    | OpenFor(index: nat, count: Access)
    | OpenBlock
    | OpenIfFreePointers
    | Close
    | Simple(stmt: Stmt)

  function Lines(ss: seq<Stmt>): seq<Line>
    decreases ss, 0
  {
    if ss == [] then [] else LinesOf(ss[0]) + Lines(ss[1..])
  }

  function LinesOf(stmt: Stmt): seq<Line>
    decreases stmt, 0
  {
    match stmt
    case IfNotNull(p, body) => [OpenIfNotNull(p)] + Lines(body) + [Close]
    case CountDown(k, p, body) => [OpenFor(k, p)] + Lines(body) + [Close]
    case Block(body) => [OpenBlock] + Lines(body) + [Close]
    case IfFreePointers(body) => [OpenIfFreePointers] + Lines(body) + [Close]
    case _ => [Simple(stmt)]
  }

  /** Reads statements up to the first unmatched closing brace; the lines left over start there. */
  function Parse(lines: seq<Line>): (r: (seq<Stmt>, seq<Line>))
    ensures |r.1| <= |lines|
    decreases |lines|
  {
    if lines == [] || lines[0].Close? then ([], lines)
    else if lines[0].Simple? then
      var rest := Parse(lines[1..]);
      ([lines[0].stmt] + rest.0, rest.1)
    else
      var inner := Parse(lines[1..]);
      var after := if inner.1 == [] then [] else inner.1[1..];
      var stmt := match lines[0]
        case OpenIfNotNull(p) => IfNotNull(p, inner.0)
        case OpenFor(k, p) => CountDown(k, p, inner.0)
        case OpenIfFreePointers => IfFreePointers(inner.0)
        case _ => Block(inner.0);
      var rest := Parse(after);
      ([stmt] + rest.0, rest.1)
  }

  /** The printed lines determine the program. */
  lemma {:induction false} ParseLines(ss: seq<Stmt>, rest: seq<Line>)
    requires rest == [] || rest[0].Close?
    ensures Parse(Lines(ss) + rest) == (ss, rest)
    decreases ss, 1
  {
    if ss == [] {
      assert Lines(ss) + rest == rest;
    } else {
      var tail := Lines(ss[1..]) + rest;
      ParseLines(ss[1..], rest);
      assert Lines(ss) + rest == LinesOf(ss[0]) + tail;
      ParseStmt(ss[0], tail);
      assert ss == [ss[0]] + ss[1..];
    }
  }

  lemma NestedLines(open: Line, body: seq<Line>, tail: seq<Line>)
    ensures [open] + body + [Close] + tail == [open] + (body + ([Close] + tail))
    ensures ([open] + body + [Close] + tail)[1..] == body + ([Close] + tail)
  {
  }

  lemma {:induction false} ParseStmt(stmt: Stmt, tail: seq<Line>)
    ensures Parse(LinesOf(stmt) + tail) == ([stmt] + Parse(tail).0, Parse(tail).1)
    decreases stmt, 0
  {
    if stmt.IfNotNull? || stmt.CountDown? || stmt.Block? || stmt.IfFreePointers? {
      var inner := [Close] + tail;
      ParseLines(stmt.body, inner);
      assert LinesOf(stmt) == [LinesOf(stmt)[0]] + Lines(stmt.body) + [Close];
      NestedLines(LinesOf(stmt)[0], Lines(stmt.body), tail);
      assert inner[1..] == tail;
    } else {
      assert (LinesOf(stmt) + tail)[1..] == tail;
    }
  }
}
