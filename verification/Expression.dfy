/**
 * Evaluation of Groundwork expressions by rewriting their text
 * (connectors/groundworkFunctions.go, EvaluateGroundworkExpression).
 *
 * The text is kept as tokens.  While it holds a `GW:` call, the last one is
 * evaluated, stored under a fresh variable res_N, and every occurrence of its
 * text is replaced by that variable.  What is left is split at the commas.
 */
module Expression {
  import opened Wrappers
  import Decimal
  import Seqs

  /** A comma, or one of the signs of arithmetic. */
  datatype Sep = Comma | Operator(symbol: char)

  datatype Token = Fn(name: string) | Open | Close | Sign(sep: Sep) | Var(id: string)

  type Text = seq<Token>

  /** What stands in a text: variables, calls with what is between their parentheses, and signs. */
  datatype Expr = Variable(id: string) | Apply(fn: string, args: seq<Expr>) | Between(sep: Sep)

  datatype Error = UnknownFunction(fn: string) | UndefinedVariable(id: string) | WrongArity(fn: string) | Unreadable

  /** A value, an error, or an evaluation that never ends. */
  datatype Result<T> = Ok(value: T) | Err(error: Error) | Endless

  /** What arithmetic is done on: values, names without one, numerals (with the variable of that name, if any), signs. */
  datatype Item = Given(value: real) | Missing(id: string) | Numeral(id: string, variable: Option<real>) | Mark(sep: Sep)

  /** The two tables, functions by name and the number of arguments of each, and how arithmetic is done. */
  datatype Functions = Functions(
    byName: map<string, seq<real> -> real>, argsCount: map<string, nat>, arithmetic: seq<Item> -> Option<real>)
  {
    /** A missing entry counts as zero. */
    function Arity(f: string): nat { if f in argsCount then argsCount[f] else 0 }
  }

  type Vars = map<string, real>

  /** Dots in a variable name are looked up as underscores. */
  function Undotted(id: string): (r: string)
    ensures |r| == |id| && forall i :: 0 <= i < |id| ==> r[i] == if id[i] == '.' then '_' else id[i]
  {
    if id == [] then [] else [if id[0] == '.' then '_' else id[0]] + Undotted(id[1..])
  }

  /** The fresh variable for counter n. */
  function ResultName(n: nat): string { "res_" + Decimal.Print(n) }

  lemma ResultNameInjective(m: nat, n: nat)
    requires ResultName(m) == ResultName(n)
    ensures m == n
  {
    assert ResultName(m)[4..] == Decimal.Print(m) && ResultName(n)[4..] == Decimal.Print(n);
    Decimal.PrintInjective(m, n);
  }

  lemma {:induction false} UndottedId(id: string)
    requires forall i :: 0 <= i < |id| ==> id[i] != '.'
    ensures Undotted(id) == id
  {
    if id != [] {
      UndottedId(id[1..]);
    }
  }

  lemma ResultNameUndotted(n: nat)
    ensures Undotted(ResultName(n)) == ResultName(n)
  {
    UndottedId(ResultName(n));
  }

  // ---------------------------------------------------------------------
  // Printing

  function Print(e: Expr): Text
    decreases e, 1
  {
    match e
    case Variable(id) => [Var(id)]
    case Apply(f, args) => [Fn(f), Open] + PrintAll(args) + [Close]
    case Between(sep) => [Sign(sep)]
  }

  function PrintAll(es: seq<Expr>): Text
    decreases es, 0
  {
    if es == [] then [] else Print(es[0]) + PrintAll(es[1..])
  }

  /** A call is its name and its arguments between parentheses; everything else is one token. */
  lemma PrintIs(f: string, args: seq<Expr>, id: string, sep: Sep)
    ensures PrintAll([Apply(f, args)]) == [Fn(f), Open] + PrintAll(args) + [Close]
    ensures PrintAll([Variable(id)]) == [Var(id)] && PrintAll([Between(sep)]) == [Sign(sep)] && PrintAll([]) == []
  {
    assert [Apply(f, args)][1..] == [] && [Variable(id)][1..] == [] && [Between(sep)][1..] == [];
    Seqs.Nothing([Fn(f), Open] + PrintAll(args) + [Close]);
    Seqs.Nothing([Var(id)]);
    Seqs.Nothing([Sign(sep)]);
  }

  lemma {:induction false} PrintAppend(a: seq<Expr>, b: seq<Expr>)
    ensures PrintAll(a + b) == PrintAll(a) + PrintAll(b)
  {
    if a == [] {
      Seqs.Nothing(b);
      Seqs.Nothing(PrintAll(b));
    } else {
      assert (a + b)[1..] == a[1..] + b;
      PrintAppend(a[1..], b);
      Seqs.Assoc(Print(a[0]), PrintAll(a[1..]), PrintAll(b));
    }
  }

  /** No variable of the expression is a fresh name from counter n on. */
  ghost predicate Fresh(e: Expr, n: nat)
    decreases e, 1
  {
    match e
    case Variable(id) => forall k: nat :: k >= n ==> Undotted(id) != ResultName(k)
    case Apply(_, args) => AllFresh(args, n)
    case Between(_) => true
  }

  ghost predicate AllFresh(es: seq<Expr>, n: nat)
    decreases es, 0
  {
    es == [] || (Fresh(es[0], n) && AllFresh(es[1..], n))
  }

  // ---------------------------------------------------------------------
  // What is between the commas

  /** The pieces of a sequence between the separators. */
  function Split<T(==)>(s: seq<T>, sep: T): (r: seq<seq<T>>)
    ensures |r| > 0
  {
    if s == [] then [[]]
    else
      var r := Split(s[1..], sep);
      if s[0] == sep then [[]] + r else [[s[0]] + r[0]] + r[1..]
  }

  /** The pieces with a separator between each two. */
  function Join<T>(pieces: seq<seq<T>>, sep: T): seq<T>
    requires pieces != []
  {
    if |pieces| == 1 then pieces[0] else pieces[0] + [sep] + Join(pieces[1..], sep)
  }

  /** Joining the pieces gives the sequence back, and no piece holds the separator. */
  lemma {:induction false} SplitJoins<T>(s: seq<T>, sep: T)
    ensures Join(Split(s, sep), sep) == s
    ensures forall i :: 0 <= i < |Split(s, sep)| ==> sep !in Split(s, sep)[i]
  {
    if s != [] {
      SplitJoins(s[1..], sep);
      var r := Split(s[1..], sep);
      if s[0] == sep {
        assert ([[]] + r)[1..] == r;
        assert [] + [sep] + s[1..] == s;
      } else {
        var pieces := [[s[0]] + r[0]] + r[1..];
        assert pieces[1..] == r[1..];
        assert s == [s[0]] + s[1..];
        if |r| > 1 {
          assert [s[0]] + r[0] + [sep] + Join(r[1..], sep) == [s[0]] + (r[0] + [sep] + Join(r[1..], sep));
        }
      }
    }
  }

  /** What is before a separator is split first, what is after it later. */
  lemma {:induction false} SplitAt<T>(a: seq<T>, sep: T, b: seq<T>)
    ensures Split(a + [sep] + b, sep) == Split(a, sep) + Split(b, sep)
  {
    var s := a + [sep] + b;
    if a == [] {
      assert s[0] == sep && s[1..] == b;
    } else {
      SplitAt(a[1..], sep, b);
      assert s[0] == a[0] && s[1..] == a[1..] + [sep] + b;
      SplitFirst(a[0], Split(a[1..], sep), Split(b, sep));
    }
  }

  lemma SplitFirst<T>(x: T, r: seq<seq<T>>, q: seq<seq<T>>)
    requires r != []
    ensures [[]] + (r + q) == [[]] + r + q
    ensures [[x] + (r + q)[0]] + (r + q)[1..] == ([[x] + r[0]] + r[1..]) + q
  {
    assert (r + q)[0] == r[0] && (r + q)[1..] == r[1..] + q;
  }

  lemma {:induction false} SplitWhole<T>(s: seq<T>, sep: T)
    requires sep !in s
    ensures Split(s, sep) == [s]
  {
    if s != [] {
      SplitWhole(s[1..], sep);
      assert [s[0]] + s[1..] == s;
    }
  }

  predicate IsNumeral(id: string) { id != [] && '0' <= id[0] <= '9' }

  function Stored(vars: Vars, id: string): Option<real> {
    if Undotted(id) in vars then Some(vars[Undotted(id)]) else None
  }

  /** A name as an item; arithmetic reads numerals as numbers whatever variables there are. */
  function NameItem(vars: Vars, id: string): Item {
    if IsNumeral(Undotted(id)) then Numeral(id, Stored(vars, id))
    else match Stored(vars, id)
      case Some(v) => Given(v)
      case None => Missing(id)
  }

  predicate HasOperator(items: seq<Item>) {
    exists i :: 0 <= i < |items| && items[i].Mark? && items[i].sep.Operator?
  }

  /** A single item is looked up; nothing at all is the variable without a name. */
  function Plain(item: Item): Result<real> {
    match item
    case Given(v) => Ok(v)
    case Numeral(_, Some(v)) => Ok(v)
    case Numeral(id, None) => Err(UndefinedVariable(id))
    case Missing(id) => Err(UndefinedVariable(id))
    case Mark(_) => Err(Unreadable)
  }

  function PieceValue(t: Functions, blank: Item, piece: seq<Item>): (r: Result<real>)
    ensures !r.Endless?
  {
    if HasOperator(piece) then
      match t.arithmetic(piece)
      case Some(v) => Ok(v)
      case None => Err(Unreadable)
    else if piece == [] then Plain(blank)
    else if |piece| == 1 then Plain(piece[0])
    else Err(Unreadable)
  }

  /** The values of the pieces in order, or the first error. */
  function PieceValues(t: Functions, blank: Item, pieces: seq<seq<Item>>): (r: Result<seq<real>>)
    ensures !r.Endless? && (r.Ok? ==> |r.value| == |pieces|)
  {
    if pieces == [] then Ok([])
    else match PieceValue(t, blank, pieces[0])
      case Err(err) => Err(err)
      case Ok(v) => Prepend([v], PieceValues(t, blank, pieces[1..]))
  }

  function Prepend(vs: seq<real>, r: Result<seq<real>>): Result<seq<real>> {
    match r
    case Ok(ws) => Ok(vs + ws)
    case _ => r
  }

  function Collect(t: Functions, vars: Vars, items: seq<Item>): (r: Result<seq<real>>)
    ensures !r.Endless? && (r.Ok? ==> |r.value| > 0)
  {
    PieceValues(t, NameItem(vars, ""), Split(items, Mark(Comma)))
  }

  /** A piece that is one name is what the variable of that name holds, and an empty one the variable without a name. */
  lemma NamePiece(t: Functions, vars: Vars, id: string)
    ensures PieceValue(t, NameItem(vars, ""), [NameItem(vars, id)])
            == if Undotted(id) in vars then Ok(vars[Undotted(id)]) else Err(UndefinedVariable(id))
    ensures PieceValue(t, NameItem(vars, ""), []) == if "" in vars then Ok(vars[""]) else Err(UndefinedVariable(""))
  {
    assert !HasOperator([NameItem(vars, id)]);
    assert !HasOperator([]);
  }

  /** A piece with a sign of arithmetic is computed, whatever else it holds. */
  lemma SignPiece(t: Functions, blank: Item, a: seq<Item>, symbol: char, b: seq<Item>)
    ensures var piece := a + [Mark(Operator(symbol))] + b;
      PieceValue(t, blank, piece)
      == match t.arithmetic(piece) { case Some(v) => Ok(v) case None => Err(Unreadable) }
  {
    var piece := a + [Mark(Operator(symbol))] + b;
    assert piece[|a|] == Mark(Operator(symbol));
    assert HasOperator(piece);
  }

  // ---------------------------------------------------------------------
  // Evaluation of the tree

  /** How far the calls are evaluated: all have values, or one fails, or one never ends. */
  datatype Ending = Ends | Fails(error: Error) | Stuck

  /**
   * Calls inside the arguments come first, last to first; a call without arguments
   * then never ends; then come the name, the arguments in order, and the arity.
   */
  function Value(t: Functions, vars: Vars, e: Expr): Result<real>
    requires e.Apply?
    decreases e, 1
  {
    match CallEnding(t, vars, e.args)
    case Stuck => Endless
    case Fails(err) => Err(err)
    case Ends => if e.args == [] then Endless else Finish(t, e.fn, Collect(t, vars, Items(t, vars, e.args)))
  }

  function Finish(t: Functions, f: string, values: Result<seq<real>>): Result<real> {
    if f !in t.byName then Err(UnknownFunction(f))
    else match values
      case Err(err) => Err(err)
      case Ok(vs) => if |vs| != t.Arity(f) then Err(WrongArity(f)) else Ok(t.byName[f](vs))
      case Endless => Endless
  }

  /** The last call that has no value decides. */
  function CallEnding(t: Functions, vars: Vars, es: seq<Expr>): Ending
    decreases es, 0
  {
    if es == [] then Ends
    else match CallEnding(t, vars, es[1..])
      case Ends =>
        if es[0].Apply? then
          match Value(t, vars, es[0]) { case Ok(_) => Ends case Err(err) => Fails(err) case Endless => Stuck }
        else Ends
      case Fails(err) => Fails(err)
      case Stuck => Stuck
  }

  function Items(t: Functions, vars: Vars, es: seq<Expr>): (r: seq<Item>)
    ensures |r| == |es|
    decreases es, 0
  {
    if es == [] then []
    else
      var item := match es[0]
        case Variable(id) => NameItem(vars, id)
        case Apply(f, _) => (match Value(t, vars, es[0]) case Ok(v) => Given(v) case _ => Missing(f))
        case Between(sep) => Mark(sep);
      [item] + Items(t, vars, es[1..])
  }

  function Values(t: Functions, vars: Vars, es: seq<Expr>): Result<seq<real>> {
    match CallEnding(t, vars, es)
    case Stuck => Endless
    case Fails(err) => Err(err)
    case Ends => Collect(t, vars, Items(t, vars, es))
  }

  /** The last calls decide first, and a variable or a sign never does. */
  lemma {:induction false} LaterDecides(t: Functions, vars: Vars, a: seq<Expr>, b: seq<Expr>)
    ensures CallEnding(t, vars, a + b)
            == if CallEnding(t, vars, b).Ends? then CallEnding(t, vars, a) else CallEnding(t, vars, b)
  {
    if a == [] {
      Seqs.Nothing(b);
    } else {
      assert (a + b)[1..] == a[1..] + b;
      LaterDecides(t, vars, a[1..], b);
    }
  }

  lemma OneDecides(t: Functions, vars: Vars, e: Expr)
    ensures CallEnding(t, vars, [e]) ==
      if !e.Apply? then Ends
      else match Value(t, vars, e) { case Ok(_) => Ends case Err(err) => Fails(err) case Endless => Stuck }
  {
    assert [e][1..] == [] && CallEnding(t, vars, []) == Ends;
  }

  /** A call whose arguments have no calls left to fail: the name first, then the arguments, then their number. */
  lemma CallCases(t: Functions, vars: Vars, f: string, args: seq<Expr>)
    requires args != [] && CallEnding(t, vars, args) == Ends
    ensures f !in t.byName ==> Value(t, vars, Apply(f, args)) == Err(UnknownFunction(f))
    ensures f in t.byName ==>
      match Values(t, vars, args)
      case Err(err) => Value(t, vars, Apply(f, args)) == Err(err)
      case Ok(vs) =>
        Value(t, vars, Apply(f, args))
        == if f in t.argsCount && |vs| != t.argsCount[f] then Err(WrongArity(f))
           else if f !in t.argsCount && |vs| != 0 then Err(WrongArity(f))
           else Ok(t.byName[f](vs))
      case Endless => false
  {
  }

  /** A call without arguments inside another: a failure after it is returned, otherwise nothing is. */
  lemma EmptyCallInside(t: Functions, vars: Vars, f: string, g: string, later: seq<Expr>)
    ensures var e := Apply(f, [Apply(g, []), Between(Comma)] + later);
      CallEnding(t, vars, [e]) == if CallEnding(t, vars, later).Ends? then Stuck else CallEnding(t, vars, later)
  {
    var args := [Apply(g, []), Between(Comma)] + later;
    var e := Apply(f, args);
    assert args[1..] == [Between(Comma)] + later;
    assert args[1..][1..] == later;
    assert CallEnding(t, vars, args[1..]) == CallEnding(t, vars, later);
    assert CallEnding(t, vars, []) == Ends;
    assert Value(t, vars, args[0]) == Endless;
    assert !CallEnding(t, vars, args).Ends?;
    assert [e][1..] == [] && [e][0] == e;
  }

  // ---------------------------------------------------------------------
  // The ordinary meaning

  /** The function exists, every argument is defined, and there are as many as it takes. */
  ghost predicate Defined(t: Functions, vars: Vars, e: Expr)
    decreases e, 1
  {
    e.Apply? ==>
      && e.fn in t.byName && e.args != [] && AllDefined(t, vars, e.args)
      && |Split(e.args, Between(Comma))| == t.Arity(e.fn)
  }

  ghost predicate CallsDefined(t: Functions, vars: Vars, es: seq<Expr>)
    decreases es, 0
  {
    es == [] || (Defined(t, vars, es[0]) && CallsDefined(t, vars, es[1..]))
  }

  /** Every call is defined, and so is every piece between the commas. */
  ghost predicate AllDefined(t: Functions, vars: Vars, es: seq<Expr>)
    decreases es, 2
  {
    && CallsDefined(t, vars, es)
    && var pieces := Split(MeantItems(t, vars, es), Mark(Comma));
      forall i :: 0 <= i < |pieces| ==> PieceValue(t, NameItem(vars, ""), pieces[i]).Ok?
  }

  /** The ordinary recursive meaning, for calls where everything is defined. */
  ghost function Meaning(t: Functions, vars: Vars, e: Expr): real
    requires e.Apply? && Defined(t, vars, e)
    decreases e, 2
  {
    t.byName[e.fn](Meanings(t, vars, e.args))
  }

  ghost function MeantItems(t: Functions, vars: Vars, es: seq<Expr>): (r: seq<Item>)
    requires CallsDefined(t, vars, es)
    ensures |r| == |es|
    decreases es, 1
  {
    if es == [] then []
    else
      var item := match es[0]
        case Variable(id) => NameItem(vars, id)
        case Apply(_, _) => Given(Meaning(t, vars, es[0]))
        case Between(sep) => Mark(sep);
      [item] + MeantItems(t, vars, es[1..])
  }

  ghost function Meanings(t: Functions, vars: Vars, es: seq<Expr>): seq<real>
    requires AllDefined(t, vars, es)
    decreases es, 3
  {
    var pieces := Split(MeantItems(t, vars, es), Mark(Comma));
    seq(|pieces|, i requires 0 <= i < |pieces| => PieceValue(t, NameItem(vars, ""), pieces[i]).value)
  }

  lemma {:induction false} PiecesInOrder(t: Functions, blank: Item, pieces: seq<seq<Item>>)
    ensures var r := PieceValues(t, blank, pieces);
      && (r.Ok? <==> forall i :: 0 <= i < |pieces| ==> PieceValue(t, blank, pieces[i]).Ok?)
      && (r.Ok? ==> forall i :: 0 <= i < |pieces| ==> PieceValue(t, blank, pieces[i]) == Ok(r.value[i]))
      && (r.Err? ==> exists i :: 0 <= i < |pieces| && PieceValue(t, blank, pieces[i]) == Err(r.error)
                                 && forall j :: 0 <= j < i ==> PieceValue(t, blank, pieces[j]).Ok?)
  {
    if pieces != [] {
      PiecesInOrder(t, blank, pieces[1..]);
      var rest := PieceValues(t, blank, pieces[1..]);
      assert forall i :: 1 <= i < |pieces| ==> pieces[i] == pieces[1..][i - 1];
      if PieceValue(t, blank, pieces[0]).Ok? && rest.Err? {
        var i :| 0 <= i < |pieces[1..]| && PieceValue(t, blank, pieces[1..][i]) == Err(rest.error)
          && forall j :: 0 <= j < i ==> PieceValue(t, blank, pieces[1..][j]).Ok?;
        assert PieceValue(t, blank, pieces[i + 1]) == Err(rest.error);
      }
    }
  }

  /** Sequences with separators at the same places have as many pieces. */
  lemma {:induction false} SplitAlike<A, B>(a: seq<A>, x: A, b: seq<B>, y: B)
    requires |a| == |b| && forall i :: 0 <= i < |a| ==> (a[i] == x <==> b[i] == y)
    ensures |Split(a, x)| == |Split(b, y)|
  {
    if a != [] {
      SplitAlike(a[1..], x, b[1..], y);
    }
  }

  lemma {:induction false} ItemsMark(t: Functions, vars: Vars, es: seq<Expr>)
    ensures forall i :: 0 <= i < |es| ==> (es[i] == Between(Comma) <==> Items(t, vars, es)[i] == Mark(Comma))
    decreases |es|
  {
    if es != [] {
      ItemsMark(t, vars, es[1..]);
      assert forall i :: 1 <= i < |es| ==> es[i] == es[1..][i - 1];
    }
  }

  // The ordinary meaning, argument by argument.

  lemma {:induction false} MeantAppend(t: Functions, vars: Vars, a: seq<Expr>, b: seq<Expr>)
    ensures CallsDefined(t, vars, a + b) <==> CallsDefined(t, vars, a) && CallsDefined(t, vars, b)
    ensures CallsDefined(t, vars, a + b) ==>
      MeantItems(t, vars, a + b) == MeantItems(t, vars, a) + MeantItems(t, vars, b)
  {
    if a == [] {
      Seqs.Nothing(b);
      if CallsDefined(t, vars, b) {
        Seqs.Nothing(MeantItems(t, vars, b));
      }
    } else {
      assert (a + b)[1..] == a[1..] + b;
      MeantAppend(t, vars, a[1..], b);
      if CallsDefined(t, vars, a + b) {
        Seqs.Assoc([MeantItems(t, vars, a)[0]], MeantItems(t, vars, a[1..]), MeantItems(t, vars, b));
      }
    }
  }

  /** The meanings before a comma come first, those after it later. */
  lemma MeaningsAtComma(t: Functions, vars: Vars, a: seq<Expr>, b: seq<Expr>)
    ensures var es := a + [Between(Comma)] + b;
      && (AllDefined(t, vars, es) <==> AllDefined(t, vars, a) && AllDefined(t, vars, b))
      && (AllDefined(t, vars, es) ==> Meanings(t, vars, es) == Meanings(t, vars, a) + Meanings(t, vars, b))
  {
    var comma := [Between(Comma)];
    MeantAppend(t, vars, a + comma, b);
    MeantAppend(t, vars, a, comma);
    CommaDefined(t, vars);
    if CallsDefined(t, vars, a) && CallsDefined(t, vars, b) {
      var x, y := MeantItems(t, vars, a), MeantItems(t, vars, b);
      SplitAt(x, Mark(Comma), y);
      PiecesApart(t, NameItem(vars, ""), Split(x, Mark(Comma)), Split(y, Mark(Comma)));
    }
  }

  lemma CommaDefined(t: Functions, vars: Vars)
    ensures CallsDefined(t, vars, [Between(Comma)])
    ensures MeantItems(t, vars, [Between(Comma)]) == [Mark(Comma)]
  {
    assert [Between(Comma)][1..] == [];
    assert CallsDefined(t, vars, []);
  }

  lemma PiecesApart(t: Functions, blank: Item, p: seq<seq<Item>>, q: seq<seq<Item>>)
    ensures (forall i :: 0 <= i < |p + q| ==> PieceValue(t, blank, (p + q)[i]).Ok?) <==>
      (forall i :: 0 <= i < |p| ==> PieceValue(t, blank, p[i]).Ok?)
      && (forall i :: 0 <= i < |q| ==> PieceValue(t, blank, q[i]).Ok?)
  {
    assert forall i :: 0 <= i < |p| ==> (p + q)[i] == p[i];
    assert forall i :: 0 <= i < |q| ==> (p + q)[|p| + i] == q[i];
  }

  /** One variable means what it holds, one call what its function gives on the meanings of its arguments. */
  lemma MeaningOfOne(t: Functions, vars: Vars, e: Expr)
    requires e.Variable? || e.Apply?
    ensures e.Variable? ==> (AllDefined(t, vars, [e]) <==> Undotted(e.id) in vars)
    ensures e.Variable? && Undotted(e.id) in vars ==> Meanings(t, vars, [e]) == [vars[Undotted(e.id)]]
    ensures e.Apply? ==> (AllDefined(t, vars, [e]) <==> Defined(t, vars, e))
    ensures e.Apply? && Defined(t, vars, e) ==>
      && e.fn in t.byName && AllDefined(t, vars, e.args)
      && Meanings(t, vars, [e]) == [t.byName[e.fn](Meanings(t, vars, e.args))]
  {
    assert [e][0] == e && [e][1..] == [] && CallsDefined(t, vars, []);
    assert CallsDefined(t, vars, [e]) <==> Defined(t, vars, e);
    if CallsDefined(t, vars, [e]) {
      assert MeantItems(t, vars, []) == [];
      var item := if e.Variable? then NameItem(vars, e.id) else Given(Meaning(t, vars, e));
      assert MeantItems(t, vars, [e]) == [item];
      OneItemMeans(t, vars, [e], item);
      OnePiece(t, vars, item);
      if e.Variable? {
        NamePiece(t, vars, e.id);
      }
    }
  }

  lemma OneItemMeans(t: Functions, vars: Vars, es: seq<Expr>, item: Item)
    requires CallsDefined(t, vars, es) && MeantItems(t, vars, es) == [item] && !item.Mark?
    ensures var v := PieceValue(t, NameItem(vars, ""), [item]);
      && (AllDefined(t, vars, es) <==> v.Ok?)
      && (v.Ok? ==> Meanings(t, vars, es) == [v.value])
  {
    OnePiece(t, vars, item);
    var pieces := Split(MeantItems(t, vars, es), Mark(Comma));
    assert pieces == [[item]] && pieces[0] == [item];
  }

  lemma OnePiece(t: Functions, vars: Vars, item: Item)
    requires !item.Mark?
    ensures Split([item], Mark(Comma)) == [[item]]
    ensures item.Given? ==> PieceValue(t, NameItem(vars, ""), [item]) == Ok(item.value)
  {
    SplitWhole([item], Mark(Comma));
    assert !HasOperator([item]);
  }

  /** Evaluation succeeds exactly on the defined calls, with their ordinary meaning. */
  lemma {:induction false} ValueIsMeaning(t: Functions, vars: Vars, e: Expr)
    requires e.Apply?
    ensures Value(t, vars, e).Ok? <==> Defined(t, vars, e)
    ensures Defined(t, vars, e) ==> Value(t, vars, e) == Ok(Meaning(t, vars, e))
    decreases e, 1
  {
    ValuesAreMeanings(t, vars, e.args);
    ItemsMark(t, vars, e.args);
    SplitAlike(e.args, Between(Comma), Items(t, vars, e.args), Mark(Comma));
  }

  lemma {:induction false} CallsAreMeant(t: Functions, vars: Vars, es: seq<Expr>)
    ensures CallEnding(t, vars, es).Ends? <==> CallsDefined(t, vars, es)
    ensures CallsDefined(t, vars, es) ==> Items(t, vars, es) == MeantItems(t, vars, es)
    decreases es, 0
  {
    if es != [] {
      CallsAreMeant(t, vars, es[1..]);
      if es[0].Apply? {
        ValueIsMeaning(t, vars, es[0]);
      }
    }
  }

  lemma {:induction false} ValuesAreMeanings(t: Functions, vars: Vars, es: seq<Expr>)
    ensures Values(t, vars, es).Ok? <==> AllDefined(t, vars, es)
    ensures AllDefined(t, vars, es) ==> Values(t, vars, es) == Ok(Meanings(t, vars, es))
    decreases es, 1
  {
    CallsAreMeant(t, vars, es);
    if CallsDefined(t, vars, es) {
      PiecesInOrder(t, NameItem(vars, ""), Split(MeantItems(t, vars, es), Mark(Comma)));
      if AllDefined(t, vars, es) {
        assert Collect(t, vars, Items(t, vars, es)).value == Meanings(t, vars, es);
      }
    }
  }

  // ---------------------------------------------------------------------
  // The last call of a text

  ghost predicate HasCall(es: seq<Expr>) {
    exists i :: 0 <= i < |es| && es[i].Apply?
  }

  ghost predicate NoFn(s: Text) {
    forall i :: 0 <= i < |s| ==> !s[i].Fn?
  }

  ghost predicate Innermost(e: Expr) {
    e.Apply? && !HasCall(e.args)
  }

  ghost predicate Flat(e: Expr) {
    Innermost(e) && e.args != []
  }

  /** The innermost last call: the last one in the printed text. */
  ghost function LastCall(es: seq<Expr>): (c: Expr)
    requires HasCall(es)
    ensures c.Apply?
    decreases es, 0
  {
    if HasCall(es[1..]) then LastCall(es[1..])
    else if HasCall(es[0].args) then LastCall(es[0].args)
    else es[0]
  }

  lemma NoCallLater(es: seq<Expr>)
    requires es != [] && !HasCall(es)
    ensures !es[0].Apply? && !HasCall(es[1..])
  {
    assert forall i :: 0 <= i < |es[1..]| ==> es[1..][i] == es[i + 1];
  }

  /** Without calls, one token for each element. */
  lemma {:induction false} PrintNoCalls(es: seq<Expr>)
    requires !HasCall(es)
    ensures |PrintAll(es)| == |es|
    ensures forall i :: 0 <= i < |es| ==> PrintAll(es)[i] == match es[i] {
      case Variable(id) => Var(id) case Between(sep) => Sign(sep) case Apply(f, _) => Fn(f) }
    ensures NoFn(PrintAll(es)) && Close !in PrintAll(es) && Open !in PrintAll(es)
    decreases |es|
  {
    if es != [] {
      NoCallLater(es);
      PrintNoCalls(es[1..]);
    }
  }

  /** The text around the last call; nothing after it is a call. */
  lemma {:induction false} LastCallSplits(es: seq<Expr>) returns (pre: Text, post: Text)
    requires HasCall(es)
    ensures PrintAll(es) == pre + Print(LastCall(es)) + post
    ensures NoFn(post) && Innermost(LastCall(es))
    decreases es, 0
  {
    if HasCall(es[1..]) {
      pre, post := LastCallSplits(es[1..]);
      AfterFirst(Print(es[0]), pre, Print(LastCall(es[1..])), post);
      pre := Print(es[0]) + pre;
    } else {
      PrintNoCalls(es[1..]);
      if HasCall(es[0].args) {
        pre, post := LastCallSplits(es[0].args);
        pre, post := WrapCall(es[0], pre, Print(LastCall(es[0].args)), post, PrintAll(es[1..]));
      } else {
        pre, post := [], PrintAll(es[1..]);
        Seqs.Nothing(Print(es[0]));
      }
    }
  }

  lemma AfterFirst(first: Text, pre: Text, mid: Text, post: Text)
    ensures first + (pre + mid + post) == first + pre + mid + post
  {
  }

  lemma WrapCall(e: Expr, pre: Text, mid: Text, post: Text, tail: Text) returns (pre': Text, post': Text)
    requires e.Apply? && PrintAll(e.args) == pre + mid + post && NoFn(post) && NoFn(tail)
    ensures Print(e) + tail == pre' + mid + post' && NoFn(post')
  {
    pre', post' := [Fn(e.fn), Open] + pre, post + ([Close] + tail);
    assert [Fn(e.fn), Open] + (pre + mid + post) + [Close] + tail == pre' + mid + post';
  }

  // ---------------------------------------------------------------------
  // Replacing every occurrence of a call's text

  /** Left to right, non-overlapping. */
  function Replace(s: Text, pattern: Text, sub: Token): Text
    requires pattern != []
    decreases |s|
  {
    if |s| < |pattern| then s
    else if pattern <= s then [sub] + Replace(s[|pattern|..], pattern, sub)
    else [s[0]] + Replace(s[1..], pattern, sub)
  }

  /** The first occurrence is replaced, and then all in what follows it; without one nothing changes. */
  lemma {:induction false} ReplaceFirst(a: Text, pattern: Text, b: Text, sub: Token)
    requires pattern != []
    requires forall i :: 0 <= i < |a| ==> !(pattern <= (a + pattern + b)[i..])
    ensures Replace(a + pattern + b, pattern, sub) == a + [sub] + Replace(b, pattern, sub)
    decreases |a|
  {
    var s := a + pattern + b;
    if a == [] {
      assert s == pattern + b && s[|pattern|..] == b;
    } else {
      assert s == s[0..] && s[1..] == a[1..] + pattern + b;
      forall i | 0 <= i < |a[1..]|
        ensures !(pattern <= (a[1..] + pattern + b)[i..])
      {
        assert s[i + 1..] == (a[1..] + pattern + b)[i..];
      }
      ReplaceFirst(a[1..], pattern, b, sub);
      Prefixed(a, [sub], Replace(b, pattern, sub));
    }
  }

  lemma Prefixed(a: Text, x: Text, y: Text)
    requires a != []
    ensures [a[0]] + (a[1..] + x + y) == a + x + y
  {
    assert a == [a[0]] + a[1..];
  }

  lemma {:induction false} ReplaceNone(s: Text, pattern: Text, sub: Token)
    requires pattern != [] && forall i :: 0 <= i <= |s| ==> !(pattern <= s[i..])
    ensures Replace(s, pattern, sub) == s
    decreases |s|
  {
    if |s| >= |pattern| {
      assert s[0..] == s;
      forall i | 0 <= i <= |s[1..]|
        ensures !(pattern <= s[1..][i..])
      {
        assert s[1..][i..] == s[i + 1..];
      }
      ReplaceNone(s[1..], pattern, sub);
      assert s == [s[0]] + s[1..];
    }
  }

  function Subst(e: Expr, c: Expr, id: string): Expr
    decreases e, 1
  {
    if e == c then Variable(id)
    else match e
      case Apply(f, args) => Apply(f, SubstAll(args, c, id))
      case _ => e
  }

  function SubstAll(es: seq<Expr>, c: Expr, id: string): (r: seq<Expr>)
    ensures |r| == |es|
    decreases es, 0
  {
    if es == [] then [] else [Subst(es[0], c, id)] + SubstAll(es[1..], c, id)
  }

  /** The text of an innermost call starts only at that very call. */
  lemma {:induction false} CallTextUnique(c: Expr, e: Expr, rest: Text)
    requires Innermost(c)
    requires Print(c) <= Print(e) + rest
    ensures e == c
  {
    var s := Print(e) + rest;
    assert s[0] == Print(c)[0] == Fn(c.fn);
    assert e.Apply? && e.fn == c.fn;
    Inside(Fn(c.fn), PrintAll(c.args), []);
    Inside(Fn(e.fn), PrintAll(e.args), rest);
    Seqs.Nothing(Print(c));
    PrefixLater(Print(c), s, 2);
    Seqs.Nothing([Close]);
    ArgumentsUnique(c.args, e.args, rest);
  }

  lemma Inside(fn: Token, inner: Text, rest: Text)
    ensures ([fn, Open] + inner + [Close] + rest)[2..] == inner + ([Close] + rest)
  {
  }

  lemma PrefixLater(a: Text, b: Text, k: nat)
    requires a <= b && k <= |a|
    ensures a[k..] <= b[k..]
  {
  }

  lemma {:induction false} ArgumentsUnique(vs: seq<Expr>, es: seq<Expr>, rest: Text)
    requires !HasCall(vs)
    requires PrintAll(vs) + [Close] <= PrintAll(es) + ([Close] + rest)
    ensures vs == es
    decreases |vs|
  {
    var a, b := PrintAll(vs) + [Close], PrintAll(es) + ([Close] + rest);
    assert a[0] == b[0];
    if vs == [] {
      if es != [] {
        PrintStarts(es[0]);
      }
    } else {
      NoCallLater(vs);
      SameFirst(vs, es, rest);
      assert a[1..] == PrintAll(vs[1..]) + [Close];
      assert b[1..] == PrintAll(es[1..]) + ([Close] + rest);
      PrefixLater(a, b, 1);
      ArgumentsUnique(vs[1..], es[1..], rest);
      assert vs == [vs[0]] + vs[1..] && es == [es[0]] + es[1..];
    }
  }

  lemma SameFirst(vs: seq<Expr>, es: seq<Expr>, rest: Text)
    requires vs != [] && !vs[0].Apply?
    requires (PrintAll(vs) + [Close])[0] == (PrintAll(es) + ([Close] + rest))[0]
    ensures es != [] && es[0] == vs[0]
  {
    PrintStarts(vs[0]);
    if es != [] {
      PrintStarts(es[0]);
    }
  }

  lemma PrintStarts(e: Expr)
    ensures Print(e) != [] && Print(e)[0] != Close && Print(e)[0] != Open
    ensures Print(e)[0] == match e {
      case Variable(id) => Var(id) case Between(sep) => Sign(sep) case Apply(f, _) => Fn(f) }
  {
  }

  lemma ReplaceHead(s: Text, rest: Text, pattern: Text, sub: Token)
    requires pattern != [] && |s| == 1 && !(pattern <= s + rest)
    ensures Replace(s + rest, pattern, sub) == s + Replace(rest, pattern, sub)
  {
    assert (s + rest)[1..] == rest;
    if |s + rest| < |pattern| {
      assert Replace(rest, pattern, sub) == rest;
    }
  }

  lemma ReplaceToken(x: Token, rest: Text, pattern: Text, sub: Token)
    requires pattern != [] && pattern[0] != x
    ensures Replace([x] + rest, pattern, sub) == [x] + Replace(rest, pattern, sub)
  {
    assert ([x] + rest)[0] == x;
    ReplaceHead([x], rest, pattern, sub);
  }

  lemma ReplaceMatch(pattern: Text, rest: Text, sub: Token)
    requires pattern != []
    ensures Replace(pattern + rest, pattern, sub) == [sub] + Replace(rest, pattern, sub)
  {
    assert (pattern + rest)[|pattern|..] == rest;
  }

  /** Replacing in the printed text is substituting in the tree. */
  lemma {:induction false} ReplaceIsSubst(e: Expr, c: Expr, id: string, rest: Text)
    requires Innermost(c)
    ensures Replace(Print(e) + rest, Print(c), Var(id)) == Print(Subst(e, c, id)) + Replace(rest, Print(c), Var(id))
    decreases e, 1
  {
    var p, sub := Print(c), Var(id);
    PrintStarts(c);
    if e == c {
      ReplaceMatch(p, rest, sub);
    } else if e.Apply? {
      if p <= Print(e) + rest {
        CallTextUnique(c, e, rest);
      }
      ReplaceIsSubstAll(e.args, c, id, [Close] + rest);
      ApplyGlue(Fn(e.fn), PrintAll(e.args), PrintAll(SubstAll(e.args, c, id)), rest, p, sub);
    } else {
      ReplaceToken(Print(e)[0], rest, p, sub);
    }
  }

  /** A call's own tokens stay; only its arguments' text is replaced in. */
  lemma ApplyGlue(fn: Token, args: Text, args': Text, rest: Text, p: Text, sub: Token)
    requires p != [] && p[0] != Open && p[0] != Close
    requires !(p <= [fn, Open] + args + [Close] + rest)
    requires Replace(args + ([Close] + rest), p, sub) == args' + Replace([Close] + rest, p, sub)
    ensures Replace([fn, Open] + args + [Close] + rest, p, sub) == [fn, Open] + args' + [Close] + Replace(rest, p, sub)
  {
    var tail := args + ([Close] + rest);
    assert [fn, Open] + args + [Close] + rest == [fn] + ([Open] + tail);
    ReplaceHead([fn], [Open] + tail, p, sub);
    ReplaceToken(Open, tail, p, sub);
    ReplaceToken(Close, rest, p, sub);
    CallGlue(fn, args', Replace(rest, p, sub));
  }

  lemma CallGlue(fn: Token, args: Text, rest: Text)
    ensures [fn] + ([Open] + (args + ([Close] + rest))) == [fn, Open] + args + [Close] + rest
  {
  }

  /** Replacing in the printed arguments is substituting in all of them. */
  lemma {:induction false} ReplaceIsSubstAll(es: seq<Expr>, c: Expr, id: string, rest: Text)
    requires Innermost(c)
    ensures Replace(PrintAll(es) + rest, Print(c), Var(id))
            == PrintAll(SubstAll(es, c, id)) + Replace(rest, Print(c), Var(id))
    decreases es, 0
  {
    var p, sub := Print(c), Var(id);
    PrintStarts(c);
    if es == [] {
      Seqs.Nothing(rest);
      Seqs.Nothing(Replace(rest, p, sub));
    } else {
      ReplaceIsSubst(es[0], c, id, PrintAll(es[1..]) + rest);
      ReplaceIsSubstAll(es[1..], c, id, rest);
      SubstHead(es, c, id);
      Seqs.Assoc(Print(es[0]), PrintAll(es[1..]), rest);
      Seqs.Assoc(Print(Subst(es[0], c, id)), PrintAll(SubstAll(es[1..], c, id)), Replace(rest, p, sub));
    }
  }

  lemma SubstHead(es: seq<Expr>, c: Expr, id: string)
    requires es != []
    ensures var rs := SubstAll(es, c, id); rs[0] == Subst(es[0], c, id) && rs[1..] == SubstAll(es[1..], c, id)
  {
  }

  // ---------------------------------------------------------------------
  // One round keeps the value

  lemma FreshItem(vars: Vars, id: string, n: nat, v: real)
    requires forall k: nat :: k >= n ==> Undotted(id) != ResultName(k)
    ensures NameItem(vars[ResultName(n) := v], id) == NameItem(vars, id)
  {
    assert Undotted(id) != ResultName(n);
  }

  lemma ResultItem(vars: Vars, n: nat, v: real)
    ensures NameItem(vars[ResultName(n) := v], ResultName(n)) == Given(v)
    ensures NameItem(vars[ResultName(n) := v], "") == NameItem(vars, "")
  {
    ResultNameUndotted(n);
    assert ResultName(n)[0] == 'r';
  }

  /** Replacing a call by a fresh variable that holds its value changes no value, no error and no end. */
  lemma {:induction false} SubstKeepsValue(t: Functions, vars: Vars, e: Expr, c: Expr, n: nat, v: real)
    requires c.Apply? && Value(t, vars, c) == Ok(v) && e.Apply? && e != c && Fresh(e, n)
    ensures Value(t, vars[ResultName(n) := v], Subst(e, c, ResultName(n))) == Value(t, vars, e)
    decreases e, 1
  {
    SubstKeepsValues(t, vars, e.args, c, n, v);
    ResultItem(vars, n, v);
  }

  lemma {:induction false} SubstKeepsValues(t: Functions, vars: Vars, es: seq<Expr>, c: Expr, n: nat, v: real)
    requires c.Apply? && Value(t, vars, c) == Ok(v) && AllFresh(es, n)
    ensures var vars' := vars[ResultName(n) := v];
      var rs := SubstAll(es, c, ResultName(n));
      CallEnding(t, vars', rs) == CallEnding(t, vars, es) && Items(t, vars', rs) == Items(t, vars, es)
    decreases es, 0
  {
    if es != [] {
      SubstHead(es, c, ResultName(n));
      SubstKeepsValues(t, vars, es[1..], c, n, v);
      match es[0]
      case Variable(id) => FreshItem(vars, id, n, v);
      case Between(_) =>
      case Apply(_, _) =>
        if es[0] == c {
          ResultItem(vars, n, v);
        } else {
          SubstKeepsValue(t, vars, es[0], c, n, v);
        }
    }
  }

  /** A last call without a value decides for the whole: by its error, or by never ending. */
  lemma {:induction false} LastCallDecides(t: Functions, vars: Vars, es: seq<Expr>)
    requires HasCall(es)
    ensures Value(t, vars, LastCall(es)).Err? ==> CallEnding(t, vars, es) == Fails(Value(t, vars, LastCall(es)).error)
    ensures Value(t, vars, LastCall(es)).Endless? ==> CallEnding(t, vars, es) == Stuck
    decreases es, 0
  {
    if HasCall(es[1..]) {
      LastCallDecides(t, vars, es[1..]);
    } else {
      NoCallEnds(t, vars, es[1..]);
      if HasCall(es[0].args) {
        LastCallDecides(t, vars, es[0].args);
      }
    }
  }

  /** The last call never ends exactly when it has no arguments. */
  lemma LastCallEndless(t: Functions, vars: Vars, es: seq<Expr>)
    requires HasCall(es)
    ensures Innermost(LastCall(es))
    ensures Value(t, vars, LastCall(es)).Endless? <==> LastCall(es).args == []
  {
    var pre, post := LastCallSplits(es);
    NoCallEnds(t, vars, LastCall(es).args);
  }

  lemma {:induction false} LastCallFresh(es: seq<Expr>, n: nat)
    requires HasCall(es) && AllFresh(es, n)
    ensures Fresh(LastCall(es), n)
    decreases es, 0
  {
    if HasCall(es[1..]) {
      LastCallFresh(es[1..], n);
    } else if HasCall(es[0].args) {
      LastCallFresh(es[0].args, n);
    }
  }

  lemma {:induction false} NoCallEnds(t: Functions, vars: Vars, es: seq<Expr>)
    requires !HasCall(es)
    ensures CallEnding(t, vars, es) == Ends
    decreases |es|
  {
    if es != [] {
      NoCallLater(es);
      NoCallEnds(t, vars, es[1..]);
    }
  }

  /** The number of calls: the occurrences of `GW:` in the text. */
  function Calls(e: Expr): nat
    decreases e, 1
  {
    if e.Apply? then 1 + AllCalls(e.args) else 0
  }

  function AllCalls(es: seq<Expr>): nat
    decreases es, 0
  {
    if es == [] then 0 else Calls(es[0]) + AllCalls(es[1..])
  }

  function CountFn(s: Text): nat {
    if s == [] then 0 else (if s[0].Fn? then 1 else 0) + CountFn(s[1..])
  }

  lemma {:induction false} CountFnAppend(a: Text, b: Text)
    ensures CountFn(a + b) == CountFn(a) + CountFn(b)
  {
    if a == [] {
      assert a + b == b;
    } else {
      assert (a + b)[1..] == a[1..] + b;
      CountFnAppend(a[1..], b);
    }
  }

  lemma {:induction false} CallsArePrinted(e: Expr)
    ensures CountFn(Print(e)) == Calls(e)
    decreases e, 1
  {
    if e.Apply? {
      AllCallsArePrinted(e.args);
      CountFnAppend([Fn(e.fn), Open], PrintAll(e.args));
      CountFnAppend([Fn(e.fn), Open] + PrintAll(e.args), [Close]);
    }
  }

  lemma {:induction false} AllCallsArePrinted(es: seq<Expr>)
    ensures CountFn(PrintAll(es)) == AllCalls(es)
    decreases es, 0
  {
    if es != [] {
      CallsArePrinted(es[0]);
      AllCallsArePrinted(es[1..]);
      CountFnAppend(Print(es[0]), PrintAll(es[1..]));
    }
  }

  lemma {:induction false} SubstKeepsShape(e: Expr, c: Expr, n: nat)
    requires Fresh(e, n) && c.Apply?
    ensures Fresh(Subst(e, c, ResultName(n)), n + 1)
    ensures Calls(Subst(e, c, ResultName(n))) <= Calls(e)
    decreases e, 1
  {
    if e == c {
      ResultNameUndotted(n);
      forall k: nat | k >= n + 1 ensures Undotted(ResultName(n)) != ResultName(k) {
        if ResultName(n) == ResultName(k) {
          ResultNameInjective(n, k);
        }
      }
    } else if e.Apply? {
      SubstAllKeepsShape(e.args, c, n);
    }
  }

  lemma {:induction false} SubstAllKeepsShape(es: seq<Expr>, c: Expr, n: nat)
    requires AllFresh(es, n) && c.Apply?
    ensures var rs := SubstAll(es, c, ResultName(n)); AllFresh(rs, n + 1) && AllCalls(rs) <= AllCalls(es)
    decreases es, 0
  {
    if es != [] {
      SubstHead(es, c, ResultName(n));
      SubstKeepsShape(es[0], c, n);
      SubstAllKeepsShape(es[1..], c, n);
    }
  }

  /** Each round strictly lowers the number of calls. */
  lemma {:induction false} RoundShrinks(es: seq<Expr>, n: nat)
    requires HasCall(es) && AllFresh(es, n)
    ensures AllCalls(SubstAll(es, LastCall(es), ResultName(n))) < AllCalls(es)
    decreases es, 0
  {
    var pre, post := LastCallSplits(es);
    var c, id := LastCall(es), ResultName(n);
    SubstHead(es, c, id);
    SubstKeepsShape(es[0], c, n);
    SubstAllKeepsShape(es[1..], c, n);
    if HasCall(es[1..]) {
      RoundShrinks(es[1..], n);
    } else if HasCall(es[0].args) && es[0] != c {
      RoundShrinks(es[0].args, n);
    }
  }

  // ---------------------------------------------------------------------
  // The text's patterns

  /** ^GW:\w+\([^\(\)]+\)$ */
  predicate FlatText(s: Text) {
    && |s| > 3 && s[0].Fn? && s[1] == Open && s[|s| - 1] == Close
    && (forall i :: 2 <= i < |s| - 1 ==> s[i] != Open && s[i] != Close)
  }

  /** The text of an innermost call has the flat pattern exactly when there is something between its parentheses. */
  lemma FlatTextOfCall(e: Expr)
    requires Innermost(e)
    ensures Print(e)[2..|Print(e)| - 1] == PrintAll(e.args)
    ensures FlatText(Print(e)) <==> e.args != []
  {
    PrintNoCalls(e.args);
    var s, inner := Print(e), PrintAll(e.args);
    assert s[2..|s| - 1] == inner;
    forall i | 2 <= i < |s| - 1 ensures s[i] != Open && s[i] != Close {
      assert s[i] == inner[i - 2];
    }
  }

  lemma {:induction false} CallsPrintOpen(es: seq<Expr>)
    requires HasCall(es)
    ensures Open in PrintAll(es)
    decreases |es|
  {
    if es[0].Apply? {
      assert Print(es[0])[1] == Open;
      assert PrintAll(es)[1] == Open;
    } else {
      var i :| 0 <= i < |es| && es[i].Apply?;
      assert es[1..][i - 1] == es[i];
      CallsPrintOpen(es[1..]);
    }
  }

  lemma FirstCallText(fn: Token, inner: Text, tail: Text)
    requires FlatText([fn, Open] + inner + [Close] + tail)
    ensures tail == [] && inner != [] && Open !in inner
  {
    var s := [fn, Open] + inner + [Close] + tail;
    assert s[2 + |inner|] == Close;
    assert tail == [];
    assert forall i :: 0 <= i < |inner| ==> s[2 + i] == inner[i];
  }

  /** Only the text of one flat call has the flat pattern. */
  lemma OnlyCallsAreFlat(es: seq<Expr>)
    requires FlatText(PrintAll(es))
    ensures |es| == 1 && Flat(es[0])
  {
    var s, e, tail := PrintAll(es), es[0], PrintAll(es[1..]);
    PrintStarts(e);
    assert s[0] == Print(e)[0];
    var inner := PrintAll(e.args);
    FirstCallText(Fn(e.fn), inner, tail);
    if |es| > 1 {
      PrintStarts(es[1]);
    }
    if HasCall(e.args) {
      CallsPrintOpen(e.args);
    }
  }

  predicate ContainsFn(s: Text) {
    exists i :: 0 <= i < |s| && s[i].Fn?
  }

  lemma CallsPrintFn(es: seq<Expr>)
    ensures ContainsFn(PrintAll(es)) <==> HasCall(es)
  {
    if HasCall(es) {
      var pre, post := LastCallSplits(es);
      assert PrintAll(es)[|pre|] == Print(LastCall(es))[0];
    } else {
      PrintNoCalls(es);
    }
  }

  function LastFn(s: Text): (i: nat)
    requires ContainsFn(s)
    ensures i < |s| && s[i].Fn? && forall j :: i < j < |s| ==> !s[j].Fn?
  {
    if s[|s| - 1].Fn? then |s| - 1 else LastFn(s[..|s| - 1])
  }

  function FirstClose(s: Text): (i: nat)
    ensures i <= |s| && (i < |s| ==> s[i] == Close) && forall j :: 0 <= j < i ==> s[j] != Close
  {
    if s == [] || s[0] == Close then 0 else 1 + FirstClose(s[1..])
  }

  /** The text from the last `GW:` up to the next closing parenthesis; nothing if there is none. */
  function Slice(s: Text): Text
    requires ContainsFn(s)
  {
    var first := LastFn(s);
    var last := FirstClose(s[first..]);
    if first + last < |s| then s[first..first + last + 1] else []
  }

  /** It is the text of the last call. */
  lemma FindsLastCall(es: seq<Expr>) returns (pre: Text, post: Text)
    requires HasCall(es)
    ensures ContainsFn(PrintAll(es)) && Innermost(LastCall(es))
    ensures PrintAll(es) == pre + Print(LastCall(es)) + post
    ensures LastFn(PrintAll(es)) == |pre| && FirstClose(PrintAll(es)[|pre|..]) == |Print(LastCall(es))| - 1
    ensures Slice(PrintAll(es)) == Print(LastCall(es))
  {
    CallsPrintFn(es);
    pre, post := LastCallSplits(es);
    var s, c := PrintAll(es), LastCall(es);
    var p := Print(c);
    FlatTextOfCall(c);
    PrintNoCalls(c.args);
    assert s[|pre|..] == p + post;
    assert s[|pre|] == p[0];
    forall j | |pre| < j < |s| ensures !s[j].Fn? {
      if j < |pre| + |p| {
        assert s[j] == p[j - |pre|];
        assert j - |pre| < 2 || j - |pre| == |p| - 1 || p[j - |pre|] == PrintAll(c.args)[j - |pre| - 2];
      } else {
        assert s[j] == post[j - |pre| - |p|];
      }
    }
    assert (p + post)[|p| - 1] == Close;
    assert forall j :: 0 <= j < |p| - 1 ==> (p + post)[j] == p[j] != Close;
    assert s[|pre|..|pre| + |p|] == p;
  }

  /**
   * So every round calls the function on the text of the last call, and that call
   * comes back to its own text exactly when it has no arguments.
   */
  lemma SameTextIff(es: seq<Expr>)
    requires HasCall(es)
    ensures ContainsFn(PrintAll(es)) && Slice(PrintAll(es)) == Print(LastCall(es))
    ensures var s := Print(LastCall(es)); LastCall(es).args == [] <==> !FlatText(s) && ContainsFn(s) && Slice(s) == s
  {
    var pre, post := FindsLastCall(es);
    var c := LastCall(es);
    FlatTextOfCall(c);
    Alone(c);
    var before, after := FindsLastCall([c]);
  }

  lemma Alone(c: Expr)
    requires Innermost(c)
    ensures PrintAll([c]) == Print(c) && HasCall([c]) && LastCall([c]) == c
  {
    assert [c][1..] == [] && [c][0].Apply?;
    Seqs.Nothing(Print(c));
  }

  lemma CallAlone(t: Functions, vars: Vars, c: Expr, n: nat)
    requires Innermost(c)
    ensures PrintAll([c]) == Print(c) && HasCall([c])
    ensures AllFresh([c], n) == Fresh(c, n) && AllCalls([c]) == Calls(c)
    ensures Values(t, vars, [c]) == One(Value(t, vars, c))
  {
    Alone(c);
    assert [c][1..] == [];
    var r := Value(t, vars, c);
    assert CallEnding(t, vars, []) == Ends;
    if r.Ok? {
      var item := Given(r.value);
      assert Items(t, vars, [c]) == [item];
      OneItem(t, vars, item);
    }
    assert AllFresh([], n);
  }

  function One(r: Result<real>): Result<seq<real>> {
    match r
    case Ok(v) => Ok([v])
    case Err(err) => Err(err)
    case Endless => Endless
  }

  lemma OneItem(t: Functions, vars: Vars, item: Item)
    requires item.Given?
    ensures Collect(t, vars, [item]) == Ok([item.value])
  {
    assert [item][1..] == [];
    assert Split([], Mark(Comma)) == [[]];
    Seqs.Nothing([item]);
    assert Split([item], Mark(Comma)) == [[item]];
    assert [[item]][1..] == [] && [item][0] == item;
    assert !HasOperator([item]);
    assert PieceValue(t, NameItem(vars, ""), [item]) == Ok(item.value);
    assert PieceValues(t, NameItem(vars, ""), []) == Ok([]);
    Seqs.Nothing([item.value]);
  }

  // ---------------------------------------------------------------------
  // What is left without calls

  function TokenItem(vars: Vars, token: Token): Item {
    match token
    case Var(id) => NameItem(vars, id)
    case Sign(sep) => Mark(sep)
    case Open => Missing("(")
    case Close => Missing(")")
    case Fn(name) => Missing(name)
  }

  function TextItems(vars: Vars, text: Text): (r: seq<Item>)
    ensures |r| == |text| && forall i :: 0 <= i < |r| ==> r[i] == TokenItem(vars, text[i])
  {
    seq(|text|, i requires 0 <= i < |text| => TokenItem(vars, text[i]))
  }

  lemma TextItemsMore(vars: Vars, token: Token, text: Text)
    ensures TextItems(vars, [token] + text) == [TokenItem(vars, token)] + TextItems(vars, text)
  {
  }

  ghost predicate SamePieces(vars: Vars, pieces: seq<Text>, items: seq<seq<Item>>) {
    |pieces| == |items| && forall i :: 0 <= i < |pieces| ==> items[i] == TextItems(vars, pieces[i])
  }

  lemma MorePieces(vars: Vars, token: Token, pieces: seq<Text>, items: seq<seq<Item>>)
    requires SamePieces(vars, pieces, items) && pieces != []
    ensures SamePieces(vars, [[]] + pieces, [[]] + items)
    ensures SamePieces(vars, [[token] + pieces[0]] + pieces[1..], [[TokenItem(vars, token)] + items[0]] + items[1..])
  {
    TextItemsMore(vars, token, pieces[0]);
  }

  /** The items of a text are split where the text is. */
  lemma {:induction false} SplitItems(vars: Vars, text: Text)
    ensures SamePieces(vars, Split(text, Sign(Comma)), Split(TextItems(vars, text), Mark(Comma)))
    decreases |text|
  {
    if text != [] {
      assert TextItems(vars, text)[1..] == TextItems(vars, text[1..]);
      SplitItems(vars, text[1..]);
      MorePieces(vars, text[0], Split(text[1..], Sign(Comma)), Split(TextItems(vars, text[1..]), Mark(Comma)));
    }
  }

  lemma {:induction false} ItemsOfText(t: Functions, vars: Vars, es: seq<Expr>)
    requires !HasCall(es)
    ensures TextItems(vars, PrintAll(es)) == Items(t, vars, es)
    decreases |es|
  {
    if es != [] {
      NoCallLater(es);
      ItemsOfText(t, vars, es[1..]);
      var item := TokenItem(vars, Print(es[0])[0]);
      assert TextItems(vars, PrintAll(es)) == [item] + TextItems(vars, PrintAll(es[1..]));
    }
  }

  /** The text without calls is looked up piece by piece. */
  lemma NoCallValues(t: Functions, vars: Vars, es: seq<Expr>)
    requires !HasCall(es)
    ensures Values(t, vars, es) == Collect(t, vars, TextItems(vars, PrintAll(es)))
  {
    NoCallEnds(t, vars, es);
    ItemsOfText(t, vars, es);
  }

  // ---------------------------------------------------------------------
  // When the evaluation ends

  /** The variables afterwards and what is returned. */
  datatype Done = Done(vars: Vars, result: Result<seq<real>>)

  /** The function on any text, as far as so many nested calls and rounds reach. */
  function Eval(fuel: nat, t: Functions, vars: Vars, text: Text, counter: nat): (d: Option<Done>)
    ensures d.Some? && d.value.result.Ok? ==> |d.value.result.value| > 0
    decreases fuel, 1
  {
    if fuel == 0 then None
    else if FlatText(text) then
      if text[0].name !in t.byName then Some(Done(vars, Err(UnknownFunction(text[0].name))))
      else
        match Eval(fuel - 1, t, vars, text[2..|text| - 1], counter)
        case None => None
        case Some(d) => Some(Done(d.vars, One(Finish(t, text[0].name, d.result))))
    else Loop(fuel, t, vars, text, counter)
  }

  function Loop(fuel: nat, t: Functions, vars: Vars, text: Text, counter: nat): (d: Option<Done>)
    ensures d.Some? && d.value.result.Ok? ==> |d.value.result.value| > 0
    decreases fuel, 0
  {
    if !ContainsFn(text) then Some(Done(vars, Collect(t, vars, TextItems(vars, text))))
    else if fuel == 0 then None
    else
      match Eval(fuel - 1, t, vars, Slice(text), counter)
      case None => None
      case Some(d) =>
        if !d.result.Ok? then Some(d)
        else if Slice(text) == [] then None
        else Loop(fuel - 1, t, d.vars[ResultName(counter) := d.result.value[0]],
                  Replace(text, Slice(text), Var(ResultName(counter))), counter + 1)
  }

  lemma EvalFlat(fuel: nat, t: Functions, vars: Vars, c: Expr, n: nat)
    requires Flat(c)
    ensures !Value(t, vars, c).Endless?
    ensures var d := Eval(fuel, t, vars, Print(c), n);
      && (fuel >= 2 ==> d.Some?)
      && (d.Some? ==> d.value == Done(vars, One(Value(t, vars, c))))
  {
    FlatTextOfCall(c);
    NoCallEnds(t, vars, c.args);
    if fuel >= 2 {
      EvalNoCalls(fuel - 1, t, vars, c.args, n);
    }
  }

  lemma EvalNoCalls(fuel: nat, t: Functions, vars: Vars, es: seq<Expr>, n: nat)
    requires !HasCall(es) && fuel > 0
    ensures Eval(fuel, t, vars, PrintAll(es), n) == Some(Done(vars, Collect(t, vars, Items(t, vars, es))))
  {
    PrintNoCalls(es);
    ItemsOfText(t, vars, es);
  }

  /** What is returned, if anything, is r; and enough fuel returns it unless r is endless. */
  predicate Agrees(d: Option<Done>, r: Result<seq<real>>, enough: bool) {
    if d.Some? then d.value.result == r && !r.Endless? else r.Endless? || !enough
  }

  lemma AgreesEndless(d: Option<Done>, r: Result<seq<real>>, enough: bool)
    requires Agrees(d, r, enough) && r.Endless?
    ensures d.None?
  {
  }

  /** Whatever the evaluation of a text returns is the tree's value or error, and it returns unless that is endless. */
  lemma {:induction false} EvalIs(fuel: nat, t: Functions, vars: Vars, es: seq<Expr>, n: nat)
    requires AllFresh(es, n)
    ensures Agrees(Eval(fuel, t, vars, PrintAll(es), n), Values(t, vars, es), fuel >= AllCalls(es) + 2)
    decreases fuel, 1
  {
    if fuel > 0 {
      if FlatText(PrintAll(es)) {
        OnlyCallsAreFlat(es);
        assert es == [es[0]];
        CallAlone(t, vars, es[0], n);
        EvalFlat(fuel, t, vars, es[0], n);
      } else {
        LoopIs(fuel, t, vars, es, n);
      }
    }
  }

  lemma {:induction false} LoopIs(fuel: nat, t: Functions, vars: Vars, es: seq<Expr>, n: nat)
    requires AllFresh(es, n)
    ensures Agrees(Loop(fuel, t, vars, PrintAll(es), n), Values(t, vars, es), fuel >= AllCalls(es) + 2)
    decreases fuel, 0
  {
    if !HasCall(es) {
      LoopDone(fuel, t, vars, es, n);
    } else if fuel == 0 {
      LoopOut(t, vars, es, n);
    } else if LastCall(es).args == [] {
      LoopOnEmptyCall(fuel, t, vars, es, n);
    } else {
      if Value(t, vars, LastCall(es)).Ok? {
        var vars', rs := AfterRound(t, vars, es, n);
        LoopIs(fuel - 1, t, vars', rs, n + 1);
        LoopFollows(fuel, t, vars, es, n, vars', rs);
      } else {
        LoopFails(fuel, t, vars, es, n);
      }
    }
  }

  lemma {:induction false} LoopOnEmptyCall(fuel: nat, t: Functions, vars: Vars, es: seq<Expr>, n: nat)
    requires HasCall(es) && AllFresh(es, n) && fuel > 0 && LastCall(es).args == []
    ensures Agrees(Loop(fuel, t, vars, PrintAll(es), n), Values(t, vars, es), fuel >= AllCalls(es) + 2)
    decreases fuel - 1, 2
  {
    var one := EmptyCallEndless(t, vars, es, n);
    EvalIs(fuel - 1, t, vars, one, n);
    AgreesEndless(Eval(fuel - 1, t, vars, PrintAll(one), n), Values(t, vars, one), fuel - 1 >= AllCalls(one) + 2);
    LoopStuck(fuel, t, vars, es, one, n);
  }

  lemma AfterRound(t: Functions, vars: Vars, es: seq<Expr>, n: nat) returns (vars': Vars, rs: seq<Expr>)
    requires HasCall(es) && AllFresh(es, n) && Value(t, vars, LastCall(es)).Ok?
    ensures vars' == vars[ResultName(n) := Value(t, vars, LastCall(es)).value]
    ensures rs == SubstAll(es, LastCall(es), ResultName(n)) && AllFresh(rs, n + 1)
  {
    vars' := vars[ResultName(n) := Value(t, vars, LastCall(es)).value];
    rs := SubstAll(es, LastCall(es), ResultName(n));
    SubstAllKeepsShape(es, LastCall(es), n);
  }

  lemma LoopStuck(fuel: nat, t: Functions, vars: Vars, es: seq<Expr>, one: seq<Expr>, n: nat)
    requires ContainsFn(PrintAll(es)) && Slice(PrintAll(es)) == PrintAll(one) && fuel > 0
    requires Eval(fuel - 1, t, vars, PrintAll(one), n).None? && Values(t, vars, es).Endless?
    ensures Agrees(Loop(fuel, t, vars, PrintAll(es), n), Values(t, vars, es), fuel >= AllCalls(es) + 2)
  {
  }

  lemma LoopDone(fuel: nat, t: Functions, vars: Vars, es: seq<Expr>, n: nat)
    requires !HasCall(es)
    ensures Agrees(Loop(fuel, t, vars, PrintAll(es), n), Values(t, vars, es), fuel >= AllCalls(es) + 2)
  {
    CallsPrintFn(es);
    NoCallValues(t, vars, es);
  }

  lemma LoopOut(t: Functions, vars: Vars, es: seq<Expr>, n: nat)
    requires HasCall(es)
    ensures Agrees(Loop(0, t, vars, PrintAll(es), n), Values(t, vars, es), 0 >= AllCalls(es) + 2)
  {
    CallsPrintFn(es);
  }

  /** A round on a flat call with a value is right if what follows is. */
  lemma LoopFollows(fuel: nat, t: Functions, vars: Vars, es: seq<Expr>, n: nat, vars': Vars, rs: seq<Expr>)
    requires HasCall(es) && AllFresh(es, n) && fuel > 0 && LastCall(es).args != []
    requires Value(t, vars, LastCall(es)).Ok? && vars' == vars[ResultName(n) := Value(t, vars, LastCall(es)).value]
    requires rs == SubstAll(es, LastCall(es), ResultName(n))
    requires Agrees(Loop(fuel - 1, t, vars', PrintAll(rs), n + 1), Values(t, vars', rs), fuel - 1 >= AllCalls(rs) + 2)
    ensures Agrees(Loop(fuel, t, vars, PrintAll(es), n), Values(t, vars, es), fuel >= AllCalls(es) + 2)
  {
    FlatCallReturns(t, vars, es, n);
    LoopOnFlatCall(fuel, t, vars, es, n);
    Round(t, vars, es, n, Value(t, vars, LastCall(es)).value);
  }

  lemma LoopFails(fuel: nat, t: Functions, vars: Vars, es: seq<Expr>, n: nat)
    requires HasCall(es) && AllFresh(es, n) && fuel > 0 && LastCall(es).args != []
    requires !Value(t, vars, LastCall(es)).Ok?
    ensures Agrees(Loop(fuel, t, vars, PrintAll(es), n), Values(t, vars, es), fuel >= AllCalls(es) + 2)
  {
    FlatCallReturns(t, vars, es, n);
    LoopOnFlatCall(fuel, t, vars, es, n);
  }

  lemma NoStep(fuel: nat, t: Functions, vars: Vars, text: Text, n: nat)
    requires ContainsFn(text) && fuel > 0 && Eval(fuel - 1, t, vars, Slice(text), n).None?
    ensures Loop(fuel, t, vars, text, n).None?
  {
  }

  lemma LastStep(fuel: nat, t: Functions, vars: Vars, text: Text, n: nat, error: Error)
    requires ContainsFn(text) && fuel > 0 && Eval(fuel - 1, t, vars, Slice(text), n) == Some(Done(vars, Err(error)))
    ensures Loop(fuel, t, vars, text, n) == Some(Done(vars, Err(error)))
  {
  }

  lemma NextStep(fuel: nat, t: Functions, vars: Vars, text: Text, n: nat, v: real)
    requires ContainsFn(text) && fuel > 0 && Slice(text) != []
    requires Eval(fuel - 1, t, vars, Slice(text), n) == Some(Done(vars, Ok([v])))
    ensures Loop(fuel, t, vars, text, n)
            == Loop(fuel - 1, t, vars[ResultName(n) := v], Replace(text, Slice(text), Var(ResultName(n))), n + 1)
  {
  }

  /** A last call without arguments is a text of its own, which does not end either. */
  lemma EmptyCallEndless(t: Functions, vars: Vars, es: seq<Expr>, n: nat) returns (one: seq<Expr>)
    requires HasCall(es) && LastCall(es).args == [] && AllFresh(es, n)
    ensures ContainsFn(PrintAll(es)) && Slice(PrintAll(es)) == PrintAll(one)
    ensures AllFresh(one, n) && Values(t, vars, one).Endless? && Values(t, vars, es).Endless?
  {
    var c := LastCall(es);
    one := [c];
    var pre, post := FindsLastCall(es);
    LastCallDecides(t, vars, es);
    LastCallEndless(t, vars, es);
    LastCallFresh(es, n);
    CallAlone(t, vars, c, n);
  }

  lemma FlatCallReturns(t: Functions, vars: Vars, es: seq<Expr>, n: nat)
    requires HasCall(es) && LastCall(es).args != [] && AllFresh(es, n)
    ensures var c := LastCall(es);
      && ContainsFn(PrintAll(es)) && Slice(PrintAll(es)) == Print(c) != [] && Flat(c) && AllCalls(es) > 0
      && !Value(t, vars, c).Endless?
      && (Value(t, vars, c).Err? ==> Values(t, vars, es) == Err(Value(t, vars, c).error))
  {
    var pre, post := FindsLastCall(es);
    LastCallDecides(t, vars, es);
    LastCallEndless(t, vars, es);
    RoundShrinks(es, n);
  }

  lemma LoopOnFlatCall(fuel: nat, t: Functions, vars: Vars, es: seq<Expr>, n: nat)
    requires HasCall(es) && fuel > 0
    requires var c := LastCall(es);
      ContainsFn(PrintAll(es)) && Slice(PrintAll(es)) == Print(c) != [] && Flat(c) && !Value(t, vars, c).Endless?
    ensures var c := LastCall(es);
      var r, d := Value(t, vars, c), Loop(fuel, t, vars, PrintAll(es), n);
      (fuel < 3 && d.None?)
      || d == if r.Err? then Some(Done(vars, Err(r.error)))
              else Loop(fuel - 1, t, vars[ResultName(n) := r.value],
                        Replace(PrintAll(es), Print(c), Var(ResultName(n))), n + 1)
  {
    var r := Value(t, vars, LastCall(es));
    EvalFlat(fuel - 1, t, vars, LastCall(es), n);
    if Eval(fuel - 1, t, vars, Print(LastCall(es)), n).None? {
      NoStep(fuel, t, vars, PrintAll(es), n);
    } else if r.Err? {
      LastStep(fuel, t, vars, PrintAll(es), n, r.error);
    } else {
      NextStep(fuel, t, vars, PrintAll(es), n, r.value);
    }
  }

  /**
   * The evaluation of a text returns exactly when, taking the calls last to first, an
   * error comes before any call without arguments, or there is neither; it then
   * returns that error or the values.
   */
  lemma EndsIff(t: Functions, vars: Vars, es: seq<Expr>, n: nat)
    requires AllFresh(es, n)
    ensures (exists fuel :: Eval(fuel, t, vars, PrintAll(es), n).Some?) <==> CallEnding(t, vars, es) != Stuck
    ensures forall fuel :: Eval(fuel, t, vars, PrintAll(es), n).Some? ==>
      Eval(fuel, t, vars, PrintAll(es), n).value.result == Values(t, vars, es)
  {
    forall fuel: nat
      ensures Agrees(Eval(fuel, t, vars, PrintAll(es), n), Values(t, vars, es), fuel >= AllCalls(es) + 2)
    {
      EvalIs(fuel, t, vars, es, n);
    }
    assert Values(t, vars, es).Endless? <==> CallEnding(t, vars, es) == Stuck;
    if CallEnding(t, vars, es) != Stuck {
      var enough := AllCalls(es) + 2;
      assert Eval(enough, t, vars, PrintAll(es), n).Some?;
    }
  }

  // ---------------------------------------------------------------------
  // The evaluator

  /** While nothing is stuck, the last call is a flat one that a recursive call can take. */
  lemma LastCallFits(t: Functions, vars: Vars, es: seq<Expr>, n: nat)
    requires HasCall(es) && AllFresh(es, n) && CallEnding(t, vars, es) != Stuck
    ensures var c, text := LastCall(es), PrintAll(es);
      && ContainsFn(text) && LastFn(text) + FirstClose(text[LastFn(text)..]) < |text| && Slice(text) == Print(c)
      && Flat(c) && FlatText(Print(c)) && (text == Print(c) || |Print(c)| < |text|)
      && PrintAll([c]) == Print(c) && AllFresh([c], n) && CallEnding(t, vars, [c]) != Stuck
      && Values(t, vars, [c]) == One(Value(t, vars, c)) && !Value(t, vars, c).Endless?
      && (Value(t, vars, c).Err? ==> Values(t, vars, es) == Err(Value(t, vars, c).error))
  {
    var pre, post := FindsLastCall(es);
    var c := LastCall(es);
    LastCallDecides(t, vars, es);
    LastCallEndless(t, vars, es);
    LastCallFresh(es, n);
    CallAlone(t, vars, c, n);
    FlatTextOfCall(c);
    Surrounds(pre, Print(c), post);
  }

  lemma Surrounds(pre: Text, mid: Text, post: Text)
    ensures pre + mid + post == mid || |mid| < |pre + mid + post|
  {
    if pre == [] && post == [] {
      Seqs.Nothing(mid);
    }
  }

  /** An evaluator over the two tables, with the variable map it extends as it goes. */
  class Evaluator {
    const table: Functions
    var vars: Vars

    constructor (table: Functions, vars: Vars)
      ensures this.table == table && this.vars == vars
    {
      this.table := table;
      this.vars := vars;
    }

    method Evaluate(expression: Text, argumentCounter: nat, ghost es: seq<Expr>) returns (r: Result<seq<real>>)
      requires expression == PrintAll(es) && AllFresh(es, argumentCounter) && CallEnding(table, vars, es) != Stuck
      modifies this
      ensures r == Values(table, old(vars), es)
      ensures !HasCall(es) || FlatText(expression) ==> vars == old(vars)
      ensures KeepsOthers(old(vars), vars, argumentCounter)
      decreases |expression|, 1
    {
      if FlatText(expression) {
        OnlyCallsAreFlat(es);
        assert es == [es[0]];
        CallAlone(table, vars, es[0], argumentCounter);
        r := EvaluateCall(expression, argumentCounter, es[0]);
      } else {
        r := EvaluateNested(expression, argumentCounter, es);
      }
    }

    /** The rewriting loop, then the lookup of what is left. */
    method EvaluateNested(expression: Text, argumentCounter: nat, ghost es: seq<Expr>) returns (r: Result<seq<real>>)
      requires expression == PrintAll(es) && AllFresh(es, argumentCounter) && CallEnding(table, vars, es) != Stuck
      requires !FlatText(expression)
      modifies this
      ensures r == Values(table, old(vars), es)
      ensures !HasCall(es) ==> vars == old(vars)
      ensures KeepsOthers(old(vars), vars, argumentCounter)
      decreases |expression|, 0
    {
      var text, counter := expression, argumentCounter;
      ghost var current := es;
      CallsPrintFn(es);
      while ContainsFn(text)
        invariant text == PrintAll(current) && counter >= argumentCounter
        invariant AllFresh(current, counter) && CallEnding(table, vars, current) != Stuck
        invariant ContainsFn(text) <==> HasCall(current)
        invariant !HasCall(es) ==> vars == old(vars) && current == es
        invariant Values(table, vars, current) == Values(table, old(vars), es)
        invariant KeepsOthers(old(vars), vars, argumentCounter)
        invariant text == expression || |text| < |expression|
        decreases AllCalls(current)
      {
        var v, newExp := EvaluateLast(text, counter, current, |expression|);
        if v.Err? {
          return Err(v.error);
        }
        Round(table, vars, current, counter, v.value);
        text := Replace(text, newExp, Var(ResultName(counter)));
        vars := vars[ResultName(counter) := v.value];
        current := SubstAll(current, LastCall(current), ResultName(counter));
        counter := counter + 1;
        CallsPrintFn(current);
      }
      NoCallValues(table, vars, current);
      r := LookUp(text);
    }

    /** The value of the last call of the text, and its text. */
    method EvaluateLast(text: Text, counter: nat, ghost es: seq<Expr>, ghost bound: nat)
      returns (v: Result<real>, newExp: Text)
      requires text == PrintAll(es) && HasCall(es) && AllFresh(es, counter) && CallEnding(table, vars, es) != Stuck
      requires |text| < bound || (|text| == bound && !FlatText(text))
      modifies this
      ensures vars == old(vars)
      ensures newExp == Print(LastCall(es)) && v == Value(table, vars, LastCall(es)) && !v.Endless?
      ensures v.Err? ==> Values(table, vars, es) == Err(v.error)
      decreases bound, 0, 0
    {
      LastCallFits(table, vars, es, counter);
      ghost var call := LastCall(es);
      newExp := CutLast(text);
      var r := Evaluate(newExp, counter, [call]);
      if r.Err? {
        v := Err(r.error);
      } else {
        v := Ok(r.value[0]);
      }
    }

    /** From the last `GW:` to the next closing parenthesis. */
    method CutLast(text: Text) returns (newExp: Text)
      requires ContainsFn(text) && LastFn(text) + FirstClose(text[LastFn(text)..]) < |text|
      ensures newExp == Slice(text)
    {
      var firstIndex := LastFn(text);
      var lastIndex := FirstClose(text[firstIndex..]);
      newExp := text[firstIndex..firstIndex + lastIndex + 1];
    }

    /** The flat branch: the name is looked up, then the arguments, then their number is checked. */
    method EvaluateCall(expression: Text, argumentCounter: nat, ghost call: Expr) returns (r: Result<seq<real>>)
      requires expression == Print(call) && Flat(call) && Fresh(call, argumentCounter)
      modifies this
      ensures vars == old(vars)
      ensures r == One(Value(table, vars, call))
      decreases |expression|, 0
    {
      var gwFuncName := expression[0].name;
      var exp := expression[2..|expression| - 1];
      FlatTextOfCall(call);
      NoCallEnds(table, vars, call.args);
      PrintNoCalls(call.args);
      if gwFuncName in table.byName {
        var values := Evaluate(exp, argumentCounter, call.args);
        if values.Err? {
          return Err(values.error);
        }
        if |values.value| != table.Arity(gwFuncName) {
          return Err(WrongArity(gwFuncName));
        }
        var v := table.byName[gwFuncName](values.value);
        r := Ok([v]);
      } else {
        r := Err(UnknownFunction(gwFuncName));
      }
    }

    /** The text without calls: the pieces between the commas, arithmetic or names. */
    method LookUp(text: Text) returns (r: Result<seq<real>>)
      ensures r == Collect(table, vars, TextItems(vars, text))
    {
      var funcArgs := Split(text, Sign(Comma));
      SplitItems(vars, text);
      ghost var blank, pieces := NameItem(vars, ""), Split(TextItems(vars, text), Mark(Comma));
      var result: seq<real> := [];
      assert pieces[0..] == pieces;
      PrependNothing(PieceValues(table, blank, pieces));
      for i := 0 to |funcArgs|
        invariant PieceValues(table, blank, pieces) == Prepend(result, PieceValues(table, blank, pieces[i..]))
      {
        assert pieces[i..][0] == pieces[i] && pieces[i..][1..] == pieces[i + 1..];
        var v := LookUpPiece(funcArgs[i]);
        if v.Err? {
          return Err(v.error);
        }
        PrependMore(result, v.value, PieceValues(table, blank, pieces[i + 1..]));
        result := result + [v.value];
      }
      assert pieces[|pieces|..] == [];
      Seqs.Nothing(result);
      r := Ok(result);
    }

    /** A piece with a sign is arithmetic; any other is the name of a variable. */
    method LookUpPiece(val: Text) returns (v: Result<real>)
      ensures v == PieceValue(table, NameItem(vars, ""), TextItems(vars, val))
      ensures |val| == 1 && val[0].Var? ==>
        v == if Undotted(val[0].id) in vars then Ok(vars[Undotted(val[0].id)]) else Err(UndefinedVariable(val[0].id))
    {
      if exists i :: 0 <= i < |val| && val[i].Sign? && val[i].sep.Operator? {
        var i :| 0 <= i < |val| && val[i].Sign? && val[i].sep.Operator?;
        assert TextItems(vars, val)[i].sep.Operator?;
        var computed := table.arithmetic(TextItems(vars, val));
        return match computed case Some(x) => Ok(x) case None => Err(Unreadable);
      }
      if |val| > 1 || (|val| == 1 && val[0].Sign?) {
        return Err(Unreadable);
      }
      var name := if val == [] then "" else match val[0] {
        case Var(id) => id case Open => "(" case Close => ")" case Fn(f) => f case Sign(_) => "" };
      if val != [] && !val[0].Var? {
        return Err(UndefinedVariable(name));
      }
      if Undotted(name) in vars {
        v := Ok(vars[Undotted(name)]);
      } else {
        v := Err(UndefinedVariable(name));
      }
    }
  }

  lemma PrependNothing(r: Result<seq<real>>)
    ensures Prepend([], r) == r
  {
    if r.Ok? {
      Seqs.Nothing(r.value);
    }
  }

  lemma PrependMore(vs: seq<real>, v: real, r: Result<seq<real>>)
    ensures Prepend(vs, Prepend([v], r)) == Prepend(vs + [v], r)
  {
    if r.Ok? {
      assert vs + ([v] + r.value) == vs + [v] + r.value;
    }
  }

  ghost predicate IsResult(id: string, n: nat) {
    exists k: nat :: k >= n && id == ResultName(k)
  }

  /** Only the fresh names are written. */
  ghost predicate KeepsOthers(before: Vars, after: Vars, n: nat) {
    forall id :: !IsResult(id, n) ==>
      (id in after <==> id in before) && (id in before ==> after[id] == before[id])
  }

  /** One round of rewriting: text, tree, variables and value go together, and a call disappears. */
  lemma Round(t: Functions, vars: Vars, es: seq<Expr>, n: nat, v: real)
    requires HasCall(es) && AllFresh(es, n) && Value(t, vars, LastCall(es)) == Ok(v)
    ensures var c, id := LastCall(es), ResultName(n);
      var rs := SubstAll(es, c, id);
      && Replace(PrintAll(es), Print(c), Var(id)) == PrintAll(rs)
      && AllFresh(rs, n + 1)
      && AllCalls(rs) < AllCalls(es) && CountFn(PrintAll(rs)) < CountFn(PrintAll(es))
      && |PrintAll(rs)| < |PrintAll(es)|
      && CallEnding(t, vars[id := v], rs) == CallEnding(t, vars, es)
      && Values(t, vars[id := v], rs) == Values(t, vars, es)
  {
    var c, id := LastCall(es), ResultName(n);
    var rs := SubstAll(es, c, id);
    var pre, post := LastCallSplits(es);
    ReplaceIsSubstAll(es, c, id, []);
    Seqs.Nothing(PrintAll(es));
    Seqs.Nothing(PrintAll(rs));
    assert Replace([], Print(c), Var(id)) == [];
    SubstAllKeepsShape(es, c, n);
    RoundShrinks(es, n);
    AllCallsArePrinted(es);
    AllCallsArePrinted(rs);
    SubstKeepsValues(t, vars, es, c, n, v);
    ResultItem(vars, n, v);
    ReplaceShortens(pre, Print(c), post, Var(id));
  }

  lemma {:induction false} ReplaceNotLonger(s: Text, pattern: Text, sub: Token)
    requires pattern != []
    ensures |Replace(s, pattern, sub)| <= |s|
    decreases |s|
  {
    if |s| >= |pattern| {
      if pattern <= s {
        ReplaceNotLonger(s[|pattern|..], pattern, sub);
      } else {
        ReplaceNotLonger(s[1..], pattern, sub);
      }
    }
  }

  lemma {:induction false} ReplaceShortens(pre: Text, pattern: Text, post: Text, sub: Token)
    requires |pattern| > 1
    ensures |Replace(pre + pattern + post, pattern, sub)| < |pre + pattern + post|
    decreases |pre|
  {
    var s := pre + pattern + post;
    if pre == [] {
      assert s == pattern + post;
      ReplaceMatch(pattern, post, sub);
      ReplaceNotLonger(post, pattern, sub);
    } else if pattern <= s {
      ReplaceNotLonger(s[|pattern|..], pattern, sub);
    } else {
      assert s[1..] == pre[1..] + pattern + post;
      ReplaceShortens(pre[1..], pattern, post, sub);
    }
  }

  /**
   * With user variables that are not named res_N, a whole evaluation from counter
   * zero returns the ordinary meaning of the text exactly when everything in it is
   * defined, and an error otherwise, whenever it returns at all.
   */
  method EvaluateFromZero(table: Functions, vars: Vars, expression: Text, ghost es: seq<Expr>)
    returns (r: Result<seq<real>>)
    requires expression == PrintAll(es) && AllFresh(es, 0) && CallEnding(table, vars, es) != Stuck
    ensures r.Ok? <==> AllDefined(table, vars, es)
    ensures AllDefined(table, vars, es) ==> r == Ok(Meanings(table, vars, es))
    ensures r == Values(table, vars, es)
  {
    var evaluator := new Evaluator(table, vars);
    r := evaluator.Evaluate(expression, 0, es);
    ValuesAreMeanings(table, vars, es);
  }
}
