/**
 * The generator as it is written: a closure that appends lines to the function
 * text (gotocjson/gotocjson.go, process_item), and the routine that wraps it.
 */
module DestructorText {
  import Seqs
  import opened CTypes
  import opened MiniC
  import opened Destructor

  lemma {:induction false} LinesAppend(a: seq<Stmt>, b: seq<Stmt>)
    ensures Lines(a + b) == Lines(a) + Lines(b)
    decreases |a|
  {
    if a == [] {
      assert a + b == b;
    } else {
      assert (a + b)[0] == a[0] && (a + b)[1..] == a[1..] + b;
      LinesAppend(a[1..], b);
    }
  }

  lemma LinesSingle(stmt: Stmt)
    ensures Lines([stmt]) == LinesOf(stmt)
  {
    assert [stmt][1..] == [];
    assert Lines([]) == [];
  }

  lemma LinesOfList(depth: nat, items: Access, count: Access, body: seq<Stmt>)
    ensures Lines([IfNotNull(items, [CountDown(depth, count, body), Free(items)])])
            == [OpenIfNotNull(items), OpenFor(depth, count)] + Lines(body) + [Close, Simple(Free(items)), Close]
  {
    var loop, free := CountDown(depth, count, body), Free(items);
    assert [loop, free] == [loop] + [free];
    LinesAppend([loop], [free]);
    LinesSingle(loop);
    LinesSingle(free);
    LinesSingle(IfNotNull(items, [loop, free]));
  }

  lemma LinesOfPointer(base: Access, body: seq<Stmt>)
    ensures Lines([IfNotNull(base, body + [Free(base)])])
            == [OpenIfNotNull(base)] + Lines(body) + [Simple(Free(base)), Close]
  {
    LinesAppend(body, [Free(base)]);
    LinesSingle(Free(base));
    LinesSingle(IfNotNull(base, body + [Free(base)]));
  }

  // What the pieces appended so far amount to.

  lemma PointerText(was: seq<Line>, base: Access, body: seq<Stmt>)
    ensures was + [OpenIfNotNull(base)] + Lines(body) + [Simple(Free(base))] + [Close]
            == was + Lines([IfNotNull(base, body + [Free(base)])])
  {
    LinesOfPointer(base, body);
    Nested(was, OpenIfNotNull(base), Lines(body), [Simple(Free(base))]);
  }

  lemma Nested(was: seq<Line>, open: Line, body: seq<Line>, last: seq<Line>)
    ensures was + [open] + body + last + [Close] == was + ([open] + body + (last + [Close]))
  {
  }

  lemma ListText(was: seq<Line>, depth: nat, items: Access, count: Access, body: seq<Stmt>)
    ensures was + [OpenIfNotNull(items)] + [OpenFor(depth, count)] + Lines(body) + [Close] + [Simple(Free(items))] + [Close]
            == was + Lines([IfNotNull(items, [CountDown(depth, count, body), Free(items)])])
  {
    LinesOfList(depth, items, count, body);
    LoopNested(was, OpenIfNotNull(items), OpenFor(depth, count), Lines(body), Simple(Free(items)));
  }

  lemma LoopNested(was: seq<Line>, open: Line, loop: Line, body: seq<Line>, last: Line)
    ensures was + [open] + [loop] + body + [Close] + [last] + [Close]
            == was + ([open, loop] + body + [Close, last, Close])
  {
  }

  lemma BlockText(was: seq<Line>, body: seq<Stmt>)
    ensures was + [OpenBlock] + Lines(body) + [Close] == was + Lines([Block(body)])
  {
    LinesSingle(Block(body));
    Enclosed(was, Lines(body));
  }

  lemma Enclosed(was: seq<Line>, body: seq<Line>)
    ensures was + [OpenBlock] + body + [Close] == was + ([OpenBlock] + body + [Close])
  {
  }

  lemma LastText(code: seq<Stmt>)
    ensures Lines(code) + [OpenIfFreePointers] + [Simple(Free([Root]))] + [Simple(FreeJson)] + [Close]
            == Lines(code + [IfFreePointers([Free([Root]), FreeJson])])
  {
    var inner := [Free([Root]), FreeJson];
    assert inner == [Free([Root])] + [FreeJson];
    LinesAppend([Free([Root])], [FreeJson]);
    LinesSingle(Free([Root]));
    LinesSingle(FreeJson);
    LinesSingle(IfFreePointers(inner));
    LinesAppend(code, [IfFreePointers(inner)]);
  }

  // The code of each kind of item.

  lemma PointerCode(tables: Tables, rank: string -> nat, depth: nat, t: string, b: string,
                    prefix: Access, op: Access, name: Access)
    requires Ranked(tables, rank) && Classify(tables, t) == PointerTo(b) && 0 < rank(b) < rank(t)
    ensures var base := prefix + op + name;
      Compile(tables, rank, depth, t, prefix, op, name)
      == [IfNotNull(base, Compile(tables, rank, depth + 1, b, base, [Arrow], []) + [Free(base)])]
  {
  }

  lemma StructCode(tables: Tables, rank: string -> nat, depth: nat, t: string, fs: seq<Field>,
                   prefix: Access, op: Access, name: Access)
    requires Ranked(tables, rank) && rank(t) > 0 && Classify(tables, t) == StructOf(fs)
    requires forall i :: 0 <= i < |fs| ==> 0 < rank(fs[i].cType) < rank(t)
    ensures Compile(tables, rank, depth, t, prefix, op, name)
            == [Block(CompileFields(tables, rank, depth + 1, t, fs, prefix + op + name, FieldOp(op, name)))]
  {
  }

  lemma ListItemCode(tables: Tables, rank: string -> nat, depth: nat, t: string, b: string,
                     prefix: Access, op: Access, name: Access)
    requires Ranked(tables, rank) && Classify(tables, t) == ListOf(b) && 0 < rank(b) < rank(t)
    ensures var base := prefix + (if op == [Arrow] && name == [] then [] else op) + name;
      var fieldOp := if op == [Arrow] then Arrow else Dot;
      Compile(tables, rank, depth, t, prefix, op, name)
      == ListCodeOf(depth, base, fieldOp, Compile(tables, rank, depth + 2, b, base, [fieldOp], [Element(depth)]))
  {
  }

  class Generator {
    const tables: Tables
    var functionCode: seq<Line>

    constructor (tables: Tables)
      ensures this.tables == tables && functionCode == []
    {
      this.tables := tables;
      functionCode := [];
    }

    /** linePrefix is the nesting depth: the length of the indentation. */
    method ProcessItem(ghost rank: string -> nat, linePrefix: nat, itemType: string,
                       itemPrefix: Access, memberOp: Access, itemName: Access)
      requires Ranked(tables, rank) && rank(itemType) > 0
      modifies this
      ensures functionCode
              == old(functionCode) + Lines(Compile(tables, rank, linePrefix, itemType, itemPrefix, memberOp, itemName))
      decreases rank(itemType), 1
    {
      assert Falls(rank, itemType, Classify(tables, itemType));
      match Classify(tables, itemType) {
        case ListOf(baseType) =>
          ProcessList(rank, linePrefix, itemType, baseType, itemPrefix, memberOp, itemName);
        case PointerTo(baseType) =>
          ProcessPointer(rank, linePrefix, itemType, baseType, itemPrefix, memberOp, itemName);
        case StructOf(fields) =>
          ProcessFields(rank, linePrefix, itemType, fields, itemPrefix, memberOp, itemName);
        case Alias(baseType) =>
          ProcessItem(rank, linePrefix, baseType, itemPrefix, memberOp, itemName);
        case Text =>
          functionCode := functionCode + [Simple(FreeUnlessJson(itemPrefix + memberOp + itemName))];
          LinesSingle(FreeUnlessJson(itemPrefix + memberOp + itemName));
        case Delegated(routine, _) => CallDestroy(routine, itemPrefix, memberOp, itemName);
        case Foreign(target) =>
          if !TakenForScalar(tables, itemPrefix, itemName) {
            CallDestroy(target, itemPrefix, memberOp, itemName);
          }
        case Plain =>
      }
    }

    /** The call of another routine: with the pointer itself, or with the address of what is embedded. */
    method CallDestroy(routine: string, itemPrefix: Access, memberOp: Access, itemName: Access)
      modifies this
      ensures functionCode == old(functionCode) + Lines(DestroyCode(routine, itemPrefix, memberOp, itemName))
    {
      var call := if itemName == [] then Destroy(routine, false, itemPrefix)
                  else Destroy(routine, true, itemPrefix + memberOp + itemName);
      functionCode := functionCode + [Simple(call)];
      LinesSingle(call);
    }

    method ProcessPointer(ghost rank: string -> nat, linePrefix: nat, ghost itemType: string, baseType: string,
                          itemPrefix: Access, memberOp: Access, itemName: Access)
      requires Ranked(tables, rank) && Classify(tables, itemType) == PointerTo(baseType)
      requires 0 < rank(baseType) < rank(itemType)
      modifies this
      ensures functionCode
              == old(functionCode) + Lines(Compile(tables, rank, linePrefix, itemType, itemPrefix, memberOp, itemName))
      decreases rank(itemType), 0
    {
      var base := itemPrefix + memberOp + itemName;
      PointerText(functionCode, base, Compile(tables, rank, linePrefix + 1, baseType, base, [Arrow], []));
      PointerCode(tables, rank, linePrefix, itemType, baseType, itemPrefix, memberOp, itemName);
      functionCode := functionCode + [OpenIfNotNull(base)];
      ProcessItem(rank, linePrefix + 1, baseType, base, [Arrow], []);
      functionCode := functionCode + [Simple(Free(base))];
      functionCode := functionCode + [Close];
    }

    method ProcessList(ghost rank: string -> nat, linePrefix: nat, ghost itemType: string, baseType: string,
                       itemPrefix: Access, memberOp: Access, itemName: Access)
      requires Ranked(tables, rank) && Classify(tables, itemType) == ListOf(baseType)
      requires 0 < rank(baseType) < rank(itemType)
      modifies this
      ensures functionCode
              == old(functionCode) + Lines(Compile(tables, rank, linePrefix, itemType, itemPrefix, memberOp, itemName))
      decreases rank(itemType), 0
    {
      var op := if memberOp == [Arrow] && itemName == [] then [] else memberOp;
      var fieldMemberOp := if memberOp == [Arrow] then Arrow else Dot;
      var base := itemPrefix + op + itemName;
      var countField, itemsField := base + [fieldMemberOp] + [Count], base + [fieldMemberOp] + [Items];
      ListText(functionCode, linePrefix, itemsField, countField,
               Compile(tables, rank, linePrefix + 2, baseType, base, [fieldMemberOp], [Element(linePrefix)]));
      ListItemCode(tables, rank, linePrefix, itemType, baseType, itemPrefix, memberOp, itemName);
      functionCode := functionCode + [OpenIfNotNull(itemsField)];
      functionCode := functionCode + [OpenFor(linePrefix, countField)];
      ProcessItem(rank, linePrefix + 2, baseType, base, [fieldMemberOp], [Element(linePrefix)]);
      functionCode := functionCode + [Close];
      functionCode := functionCode + [Simple(Free(itemsField))];
      functionCode := functionCode + [Close];
    }

    method ProcessFields(ghost rank: string -> nat, linePrefix: nat, ghost itemType: string, fields: seq<Field>,
                         itemPrefix: Access, memberOp: Access, itemName: Access)
      requires Ranked(tables, rank) && rank(itemType) > 0 && Classify(tables, itemType) == StructOf(fields)
      requires forall i :: 0 <= i < |fields| ==> 0 < rank(fields[i].cType) < rank(itemType)
      modifies this
      ensures functionCode
              == old(functionCode) + Lines(Compile(tables, rank, linePrefix, itemType, itemPrefix, memberOp, itemName))
      decreases rank(itemType), 0, 1
    {
      var base := itemPrefix + memberOp + itemName;
      var fieldMemberOp := FieldOp(memberOp, itemName);
      BlockText(functionCode, CompileFields(tables, rank, linePrefix + 1, itemType, fields, base, fieldMemberOp));
      StructCode(tables, rank, linePrefix, itemType, fields, itemPrefix, memberOp, itemName);
      functionCode := functionCode + [OpenBlock];
      EmitFields(rank, linePrefix + 1, itemType, fields, base, fieldMemberOp);
      functionCode := functionCode + [Close];
    }

    method EmitFields(ghost rank: string -> nat, depth: nat, ghost itemType: string, fields: seq<Field>,
                      base: Access, op: Access)
      requires Ranked(tables, rank) && rank(itemType) > 0
      requires forall i :: 0 <= i < |fields| ==> 0 < rank(fields[i].cType) < rank(itemType)
      modifies this
      ensures functionCode
              == old(functionCode) + Lines(CompileFields(tables, rank, depth, itemType, fields, base, op))
      decreases rank(itemType), 0, 0
    {
      for i := 0 to |fields|
        invariant old(functionCode) + Lines(CompileFields(tables, rank, depth, itemType, fields, base, op))
                  == functionCode + Lines(CompileFields(tables, rank, depth, itemType, fields[i..], base, op))
      {
        var f := fields[i];
        assert fields[i..][0] == f && fields[i..][1..] == fields[i + 1..];
        ghost var code := Compile(tables, rank, depth, f.cType, base, op, [Member(f.name)]);
        ghost var rest := CompileFields(tables, rank, depth, itemType, fields[i + 1..], base, op);
        LinesAppend(code, rest);
        Seqs.Assoc(functionCode, Lines(code), Lines(rest));
        ProcessItem(rank, depth, f.cType, base, op, [Member(f.name)]);
      }
      Seqs.Nothing(functionCode);
    }

    /** The whole routine; read back, its text is the routine whose runs are specified. */
    method GenerateDestroy(ghost rank: string -> nat)
      requires Ranked(tables, rank) && rank(tables.structName) > 0 && functionCode == []
      modifies this
      ensures Parse(functionCode) == (Routine(tables, rank), [])
    {
      ghost var code := Compile(tables, rank, 1, tables.structName, [Root], [Arrow], []);
      ProcessItem(rank, 1, tables.structName, [Root], [Arrow], []);
      Seqs.Nothing(Lines(code));
      functionCode := functionCode + [OpenIfFreePointers];
      functionCode := functionCode + [Simple(Free([Root]))];
      functionCode := functionCode + [Simple(FreeJson)];
      functionCode := functionCode + [Close];
      LastText(code);
      Seqs.Nothing(functionCode);
      ParseLines(Routine(tables, rank), []);
    }
  }
}
