/**
 * The C types a package's declarations are translated to, and the layout of their
 * objects, without regard to how the generator reads a type name.  Its reading of
 * the printed names is then shown to agree with them.
 */
module CLayout {
  import opened CTypes

  /**
   * A C type: a scalar or the text type, a type of the package itself, one of another
   * package, a list or a pointer.
   */
  datatype CType =
    | Scalar(name: string)
    | TextType
    | Own(name: string)
    | Other(name: string)
    | ListType(elem: CType)
    | PointerType(target: CType)

  datatype FieldDecl = FieldDecl(name: string, cType: CType)

  /** Renamed stands for a plain identifier as it is written, Alias for a list of the package's own types. */
  datatype Decl = Struct(fields: seq<FieldDecl>) | Enumeration | Renamed(of: string) | AliasOf(target: CType)

  datatype Package = Package(
    name: string,
    structName: string,
    decls: map<string, Decl>,
    integral: set<(string, string)>,
    scalars: set<string>,
    texts: set<string>,
    routines: set<string>)

  /** The name a C type has. */
  function Printed(packageName: string, t: CType): string {
    match t
    case Scalar(n) => n
    case TextType => "string"
    case Own(n) => packageName + "_" + n
    case Other(n) => n
    case ListType(e) => Printed(packageName, e) + "_List"
    case PointerType(e) => Printed(packageName, e) + "_Ptr"
  }

  /** That name without the package in front. */
  function Bare(packageName: string, t: CType): string {
    match t
    case Own(n) => n
    case ListType(e) => Bare(packageName, e) + "_List"
    case PointerType(e) => Bare(packageName, e) + "_Ptr"
    case _ => Printed(packageName, t)
  }

  function Innermost(t: CType): CType {
    match t
    case ListType(e) => Innermost(e)
    case PointerType(e) => Innermost(e)
    case _ => t
  }

  // ---------------------------------------------------------------------
  // The tables the generator is given

  function FieldNames(fs: seq<FieldDecl>): (r: seq<string>)
    ensures |r| == |fs| && forall i :: 0 <= i < |fs| ==> r[i] == fs[i].name
  {
    seq(|fs|, i requires 0 <= i < |fs| => fs[i].name)
  }

  function FieldTypes(packageName: string, fs: seq<FieldDecl>): map<string, string> {
    if fs == [] then map[]
    else
      var last := fs[|fs| - 1];
      FieldTypes(packageName, fs[..|fs| - 1])[last.name := Printed(packageName, last.cType)]
  }

  function TablesOf(p: Package): Tables {
    var structs := set n | n in p.decls && p.decls[n].Struct?;
    var enums := set n | n in p.decls && p.decls[n].Enumeration?;
    var typedefs := set n | n in p.decls && (p.decls[n].Renamed? || p.decls[n].AliasOf?);
    Tables(
      p.name, p.structName,
      map n | n in structs :: FieldNames(p.decls[n].fields),
      map n | n in structs :: FieldTypes(p.name, p.decls[n].fields),
      enums,
      map n | n in typedefs :: if p.decls[n].Renamed? then p.decls[n].of else Printed(p.name, p.decls[n].target),
      structs, p.integral, p.scalars, p.texts, p.routines)
  }

  // ---------------------------------------------------------------------
  // Names that can be told apart

  /** The name does not look like that of a list or a pointer. */
  predicate Simple(n: string) { n != "" && TrailingList(n).None? && TrailingPtr(n).None? }

  predicate Reserved(n: string) { n in SCALARS || n == "string" }

  predicate OwnName(p: Package, n: string) {
    var full := p.name + "_" + n;
    Simple(n) && Simple(full) && full !in p.decls && !Reserved(full)
  }

  predicate WellTyped(p: Package, t: CType) {
    match t
    case Scalar(n) => n in SCALARS && n !in p.decls
    case TextType => "string" !in p.decls
    case Own(n) => n in p.decls
    case Other(n) => Simple(n) && n !in p.decls && !Reserved(n) && LeadingPackage(p.name, n).None?
    case ListType(e) => WellTyped(p, e)
    case PointerType(e) => WellTyped(p, e)
  }

  predicate DistinctNames(fs: seq<FieldDecl>) {
    forall i, j :: 0 <= i < j < |fs| ==> fs[i].name != fs[j].name
  }

  predicate WellDeclared(p: Package, d: Decl) {
    match d
    case Struct(fs) => DistinctNames(fs) && forall i :: 0 <= i < |fs| ==> WellTyped(p, fs[i].cType)
    case Enumeration => true
    case Renamed(of) => LeadingPackage(p.name, of).None?
    case AliasOf(t) => WellTyped(p, t) && Innermost(t).Own?
  }

  predicate WellNamed(p: Package) {
    forall n :: n in p.decls ==> OwnName(p, n) && WellDeclared(p, p.decls[n])
  }

  // ---------------------------------------------------------------------
  // Objects

  /** A number that falls from an alias to what it stands for: no alias leads back to itself. */
  ghost predicate AliasesEnd(p: Package, level: string -> nat) {
    forall n :: n in p.decls && p.decls[n].AliasOf? && Innermost(p.decls[n].target).Own? ==>
      level(Innermost(p.decls[n].target).name) < level(n)
  }

  ghost function Level(level: string -> nat, t: CType): nat {
    if Innermost(t).Own? then level(Innermost(t).name) + 1 else 0
  }

  predicate IsText(o: Obj) { o.NullText? || o.TextObj? }

  /** An object whose layout the package does not give: a scalar, a text, or blocks of its own. */
  predicate IsNamed(p: Package, n: string, o: Obj) {
    if n in SCALARS || n in p.scalars then o.PlainObj?
    else if n == "string" || n in p.texts then IsText(o)
    else o.DelegatedObj?
  }

  /** o is an object of C type t. */
  ghost predicate IsA(p: Package, level: string -> nat, t: CType, o: Obj)
    requires AliasesEnd(p, level) && WellNamed(p)
    decreases o, Level(level, t)
  {
    match t
    case Scalar(_) => o.PlainObj?
    case TextType => IsText(o)
    case Other(n) => IsNamed(p, n, o)
    case ListType(e) => o.NullList? || (o.ListObj? && forall i :: 0 <= i < |o.elems| ==> IsA(p, level, e, o.elems[i]))
    case PointerType(e) => o.NullPointer? || (o.PointerObj? && IsA(p, level, e, o.target))
    case Own(n) =>
      n in p.decls &&
      match p.decls[n]
      case Struct(fs) =>
        && o.StructObj? && |o.names| == |o.values| == |fs|
        && (forall i :: 0 <= i < |fs| ==> o.names[i] == fs[i].name)
        && (forall i :: 0 <= i < |fs| ==> IsA(p, level, fs[i].cType, o.values[i]))
      case Enumeration => o.PlainObj?
      case Renamed(of) => IsNamed(p, of, o)
      case AliasOf(u) => assert WellDeclared(p, p.decls[n]); IsA(p, level, u, o)
  }

  // ---------------------------------------------------------------------
  // How the generator reads the printed names

  lemma {:induction false} PrintedNotEmpty(p: Package, t: CType)
    requires WellNamed(p) && WellTyped(p, t)
    ensures Printed(p.name, t) != "" && Bare(p.name, t) != ""
  {
    match t
    case ListType(e) => PrintedNotEmpty(p, e);
    case PointerType(e) => PrintedNotEmpty(p, e);
    case Own(n) => assert OwnName(p, n);
    case _ =>
  }

  lemma ListSuffix(x: string)
    requires x != ""
    ensures TrailingList(x + "_List").Some? && TrailingList(x + "_List").value == x
  {
    var t := x + "_List";
    assert t[|t| - 5..] == "_List" && t[..|t| - 5] == x;
  }

  lemma PtrSuffix(x: string)
    requires x != ""
    ensures TrailingList(x + "_Ptr").None?
    ensures TrailingPtr(x + "_Ptr").Some? && TrailingPtr(x + "_Ptr").value == x
  {
    var t := x + "_Ptr";
    assert t[|t| - 4..] == "_Ptr" && t[..|t| - 4] == x;
    assert t[|t| - 1] == 'r' && "_List"[4] == 't';
    assert |t| > 5 ==> t[|t| - 5..][4] == 'r';
  }

  lemma PackageFront(packageName: string, n: string)
    requires n != ""
    ensures LeadingPackage(packageName, packageName + "_" + n).Some?
    ensures LeadingPackage(packageName, packageName + "_" + n).value == n
  {
    var t := packageName + "_" + n;
    assert packageName + "_" <= t && t[|packageName| + 1..] == n;
  }

  /** The shape of every printed type. */
  lemma ClassifyPrinted(p: Package, t: CType)
    requires WellNamed(p) && WellTyped(p, t)
    ensures Classify(TablesOf(p), Printed(p.name, t)) == match t {
      case Scalar(_) => Plain
      case TextType => Text
      case Own(n) => Alias(n)
      case Other(n) => Foreign(n)
      case ListType(e) => ListOf(Printed(p.name, e))
      case PointerType(e) => PointerTo(Printed(p.name, e)) }
  {
    match t
    case Scalar(n) => ScalarsSimple(n);
    case TextType =>
    case Own(n) =>
      assert OwnName(p, n);
      PackageFront(p.name, n);
    case Other(n) =>
    case ListType(e) =>
      PrintedNotEmpty(p, e);
      ListSuffix(Printed(p.name, e));
    case PointerType(e) =>
      PrintedNotEmpty(p, e);
      PtrSuffix(Printed(p.name, e));
  }

  lemma ScalarsSimple(n: string)
    requires n in SCALARS
    ensures Simple(n) && n != "string"
  {
    assert TrailingList("struct_timespec").None? by { assert "struct_timespec"[10..] == "espec"; }
    assert TrailingPtr("struct_timespec").None? by { assert "struct_timespec"[11..] == "spec"; }
    assert TrailingPtr("float64").None? by { assert "float64"[3..] == "at64"; }
    assert TrailingList("float64").None? by { assert "float64"[2..] == "oat64"; }
    assert TrailingPtr("int64").None? by { assert "int64"[1..] == "nt64"; }
    assert TrailingPtr("int32").None? by { assert "int32"[1..] == "nt32"; }
  }

  function PrintedFields(packageName: string, fs: seq<FieldDecl>): (r: seq<Field>)
    ensures |r| == |fs|
    ensures forall i :: 0 <= i < |fs| ==> r[i] == Field(fs[i].name, Printed(packageName, fs[i].cType))
  {
    seq(|fs|, i requires 0 <= i < |fs| => Field(fs[i].name, Printed(packageName, fs[i].cType)))
  }

  /** The shape of every name without its package, which is what an own type is read as next. */
  lemma ClassifyBare(p: Package, t: CType)
    requires WellNamed(p) && WellTyped(p, t) && Innermost(t).Own?
    ensures var shape := Classify(TablesOf(p), Bare(p.name, t));
      match t
      case ListType(e) => shape == ListOf(Bare(p.name, e))
      case PointerType(e) => shape == PointerTo(Bare(p.name, e))
      case Own(n) =>
        (match p.decls[n]
         case Struct(fs) => shape == StructOf(PrintedFields(p.name, fs))
         case Enumeration => shape == Plain
         case Renamed(of) =>
           shape == Delegated(if of in p.decls && p.decls[of].Struct? then p.name + "_" + of else of, of)
         case AliasOf(u) => shape == Alias(Bare(p.name, u)))
      case _ => true
  {
    match t
    case ListType(e) =>
      PrintedNotEmpty(p, e);
      ListSuffix(Bare(p.name, e));
    case PointerType(e) =>
      PrintedNotEmpty(p, e);
      PtrSuffix(Bare(p.name, e));
    case Own(n) =>
      assert OwnName(p, n) && WellDeclared(p, p.decls[n]);
      match p.decls[n]
      case Struct(fs) => StructRead(p, n, fs);
      case AliasOf(u) => AliasFront(p, u);
      case _ =>
  }

  lemma {:induction false} FieldTypeIs(packageName: string, fs: seq<FieldDecl>, i: nat)
    requires i < |fs| && DistinctNames(fs)
    ensures fs[i].name in FieldTypes(packageName, fs)
    ensures FieldTypes(packageName, fs)[fs[i].name] == Printed(packageName, fs[i].cType)
    decreases |fs|
  {
    if i < |fs| - 1 {
      FieldTypeIs(packageName, fs[..|fs| - 1], i);
    }
  }

  lemma StructRead(p: Package, n: string, fs: seq<FieldDecl>)
    requires WellNamed(p) && n in p.decls && p.decls[n] == Struct(fs) && OwnName(p, n) && DistinctNames(fs)
    ensures Classify(TablesOf(p), n) == StructOf(PrintedFields(p.name, fs))
  {
    var tables := TablesOf(p);
    assert tables.structFields[n] == FieldNames(fs) && tables.fieldTypes[n] == FieldTypes(p.name, fs);
    forall i | 0 <= i < |fs|
      ensures FieldType(tables, n, fs[i].name) == Printed(p.name, fs[i].cType)
    {
      FieldTypeIs(p.name, fs, i);
    }
    var shape := Classify(tables, n);
    assert shape.StructOf? && shape.fields == PrintedFields(p.name, fs);
  }

  lemma {:induction false} PrintedFront(p: Package, t: CType)
    requires Innermost(t).Own?
    ensures Printed(p.name, t) == p.name + "_" + Bare(p.name, t)
  {
    match t
    case ListType(e) => PrintedFront(p, e);
    case PointerType(e) => PrintedFront(p, e);
    case _ =>
  }

  lemma AliasFront(p: Package, t: CType)
    requires WellNamed(p) && WellTyped(p, t) && Innermost(t).Own?
    ensures LeadingPackage(p.name, Printed(p.name, t)).Some?
    ensures LeadingPackage(p.name, Printed(p.name, t)).value == Bare(p.name, t)
  {
    PrintedNotEmpty(p, t);
    PrintedFront(p, t);
    PackageFront(p.name, Bare(p.name, t));
  }

  lemma {:induction false} BareIsPrinted(p: Package, t: CType)
    requires !Innermost(t).Own?
    ensures Bare(p.name, t) == Printed(p.name, t)
  {
    match t
    case ListType(e) => BareIsPrinted(p, e);
    case PointerType(e) => BareIsPrinted(p, e);
    case _ =>
  }
}
