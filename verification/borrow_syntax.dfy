/// The structured statement fragment the borrow checker is modelled on:
/// locals and field/index places, `borrow [mut] place`, dereferences, calls
/// that return no reference, compound assignment and all control flow.

module BorrowSyntax {
  import opened Places

  datatype Pos = Pos(line: nat, column: nat)

  datatype Option<+T> = None | Some(value: T)

  /// Types as far as the checker looks at them. `Unknown` is the default
  /// `Type{}`; `Struct` carries its substituted fields.
  datatype Type =
    | Unknown
    | Scalar
    | RefTo(mut: bool, pointee: Type)
    | Struct(copyable: bool, fields: seq<Field>)
    | SliceOf(element: Type)

  datatype Field = Field(name: string, ty: Type)

  predicate IsCopyType(t: Type) {
    match t
    case Scalar => true
    case RefTo(mut, _) => !mut
    case Struct(copyable, _) => copyable
    case _ => false
  }

  /// `contains_reference`: does a value of this type hold a reference?
  predicate ContainsReference(t: Type) {
    match t
    case RefTo(_, _) => true
    case Struct(_, fields) => FieldsContainReference(fields)
    case _ => false
  }

  predicate FieldsContainReference(fields: seq<Field>) {
    fields != [] && (ContainsReference(fields[0].ty) || FieldsContainReference(fields[1..]))
  }

  type Scopes = seq<map<Var, Type>>

  /// Innermost binding first, as `type_of_place` searches.
  function LookupVar(v: Var, scopes: Scopes): Option<Type> {
    if scopes == [] then None
    else if v in scopes[|scopes| - 1] then Some(scopes[|scopes| - 1][v])
    else LookupVar(v, scopes[..|scopes| - 1])
  }

  function FieldType(fields: seq<Field>, name: string): Type {
    if fields == [] then Unknown
    else if fields[0].name == name then fields[0].ty
    else FieldType(fields[1..], name)
  }

  /// One component of the walk in `type_of_place`; references are looked through.
  function Project(t: Type, component: string): Type {
    var base := if t.RefTo? then t.pointee else t;
    if component == AnyIndex then (if base.SliceOf? then base.element else Unknown)
    else if base.Struct? then FieldType(base.fields, component)
    else Unknown
  }

  function Walk(t: Type, path: seq<string>): Type
    decreases path
  {
    if path == [] then t else Walk(Project(t, path[0]), path[1..])
  }

  function TypeOfPlace(p: Place, scopes: Scopes): Type {
    match LookupVar(Root(p), scopes)
    case None => Unknown
    case Some(t) => Walk(t, p[1..])
  }

  /// A place expression. `operands` are the index operands written in it;
  /// each index contributes the component `[*]` to `place`.
  datatype PlaceExpr = PlaceExpr(place: Place, operands: seq<Expr>, pos: Pos)

  /// `Lend` is an argument for which `is_reborrow_argument` holds; anywhere
  /// else it is a use.
  datatype Expr =
    | Literal
    | Use(pe: PlaceExpr)
    | Deref(pe: PlaceExpr)
    | Unary(operand: Expr)
    | Binary(lhs: Expr, rhs: Expr)
    | Borrow(mut: bool, pe: PlaceExpr, pos: Pos)
    | Call(pos: Pos, args: seq<Expr>)
    | Lend(pe: PlaceExpr)   // a mutable reference passed on for the length of a call

  datatype Target =
    | Direct(pe: PlaceExpr)
    | Through(pe: PlaceExpr)   // `deref pe = value`

  /// `id` stands for the statement's address, the key of the liveness tables.
  /// A first assignment that introduces its name is a `Let`.
  datatype Stmt =
    | Let(id: nat, key: Var, ty: Type, init: Option<Expr>)
    | Assign(id: nat, compound: bool, target: Target, value: Expr, pos: Pos)
    | ExprStmt(id: nat, expr: Expr)
    | Return(id: nat, result: Option<Expr>, bearsReference: bool, pos: Pos)
    | Break(id: nat)
    | Continue(id: nat)
    | Block(id: nat, body: seq<Stmt>)
    | If(id: nat, cond: Expr, thn: seq<Stmt>, els: seq<Stmt>)
    | While(id: nat, cond: Expr, body: seq<Stmt>, pos: Pos)
    | For(id: nat, key: Var, ty: Type, begin: Expr, end: Expr, body: seq<Stmt>, pos: Pos)
    | Loop(id: nat, body: seq<Stmt>, pos: Pos)

  /// Addresses of a statement and of everything inside it.
  function Ids(s: Stmt): set<nat>
    decreases s, 1
  {
    {s.id} + InnerIds(s)
  }

  function InnerIds(s: Stmt): set<nat>
    decreases s, 0
  {
    match s
    case Block(_, body) => BlockIds(body)
    case If(_, _, thn, els) => BlockIds(thn) + BlockIds(els)
    case While(_, _, body, _) => BlockIds(body)
    case For(_, _, _, _, _, body, _) => BlockIds(body)
    case Loop(_, body, _) => BlockIds(body)
    case _ => {}
  }

  function BlockIds(ss: seq<Stmt>): set<nat>
    decreases ss, 2
  {
    if ss == [] then {} else Ids(ss[0]) + BlockIds(ss[1..])
  }

  /// Distinct statements have distinct addresses.
  predicate DistinctIds(s: Stmt)
    decreases s, 1
  {
    s.id !in InnerIds(s) &&
    match s
    case Block(_, body) => BlockDistinctIds(body)
    case If(_, _, thn, els) => BlockDistinctIds(thn) && BlockDistinctIds(els) && BlockIds(thn) !! BlockIds(els)
    case While(_, _, body, _) => BlockDistinctIds(body)
    case For(_, _, _, _, _, body, _) => BlockDistinctIds(body)
    case Loop(_, body, _) => BlockDistinctIds(body)
    case _ => true
  }

  predicate BlockDistinctIds(ss: seq<Stmt>)
    decreases ss, 2
  {
    ss == [] ||
    (DistinctIds(ss[0]) && BlockDistinctIds(ss[1..]) && Ids(ss[0]) !! BlockIds(ss[1..]))
  }

  /// Source positions of the calls inside an expression.
  function CallPositions(e: Expr): set<Pos>
    decreases e, 1
  {
    match e
    case Unary(x) => CallPositions(x)
    case Binary(l, r) => CallPositions(l) + CallPositions(r)
    case Call(pos, args) => {pos} + ArgCallPositions(args)
    case _ => {}
  }

  function ArgCallPositions(args: seq<Expr>): set<Pos>
    decreases args, 0
  {
    if args == [] then {} else CallPositions(args[0]) + ArgCallPositions(args[1..])
  }
}
