/**
 * The part of javac's tree language that the builder generator reads and
 * produces, as plain data: declarations, type expressions, expressions and
 * statements. Constructors are methods named "<init>" returning void.
 */
module JavacTree {

  /** Declaration flags (javac Flags and the modifiers they stand for). */
  datatype Flag = Public | Protected | Private | Static | Abstract | Final | Parameter

  datatype TypeExpr =
    | TIdent(name: string)                      // a named type, or a type variable
    | TApply(base: string, args: seq<TypeExpr>) // a generic type applied to arguments
    | TVoid

  datatype Expr =
    | EIdent(name: string)                      // a parameter or local
    | ESelect(owner: string, field: string)     // owner.field, owner an identifier
    | ENew(clazz: TypeExpr, args: seq<Expr>)    // new clazz(args)

  datatype Stmt =
    | SAssign(lhs: Expr, rhs: Expr)
    | SReturn(value: Expr)

  datatype Tree =
    | VarDef(mods: set<Flag>, name: string, vartype: TypeExpr)
    | MethodDef(mods: set<Flag>, name: string, resType: TypeExpr, params: seq<Tree>, body: seq<Stmt>)
    | ClassDef(mods: set<Flag>, name: string, typeParams: seq<string>, defs: seq<Tree>)
    | OtherTree                                 // any other member: blocks, imports, ...

  /** A variable declaration: a field, or a formal parameter. */
  type VarDecl = t: Tree | t.VarDef? witness VarDef({}, "", TVoid)
}
