/**
 * Model of com.mx.processor.BuilderProcessor: for a class annotated with
 * @Builder it generates two marker types TRUE and FALSE, a generic class
 * Builder<H...> with one type parameter per instance field, one setter per
 * field, a static builder() and a static build(Builder<TRUE, ..., TRUE>).
 * The javac trees it builds are the plain data of module JavacTree.
 */
module BuilderProcessor {
  import opened Wrappers
  import opened JavacTree
  import opened StringUtils
  import ElementUtils

  const THIS := "this"
  const TYPE_PREFIX := "H"
  const BUILDER_METHOD := "builder"
  const BUILD_METHOD := "build"
  const BUILDER_CLASS := "Builder"
  const TRUE_TYPE := "TRUE"
  const FALSE_TYPE := "FALSE"
  const INIT := "<init>"

  // ---------------------------------------------------------------------------
  // Field extraction

  /** isValidField: a VARIABLE member without the static modifier. */
  predicate IsValidField(t: Tree) {
    t.VarDef? && Static !in t.mods
  }

  /** getAllFields: the instance-field declarations of a class body, in declaration order. */
  function GetAllFields(defs: seq<Tree>): (r: seq<VarDecl>)
    ensures |r| <= |defs|
    ensures forall t: Tree :: t in r <==> t in defs && IsValidField(t)
  {
    if defs == [] then []
    else (if IsValidField(defs[0]) then var f: VarDecl := defs[0]; [f] else []) + GetAllFields(defs[1..])
  }

  /** Field extraction distributes over concatenation: it is an order-preserving filter. */
  lemma {:induction false} GetAllFieldsAppend(a: seq<Tree>, b: seq<Tree>)
    ensures GetAllFields(a + b) == GetAllFields(a) + GetAllFields(b)
  {
    if a == [] {
      assert a + b == b;
    } else {
      assert (a + b)[1..] == a[1..] + b;
      GetAllFieldsAppend(a[1..], b);
    }
  }

  /** A single member is kept exactly when it is an instance-field declaration. */
  lemma GetAllFieldsSingle(t: Tree)
    ensures IsValidField(t) ==> GetAllFields([t]) == [t]
    ensures !IsValidField(t) ==> GetAllFields([t]) == []
  {
    assert [t][1..] == [];
  }

  // ---------------------------------------------------------------------------
  // Names

  /** The type parameter standing for a field: "H" followed by the upper-cased field name. */
  function TypeParamName(f: VarDecl): string {
    TYPE_PREFIX + ToUpper(f.name)
  }

  predicate DistinctNames(fields: seq<VarDecl>) {
    forall i, j :: 0 <= i < j < |fields| ==> fields[i].name != fields[j].name
  }

  /** No two fields differ only in the case of their names. */
  predicate DistinctUpper(fields: seq<VarDecl>) {
    forall i, j :: 0 <= i < j < |fields| ==> ToUpper(fields[i].name) != ToUpper(fields[j].name)
  }

  lemma DistinctUpperGivesDistinctNames(fields: seq<VarDecl>)
    requires DistinctUpper(fields)
    ensures DistinctNames(fields)
  {
  }

  // ---------------------------------------------------------------------------
  // Pieces of the Builder class

  /** createBuilderClassTypeParams: one type parameter per field, in field order. */
  function CreateBuilderClassTypeParams(fields: seq<VarDecl>): (r: seq<string>)
    ensures |r| == |fields|
    ensures forall i :: 0 <= i < |fields| ==> r[i] == TypeParamName(fields[i])
  {
    seq(|fields|, i requires 0 <= i < |fields| => TypeParamName(fields[i]))
  }

  /**
   * The builder's type parameters are pairwise distinct exactly when no two
   * field names are equal up to case; otherwise two of them collide.
   */
  lemma TypeParamsDistinctIff(fields: seq<VarDecl>)
    ensures var tps := CreateBuilderClassTypeParams(fields);
            |tps| == |fields| &&
            ((forall i, j :: 0 <= i < j < |tps| ==> tps[i] != tps[j]) <==> DistinctUpper(fields))
  {
    var tps := CreateBuilderClassTypeParams(fields);
    forall i, j | 0 <= i < j < |fields|
      ensures tps[i] == tps[j] <==> ToUpper(fields[i].name) == ToUpper(fields[j].name)
    {
      TypeParamNameInjective(fields[i], fields[j]);
    }
  }

  /** Equal type parameter names come from names that are equal up to case. */
  lemma TypeParamNameInjective(a: VarDecl, b: VarDecl)
    ensures TypeParamName(a) == TypeParamName(b) <==> ToUpper(a.name) == ToUpper(b.name)
  {
    assert TypeParamName(a)[1..] == ToUpper(a.name);
    assert TypeParamName(b)[1..] == ToUpper(b.name);
  }

  /** A type parameter name never spells a marker type: it starts with 'H'. */
  lemma TypeParamIsNotMarker(f: VarDecl)
    ensures TypeParamName(f) != TRUE_TYPE && TypeParamName(f) != FALSE_TYPE
  {
    assert TypeParamName(f)[0] == 'H';
  }

  /** Fields that differ only in case collide: "name" and "Name" both give "HNAME". */
  lemma CaseCollision()
    ensures var fields: seq<VarDecl> := [VarDef({}, "name", TIdent("String")), VarDef({}, "Name", TIdent("String"))];
            DistinctNames(fields) && !DistinctUpper(fields)
            && CreateBuilderClassTypeParams(fields) == ["HNAME", "HNAME"]
  {
    var fields: seq<VarDecl> := [VarDef({}, "name", TIdent("String")), VarDef({}, "Name", TIdent("String"))];
    assert ToUpper(fields[0].name) == "NAME";
    assert ToUpper(fields[1].name) == "NAME";
    assert fields[0].name != fields[1].name by { assert fields[0].name[0] != fields[1].name[0]; }
    assert TypeParamName(fields[0]) == "HNAME" && TypeParamName(fields[1]) == "HNAME";
  }

  function PrivateCopy(f: VarDecl): VarDecl {
    VarDef({Private}, f.name, f.vartype)
  }

  /** copyAllFields: one private field per field, same name, same type. */
  function CopyAllFields(fields: seq<VarDecl>): (r: seq<VarDecl>)
    ensures |r| == |fields|
    ensures forall i :: 0 <= i < |fields| ==>
              r[i].mods == {Private} && r[i].name == fields[i].name && r[i].vartype == fields[i].vartype
  {
    seq(|fields|, i requires 0 <= i < |fields| => PrivateCopy(fields[i]))
  }

  /** createArgs: one formal parameter per field, same name, same type, in order. */
  function CreateArgs(fields: seq<VarDecl>): (r: seq<VarDecl>)
    ensures |r| == |fields|
    ensures forall i :: 0 <= i < |fields| ==>
              r[i].mods == {Parameter} && r[i].name == fields[i].name && r[i].vartype == fields[i].vartype
  {
    seq(|fields|, i requires 0 <= i < |fields| => VarDef({Parameter}, fields[i].name, fields[i].vartype))
  }

  /** createEmptyConstructor: a private constructor with an empty body. */
  function CreateEmptyConstructor(): Tree {
    MethodDef({Private}, INIT, TVoid, [], [])
  }

  /** this.f = f */
  function FieldAssign(f: VarDecl): Stmt {
    SAssign(ESelect(THIS, f.name), EIdent(f.name))
  }

  function FieldAssigns(fields: seq<VarDecl>): seq<Stmt> {
    seq(|fields|, i requires 0 <= i < |fields| => FieldAssign(fields[i]))
  }

  /** createAllArgsConstructor: parameters are the fields, the body assigns each one in order. */
  function CreateAllArgsConstructor(fields: seq<VarDecl>): Tree {
    MethodDef({Private}, INIT, TVoid, CreateArgs(fields), FieldAssigns(fields))
  }

  /**
   * The all-args constructor is the empty constructor exactly when there are
   * no fields: both are then private and parameterless with an empty body.
   */
  lemma ConstructorsCoincideIff(fields: seq<VarDecl>)
    ensures CreateAllArgsConstructor(fields) == CreateEmptyConstructor() <==> fields == []
  {
    if fields != [] {
      assert |CreateAllArgsConstructor(fields).params| != 0;
    }
  }

  /** The type argument at field `f` of the setter for `cur`. */
  function TypeArg(cur: VarDecl, f: VarDecl): TypeExpr {
    if f.name == cur.name then TIdent(TRUE_TYPE) else TIdent(TypeParamName(f))
  }

  /** The result of createTypeArgs: the type arguments of the setter for `cur`. */
  function TypeArgsFor(cur: VarDecl, fields: seq<VarDecl>): seq<TypeExpr> {
    seq(|fields|, j requires 0 <= j < |fields| => TypeArg(cur, fields[j]))
  }

  /** createTypeArgs */
  method CreateTypeArgs(currField: VarDecl, fields: seq<VarDecl>) returns (typeArgs: seq<TypeExpr>)
    ensures typeArgs == TypeArgsFor(currField, fields)
  {
    typeArgs := [];
    for i := 0 to |fields|
      invariant |typeArgs| == i
      invariant forall j :: 0 <= j < i ==> typeArgs[j] == TypeArg(currField, fields[j])
    {
      var field := fields[i];
      if currField.name == field.name {
        typeArgs := typeArgs + [TIdent(TRUE_TYPE)];
      } else {
        typeArgs := typeArgs + [TIdent(TYPE_PREFIX + ToUpper(field.name))];
      }
    }
  }

  /**
   * For distinct field names, the type arguments of setter i have one entry
   * per field: TRUE at i and the field's own type parameter everywhere else.
   */
  lemma SetterTypeArgsShape(fields: seq<VarDecl>, i: nat)
    requires DistinctNames(fields) && i < |fields|
    ensures var v := TypeArgsFor(fields[i], fields);
            |v| == |fields| && v[i] == TIdent(TRUE_TYPE)
            && forall j :: 0 <= j < |fields| && j != i ==> v[j] == TIdent(TypeParamName(fields[j]))
  {
    var v := TypeArgsFor(fields[i], fields);
    forall j | 0 <= j < |fields| && j != i
      ensures v[j] == TIdent(TypeParamName(fields[j]))
    {
      assert fields[j].name != fields[i].name by {
        if j < i { assert fields[j].name != fields[i].name; } else { assert fields[i].name != fields[j].name; }
      }
    }
  }

  /** The constructor argument for field `arg` in the setter for `cur`: the parameter, or this.arg. */
  function ConstructorArg(cur: VarDecl, arg: VarDecl): Expr {
    if arg.name == cur.name then EIdent(arg.name) else ESelect(THIS, arg.name)
  }

  function ConstructorArgs(cur: VarDecl, fields: seq<VarDecl>): seq<Expr> {
    seq(|fields|, j requires 0 <= j < |fields| => ConstructorArg(cur, fields[j]))
  }

  /**
   * The setter for `cur`: public, named after the field, one parameter of its
   * type, returning Builder<typeArgs>; the body assigns this.cur and returns
   * new Builder<typeArgs>(constructor arguments).
   */
  function SetterDef(className: string, cur: VarDecl, fields: seq<VarDecl>): Tree {
    var typeArgs := TypeArgsFor(cur, fields);
    MethodDef({Public}, cur.name, TApply(className, typeArgs), CreateArgs([cur]),
              [FieldAssign(cur), SReturn(ENew(TApply(className, typeArgs), ConstructorArgs(cur, fields)))])
  }

  function SetterDefs(className: string, fields: seq<VarDecl>): seq<Tree> {
    seq(|fields|, i requires 0 <= i < |fields| => SetterDef(className, fields[i], fields))
  }

  /** createAllSetter */
  method CreateAllSetter(className: string, fields: seq<VarDecl>) returns (setters: seq<Tree>)
    ensures setters == SetterDefs(className, fields)
  {
    setters := [];
    for i := 0 to |fields|
      invariant |setters| == i
      invariant forall k :: 0 <= k < i ==> setters[k] == SetterDef(className, fields[k], fields)
    {
      var field := fields[i];
      var typeArgs := CreateTypeArgs(field, fields);
      var returnType := TApply(className, typeArgs);
      var constructorArgs: seq<Expr> := [];
      for j := 0 to |fields|
        invariant |constructorArgs| == j
        invariant forall k :: 0 <= k < j ==> constructorArgs[k] == ConstructorArg(field, fields[k])
      {
        var arg := fields[j];
        if arg.name == field.name {
          constructorArgs := constructorArgs + [EIdent(arg.name)];
        } else {
          constructorArgs := constructorArgs + [ESelect(THIS, arg.name)];
        }
      }
      assert constructorArgs == ConstructorArgs(field, fields);
      var statements := [SAssign(ESelect(THIS, field.name), EIdent(field.name)),
                         SReturn(ENew(TApply(className, typeArgs), constructorArgs))];
      setters := setters + [MethodDef({Public}, field.name, returnType, CreateArgs([field]), statements)];
    }
  }

  /**
   * Setter i is public, named after field i, takes one parameter of field i's
   * type, and uses one type-argument vector both for its return type and for
   * the builder it constructs.
   */
  lemma SetterUsesOneVector(className: string, fields: seq<VarDecl>, i: nat)
    requires i < |fields|
    ensures var s := SetterDef(className, fields[i], fields);
            var v := TypeArgsFor(fields[i], fields);
            s.MethodDef? && s.mods == {Public} && s.name == fields[i].name
            && s.params == [VarDef({Parameter}, fields[i].name, fields[i].vartype)]
            && s.resType == TApply(className, v) && |s.body| == 2
            && s.body[0] == SAssign(ESelect(THIS, fields[i].name), EIdent(fields[i].name))
            && s.body[1].SReturn? && s.body[1].value.ENew? && s.body[1].value.clazz == s.resType
  {
  }

  /** defaultTypeArgs: the same marker at every position. */
  function DefaultTypeArgs(fields: seq<VarDecl>, typeName: string): (r: seq<TypeExpr>)
    ensures |r| == |fields|
    ensures forall i :: 0 <= i < |r| ==> r[i] == TIdent(typeName)
  {
    seq(|fields|, _ => TIdent(typeName))
  }

  /** createPhantomType: a static abstract class without members. */
  function CreatePhantomType(name: string): Tree {
    ClassDef({Static, Abstract}, name, [], [])
  }

  /**
   * The two markers are distinct static abstract classes with no type
   * parameters and no members, so they are never instantiated, and no
   * Builder type parameter shadows either of them.
   */
  lemma PhantomMarkers()
    ensures var t := CreatePhantomType(TRUE_TYPE); var f := CreatePhantomType(FALSE_TYPE);
            t.ClassDef? && f.ClassDef? && t.name == TRUE_TYPE && f.name == FALSE_TYPE && t != f
            && t.mods == {Static, Abstract} && f.mods == {Static, Abstract}
            && t.typeParams == [] && f.typeParams == [] && t.defs == [] && f.defs == []
    ensures forall fld: VarDecl :: TypeParamName(fld) != TRUE_TYPE && TypeParamName(fld) != FALSE_TYPE
  {
    assert TRUE_TYPE[0] != FALSE_TYPE[0];
    forall fld: VarDecl
      ensures TypeParamName(fld) != TRUE_TYPE && TypeParamName(fld) != FALSE_TYPE
    {
      TypeParamIsNotMarker(fld);
    }
  }

  /** createBuilderClass: fields, then the empty constructor, then the all-args constructor, then setters. */
  function CreateBuilderClass(className: string, typeParams: seq<string>, fieldDefs: seq<Tree>,
                              emptyConstructor: Tree, allArgsConstructor: Tree, setters: seq<Tree>): (r: Tree)
    ensures r.ClassDef? && r.name == className && r.typeParams == typeParams && r.mods == {Public, Static}
    ensures |r.defs| == |fieldDefs| + 2 + |setters|
    ensures r.defs[..|fieldDefs|] == fieldDefs
    ensures r.defs[|fieldDefs|] == emptyConstructor && r.defs[|fieldDefs| + 1] == allArgsConstructor
    ensures r.defs[|fieldDefs| + 2..] == setters
  {
    ClassDef({Public, Static}, className, typeParams, fieldDefs + [emptyConstructor, allArgsConstructor] + setters)
  }

  /** createStaticBuilderMethod: public static Builder<typeArgs> builder() { return new Builder<typeArgs>(); } */
  function CreateStaticBuilderMethod(builderClassName: string, typeArgs: seq<TypeExpr>): Tree {
    var returnType := TApply(builderClassName, typeArgs);
    MethodDef({Public, Static}, BUILDER_METHOD, returnType, [], [SReturn(ENew(TApply(builderClassName, typeArgs), []))])
  }

  /** builder.f1, ..., builder.fn */
  function BuildArgs(fields: seq<VarDecl>): (r: seq<Expr>)
    ensures |r| == |fields|
    ensures forall i :: 0 <= i < |fields| ==> r[i] == ESelect(BUILDER_METHOD, fields[i].name)
  {
    seq(|fields|, i requires 0 <= i < |fields| => ESelect(BUILDER_METHOD, fields[i].name))
  }

  /** createStaticBuildMethod: public static C build(Builder<typeArgs> builder) { return new C(builder.f1, ...); } */
  function CreateStaticBuildMethod(className: string, builderClassName: string,
                                   typeArgs: seq<TypeExpr>, fields: seq<VarDecl>): Tree {
    var argType := TApply(builderClassName, typeArgs);
    var args := BuildArgs(fields);
    MethodDef({Public, Static}, BUILD_METHOD, TIdent(className),
              [VarDef({Parameter}, BUILDER_METHOD, argType)],
              [SReturn(ENew(TIdent(className), args))])
  }

  /** The Builder class generated for a list of instance fields. */
  function BuilderClassFor(fields: seq<VarDecl>): Tree {
    CreateBuilderClass(BUILDER_CLASS, CreateBuilderClassTypeParams(fields), CopyAllFields(fields),
                       CreateEmptyConstructor(), CreateAllArgsConstructor(fields), SetterDefs(BUILDER_CLASS, fields))
  }

  /** Everything appended to the body of class `className`, in order: TRUE, FALSE, Builder, build, builder. */
  function GeneratedDefs(className: string, classDefs: seq<Tree>): seq<Tree> {
    var classFields := GetAllFields(classDefs);
    [CreatePhantomType(TRUE_TYPE), CreatePhantomType(FALSE_TYPE), BuilderClassFor(classFields),
     CreateStaticBuildMethod(className, BUILDER_CLASS, DefaultTypeArgs(classFields, TRUE_TYPE), classFields),
     CreateStaticBuilderMethod(BUILDER_CLASS, DefaultTypeArgs(classFields, FALSE_TYPE))]
  }

  /**
   * The Builder class has one type parameter per field, index-aligned; its
   * body is the private copies of the fields, the empty constructor, the
   * all-args constructor and the setters, in this order.
   */
  lemma BuilderClassLayout(fields: seq<VarDecl>)
    ensures var b := BuilderClassFor(fields); var n := |fields|;
            b.ClassDef? && b.name == BUILDER_CLASS && |b.typeParams| == n
            && (forall k :: 0 <= k < n ==> b.typeParams[k] == TypeParamName(fields[k]))
            && |b.defs| == 2 * n + 2
            && (forall k :: 0 <= k < n ==> b.defs[k] == PrivateCopy(fields[k]))
            && b.defs[n] == CreateEmptyConstructor() && b.defs[n + 1] == CreateAllArgsConstructor(fields)
            && (forall k :: 0 <= k < n ==> b.defs[n + 2 + k] == SetterDef(BUILDER_CLASS, fields[k], fields))
  {
    var b := BuilderClassFor(fields);
    var n := |fields|;
    assert b.typeParams == CreateBuilderClassTypeParams(fields);
    forall k | 0 <= k < n
      ensures b.defs[n + 2 + k] == SetterDef(BUILDER_CLASS, fields[k], fields)
    {
      assert b.defs[n + 2..][k] == SetterDefs(BUILDER_CLASS, fields)[k];
    }
    forall k | 0 <= k < n
      ensures b.defs[k] == PrivateCopy(fields[k])
    {
      assert b.defs[..n][k] == CopyAllFields(fields)[k];
    }
  }

  /**
   * The five generated members: the markers TRUE and FALSE, the Builder
   * class, build taking the all-TRUE Builder and returning the class, and
   * builder returning the all-FALSE Builder; build passes builder.f for each
   * instance field, in field order.
   */
  lemma GeneratedLayout(className: string, classDefs: seq<Tree>)
    ensures var g := GeneratedDefs(className, classDefs); var fields := GetAllFields(classDefs);
            |g| == 5
            && g[0] == ClassDef({Static, Abstract}, TRUE_TYPE, [], [])
            && g[1] == ClassDef({Static, Abstract}, FALSE_TYPE, [], [])
            && g[2] == BuilderClassFor(fields)
            && g[3].MethodDef? && g[3].mods == {Public, Static} && g[3].name == BUILD_METHOD
            && g[3].resType == TIdent(className)
            && g[3].params == [VarDef({Parameter}, BUILDER_METHOD, TApply(BUILDER_CLASS, seq(|fields|, _ => TIdent(TRUE_TYPE))))]
            && g[3].body == [SReturn(ENew(TIdent(className), BuildArgs(fields)))]
            && g[4].MethodDef? && g[4].mods == {Public, Static} && g[4].name == BUILDER_METHOD && g[4].params == []
            && g[4].resType == TApply(BUILDER_CLASS, seq(|fields|, _ => TIdent(FALSE_TYPE)))
            && g[4].body == [SReturn(ENew(g[4].resType, []))]
  {
    var fields := GetAllFields(classDefs);
    assert DefaultTypeArgs(fields, TRUE_TYPE) == seq(|fields|, _ => TIdent(TRUE_TYPE));
    assert DefaultTypeArgs(fields, FALSE_TYPE) == seq(|fields|, _ => TIdent(FALSE_TYPE));
  }

  /**
   * With no instance field the Builder class has no type parameters and its
   * body is the parameterless private constructor twice, and builder()
   * returns Builder applied to no type arguments.
   */
  lemma ZeroFieldBuilderClass()
    ensures var b := BuilderClassFor([]);
            b.ClassDef? && b.typeParams == [] && b.defs == [CreateEmptyConstructor(), CreateEmptyConstructor()]
    ensures CreateStaticBuilderMethod(BUILDER_CLASS, DefaultTypeArgs([], FALSE_TYPE)).resType == TApply(BUILDER_CLASS, [])
  {
    var b := BuilderClassFor([]);
    ConstructorsCoincideIff([]);
    BuilderClassLayout([]);
    assert b.defs == [b.defs[0], b.defs[1]];
  }

  /**
   * A static field is no instance field: in a class with one static field
   * "s" and one instance field "x", build passes builder.x alone.
   */
  lemma StaticFieldNotPassed()
    ensures var defs := [VarDef({Static}, "s", TIdent("int")), VarDef({Private}, "x", TIdent("int"))];
            GetAllFields(defs) == [defs[1]]
            && GeneratedDefs("C", defs)[3].body == [SReturn(ENew(TIdent("C"), [ESelect(BUILDER_METHOD, "x")]))]
  {
    var defs := [VarDef({Static}, "s", TIdent("int")), VarDef({Private}, "x", TIdent("int"))];
    GetAllFieldsAppend([defs[0]], [defs[1]]);
    assert defs == [defs[0]] + [defs[1]];
    GetAllFieldsSingle(defs[0]);
    GetAllFieldsSingle(defs[1]);
    var fields := GetAllFields(defs);
    assert fields == [defs[1]];
    GeneratedLayout("C", defs);
    assert BuildArgs(fields) == [ESelect(BUILDER_METHOD, "x")];
  }

  /** The generated members declare no fields, so extracting fields again gives the same list. */
  lemma GeneratedAddsNoFields(className: string, classDefs: seq<Tree>)
    ensures GetAllFields(classDefs + GeneratedDefs(className, classDefs)) == GetAllFields(classDefs)
  {
    var g := GeneratedDefs(className, classDefs);
    GetAllFieldsAppend(classDefs, g);
    assert g == [g[0]] + [g[1]] + [g[2]] + [g[3]] + [g[4]];
    GetAllFieldsAppend([g[0]] + [g[1]] + [g[2]] + [g[3]], [g[4]]);
    GetAllFieldsAppend([g[0]] + [g[1]] + [g[2]], [g[3]]);
    GetAllFieldsAppend([g[0]] + [g[1]], [g[2]]);
    GetAllFieldsAppend([g[0]], [g[1]]);
    GetAllFieldsSingle(g[0]);
    GetAllFieldsSingle(g[1]);
    GetAllFieldsSingle(g[2]);
    GetAllFieldsSingle(g[3]);
    GetAllFieldsSingle(g[4]);
  }

  // ---------------------------------------------------------------------------
  // Injection into the annotated class

  /** The javac class declaration whose member list the processor extends in place. */
  class JClassDecl {
    const name: string
    var defs: seq<Tree>

    constructor (name: string, defs: seq<Tree>)
      ensures this.name == name && this.defs == defs
    {
      this.name := name;
      this.defs := defs;
    }

    /** visitClassDef: build every generated member, then append them one by one. */
    method InjectBuilder()
      modifies this
      ensures defs == old(defs) + GeneratedDefs(name, old(defs))
    {
      var className := name;
      var classFields := GetAllFields(defs);
      var trueType := CreatePhantomType(TRUE_TYPE);
      var falseType := CreatePhantomType(FALSE_TYPE);
      var builderClassName := BUILDER_CLASS;
      var builderClassTypeParams := CreateBuilderClassTypeParams(classFields);
      var builderClassFieldDefs := CopyAllFields(classFields);
      var builderClassEmptyConstructor := CreateEmptyConstructor();
      var builderClassAllArgsConstructor := CreateAllArgsConstructor(classFields);
      var setters := CreateAllSetter(builderClassName, classFields);
      var builderClass := CreateBuilderClass(builderClassName, builderClassTypeParams, builderClassFieldDefs,
                                             builderClassEmptyConstructor, builderClassAllArgsConstructor, setters);
      var staticBuildMethod := CreateStaticBuildMethod(className, builderClassName,
                                                       DefaultTypeArgs(classFields, TRUE_TYPE), classFields);
      var staticBuilderMethod := CreateStaticBuilderMethod(builderClassName, DefaultTypeArgs(classFields, FALSE_TYPE));
      defs := defs + [trueType];
      defs := defs + [falseType];
      defs := defs + [builderClass];
      defs := defs + [staticBuildMethod];
      defs := defs + [staticBuilderMethod];
    }
  }

  // ---------------------------------------------------------------------------
  // The processing loop

  /** An error reported against an element. */
  datatype Diagnostic = Diagnostic(element: ElementUtils.Element, message: string)

  /** An annotated element together with the declaration tree javac holds for it. */
  datatype Target = Target(element: ElementUtils.Element, tree: JClassDecl)

  const ONLY_CLASSES := "Only classes can be annotated with @Builder"

  /** Whether the loop raises an error for an element. */
  predicate Rejected(e: ElementUtils.Element) {
    Validate(e).Some?
  }

  /**
   * The error checkValidClass raises for a class, if any: none exactly when
   * the class is public and has a constructor taking one argument per FIELD
   * member; the public check comes first.
   */
  function ClassCheck(e: ElementUtils.Element): (r: Option<Diagnostic>)
    ensures r.None? <==> ElementUtils.IsPublicClass(e)
                         && ElementUtils.ConstructorAccepted(e, Some({}), |ElementUtils.GetFields(e)|)
    ensures r.Some? ==> r.value.element == e
    ensures !ElementUtils.IsPublicClass(e) ==> r.Some? && "The target " <= r.value.message
    ensures ElementUtils.IsPublicClass(e) && r.Some? ==> "The class " <= r.value.message
  {
    if !ElementUtils.IsPublicClass(e) then
      Some(Diagnostic(e, "The target " + e.qualifiedName + " is not public class."))
    else if !ElementUtils.ConstructorAccepted(e, Some({}), |ElementUtils.GetFields(e)|) then
      Some(Diagnostic(e, "The class " + e.qualifiedName + " must provide an all args constructor"))
    else None
  }

  /** The error the loop raises for an element, if any. */
  function Validate(e: ElementUtils.Element): (r: Option<Diagnostic>)
    ensures r.None? <==> ElementUtils.IsPublicClass(e)
                         && ElementUtils.ConstructorAccepted(e, Some({}), |ElementUtils.GetFields(e)|)
    ensures r.Some? ==> r.value.element == e
  {
    if !ElementUtils.IsClass(e) then Some(Diagnostic(e, ONLY_CLASSES)) else ClassCheck(e)
  }

  /**
   * isClass decides the first error: every element that is not a class gets
   * the only-classes message, and a class is judged by checkValidClass alone,
   * whose messages all differ from it.
   */
  lemma OnlyClassesAccepted(e: ElementUtils.Element)
    ensures Validate(e) == Some(Diagnostic(e, ONLY_CLASSES)) <==> !ElementUtils.IsClass(e)
    ensures ElementUtils.IsClass(e) ==> Validate(e) == ClassCheck(e)
  {
    var c := ClassCheck(e);
    if ElementUtils.IsClass(e) && c.Some? {
      assert c.value.message[0] != ONLY_CLASSES[0];
    }
  }

  /** The index of the first true entry, or the length when there is none. */
  function FirstTrue(b: seq<bool>): (k: nat)
    ensures k <= |b|
    ensures forall i :: 0 <= i < k ==> !b[i]
    ensures k < |b| ==> b[k]
  {
    if b == [] || b[0] then 0 else 1 + FirstTrue(b[1..])
  }

  /** The failure flag of every element, in order. */
  function Failures(targets: seq<Target>): (f: seq<bool>)
    ensures |f| == |targets|
    ensures forall i :: 0 <= i < |targets| ==> f[i] == Rejected(targets[i].element)
  {
    seq(|targets|, i requires 0 <= i < |targets| => Rejected(targets[i].element))
  }

  /** The index of the first element that fails validation, or the number of elements. */
  function FirstFailure(targets: seq<Target>): (k: nat)
    ensures k <= |targets|
    ensures forall i :: 0 <= i < k ==> !Rejected(targets[i].element)
    ensures k < |targets| ==> Rejected(targets[k].element)
  {
    FirstTrue(Failures(targets))
  }

  /** checkValidClass */
  method CheckValidClass(classElement: ElementUtils.Element) returns (failure: Option<Diagnostic>)
    ensures failure == ClassCheck(classElement)
  {
    if !ElementUtils.IsPublicClass(classElement) {
      return Some(Diagnostic(classElement, "The target " + classElement.qualifiedName + " is not public class."));
    }
    var ok := ElementUtils.HasAllArgsConstructor(classElement, Some({}));
    if !ok {
      return Some(Diagnostic(classElement, "The class " + classElement.qualifiedName + " must provide an all args constructor"));
    }
    return None;
  }

  /** The member list of a class after the generated members were appended to `before`. */
  ghost predicate Injected(t: JClassDecl, before: seq<Tree>)
    reads t
  {
    t.defs == before + GeneratedDefs(t.name, before)
  }

  /**
   * One pass of the loop in process: the kind check, checkValidClass, and
   * on success the translation that appends the generated members, for
   * element n. The class of a failing element is left untouched, and so is
   * every other class of the round.
   */
  method ProcessElement(targets: seq<Target>, n: nat) returns (diag: Option<Diagnostic>)
    requires n < |targets|
    requires forall i, j :: 0 <= i < |targets| && 0 <= j < |targets| && i != j ==> targets[i].tree != targets[j].tree
    modifies targets[n].tree
    ensures diag == Validate(targets[n].element)
    ensures diag.None? ==> Injected(targets[n].tree, old(targets[n].tree.defs))
    ensures diag.Some? ==> targets[n].tree.defs == old(targets[n].tree.defs)
    ensures forall i {:trigger targets[i].tree.defs} :: 0 <= i < |targets| && i != n ==> targets[i].tree.defs == old(targets[i].tree.defs)
  {
    var element := targets[n].element;
    if !ElementUtils.IsClass(element) {
      return Some(Diagnostic(element, ONLY_CLASSES));
    }
    diag := CheckValidClass(element);
    if diag.None? {
      targets[n].tree.InjectBuilder();
    }
  }

  /**
   * process: the try block encloses the whole loop, so the first failing
   * element ends the round. Every earlier element's class receives the
   * generated members; it and every later one are left untouched, and its
   * error is the one reported.
   */
  method Process(targets: seq<Target>) returns (diag: Option<Diagnostic>)
    requires forall i, j :: 0 <= i < |targets| && 0 <= j < |targets| && i != j ==> targets[i].tree != targets[j].tree
    modifies set i | 0 <= i < |targets| :: targets[i].tree
    ensures var k := FirstFailure(targets);
            (if k < |targets| then diag == Validate(targets[k].element) else diag.None?)
            && (forall i {:trigger Injected(targets[i].tree, old(targets[i].tree.defs))} :: 0 <= i < k ==> Injected(targets[i].tree, old(targets[i].tree.defs)))
            && (forall i {:trigger targets[i].tree.defs} :: k <= i < |targets| ==> targets[i].tree.defs == old(targets[i].tree.defs))
  {
    ghost var k := FirstFailure(targets);
    var n := 0;
    while n < |targets|
      invariant 0 <= n <= k
      invariant forall i {:trigger Injected(targets[i].tree, old(targets[i].tree.defs))} :: 0 <= i < n ==> Injected(targets[i].tree, old(targets[i].tree.defs))
      invariant forall i {:trigger targets[i].tree.defs} :: n <= i < |targets| ==> targets[i].tree.defs == old(targets[i].tree.defs)
    {
      diag := ProcessElement(targets, n);
      if diag.Some? {
        return;
      }
      n := n + 1;
    }
    diag := None;
  }

  /** A class that is not public is reported, and nothing after it is processed. */
  lemma NonPublicStopsRound(targets: seq<Target>, n: nat)
    requires n < |targets| && !ElementUtils.IsPublicClass(targets[n].element)
    ensures FirstFailure(targets) <= n
  {
  }
}
