/**
 * What the generated code does when it runs. A small interpreter gives the
 * generated statements their meaning over builder objects, whose state is
 * one slot per field; the proofs show that the generated constructor, setter
 * and build do what the generator intends. The class BuilderObject is a
 * Builder instance: its methods run the generated code through the
 * interpreter, and it carries as ghost state the type-state vector of the
 * static type through which the program holds it.
 */
module BuilderRuntime {
  import opened Wrappers
  import opened JavacTree
  import opened BuilderProcessor
  import TypeState

  // ---------------------------------------------------------------------------
  // Interpreter of generated statements

  /** Objects by the identifier that names them (one slot per field), and the locals in scope. */
  datatype Frame<V> = Frame(objects: map<string, seq<V>>, locals: map<string, V>)

  /** Finishing a statement list: falling off its end, returning `new C(result)`, or going wrong. */
  datatype Outcome<V> = Normal(frame: Frame<V>) | Returned(frame: Frame<V>, result: seq<V>) | Stuck

  /** The slot of the first field named `name`. */
  function FieldIndex(name: string, fields: seq<VarDecl>): (r: Option<nat>)
    ensures r.Some? ==> r.value < |fields| && fields[r.value].name == name
    ensures r.Some? ==> forall j :: 0 <= j < r.value ==> fields[j].name != name
    ensures r.None? <==> forall j :: 0 <= j < |fields| ==> fields[j].name != name
  {
    if fields == [] then None
    else if fields[0].name == name then Some(0)
    else match FieldIndex(name, fields[1..])
      case None => None
      case Some(k) => Some(k + 1)
  }

  lemma FieldIndexOfField(fields: seq<VarDecl>, k: nat)
    requires DistinctNames(fields) && k < |fields|
    ensures FieldIndex(fields[k].name, fields) == Some(k)
  {
    var r := FieldIndex(fields[k].name, fields);
    assert r.Some?;
  }

  function EvalExpr<V>(e: Expr, fields: seq<VarDecl>, fr: Frame<V>): Option<V> {
    match e
    case EIdent(x) => if x in fr.locals then Some(fr.locals[x]) else None
    case ESelect(o, f) =>
      if o in fr.objects then
        match FieldIndex(f, fields)
        case Some(k) => if k < |fr.objects[o]| then Some(fr.objects[o][k]) else None
        case None => None
      else None
    case ENew(_, _) => None
  }

  /** The values of an argument list, when every argument has one. */
  function EvalArgs<V>(args: seq<Expr>, fields: seq<VarDecl>, fr: Frame<V>): (r: Option<seq<V>>)
    ensures r.Some? <==> forall k :: 0 <= k < |args| ==> EvalExpr(args[k], fields, fr).Some?
    ensures r.Some? ==> |r.value| == |args|
                        && forall k :: 0 <= k < |args| ==> Some(r.value[k]) == EvalExpr(args[k], fields, fr)
  {
    if args == [] then Some([])
    else
      match EvalExpr(args[0], fields, fr)
      case None => None
      case Some(v) =>
        match EvalArgs(args[1..], fields, fr)
        case None => None
        case Some(vs) => Some([v] + vs)
  }

  /** Runs a statement list: owner.f = e updates slot f of owner; return new C(args) yields the argument values. */
  function Exec<V>(body: seq<Stmt>, fields: seq<VarDecl>, fr: Frame<V>): Outcome<V>
    decreases |body|
  {
    if body == [] then Normal(fr)
    else
      match body[0]
      case SAssign(ESelect(o, f), rhs) =>
        (match (EvalExpr(rhs, fields, fr), FieldIndex(f, fields))
         case (Some(v), Some(k)) =>
           if o in fr.objects && k < |fr.objects[o]|
           then Exec(body[1..], fields, fr.(objects := fr.objects[o := fr.objects[o][k := v]]))
           else Stuck
         case _ => Stuck)
      case SReturn(ENew(_, args)) =>
        (match EvalArgs(args, fields, fr)
         case Some(vs) => Returned(fr, vs)
         case None => Stuck)
      case _ => Stuck
  }

  /** Binding formal parameters to argument values. */
  function Bind<V>(params: seq<VarDecl>, args: seq<V>): map<string, V>
    requires |params| == |args|
  {
    if params == [] then map[]
    else Bind(params[..|params| - 1], args[..|args| - 1])[params[|params| - 1].name := args[|args| - 1]]
  }

  lemma {:induction false} BindAt<V>(params: seq<VarDecl>, args: seq<V>, k: nat)
    requires |params| == |args| && DistinctNames(params) && k < |params|
    ensures params[k].name in Bind(params, args) && Bind(params, args)[params[k].name] == args[k]
  {
    var n := |params|;
    if k < n - 1 {
      BindAt(params[..n - 1], args[..n - 1], k);
      assert params[k].name != params[n - 1].name;
    }
  }

  lemma DistinctArgs(fields: seq<VarDecl>)
    requires DistinctNames(fields)
    ensures DistinctNames(CreateArgs(fields))
  {
  }

  /** An argument list whose every argument evaluates, evaluates to those values. */
  lemma EvalArgsPointwise<V>(args: seq<Expr>, fields: seq<VarDecl>, fr: Frame<V>, vs: seq<V>)
    requires |vs| == |args| && forall k :: 0 <= k < |args| ==> EvalExpr(args[k], fields, fr) == Some(vs[k])
    ensures EvalArgs(args, fields, fr) == Some(vs)
  {
    var r := EvalArgs(args, fields, fr);
    assert r.Some?;
    assert r.value == vs;
  }

  lemma ExecReturn<V>(clazz: TypeExpr, args: seq<Expr>, rest: seq<Stmt>, fields: seq<VarDecl>, fr: Frame<V>, vs: seq<V>)
    requires EvalArgs(args, fields, fr) == Some(vs)
    ensures Exec([SReturn(ENew(clazz, args))] + rest, fields, fr) == Returned(fr, vs)
  {
    assert ([SReturn(ENew(clazz, args))] + rest)[0] == SReturn(ENew(clazz, args));
  }

  lemma ExecAssign<V>(o: string, f: string, rhs: Expr, rest: seq<Stmt>, fields: seq<VarDecl>, fr: Frame<V>, v: V, k: nat)
    requires EvalExpr(rhs, fields, fr) == Some(v) && FieldIndex(f, fields) == Some(k)
    requires o in fr.objects && k < |fr.objects[o]|
    ensures Exec([SAssign(ESelect(o, f), rhs)] + rest, fields, fr)
              == Exec(rest, fields, fr.(objects := fr.objects[o := fr.objects[o][k := v]]))
  {
    var body := [SAssign(ESelect(o, f), rhs)] + rest;
    assert body[0] == SAssign(ESelect(o, f), rhs);
    assert body[1..] == rest;
  }

  // ---------------------------------------------------------------------------
  // Meaning of the generated members

  /**
   * A suffix of the all-args constructor's assignments, run on an object
   * whose first k slots already hold the arguments, leaves every slot holding
   * its argument.
   */
  lemma {:induction false} AssignsFrom<V>(fields: seq<VarDecl>, args: seq<V>, k: nat, self: seq<V>, locals: map<string, V>)
    requires DistinctNames(fields) && |args| == |fields| && k <= |fields|
    requires |self| == |fields| && forall j :: 0 <= j < k ==> self[j] == args[j]
    requires forall j :: 0 <= j < |fields| ==> fields[j].name in locals && locals[fields[j].name] == args[j]
    ensures Exec(FieldAssigns(fields)[k..], fields, Frame(map[THIS := self], locals)) == Normal(Frame(map[THIS := args], locals))
    decreases |fields| - k
  {
    if k == |fields| {
      assert self == args;
    } else {
      AssignStep(fields, args[k], k, self, locals);
      AssignsFrom(fields, args, k + 1, self[k := args[k]], locals);
    }
  }

  /** Assignment k of the all-args constructor stores local f_k into slot k and continues with the rest. */
  lemma AssignStep<V>(fields: seq<VarDecl>, v: V, k: nat, self: seq<V>, locals: map<string, V>)
    requires DistinctNames(fields) && k < |fields| && |self| == |fields|
    requires fields[k].name in locals && locals[fields[k].name] == v
    ensures Exec(FieldAssigns(fields)[k..], fields, Frame(map[THIS := self], locals))
              == Exec(FieldAssigns(fields)[k + 1..], fields, Frame(map[THIS := self[k := v]], locals))
  {
    var all := FieldAssigns(fields);
    var fr := Frame(map[THIS := self], locals);
    assert all[k..][0] == SAssign(ESelect(THIS, fields[k].name), EIdent(fields[k].name));
    FieldIndexOfField(fields, k);
    DropOne(all, k);
    assert fr.objects[THIS := self[k := v]] == map[THIS := self[k := v]];
  }

  lemma DropOne(body: seq<Stmt>, k: nat)
    requires k < |body|
    ensures body[k..][1..] == body[k + 1..]
  {
  }

  /** The all-args constructor stores parameter k into field k, for every k. */
  lemma AllArgsConstructorStores<V>(fields: seq<VarDecl>, init: seq<V>, args: seq<V>)
    requires DistinctNames(fields) && |init| == |fields| && |args| == |fields|
    ensures var fr := Frame(map[THIS := init], Bind(CreateArgs(fields), args));
            Exec(CreateAllArgsConstructor(fields).body, fields, fr) == Normal(Frame(map[THIS := args], fr.locals))
  {
    var fr := Frame(map[THIS := init], Bind(CreateArgs(fields), args));
    DistinctArgs(fields);
    forall j | 0 <= j < |fields|
      ensures fields[j].name in fr.locals && fr.locals[fields[j].name] == args[j]
    {
      BindAt(CreateArgs(fields), args, j);
    }
    assert FieldAssigns(fields)[0..] == FieldAssigns(fields);
    AssignsFrom(fields, args, 0, init, fr.locals);
  }

  /** The empty constructor assigns nothing: every slot keeps Java's default value. */
  lemma EmptyConstructorKeepsDefaults<V>(fields: seq<VarDecl>, fr: Frame<V>)
    ensures Exec(CreateEmptyConstructor().body, fields, fr) == Normal(fr)
  {
  }

  /** The setter's constructor arguments read the parameter at i and this.f_j elsewhere. */
  lemma SetterConstructorArgs<V>(fields: seq<VarDecl>, i: nat, self: seq<V>, locals: map<string, V>)
    requires DistinctNames(fields) && i < |fields| && |self| == |fields|
    requires fields[i].name in locals && locals[fields[i].name] == self[i]
    ensures EvalArgs(ConstructorArgs(fields[i], fields), fields, Frame(map[THIS := self], locals)) == Some(self)
  {
    var fr := Frame(map[THIS := self], locals);
    var cargs := ConstructorArgs(fields[i], fields);
    forall j | 0 <= j < |fields|
      ensures EvalExpr(cargs[j], fields, fr) == Some(self[j])
    {
      if j != i {
        assert fields[j].name != fields[i].name by {
          if j < i { assert fields[j].name != fields[i].name; } else { assert fields[i].name != fields[j].name; }
        }
        FieldIndexOfField(fields, j);
      }
    }
    EvalArgsPointwise(cargs, fields, fr, self);
  }

  /** The setter's return statement yields the receiver's slots. */
  lemma SetterReturns<V>(className: string, fields: seq<VarDecl>, i: nat, self: seq<V>, locals: map<string, V>)
    requires DistinctNames(fields) && i < |fields| && |self| == |fields|
    requires fields[i].name in locals && locals[fields[i].name] == self[i]
    ensures var ret := SReturn(ENew(TApply(className, TypeArgsFor(fields[i], fields)), ConstructorArgs(fields[i], fields)));
            Exec([ret], fields, Frame(map[THIS := self], locals)) == Returned(Frame(map[THIS := self], locals), self)
  {
    var fr := Frame(map[THIS := self], locals);
    var clazz := TApply(className, TypeArgsFor(fields[i], fields));
    var cargs := ConstructorArgs(fields[i], fields);
    SetterConstructorArgs(fields, i, self, locals);
    ExecReturn(clazz, cargs, [], fields, fr, self);
    assert [SReturn(ENew(clazz, cargs))] + [] == [SReturn(ENew(clazz, cargs))];
  }

  /** The setter's first statement writes its argument into slot i of the receiver. */
  lemma SetterAssigns<V>(fields: seq<VarDecl>, i: nat, self: seq<V>, arg: V, rest: seq<Stmt>)
    requires DistinctNames(fields) && i < |fields| && |self| == |fields|
    ensures var locals := Bind(CreateArgs([fields[i]]), [arg]);
            Exec([FieldAssign(fields[i])] + rest, fields, Frame(map[THIS := self], locals))
              == Exec(rest, fields, Frame(map[THIS := self[i := arg]], locals))
  {
    var cur := fields[i];
    var locals := Bind(CreateArgs([cur]), [arg]);
    BindAt(CreateArgs([cur]), [arg], 0);
    var fr := Frame(map[THIS := self], locals);
    FieldIndexOfField(fields, i);
    ExecAssign(THIS, cur.name, EIdent(cur.name), rest, fields, fr, arg, i);
    assert fr.(objects := fr.objects[THIS := fr.objects[THIS][i := arg]]) == Frame(map[THIS := self[i := arg]], locals);
  }

  /**
   * Setter i overwrites the receiver's slot i with its argument and returns
   * new Builder(...) built from the receiver's slots with slot i replaced.
   */
  lemma SetterSemantics<V>(className: string, fields: seq<VarDecl>, i: nat, self: seq<V>, arg: V)
    requires DistinctNames(fields) && i < |fields| && |self| == |fields|
    ensures var locals := Bind(CreateArgs([fields[i]]), [arg]);
            Exec(SetterDef(className, fields[i], fields).body, fields, Frame(map[THIS := self], locals))
              == Returned(Frame(map[THIS := self[i := arg]], locals), self[i := arg])
  {
    var ret := SReturn(ENew(TApply(className, TypeArgsFor(fields[i], fields)), ConstructorArgs(fields[i], fields)));
    assert SetterDef(className, fields[i], fields).body == [FieldAssign(fields[i])] + [ret];
    BindAt(CreateArgs([fields[i]]), [arg], 0);
    SetterAssigns(fields, i, self, arg, [ret]);
    SetterReturns(className, fields, i, self[i := arg], Bind(CreateArgs([fields[i]]), [arg]));
  }

  /** build reads the builder's slots in field order and passes them to the class's constructor. */
  lemma BuildSemantics<V>(className: string, builderClassName: string, typeArgs: seq<TypeExpr>,
                          fields: seq<VarDecl>, slots: seq<V>)
    requires DistinctNames(fields) && |slots| == |fields|
    ensures var fr := Frame(map[BUILDER_METHOD := slots], map[]);
            Exec(CreateStaticBuildMethod(className, builderClassName, typeArgs, fields).body, fields, fr)
              == Returned(fr, slots)
  {
    var fr: Frame<V> := Frame(map[BUILDER_METHOD := slots], map[]);
    var args := BuildArgs(fields);
    forall j | 0 <= j < |fields|
      ensures EvalExpr(args[j], fields, fr) == Some(slots[j])
    {
      FieldIndexOfField(fields, j);
    }
    EvalArgsPointwise(args, fields, fr, slots);
    ExecReturn(TIdent(className), args, [], fields, fr, slots);
    assert [SReturn(ENew(TIdent(className), args))] + [] == [SReturn(ENew(TIdent(className), args))];
  }

  /**
   * builder() evaluates new Builder<...>() with no argument, so it is served
   * by the parameterless constructor; it reads nothing from the frame.
   */
  lemma BuilderMethodSemantics<V>(builderClassName: string, typeArgs: seq<TypeExpr>, fields: seq<VarDecl>, fr: Frame<V>)
    ensures Exec(CreateStaticBuilderMethod(builderClassName, typeArgs).body, fields, fr) == Returned(fr, [])
  {
    var clazz := TApply(builderClassName, typeArgs);
    ExecReturn(clazz, [], [], fields, fr, []);
    assert [SReturn(ENew(clazz, []))] + [] == [SReturn(ENew(clazz, []))];
  }

  // ---------------------------------------------------------------------------
  // Builder instances

  function Defaults<V>(n: nat): seq<Option<V>> {
    seq(n, _ => None)
  }

  /**
   * An instance of the generated Builder for `fields`. A slot holds None
   * while it has Java's default value. `state` is the type-state vector of
   * the static type the program holds it through; every position that type
   * calls Set holds a written value.
   */
  class BuilderObject<V> {
    const fields: seq<VarDecl>
    var slots: seq<Option<V>>
    ghost var state: seq<TypeState.State>

    ghost predicate Valid()
      reads this
    {
      DistinctUpper(fields) && |slots| == |fields| && |state| == |fields|
      && forall j :: 0 <= j < |fields| && state[j] == TypeState.Set ==> slots[j].Some?
    }

    /** new Builder<FALSE, ..., FALSE>(), as builder() writes it. */
    constructor Empty(fields: seq<VarDecl>)
      requires DistinctUpper(fields)
      ensures Valid() && this.fields == fields
      ensures slots == Defaults(|fields|) && state == TypeState.AllOf(|fields|, TypeState.Unset)
    {
      var fr := Frame(map[THIS := Defaults<V>(|fields|)], map[]);
      EmptyConstructorKeepsDefaults(fields, fr);
      var out := Exec(CreateEmptyConstructor().body, fields, fr);
      this.fields := fields;
      slots := out.frame.objects[THIS];
      state := TypeState.AllOf(|fields|, TypeState.Unset);
    }

    /** new Builder<...>(args) through the generated all-args constructor, held at type-state `typeState`. */
    constructor AllArgs(fields: seq<VarDecl>, args: seq<Option<V>>, ghost typeState: seq<TypeState.State>)
      requires DistinctUpper(fields) && |args| == |fields| && |typeState| == |fields|
      requires forall j :: 0 <= j < |fields| && typeState[j] == TypeState.Set ==> args[j].Some?
      ensures Valid() && this.fields == fields && slots == args && state == typeState
    {
      var fr := Frame(map[THIS := Defaults<V>(|fields|)], Bind(CreateArgs(fields), args));
      DistinctUpperGivesDistinctNames(fields);
      AllArgsConstructorStores(fields, Defaults<V>(|fields|), args);
      var out := Exec(CreateAllArgsConstructor(fields).body, fields, fr);
      this.fields := fields;
      slots := out.frame.objects[THIS];
      state := typeState;
    }

    /**
     * The generated setter for field i: the receiver's slot i is overwritten
     * and its type does not change; the returned fresh builder holds the same
     * slots and has the receiver's type-state with position i Set.
     */
    method Setter(i: nat, arg: V) returns (b: BuilderObject<V>)
      requires Valid() && i < |fields|
      modifies this
      ensures Valid() && slots == old(slots)[i := Some(arg)] && state == old(state)
      ensures fresh(b) && b.Valid() && b.fields == fields && b.slots == old(slots)[i := Some(arg)]
      ensures b.state == TypeState.ApplySetter(old(state), i)
    {
      var locals := Bind(CreateArgs([fields[i]]), [Some(arg)]);
      DistinctUpperGivesDistinctNames(fields);
      SetterSemantics(BUILDER_CLASS, fields, i, slots, Some(arg));
      var out := Exec(SetterDef(BUILDER_CLASS, fields[i], fields).body, fields, Frame(map[THIS := slots], locals));
      slots := out.frame.objects[THIS];
      b := new BuilderObject.AllArgs(fields, out.result, TypeState.ApplySetter(state, i));
    }
  }

  /**
   * builder() for the class declared by `classDefs`: runs the generated body,
   * whose argument-less new Builder<FALSE, ..., FALSE>() selects the empty
   * constructor; the result has every slot at its default and the type-state
   * vector the generated declarations give the empty chain.
   */
  method NewBuilder<V>(className: string, classDefs: seq<Tree>) returns (b: BuilderObject<V>)
    requires DistinctUpper(GetAllFields(classDefs))
    ensures fresh(b) && b.Valid() && b.fields == GetAllFields(classDefs)
    ensures b.slots == Defaults(|b.fields|) && b.state == TypeState.AllOf(|b.fields|, TypeState.Unset)
    ensures TypeState.ChainState(className, classDefs, []) == Some(b.state)
  {
    var fields := GetAllFields(classDefs);
    var fr: Frame<V> := Frame(map[], map[]);
    var builderMethod := CreateStaticBuilderMethod(BUILDER_CLASS, DefaultTypeArgs(fields, FALSE_TYPE));
    BuilderMethodSemantics(BUILDER_CLASS, DefaultTypeArgs(fields, FALSE_TYPE), fields, fr);
    var out := Exec(builderMethod.body, fields, fr);
    assert out.result == [];
    b := new BuilderObject.Empty(fields);
    TypeState.ChainStateEmpty(className, classDefs);
  }

  /**
   * build(Builder<TRUE, ..., TRUE> builder) of class `className`: callable
   * only through the all-TRUE type; passes the slots in field order, and
   * every one of them has been written.
   */
  method Build<V>(className: string, b: BuilderObject<V>) returns (values: seq<Option<V>>)
    requires b.Valid() && b.state == TypeState.AllOf(|b.fields|, TypeState.Set)
    ensures values == b.slots
    ensures forall j :: 0 <= j < |values| ==> values[j].Some?
  {
    var fr := Frame(map[BUILDER_METHOD := b.slots], map[]);
    var buildMethod := CreateStaticBuildMethod(className, BUILDER_CLASS, DefaultTypeArgs(b.fields, TRUE_TYPE), b.fields);
    DistinctUpperGivesDistinctNames(b.fields);
    BuildSemantics(className, BUILDER_CLASS, DefaultTypeArgs(b.fields, TRUE_TYPE), b.fields, b.slots);
    var out := Exec(buildMethod.body, b.fields, fr);
    values := out.result;
  }

  // ---------------------------------------------------------------------------
  // Setter chains

  /** The setter indices of a call sequence. */
  function Indices<V>(calls: seq<(nat, V)>): (r: seq<nat>)
    ensures |r| == |calls| && forall k :: 0 <= k < |calls| ==> r[k] == calls[k].0
  {
    seq(|calls|, k requires 0 <= k < |calls| => calls[k].0)
  }

  /** The slots after the calls, left to right: each call writes its value into its slot. */
  function Replay<V>(slots: seq<Option<V>>, calls: seq<(nat, V)>): (r: seq<Option<V>>)
    requires TypeState.InRange(Indices(calls), |slots|)
    ensures |r| == |slots|
  {
    if calls == [] then slots
    else
      var last := calls[|calls| - 1];
      Replay(slots, calls[..|calls| - 1])[last.0 := Some(last.1)]
  }

  /** The value of the last call to setter j, if any. */
  function LastValue<V>(calls: seq<(nat, V)>, j: nat): (r: Option<V>)
    ensures r.None? <==> j !in Indices(calls)
  {
    if calls == [] then None
    else if calls[|calls| - 1].0 == j then Some(calls[|calls| - 1].1)
    else
      assert Indices(calls) == Indices(calls[..|calls| - 1]) + [calls[|calls| - 1].0];
      LastValue(calls[..|calls| - 1], j)
  }

  /** Last write wins: each slot holds the value of the last call to its setter, or its old content. */
  lemma {:induction false} ReplayIsLastWrite<V>(slots: seq<Option<V>>, calls: seq<(nat, V)>)
    requires TypeState.InRange(Indices(calls), |slots|)
    ensures forall j :: 0 <= j < |slots| ==>
              Replay(slots, calls)[j] == if LastValue(calls, j).Some? then LastValue(calls, j) else slots[j]
  {
    if calls != [] {
      ReplayIsLastWrite(slots, calls[..|calls| - 1]);
    }
  }

  /** One more call writes its value into its slot and leaves the rest of the replay alone. */
  lemma ReplaySnoc<V>(slots: seq<Option<V>>, calls: seq<(nat, V)>, c: (nat, V))
    requires TypeState.InRange(Indices(calls), |slots|) && c.0 < |slots|
    ensures TypeState.InRange(Indices(calls + [c]), |slots|)
    ensures Replay(slots, calls + [c]) == Replay(slots, calls)[c.0 := Some(c.1)]
  {
    var cs := calls + [c];
    forall k | 0 <= k < |cs|
      ensures Indices(cs)[k] < |slots|
    {
      if k < |calls| {
        assert cs[k] == calls[k];
        assert Indices(calls)[k] < |slots|;
      }
    }
    assert cs[..|calls|] == calls;
  }

  /** Calling the same setter twice in a row keeps only the second value. */
  lemma RepeatedSetterOverwrites<V>(slots: seq<Option<V>>, calls: seq<(nat, V)>, i: nat, a: V, b: V)
    requires TypeState.InRange(Indices(calls), |slots|) && i < |slots|
    ensures TypeState.InRange(Indices(calls + [(i, a), (i, b)]), |slots|)
    ensures Replay(slots, calls + [(i, a), (i, b)]) == Replay(slots, calls + [(i, b)])
  {
    var ca := calls + [(i, a)];
    assert calls + [(i, a), (i, b)] == ca + [(i, b)];
    ReplaySnoc(slots, calls, (i, a));
    ReplaySnoc(slots, ca, (i, b));
    ReplaySnoc(slots, calls, (i, b));
    var base := Replay(slots, calls);
    assert base[i := Some(a)][i := Some(b)] == base[i := Some(b)];
  }

  /**
   * Runs builder().s_c1(v1)...s_ck(vk) on the Builder generated for the
   * class declared by `classDefs` and, when build(chain) type-checks against
   * the generated declarations, build on it. The object's type-state is at
   * every step the one those declarations give the chain so far. build is
   * reached exactly when every field's setter was called, and then it
   * yields, for each field, the value of the last call to its setter.
   */
  method BuildChain<V>(className: string, classDefs: seq<Tree>, calls: seq<(nat, V)>)
    returns (r: Option<seq<Option<V>>>)
    requires DistinctUpper(GetAllFields(classDefs))
    requires TypeState.InRange(Indices(calls), |GetAllFields(classDefs)|)
    ensures r.Some? <==> TypeState.BuildTypeChecks(className, classDefs, Indices(calls))
    ensures r.Some? <==> forall j :: 0 <= j < |GetAllFields(classDefs)| ==> j in Indices(calls)
    ensures r.Some? ==> |r.value| == |GetAllFields(classDefs)|
                        && forall j :: 0 <= j < |GetAllFields(classDefs)| ==> r.value[j] == LastValue(calls, j)
  {
    var fields := GetAllFields(classDefs);
    var n := |fields|;
    var b := NewBuilder<V>(className, classDefs);
    for k := 0 to |calls|
      invariant fresh(b) && b.Valid() && b.fields == fields
      invariant b.slots == Replay(Defaults(n), calls[..k])
      invariant b.state == TypeState.Run(TypeState.AllOf(n, TypeState.Unset), Indices(calls[..k]))
    {
      assert calls[..k + 1][..k] == calls[..k];
      assert Indices(calls[..k + 1]) == Indices(calls[..k]) + [calls[k].0];
      b := b.Setter(calls[k].0, calls[k].1);
    }
    assert calls[..|calls|] == calls;
    TypeState.BuildTypeChecksIff(className, classDefs, Indices(calls));
    TypeState.BuildApplicableIff(n, Indices(calls));
    if TypeState.BuildTypeChecks(className, classDefs, Indices(calls)) {
      var values := Build(className, b);
      ReplayIsLastWrite(Defaults(n), calls);
      r := Some(values);
    } else {
      r := None;
    }
  }

  /** The two-field example: builder().y(2).x(1) and builder().x(1).y(2) build equal objects. */
  lemma PointExample()
    ensures Replay(Defaults<int>(2), [(1, 2), (0, 1)]) == [Some(1), Some(2)]
    ensures Replay(Defaults<int>(2), [(0, 1), (1, 2)]) == [Some(1), Some(2)]
    ensures Replay(Defaults<int>(1), [(0, 1), (0, 5)]) == [Some(5)]
  {
    assert [(1, 2), (0, 1)][..1] == [(1, 2)];
    assert [(0, 1), (1, 2)][..1] == [(0, 1)];
    assert [(0, 1), (0, 5)][..1] == [(0, 1)];
  }
}
