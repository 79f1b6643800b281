/**
 * The type-state reading of the generated Builder: a type-argument vector of
 * Builder<...> is a vector of states, one per field — Set (the marker TRUE),
 * Unset (the marker FALSE) or Param(j) (the builder's own type parameter for
 * field j). Calling a setter instantiates the Builder's type parameters with
 * the receiver's vector inside the setter's return vector.
 */
module TypeState {
  import opened Wrappers
  import opened JavacTree
  import opened BuilderProcessor
  import opened StringUtils

  datatype State = Set | Unset | Param(index: nat)

  // ---------------------------------------------------------------------------
  // Reading generated type arguments as states

  /** The first field whose type parameter is named `x`. */
  function ParamIndex(x: string, fields: seq<VarDecl>): (r: Option<nat>)
    ensures r.Some? ==> r.value < |fields| && TypeParamName(fields[r.value]) == x
    ensures r.None? <==> forall j :: 0 <= j < |fields| ==> TypeParamName(fields[j]) != x
  {
    if fields == [] then None
    else if TypeParamName(fields[0]) == x then Some(0)
    else match ParamIndex(x, fields[1..])
      case None => None
      case Some(k) => Some(k + 1)
  }

  /** A name that some field's type parameter carries is found. */
  lemma ParamIndexFinds(x: string, fields: seq<VarDecl>, j: nat)
    requires j < |fields| && TypeParamName(fields[j]) == x
    ensures ParamIndex(x, fields).Some?
  {
  }

  /** With case-distinct names, the type parameter of field j names field j alone. */
  lemma ParamIndexOfField(fields: seq<VarDecl>, j: nat)
    requires DistinctUpper(fields) && j < |fields|
    ensures ParamIndex(TypeParamName(fields[j]), fields) == Some(j)
  {
    var x := TypeParamName(fields[j]);
    ParamIndexFinds(x, fields, j);
    var k := ParamIndex(x, fields).value;
    assert TypeParamName(fields[k]) == x;
    TypeParamNameInjective(fields[k], fields[j]);
    assert ToUpper(fields[k].name) == ToUpper(fields[j].name);
    assert k == j;
  }

  /** The state a type argument stands for, if it is TRUE, FALSE or a builder type parameter. */
  function StateOf(t: TypeExpr, fields: seq<VarDecl>): Option<State> {
    if t == TIdent(TRUE_TYPE) then Some(Set)
    else if t == TIdent(FALSE_TYPE) then Some(Unset)
    else if t.TIdent? then
      match ParamIndex(t.name, fields)
      case Some(j) => Some(Param(j))
      case None => None
    else None
  }

  /** A type-argument vector read as a state vector, when every argument has a state. */
  function Abstract(ts: seq<TypeExpr>, fields: seq<VarDecl>): (r: Option<seq<State>>)
    ensures r.Some? <==> forall k :: 0 <= k < |ts| ==> StateOf(ts[k], fields).Some?
    ensures r.Some? ==> |r.value| == |ts| && forall k :: 0 <= k < |ts| ==> Some(r.value[k]) == StateOf(ts[k], fields)
  {
    if forall k :: 0 <= k < |ts| ==> StateOf(ts[k], fields).Some? then
      Some(seq(|ts|, k requires 0 <= k < |ts| => StateOf(ts[k], fields).value))
    else None
  }

  /** The return vector of setter i: Set at i, the builder's own parameter elsewhere. */
  function SetterVector(n: nat, i: nat): seq<State> {
    seq(n, j requires 0 <= j < n => if j == i then Set else Param(j))
  }

  function AllOf(n: nat, s: State): seq<State> {
    seq(n, _ => s)
  }

  /** With case-distinct names, the generated setter i returns exactly SetterVector(n, i). */
  lemma GeneratedSetterVector(fields: seq<VarDecl>, i: nat)
    requires DistinctUpper(fields) && i < |fields|
    ensures Abstract(TypeArgsFor(fields[i], fields), fields) == Some(SetterVector(|fields|, i))
  {
    DistinctUpperGivesDistinctNames(fields);
    SetterTypeArgsShape(fields, i);
    var v := TypeArgsFor(fields[i], fields);
    TypeParamIsNotMarker(fields[0]);
    forall k | 0 <= k < |v|
      ensures StateOf(v[k], fields) == Some(SetterVector(|fields|, i)[k])
    {
      if k != i {
        TypeParamIsNotMarker(fields[k]);
        ParamIndexOfField(fields, k);
      }
    }
    assert Abstract(v, fields).value == SetterVector(|fields|, i);
  }

  /** The default vectors: builder() produces all-Unset, build accepts all-Set. */
  lemma DefaultVectors(fields: seq<VarDecl>)
    ensures Abstract(DefaultTypeArgs(fields, TRUE_TYPE), fields) == Some(AllOf(|fields|, Set))
    ensures Abstract(DefaultTypeArgs(fields, FALSE_TYPE), fields) == Some(AllOf(|fields|, Unset))
  {
    assert Abstract(DefaultTypeArgs(fields, TRUE_TYPE), fields).value == AllOf(|fields|, Set);
    assert Abstract(DefaultTypeArgs(fields, FALSE_TYPE), fields).value == AllOf(|fields|, Unset);
  }

  // ---------------------------------------------------------------------------
  // Setter application

  /** Instantiating a state of the setter's return vector with the receiver's vector. */
  function Instantiate(recv: seq<State>, s: State): State {
    match s
    case Param(j) => if j < |recv| then recv[j] else s
    case _ => s
  }

  function Subst(recv: seq<State>, ret: seq<State>): seq<State> {
    seq(|ret|, k requires 0 <= k < |ret| => Instantiate(recv, ret[k]))
  }

  /** Calling setter i on a receiver of vector v gives v with position i set and nothing else changed. */
  function ApplySetter(v: seq<State>, i: nat): (r: seq<State>)
    requires i < |v|
    ensures r == v[i := Set]
  {
    Subst(v, SetterVector(|v|, i))
  }

  predicate InRange(calls: seq<nat>, n: nat) {
    forall k :: 0 <= k < |calls| ==> calls[k] < n
  }

  /** The vector after calling the setters `calls`, left to right, starting from `v`. */
  function Run(v: seq<State>, calls: seq<nat>): (r: seq<State>)
    requires InRange(calls, |v|)
    ensures |r| == |v|
  {
    if calls == [] then v
    else ApplySetter(Run(v, calls[..|calls| - 1]), calls[|calls| - 1])
  }

  /** After a setter sequence, exactly the positions that were called are Set; the others keep their state. */
  lemma {:induction false} RunMarksCalled(v: seq<State>, calls: seq<nat>)
    requires InRange(calls, |v|)
    ensures forall j :: 0 <= j < |v| ==> Run(v, calls)[j] == if j in calls then Set else v[j]
  {
    if calls != [] {
      var init := calls[..|calls| - 1];
      RunMarksCalled(v, init);
      assert calls == init + [calls[|calls| - 1]];
      forall j | 0 <= j < |v|
        ensures (j in calls) <==> (j in init || j == calls[|calls| - 1])
      {
        if j in calls {
          var k :| 0 <= k < |calls| && calls[k] == j;
          if k < |calls| - 1 { assert init[k] == j; }
        }
      }
    }
  }

  /** From builder(): Set exactly at the indices called, Unset elsewhere. */
  lemma RunFromBuilder(n: nat, calls: seq<nat>)
    requires InRange(calls, n)
    ensures forall j :: 0 <= j < n ==> Run(AllOf(n, Unset), calls)[j] == if j in calls then Set else Unset
  {
    RunMarksCalled(AllOf(n, Unset), calls);
  }

  /** build applies after a setter sequence iff every field's setter occurs in it. */
  lemma BuildApplicableIff(n: nat, calls: seq<nat>)
    requires InRange(calls, n)
    ensures Run(AllOf(n, Unset), calls) == AllOf(n, Set) <==> forall j :: 0 <= j < n ==> j in calls
  {
    RunFromBuilder(n, calls);
    var r := Run(AllOf(n, Unset), calls);
    if forall j :: 0 <= j < n ==> j in calls {
      assert r == AllOf(n, Set);
    } else {
      var j :| 0 <= j < n && j !in calls;
      assert r[j] == Unset;
    }
  }

  /** The final vector depends only on which setters were called, not on their order or repetition. */
  lemma RunOrderIndependent(v: seq<State>, a: seq<nat>, b: seq<nat>)
    requires InRange(a, |v|) && InRange(b, |v|)
    requires forall x :: x in a <==> x in b
    ensures Run(v, a) == Run(v, b)
  {
    RunMarksCalled(v, a);
    RunMarksCalled(v, b);
  }

  // ---------------------------------------------------------------------------
  // Type-checking chains against the generated members

  /** The type arguments of a method's Builder result type. */
  function ResultArgs(t: Tree): Option<seq<TypeExpr>> {
    if t.MethodDef? && t.resType.TApply? then Some(t.resType.args) else None
  }

  /** The type arguments of the Builder parameter of the generated build. */
  function BuildParamArgs(t: Tree): Option<seq<TypeExpr>> {
    if t.MethodDef? && |t.params| == 1 && t.params[0].VarDef? && t.params[0].vartype.TApply?
    then Some(t.params[0].vartype.args) else None
  }

  /** The declaration of setter i in the generated Builder class, if there is one. */
  function GeneratedSetter(g: seq<Tree>, n: nat, i: nat): Option<Tree> {
    if |g| == 5 && g[2].ClassDef? && i < n && n + 2 + i < |g[2].defs| then Some(g[2].defs[n + 2 + i]) else None
  }

  /** The return vector of setter i as its generated declaration states it. */
  function SetterReturn(g: seq<Tree>, fields: seq<VarDecl>, i: nat): Option<seq<State>> {
    match GeneratedSetter(g, |fields|, i)
    case None => None
    case Some(s) =>
      match ResultArgs(s)
      case None => None
      case Some(args) => Abstract(args, fields)
  }

  /** With case-distinct names, the generated setter i declares the return vector SetterVector(n, i). */
  lemma GeneratedSetterReturn(className: string, classDefs: seq<Tree>, i: nat)
    requires DistinctUpper(GetAllFields(classDefs)) && i < |GetAllFields(classDefs)|
    ensures SetterReturn(GeneratedDefs(className, classDefs), GetAllFields(classDefs), i)
              == Some(SetterVector(|GetAllFields(classDefs)|, i))
  {
    var fields := GetAllFields(classDefs);
    var n := |fields|;
    var g := GeneratedDefs(className, classDefs);
    GeneratedLayout(className, classDefs);
    BuilderClassLayout(fields);
    var setter := SetterDef(BUILDER_CLASS, fields[i], fields);
    assert GeneratedSetter(g, n, i) == Some(setter) by {
      assert g[2].defs[n + 2 + i] == setter;
    }
    SetterUsesOneVector(BUILDER_CLASS, fields, i);
    assert ResultArgs(setter) == Some(TypeArgsFor(fields[i], fields));
    GeneratedSetterVector(fields, i);
  }

  /**
   * The static type-state of builder().s_c1(..)...s_ck(..) as the generated
   * declarations give it: the vector of builder()'s result, then, for each
   * call, the called setter's return vector instantiated with the current one.
   */
  function ChainState(className: string, classDefs: seq<Tree>, calls: seq<nat>): Option<seq<State>> {
    var fields := GetAllFields(classDefs);
    var g := GeneratedDefs(className, classDefs);
    if calls == [] then
      match ResultArgs(g[4])
      case None => None
      case Some(args) => Abstract(args, fields)
    else
      match ChainState(className, classDefs, calls[..|calls| - 1])
      case None => None
      case Some(v) =>
        match SetterReturn(g, fields, calls[|calls| - 1])
        case None => None
        case Some(ret) => Some(Subst(v, ret))
  }

  /** build(chain) type-checks: the chain's vector is the one build's parameter demands. */
  predicate BuildTypeChecks(className: string, classDefs: seq<Tree>, calls: seq<nat>) {
    var fields := GetAllFields(classDefs);
    var g := GeneratedDefs(className, classDefs);
    var chain := ChainState(className, classDefs, calls);
    chain.Some? && BuildParamArgs(g[3]).Some? && chain == Abstract(BuildParamArgs(g[3]).value, fields)
  }

  /** The chain with no setter call has the vector of builder(): all Unset. */
  lemma ChainStateEmpty(className: string, classDefs: seq<Tree>)
    ensures ChainState(className, classDefs, []) == Some(AllOf(|GetAllFields(classDefs)|, Unset))
  {
    var fields := GetAllFields(classDefs);
    GeneratedLayout(className, classDefs);
    DefaultVectors(fields);
    assert DefaultTypeArgs(fields, FALSE_TYPE) == seq(|fields|, _ => TIdent(FALSE_TYPE));
  }

  /** One more call of setter i instantiates the setter's return vector with the current vector. */
  lemma ChainStateStep(className: string, classDefs: seq<Tree>, calls: seq<nat>)
    requires DistinctUpper(GetAllFields(classDefs))
    requires calls != [] && calls[|calls| - 1] < |GetAllFields(classDefs)|
    ensures var v := ChainState(className, classDefs, calls[..|calls| - 1]);
            v.Some? ==> ChainState(className, classDefs, calls)
                          == Some(Subst(v.value, SetterVector(|GetAllFields(classDefs)|, calls[|calls| - 1])))
  {
    GeneratedSetterReturn(className, classDefs, calls[|calls| - 1]);
  }

  /** The generated declarations give every in-range chain the vector Run computes. */
  lemma {:induction false} ChainStateIsRun(className: string, classDefs: seq<Tree>, calls: seq<nat>)
    requires DistinctUpper(GetAllFields(classDefs))
    requires InRange(calls, |GetAllFields(classDefs)|)
    ensures ChainState(className, classDefs, calls) == Some(Run(AllOf(|GetAllFields(classDefs)|, Unset), calls))
  {
    if calls == [] {
      ChainStateEmpty(className, classDefs);
    } else {
      ChainStateIsRun(className, classDefs, calls[..|calls| - 1]);
      ChainStateStep(className, classDefs, calls);
    }
  }

  /**
   * Main theorem: for a class whose instance fields have case-distinct names,
   * build(builder().s_c1(..)...s_ck(..)) type-checks exactly when every
   * field's setter occurs among c1..ck, in any order and with any repeats.
   */
  lemma BuildTypeChecksIff(className: string, classDefs: seq<Tree>, calls: seq<nat>)
    requires DistinctUpper(GetAllFields(classDefs))
    requires InRange(calls, |GetAllFields(classDefs)|)
    ensures BuildTypeChecks(className, classDefs, calls) <==>
              forall j :: 0 <= j < |GetAllFields(classDefs)| ==> j in calls
  {
    var fields := GetAllFields(classDefs);
    ChainStateIsRun(className, classDefs, calls);
    GeneratedLayout(className, classDefs);
    DefaultVectors(fields);
    assert DefaultTypeArgs(fields, TRUE_TYPE) == seq(|fields|, _ => TIdent(TRUE_TYPE));
    BuildApplicableIff(|fields|, calls);
  }

  /** A zero-field class: build applies to builder() at once. */
  lemma ZeroFieldBuild(className: string, classDefs: seq<Tree>)
    requires GetAllFields(classDefs) == []
    ensures BuildTypeChecks(className, classDefs, [])
  {
    BuildTypeChecksIff(className, classDefs, []);
  }
}
