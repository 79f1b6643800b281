/**
 * Model of com.mx.utils.ElementUtils: structural checks over an annotated
 * element as javax.lang.model presents it — a kind, a modifier set and the
 * ordered list of enclosed members.
 */
module ElementUtils {
  import opened Wrappers

  datatype ElementKind =
    | Package | Class | Interface | Enum | AnnotationType
    | Field | EnumConstant | Method | Constructor | StaticInit | InstanceInit | OtherKind

  datatype Modifier =
    | Public | Protected | Private | Abstract | Default | Static | Final
    | Transient | Volatile | Synchronized | Native | Strictfp

  /** An enclosed member: its kind, its parameter count (meaningful for executables) and its modifiers. */
  datatype Member = Member(kind: ElementKind, paramCount: nat, modifiers: set<Modifier>)

  /** An element: its kind, qualified name, modifiers and enclosed members in declaration order. */
  datatype Element = Element(kind: ElementKind, qualifiedName: string, modifiers: set<Modifier>, enclosed: seq<Member>)

  predicate IsClass(e: Element) {
    e.kind == Class
  }

  function IsPublicClass(e: Element): (b: bool)
    ensures b ==> IsClass(e)
    ensures b <==> IsClass(e) && Public in e.modifiers
  {
    IsClass(e) && Public in e.modifiers
  }

  function IsAbstractClass(e: Element): (b: bool)
    ensures b ==> IsClass(e)
    ensures b <==> IsClass(e) && Abstract in e.modifiers
  {
    IsClass(e) && Abstract in e.modifiers
  }

  /** The enclosed members of kind FIELD, in order; static fields are kept. */
  function FieldMembers(members: seq<Member>): (r: seq<Member>)
    ensures |r| <= |members|
    ensures forall m :: m in r <==> m in members && m.kind == Field
  {
    if members == [] then []
    else (if members[0].kind == Field then [members[0]] else []) + FieldMembers(members[1..])
  }

  /** getFields: empty for a non-class, otherwise the FIELD members in declaration order. */
  function GetFields(e: Element): (r: seq<Member>)
    ensures !IsClass(e) ==> r == []
    ensures forall m :: m in r <==> IsClass(e) && m in e.enclosed && m.kind == Field
  {
    if !IsClass(e) then [] else FieldMembers(e.enclosed)
  }

  /** The FIELD filter distributes over concatenation, so it keeps declaration order. */
  lemma {:induction false} FieldMembersAppend(a: seq<Member>, b: seq<Member>)
    ensures FieldMembers(a + b) == FieldMembers(a) + FieldMembers(b)
  {
    if a == [] {
      assert a + b == b;
    } else {
      assert (a + b)[1..] == a[1..] + b;
      FieldMembersAppend(a[1..], b);
    }
  }

  predicate IsConstructorOf(m: Member, arity: nat) {
    m.kind == Constructor && m.paramCount == arity
  }

  /** Index of the first constructor with `arity` parameters, in member order. */
  function FirstConstructor(members: seq<Member>, arity: nat): (r: Option<nat>)
    ensures r.Some? ==> r.value < |members| && IsConstructorOf(members[r.value], arity)
    ensures r.Some? ==> forall j :: 0 <= j < r.value ==> !IsConstructorOf(members[j], arity)
    ensures r.None? <==> forall j :: 0 <= j < |members| ==> !IsConstructorOf(members[j], arity)
  {
    if members == [] then None
    else if IsConstructorOf(members[0], arity) then Some(0)
    else match FirstConstructor(members[1..], arity)
      case None => None
      case Some(k) => Some(k + 1)
  }

  /** A null modifier set is read as the empty set. */
  function Required(modifiers: Option<set<Modifier>>): set<Modifier> {
    if modifiers.None? then {} else modifiers.value
  }

  /**
   * The answer of a constructor search for `arity`: false for a non-class;
   * otherwise decided by the first constructor of that arity alone, which
   * must carry every required modifier.
   */
  predicate ConstructorAccepted(e: Element, modifiers: Option<set<Modifier>>, arity: nat) {
    IsClass(e) &&
    match FirstConstructor(e.enclosed, arity)
    case None => false
    case Some(k) => Required(modifiers) == {} || Required(modifiers) <= e.enclosed[k].modifiers
  }

  /** The loop both constructor checks share: first match, early return. */
  method SearchConstructor(members: seq<Member>, arity: nat, modifiers: set<Modifier>) returns (found: bool)
    ensures found <==> exists k :: 0 <= k < |members| && FirstConstructor(members, arity) == Some(k)
                                   && (modifiers == {} || modifiers <= members[k].modifiers)
  {
    for i := 0 to |members|
      invariant forall j :: 0 <= j < i ==> !IsConstructorOf(members[j], arity)
    {
      var enclosed := members[i];
      if enclosed.kind == Constructor {
        if enclosed.paramCount == arity {
          // the first constructor of this arity decides
          assert FirstConstructor(members, arity) == Some(i);
          return modifiers == {} || modifiers <= enclosed.modifiers;
        }
      }
    }
    return false;
  }

  /** hasAllArgsConstructor: the target arity is the number of FIELD members, static ones included. */
  method HasAllArgsConstructor(classElement: Element, modifiers: Option<set<Modifier>>) returns (b: bool)
    ensures b == ConstructorAccepted(classElement, modifiers, |GetFields(classElement)|)
  {
    if !IsClass(classElement) {
      return false;
    }
    var fieldNum := |GetFields(classElement)|;
    var mods := modifiers;
    if mods.None? {
      mods := Some({});
    }
    b := SearchConstructor(classElement.enclosed, fieldNum, mods.value);
  }

  /** hasNoArgsConstructor: the same search with target arity 0. */
  method HasNoArgsConstructor(classElement: Element, modifiers: Option<set<Modifier>>) returns (b: bool)
    ensures b == ConstructorAccepted(classElement, modifiers, 0)
  {
    if !IsClass(classElement) {
      return false;
    }
    var mods := modifiers;
    if mods.None? {
      mods := Some({});
    }
    b := SearchConstructor(classElement.enclosed, 0, mods.value);
  }

  /** Neither constructor check accepts an element that is not a class. */
  lemma NonClassHasNoConstructor(e: Element, modifiers: Option<set<Modifier>>, arity: nat)
    requires !IsClass(e)
    ensures !ConstructorAccepted(e, modifiers, arity)
  {
  }

  /**
   * With a null or empty modifier set the search succeeds exactly when some
   * constructor takes `arity` parameters.
   */
  lemma NoModifiersMeansAnyConstructor(e: Element, modifiers: Option<set<Modifier>>, arity: nat)
    requires Required(modifiers) == {}
    ensures ConstructorAccepted(e, modifiers, arity) <==>
              IsClass(e) && exists k :: 0 <= k < |e.enclosed| && IsConstructorOf(e.enclosed[k], arity)
  {
    if IsClass(e) && FirstConstructor(e.enclosed, arity).Some? {
      var k := FirstConstructor(e.enclosed, arity).value;
      assert IsConstructorOf(e.enclosed[k], arity);
    }
  }

  /**
   * Only the first constructor of the arity is consulted: when it lacks a
   * required modifier the search fails, whatever a later constructor of the
   * same arity carries.
   */
  lemma LaterConstructorIgnored(e: Element, modifiers: set<Modifier>, arity: nat, k: nat, j: nat)
    requires IsClass(e) && k < j < |e.enclosed|
    requires IsConstructorOf(e.enclosed[k], arity) && IsConstructorOf(e.enclosed[j], arity)
    requires forall i :: 0 <= i < k ==> !IsConstructorOf(e.enclosed[i], arity)
    requires modifiers != {} && !(modifiers <= e.enclosed[k].modifiers)
    ensures !ConstructorAccepted(e, Some(modifiers), arity)
  {
    assert FirstConstructor(e.enclosed, arity) == Some(k);
  }

  /**
   * The all-args check counts static fields too: a class with one static and
   * one instance field is accepted with a two-argument constructor and
   * rejected with only a one-argument constructor.
   */
  lemma StaticFieldsAreCounted()
    ensures var fields := [Member(Field, 0, {Static}), Member(Field, 0, {Private})];
            var withTwo := Element(Class, "p.C", {Public}, fields + [Member(Constructor, 2, {Public})]);
            var withOne := Element(Class, "p.C", {Public}, fields + [Member(Constructor, 1, {Public})]);
            |GetFields(withTwo)| == 2
            && ConstructorAccepted(withTwo, Some({}), |GetFields(withTwo)|)
            && !ConstructorAccepted(withOne, Some({}), |GetFields(withOne)|)
  {
    var fields := [Member(Field, 0, {Static}), Member(Field, 0, {Private})];
    var withTwo := Element(Class, "p.C", {Public}, fields + [Member(Constructor, 2, {Public})]);
    var withOne := Element(Class, "p.C", {Public}, fields + [Member(Constructor, 1, {Public})]);
    FieldMembersAppend(fields, [Member(Constructor, 2, {Public})]);
    FieldMembersAppend(fields, [Member(Constructor, 1, {Public})]);
    assert FieldMembers(fields) == fields;
    assert FirstConstructor(withTwo.enclosed, 2) == Some(2);
    assert FirstConstructor(withOne.enclosed, 2) == None;
  }
}
