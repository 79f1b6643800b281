# xbuilder: a Dafny model of the type-state builder generator

xbuilder is a javac annotation processor. For every class annotated with
`@Builder` it appends to the class body:

- two empty marker classes, `TRUE` (a field has been set) and `FALSE` (it has not);
- a generic class `Builder<H1, ..., Hn>` with one type parameter per instance
  field, named `"H"` plus the upper-cased field name, holding a private copy of
  every field, a private empty constructor, a private all-args constructor and
  one setter per field;
- `static build(Builder<TRUE, ..., TRUE> builder)`, which calls the class's
  all-args constructor with `builder.f1, ..., builder.fn`;
- `static builder()`, which returns `new Builder<FALSE, ..., FALSE>()`.

Setter `i` is declared inside `Builder<H1, ..., Hn>` and returns
`Builder<H1, ..., TRUE, ..., Hn>` with `TRUE` at position `i`. A chain of
setter calls therefore reaches the all-`TRUE` type, the only type `build`
accepts, exactly when every setter was called at least once.

The model has these modules:

- `StringUtils` (`string_utils.dfy`): `upperFirstChar`, and the ASCII
  upper-casing that stands for `String.toUpperCase`.
- `ElementUtils` (`element_utils.dfy`): the validator predicates over an
  element with a kind, a modifier set and an ordered list of enclosed members.
  The two constructor searches are a loop with an early return, proved against
  a first-match specification.
- `JavacTree` (`javac_tree.dfy`): the javac trees the generator reads and
  builds, as plain datatypes.
- `BuilderProcessor` (`builder_processor.dfy`): field extraction, every
  generator function as a function producing trees, `createTypeArgs` and
  `createAllSetter` as loops, the class declaration whose member list is
  extended in place (`JClassDecl.InjectBuilder`), and the `process` loop.
- `TypeState` (`type_state.dfy`): a type-argument vector read as a vector of
  states `Set | Unset | Param(j)`, setter application as substitution, and the
  theorem that `build` type-checks after `builder()` and a setter chain exactly
  when every field's setter occurs in the chain. It holds when no two field
  names differ only in case.
- `BuilderRuntime` (`builder_runtime.dfy`): an interpreter for the generated
  statements; proofs that the generated constructor, setter and `build` do
  what they should; a `BuilderObject` class whose methods run that generated
  code; and a client method that runs a chain and builds.

These features of the code are explicit in the model:

- **Name collisions.** Type parameter names are `"H" + name.toUpperCase()`, so
  fields whose names differ only in case give the same type parameter
  (`BuilderProcessor.CaseCollision`). The type parameters are pairwise distinct
  exactly when the names are distinct up to case
  (`BuilderProcessor.TypeParamsDistinctIff`). The type-state theorems take
  that distinctness (`DistinctUpper`) as a precondition. The processor itself
  does not check it.
- **Two field counts.** The validator compares constructor arity with the
  number of all `FIELD` members, static fields included
  (`ElementUtils.GetFields`). Generation uses only non-static fields
  (`BuilderProcessor.GetAllFields`), and `build` passes that shorter list.
  Take a class with one static field and one instance field.
  `ElementUtils.StaticFieldsAreCounted` shows that the validator accepts it
  with a two-argument constructor and rejects it with only a one-argument
  constructor. `BuilderProcessor.StaticFieldNotPassed` shows that the
  generated `build` passes the single argument `builder.x`.
- **No instance field.** The all-args constructor then has no parameter and
  an empty body, so it equals the empty constructor, and the Builder class
  declares `private Builder()` twice (`BuilderProcessor.ZeroFieldBuilderClass`).
  Such a class does not compile once the members are generated.
- **The first failure ends the round.** The `try` encloses the whole loop over the annotated elements, so the first
  failing element ends the round and later elements are not processed
  (`BuilderProcessor.Process`).
- **The first constructor decides.** Of several constructors with the all-args arity, the first in member order
  decides and later ones are ignored (`ElementUtils.LaterConstructorIgnored`).

## Model

| member | source | states |
|---|---|---|
| StringUtils.ToUpper | src/main/java/com/mx/processor/BuilderProcessor.java:293 | upper-casing keeps the length and upper-cases each character (ASCII) |
| StringUtils.UpperFirstChar | src/main/java/com/mx/utils/StringUtils.java:8-17 | the empty string is returned unchanged; a one-character string becomes its upper-cased character; a longer one becomes its upper-cased first character followed by the unchanged rest; the length is kept |
| StringUtils.UpperFirstCharIdempotent | src/main/java/com/mx/utils/StringUtils.java:12-16 | applying upperFirstChar twice equals applying it once |
| StringUtils.UpperFirstCharFixedPoint | src/main/java/com/mx/utils/StringUtils.java:8-17 | upperFirstChar leaves a string unchanged iff it is empty or does not start with a lower-case letter |
| BuilderProcessor.OnlyClassesAccepted | src/main/java/com/mx/utils/ElementUtils.java:63-65 | isClass decides the first error: the "Only classes" error is raised iff the element is not a class, and a class is judged by checkValidClass alone |
| ElementUtils.IsPublicClass | src/main/java/com/mx/utils/ElementUtils.java:67-69 | true exactly for a class with the public modifier, so it implies isClass |
| ElementUtils.IsAbstractClass | src/main/java/com/mx/utils/ElementUtils.java:71-73 | true exactly for a class with the abstract modifier, so it implies isClass |
| ElementUtils.GetFields | src/main/java/com/mx/utils/ElementUtils.java:53-61 | empty for a non-class; otherwise it holds exactly the enclosed members of kind FIELD, static ones included |
| ElementUtils.FieldMembersAppend | src/main/java/com/mx/utils/ElementUtils.java:57-60 | the FIELD filter distributes over concatenation, so it keeps member order |
| ElementUtils.FirstConstructor | src/main/java/com/mx/utils/ElementUtils.java:22-29 | the index found is a constructor of the arity with none before it; no index means no constructor of that arity |
| ElementUtils.SearchConstructor | src/main/java/com/mx/utils/ElementUtils.java:22-31 | the loop answers true iff the first constructor of the arity exists and the required set is empty or contained in its modifiers |
| ElementUtils.HasAllArgsConstructor | src/main/java/com/mx/utils/ElementUtils.java:14-32 | false for a non-class; a null modifier set is the empty set; otherwise answered by the first constructor whose arity is the FIELD count |
| ElementUtils.HasNoArgsConstructor | src/main/java/com/mx/utils/ElementUtils.java:34-51 | the same search with arity 0 |
| ElementUtils.NonClassHasNoConstructor | src/main/java/com/mx/utils/ElementUtils.java:14-17 | neither constructor check accepts an element that is not a class |
| ElementUtils.NoModifiersMeansAnyConstructor | src/main/java/com/mx/utils/ElementUtils.java:18-31 | with a null or empty modifier set the check holds iff the element is a class and some constructor has the target arity |
| ElementUtils.LaterConstructorIgnored | src/main/java/com/mx/utils/ElementUtils.java:22-29 | when the first constructor of the arity lacks a required modifier the answer is false, whatever a later matching constructor carries |
| ElementUtils.StaticFieldsAreCounted | src/main/java/com/mx/utils/ElementUtils.java:18-27 | a class with one static and one instance field is accepted with a two-argument constructor and rejected with only a one-argument one |
| BuilderProcessor.GetAllFields | src/main/java/com/mx/processor/BuilderProcessor.java:168-187 | the result holds exactly the VARIABLE members without static, and nothing else |
| BuilderProcessor.GetAllFieldsAppend | src/main/java/com/mx/processor/BuilderProcessor.java:168-176 | field extraction distributes over concatenation, so it keeps declaration order |
| BuilderProcessor.GetAllFieldsSingle | src/main/java/com/mx/processor/BuilderProcessor.java:179-187 | isValidField: a single member is kept iff it is a variable declaration without static |
| BuilderProcessor.StaticFieldNotPassed | src/main/java/com/mx/processor/BuilderProcessor.java:75-104 | for a class with one static field s and one instance field x, the fields are [x] and build's body is return new C(builder.x) |
| BuilderProcessor.TypeParamNameInjective | src/main/java/com/mx/processor/BuilderProcessor.java:317 | two fields get the same type parameter name iff their upper-cased names are equal |
| BuilderProcessor.CreateBuilderClassTypeParams | src/main/java/com/mx/processor/BuilderProcessor.java:313-320 | one type parameter per field, in field order, the k-th named after field k |
| BuilderProcessor.TypeParamsDistinctIff | src/main/java/com/mx/processor/BuilderProcessor.java:313-320 | one type parameter per field; they are pairwise distinct iff the field names are distinct up to case |
| BuilderProcessor.TypeParamIsNotMarker | src/main/java/com/mx/processor/BuilderProcessor.java:291-293 | a type parameter name is never TRUE or FALSE |
| BuilderProcessor.CaseCollision | src/main/java/com/mx/processor/BuilderProcessor.java:317 | fields "name" and "Name" both give the type parameter "HNAME" |
| BuilderProcessor.PhantomMarkers | src/main/java/com/mx/processor/BuilderProcessor.java:157-165 | createPhantomType gives TRUE and FALSE as two distinct static abstract classes with no type parameter and no member; no Builder type parameter is named TRUE or FALSE |
| BuilderProcessor.ConstructorsCoincideIff | src/main/java/com/mx/processor/BuilderProcessor.java:198-235 | the all-args constructor equals the empty constructor iff there is no field |
| BuilderProcessor.CopyAllFields | src/main/java/com/mx/processor/BuilderProcessor.java:189-196 | one private field per field, index-aligned, with the same name and type |
| BuilderProcessor.CreateArgs | src/main/java/com/mx/processor/BuilderProcessor.java:299-305 | one parameter per field, index-aligned, with the same name and type |
| BuilderProcessor.CreateTypeArgs | src/main/java/com/mx/processor/BuilderProcessor.java:287-297 | the loop produces, field by field, TRUE where the name is the current field's and "H"+upper(name) elsewhere |
| BuilderProcessor.SetterTypeArgsShape | src/main/java/com/mx/processor/BuilderProcessor.java:287-297 | for distinct names the vector of setter i has length n, TRUE at i and the field's own type parameter at every other index |
| BuilderProcessor.CreateAllSetter | src/main/java/com/mx/processor/BuilderProcessor.java:237-285 | the loop produces one setter per field, in field order, each the setter declaration for that field |
| BuilderProcessor.SetterUsesOneVector | src/main/java/com/mx/processor/BuilderProcessor.java:241-282 | setter i is public, named after field i, takes one parameter of its type, assigns this.f_i, and uses the same type-argument vector for its return type and for the builder it constructs |
| BuilderProcessor.DefaultTypeArgs | src/main/java/com/mx/processor/BuilderProcessor.java:307-311 | one copy of the given marker per field |
| BuilderProcessor.CreateBuilderClass | src/main/java/com/mx/processor/BuilderProcessor.java:322-341 | the body is the fields, then the empty constructor, then the all-args constructor, then the setters |
| BuilderProcessor.BuildArgs | src/main/java/com/mx/processor/BuilderProcessor.java:372-374 | build passes builder.f_k for every field k, in field order |
| BuilderProcessor.BuilderClassLayout | src/main/java/com/mx/processor/BuilderProcessor.java:80-98 | the Builder class has one type parameter per field, index-aligned, and a body of 2n+2 members: private copies, empty constructor, all-args constructor, setters |
| BuilderProcessor.GeneratedLayout | src/main/java/com/mx/processor/BuilderProcessor.java:73-116 | visitClassDef generates exactly TRUE, FALSE, Builder, build and builder, in that order; build and builder are public static; build takes Builder of all TRUE and returns new C(builder.f1, ...); builder takes nothing and returns new Builder of all FALSE with no argument |
| BuilderProcessor.ZeroFieldBuilderClass | src/main/java/com/mx/processor/BuilderProcessor.java:80-98 | with no instance field the Builder class has no type parameter and declares the parameterless private constructor twice; builder() returns Builder applied to no type argument |
| BuilderProcessor.GeneratedAddsNoFields | src/main/java/com/mx/processor/BuilderProcessor.java:109-116 | the generated members add no instance field to the class |
| BuilderProcessor.JClassDecl.InjectBuilder | src/main/java/com/mx/processor/BuilderProcessor.java:73-120 | the class body becomes the old body, unchanged, followed by the five generated members |
| BuilderProcessor.Validate | src/main/java/com/mx/processor/BuilderProcessor.java:57-67 | an element raises no error iff it is a public class with a constructor whose arity is its FIELD count; an error names the element |
| BuilderProcessor.FirstFailure | src/main/java/com/mx/processor/BuilderProcessor.java:57-67 | every element before the index validates and the element at it fails |
| BuilderProcessor.ClassCheck | src/main/java/com/mx/processor/BuilderProcessor.java:142-155 | no error iff the class is public and has a constructor whose arity is its FIELD count; the public check comes first ("The target ..."), the constructor check second ("The class ..."); the error names the element |
| BuilderProcessor.CheckValidClass | src/main/java/com/mx/processor/BuilderProcessor.java:142-155 | a non-public class, then a class without the all-args constructor, raises its error |
| BuilderProcessor.ProcessElement | src/main/java/com/mx/processor/BuilderProcessor.java:59-117 | an element with a validation error raises it; otherwise the generated members are appended to its class; a failing class, and every other class of the round, is left untouched |
| BuilderProcessor.Process | src/main/java/com/mx/processor/BuilderProcessor.java:56-132 | the classes before the first failing element get the generated members; that element and all later ones are untouched; the reported error is the failing element's |
| BuilderProcessor.NonPublicStopsRound | src/main/java/com/mx/processor/BuilderProcessor.java:142-147 | a non-public class stops the round at or before it |
| TypeState.ParamIndexOfField | src/main/java/com/mx/processor/BuilderProcessor.java:313-320 | for case-distinct names the type parameter of field j names field j alone |
| TypeState.GeneratedSetterVector | src/main/java/com/mx/processor/BuilderProcessor.java:287-297 | for case-distinct names setter i returns the state vector Set at i and Param(j) at every other j |
| TypeState.DefaultVectors | src/main/java/com/mx/processor/BuilderProcessor.java:307-311 | the TRUE vector reads as all-Set and the FALSE vector as all-Unset |
| TypeState.ApplySetter | src/main/java/com/mx/processor/BuilderProcessor.java:241-242 | substituting a receiver's vector into setter i's return vector sets position i and changes nothing else |
| TypeState.RunMarksCalled | src/main/java/com/mx/processor/BuilderProcessor.java:241-242 | after any setter sequence exactly the called positions are Set and the others keep their state |
| TypeState.RunFromBuilder | src/main/java/com/mx/processor/BuilderProcessor.java:106-107 | from builder()'s all-Unset vector, a setter sequence gives Set exactly at the indices called and Unset elsewhere |
| TypeState.BuildApplicableIff | src/main/java/com/mx/processor/BuilderProcessor.java:101-107 | the chain's vector is all-Set iff every index occurs in the sequence |
| TypeState.RunOrderIndependent | src/main/java/com/mx/processor/BuilderProcessor.java:241-242 | two setter sequences over the same set of indices give the same vector, whatever the order and repeats |
| TypeState.GeneratedSetterReturn | src/main/java/com/mx/processor/BuilderProcessor.java:237-242 | for case-distinct names, the result type declared by generated setter i reads as Set at i and Param(j) at every other j |
| TypeState.ChainStateEmpty | src/main/java/com/mx/processor/BuilderProcessor.java:105-107 | the declared result type of builder() reads as the all-Unset vector |
| TypeState.ChainStateStep | src/main/java/com/mx/processor/BuilderProcessor.java:237-242 | one more call of setter i turns the chain's vector v into setter i's declared return vector with v substituted for the type parameters |
| TypeState.ChainStateIsRun | src/main/java/com/mx/processor/BuilderProcessor.java:237-297 | reading the generated builder() and setter declarations gives every chain the vector computed by substitution |
| TypeState.BuildTypeChecksIff | src/main/java/com/mx/processor/BuilderProcessor.java:100-116 | for case-distinct names, build on builder() followed by a setter chain type-checks iff every field's setter occurs in the chain |
| TypeState.ZeroFieldBuild | src/main/java/com/mx/processor/BuilderProcessor.java:307-311 | with no instance field, the state vector of builder() is the one build's parameter demands (both empty) |
| BuilderRuntime.AssignStep | src/main/java/com/mx/processor/BuilderProcessor.java:212-223 | assignment k of the all-args constructor stores parameter f_k into slot k and continues with the remaining assignments |
| BuilderRuntime.AssignsFrom | src/main/java/com/mx/processor/BuilderProcessor.java:212-223 | running the remaining field assignments of the all-args constructor stores every parameter in its field |
| BuilderRuntime.AllArgsConstructorStores | src/main/java/com/mx/processor/BuilderProcessor.java:211-235 | createAllArgsConstructor: the constructor assigns parameter k to field k for every k |
| BuilderRuntime.EmptyConstructorKeepsDefaults | src/main/java/com/mx/processor/BuilderProcessor.java:198-209 | createEmptyConstructor: the constructor changes nothing |
| BuilderRuntime.SetterConstructorArgs | src/main/java/com/mx/processor/BuilderProcessor.java:244-256 | the setter's constructor arguments are the parameter at i and this.f_j at every other j |
| BuilderRuntime.SetterAssigns | src/main/java/com/mx/processor/BuilderProcessor.java:259-268 | the setter's first statement writes its argument into slot i of the receiver and leaves the other slots alone |
| BuilderRuntime.SetterReturns | src/main/java/com/mx/processor/BuilderProcessor.java:269-278 | the setter's return statement yields exactly the receiver's slots |
| BuilderRuntime.SetterSemantics | src/main/java/com/mx/processor/BuilderProcessor.java:258-278 | setter i overwrites the receiver's slot i and returns a builder with the receiver's slots, slot i replaced |
| BuilderRuntime.BuildSemantics | src/main/java/com/mx/processor/BuilderProcessor.java:363-390 | createStaticBuildMethod: the generated build passes the builder's slots to the class's constructor in field order |
| BuilderRuntime.BuilderMethodSemantics | src/main/java/com/mx/processor/BuilderProcessor.java:343-361 | createStaticBuilderMethod: the generated builder() evaluates new Builder<...>() with no argument, so the parameterless constructor serves it |
| BuilderRuntime.BuilderObject.Empty | src/main/java/com/mx/processor/BuilderProcessor.java:348-357 | new Builder<FALSE,...>() leaves every slot at its default, at the all-Unset type |
| BuilderRuntime.BuilderObject.AllArgs | src/main/java/com/mx/processor/BuilderProcessor.java:211-235 | new Builder(args) holds exactly args |
| BuilderRuntime.BuilderObject.Setter | src/main/java/com/mx/processor/BuilderProcessor.java:244-278 | the receiver's slot i is overwritten and its type kept; the fresh result holds the same slots at the receiver's type with position i Set |
| BuilderRuntime.NewBuilder | src/main/java/com/mx/processor/BuilderProcessor.java:343-361 | builder() of a class runs the generated body and returns a fresh builder over the class's instance fields with default slots, at the vector the generated declarations give the empty chain (all Unset) |
| BuilderRuntime.Build | src/main/java/com/mx/processor/BuilderProcessor.java:363-390 | build of the class is callable only at the all-Set type; it returns the slots in field order, each of them written |
| BuilderRuntime.ReplayIsLastWrite | src/main/java/com/mx/processor/BuilderProcessor.java:259-268 | after a setter chain each slot holds the value of the last call to its setter, or its old content |
| BuilderRuntime.ReplaySnoc | src/main/java/com/mx/processor/BuilderProcessor.java:259-268 | one more setter call writes its value into its slot and leaves the rest of the slots as they were |
| BuilderRuntime.RepeatedSetterOverwrites | src/main/java/com/mx/processor/BuilderProcessor.java:259-268 | calling the same setter twice in a row keeps only the second value |
| BuilderRuntime.BuildChain | src/main/java/com/mx/processor/BuilderProcessor.java:244-278 | for a class whose instance fields are distinct up to case, running builder() and a chain reaches build iff build(chain) type-checks against the generated declarations, iff every setter was called; build then yields for each field the last value set |
| BuilderRuntime.PointExample | src/main/java/com/mx/processor/BuilderProcessor.java:244-268 | builder().y(2).x(1) and builder().x(1).y(2) give the same slots (1, 2); x(1).x(5) leaves 5 |

## Left out

- The javac internals (`JavacTrees`, `TreeMaker`, `Names`, `TreeTranslator`) and `init`: the trees they build are the plain datatypes of `JavacTree`, and a name is a string.
- The `synchronized` modifier on `init`: it is concurrency with no logic behind it.
- The `Messager` diagnostics: the `info` notes at the start and end of each class are not modelled, and an error is returned as a `Diagnostic` value instead of being printed.
- The `catch (Exception e)` branch and `printStackTrace`: nothing in the model throws anything other than the three validation errors.
- `testMethod`: it is dead code, and its only call is commented out.
- Java's generic type checker: the type of a chain is computed by `TypeState.ChainState` from the generated declarations. Two Builder types are compared through their state vectors.
- Unicode and locale-dependent `toUpperCase`: upper-casing is ASCII only. Full Unicode upper-casing can change a string's length.
- `ProcessingException` and the `@Builder` annotation type: they carry no logic here.
- The iteration order of the annotated-element set: the caller gives the elements as a sequence.
- Field initializers in variable declarations: the generated fields have none, and the model does not record those of the source fields.
- The annotated class's own all-args constructor, which `build` calls: it is not generated, so the model stops at the argument list `build` passes to it.
- BuilderProcessor.Process: it requires the annotated elements to have distinct declaration trees, as javac guarantees. It does not model two elements sharing one tree.
- TypeState.ZeroFieldBuild: it holds in the state-vector reading only. With no instance field the generated Builder declares `private Builder()` twice (`BuilderProcessor.ZeroFieldBuilderClass`), and `builder()` writes `new Builder<>()` on a class without type parameters, so javac rejects the class before any call type-checks.
- TypeState.BuildTypeChecksIff: at zero instance fields it holds in the state-vector reading only, for the same reason: the generated class does not compile.
- BuilderRuntime.BuildChain: at zero instance fields it reaches `build` in the model only; the generated class declares `private Builder()` twice and javac rejects it, so no such chain runs.
- BuilderRuntime.NewBuilder: at zero instance fields the builder it returns exists in the model only, for the same reason.
- Sharing of tree nodes: declaration trees are values here. When a class nested inside another annotated class is processed, javac's shared node makes the new members appear in the outer class's tree too; in the model the inner class's `JClassDecl` changes and the outer class's `ClassDef` value does not.
- The consistency of the two views of a class (the element the validator reads and the tree the generator reads) is not modelled: they are given separately.
