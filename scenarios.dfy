/**
 * The scenarios of the repository's test suite, stated on the model: a
 * contract, the prototype chain the test builds, and the outcome it expects.
 * Each scenario is split into what the chain resolves, what the guard finds
 * missing, and how the guard ends. Expected messages are written as the fixed
 * prefix followed by the part that names the class and the methods.
 */
module InterfaceScenarios {
  import opened PropertyLookup
  import opened ArrayJoin
  import opened Interface

  /** A few of the functions every ordinary object inherits. */
  const ObjectPrototype: Proto :=
    map["constructor" := Func, "toString" := Func, "hasOwnProperty" := Func, "valueOf" := Func]

  /** A function's own `prototype` object, before any method is attached. */
  const FreshPrototype: Proto := map["constructor" := Func]

  const InterfaceId: nat := 1
  const MyClassId: nat := 2
  const MySubClassId: nat := 3

  /** The guard throws the violation message once the missing list is known. */
  lemma CheckThrowsFor(c: Contract, inst: Instance, missing: seq<string>)
    requires inst.ctor.Ctor? && inst.ctor.id != c.id && |inst.chain| > 0
    requires Missing(c.names, inst.chain) == missing && |missing| > 0
    ensures Check(c, inst) == Thrown(ViolationMessage(inst.ctor.name, missing))
  {
  }

  /** The message for one missing name. */
  lemma OneNameMessage(className: string, name: string)
    ensures ViolationMessage(className, [name]) ==
            "The following function(s) need to be implemented for class " + (className + ": " + name)
  {
  }

  /** Two names are checked one after the other. */
  lemma MissingOfTwo(names: seq<string>, chain: Chain)
    requires |names| == 2
    ensures Missing(names, chain) ==
            (if Implemented(chain, names[0]) then [] else [names[0]]) +
            (if Implemented(chain, names[1]) then [] else [names[1]])
  {
    MissingConcat([names[0]], [names[1]], chain);
    MissingSingle(names[0], chain);
    MissingSingle(names[1], chain);
    assert [names[0]] + [names[1]] == names;
  }

  // ---------------------------------------------------------------------------
  // should not allow an interface to be instantiated

  /** `new MyInterface()` for a contract on two names: the instance's
      constructor is the contract itself. */
  lemma InterfaceCannotBeInstantiated(names: seq<string>, chain: Chain)
    requires names == ["doWork", "doMoreWork"]
    requires chain == [FreshPrototype, ObjectPrototype]
    ensures Check(Contract(InterfaceId, names), Instance(map[], chain, Ctor(InterfaceId, "Interface")))
            == Thrown("Cannot create an instance of Interface")
  {
  }

  // ---------------------------------------------------------------------------
  // should throw an error for a class not implementing an interface

  lemma PlainClassLacksMethod(chain: Chain)
    requires chain == [FreshPrototype, ObjectPrototype]
    ensures !Implemented(chain, "method")
  {
    LookupNone(chain, "method");
  }

  /** A single unimplemented name. */
  lemma OneUnimplementedReported(names: seq<string>, chain: Chain)
    requires names == ["method"]
    requires chain == [FreshPrototype, ObjectPrototype]
    ensures Check(Contract(InterfaceId, names), Instance(map[], chain, Ctor(MyClassId, "MyClass")))
            == Thrown("The following function(s) need to be implemented for class " + "MyClass: method")
  {
    PlainClassLacksMethod(chain);
    MissingSingle("method", chain);
    CheckThrowsFor(Contract(InterfaceId, names), Instance(map[], chain, Ctor(MyClassId, "MyClass")), names);
    OneNameMessage("MyClass", "method");
  }

  // ---------------------------------------------------------------------------
  // should throw an error message showing all unimplemented methods

  lemma PlainClassLacksAll(names: seq<string>, chain: Chain)
    requires names == ["methodA", "methodB", "methodC"]
    requires chain == [FreshPrototype, ObjectPrototype]
    ensures forall i :: 0 <= i < |names| ==> !Implemented(chain, names[i])
  {
    LookupNone(chain, "methodA");
    LookupNone(chain, "methodB");
    LookupNone(chain, "methodC");
  }

  lemma ThreeNamesJoined(names: seq<string>)
    requires names == ["methodA", "methodB", "methodC"]
    ensures Join(names, Separator) == "methodA, methodB, methodC"
  {
    var tail := names[1..];
    assert tail == ["methodB", "methodC"] && tail[1..] == ["methodC"];
    assert Join(tail[1..], Separator) == "methodC";
    assert Join(tail, Separator) == "methodB" + ", " + "methodC";
    assert Join(names, Separator) == "methodA" + ", " + ("methodB" + ", " + "methodC");
  }

  lemma ThreeNamesMessage(names: seq<string>)
    requires names == ["methodA", "methodB", "methodC"]
    ensures ViolationMessage("MyClass", names)
            == "The following function(s) need to be implemented for class " + "MyClass: methodA, methodB, methodC"
  {
    ThreeNamesJoined(names);
  }

  /** A class that implements none of three names is told about all three,
      in declaration order. */
  lemma AllUnimplementedReported(names: seq<string>, chain: Chain)
    requires names == ["methodA", "methodB", "methodC"]
    requires chain == [FreshPrototype, ObjectPrototype]
    ensures Check(Contract(InterfaceId, names), Instance(map[], chain, Ctor(MyClassId, "MyClass")))
            == Thrown("The following function(s) need to be implemented for class " + "MyClass: methodA, methodB, methodC")
  {
    PlainClassLacksAll(names, chain);
    MissingAllWhenNoneImplemented(names, chain);
    CheckThrowsFor(Contract(InterfaceId, names), Instance(map[], chain, Ctor(MyClassId, "MyClass")), names);
    ThreeNamesMessage(names);
  }

  // ---------------------------------------------------------------------------
  // should not throw an error when instantiating a class enforcing all given interfaces

  lemma CompleteClassHasBoth(chain: Chain)
    requires chain == [FreshPrototype["methodA" := Func]["methodB" := Func], ObjectPrototype]
    ensures Implemented(chain, "methodA") && Implemented(chain, "methodB")
  {
    InheritedFunctionCounts(chain, "methodA", 0);
    InheritedFunctionCounts(chain, "methodB", 0);
  }

  /** Both names are on the class's own prototype: construction proceeds. */
  lemma ImplementingClassAccepted(names: seq<string>, chain: Chain)
    requires names == ["methodA", "methodB"]
    requires chain == [FreshPrototype["methodA" := Func]["methodB" := Func], ObjectPrototype]
    ensures Check(Contract(InterfaceId, names), Instance(map[], chain, Ctor(MyClassId, "MyClass")))
            == Returned
  {
    CompleteClassHasBoth(chain);
    MissingOfTwo(names, chain);
  }

  // ---------------------------------------------------------------------------
  // should enforce an interface on subclasses

  lemma SubclassResolution(chain: Chain)
    requires chain == [FreshPrototype, FreshPrototype["methodA" := Func], ObjectPrototype]
    ensures Implemented(chain, "methodA") && !Implemented(chain, "methodB")
  {
    InheritedFunctionCounts(chain, "methodA", 1);
    LookupNone(chain, "methodB");
  }

  /** `methodA` is inherited from MyClass, `methodB` is nowhere: the error
      names the subclass and only `methodB`. */
  lemma SubclassMissingReported(names: seq<string>, chain: Chain)
    requires names == ["methodA", "methodB"]
    requires chain == [FreshPrototype, FreshPrototype["methodA" := Func], ObjectPrototype]
    ensures Check(Contract(InterfaceId, names), Instance(map[], chain, Ctor(MySubClassId, "MySubClass")))
            == Thrown("The following function(s) need to be implemented for class " + "MySubClass: methodB")
  {
    SubclassResolution(chain);
    MissingOfTwo(names, chain);
    CheckThrowsFor(Contract(InterfaceId, names), Instance(map[], chain, Ctor(MySubClassId, "MySubClass")), ["methodB"]);
    OneNameMessage("MySubClass", "methodB");
  }

  // ---------------------------------------------------------------------------
  // should not throw an error for subclasses that implement all functions in the interface

  lemma CompletedSubclassResolution(chain: Chain)
    requires chain == [FreshPrototype["methodB" := Func], FreshPrototype["methodA" := Func], ObjectPrototype]
    ensures Implemented(chain, "methodA") && Implemented(chain, "methodB")
  {
    InheritedFunctionCounts(chain, "methodA", 1);
    InheritedFunctionCounts(chain, "methodB", 0);
  }

  /** `methodA` on MyClass and `methodB` on MySubClass together satisfy the
      contract. */
  lemma SubclassCompletingContractAccepted(names: seq<string>, chain: Chain)
    requires names == ["methodA", "methodB"]
    requires chain == [FreshPrototype["methodB" := Func], FreshPrototype["methodA" := Func], ObjectPrototype]
    ensures Check(Contract(InterfaceId, names), Instance(map[], chain, Ctor(MySubClassId, "MySubClass")))
            == Returned
  {
    CompletedSubclassResolution(chain);
    MissingOfTwo(names, chain);
  }

  // ---------------------------------------------------------------------------
  // shadowing (no test in the suite; follows from the first-match lookup)

  lemma ShadowedResolution(chain: Chain)
    requires chain == [FreshPrototype["methodA" := NonFunc], FreshPrototype["methodA" := Func], ObjectPrototype]
    ensures !Implemented(chain, "methodA")
  {
    NearerNonFunctionShadows(chain, "methodA", 0);
  }

  /** A subclass that sets `methodA` to a non-function on its own prototype
      hides MyClass's `methodA`. */
  lemma NonFunctionHidesInherited(names: seq<string>, chain: Chain)
    requires names == ["methodA"]
    requires chain == [FreshPrototype["methodA" := NonFunc], FreshPrototype["methodA" := Func], ObjectPrototype]
    ensures Check(Contract(InterfaceId, names), Instance(map[], chain, Ctor(MySubClassId, "MySubClass")))
            == Thrown("The following function(s) need to be implemented for class " + "MySubClass: methodA")
  {
    ShadowedResolution(chain);
    MissingSingle("methodA", chain);
    CheckThrowsFor(Contract(InterfaceId, names), Instance(map[], chain, Ctor(MySubClassId, "MySubClass")), names);
    OneNameMessage("MySubClass", "methodA");
  }

  // ---------------------------------------------------------------------------
  // a class whose prototype is `Object.create(null)` (no test in the suite)

  /** `Foo.prototype = Object.create(null)`: the instance's prototype owns
      nothing, not even `constructor`, so `this.constructor` is `undefined`.
      A required name is missing, and reading `constructor.name` for the
      message throws the `TypeError`. */
  lemma ConstructorlessClassTypeError(names: seq<string>, chain: Chain)
    requires names == ["method"]
    requires chain == [map[]]
    ensures Check(Contract(InterfaceId, names), Instance(map[], chain, Nullish)) == ThrownTypeError
  {
    LookupNone(chain, "method");
    MissingSingle("method", chain);
  }
}
