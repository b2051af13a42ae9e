# interface-js: the interface-contract guard, modelled in Dafny

`createInterface(...names)` captures an ordered list of method names and returns a
constructor function, `Interface`. A class runs it from its own constructor
(`MyInterface.call(this)`). The guard then does the following, in this order:

1. It fails with "Cannot create an instance of Interface" when `this.constructor` is
   the guard itself. `new MyInterface()` is one way to get there. Any instance
   whose `constructor` resolves to the guard gets there too.
2. Otherwise it resolves every required name on `Object.getPrototypeOf(this)`,
   through the prototype chain. It collects, in declaration order and without
   stopping early, every name whose value is not a function.
   When the instance has no prototype (`null`), reading the first name throws a
   `TypeError`.
3. If any name was collected, it throws one error whose message names
   `this.constructor.name` and lists the collected names separated by ", ".
   When `this.constructor` is `undefined` or `null`, reading its `name` throws a
   `TypeError` instead.

The model has four modules:

- `PropertyLookup` (prop_lookup.dfy) models JavaScript property access on a
  prototype chain. A chain is a sequence of own-property tables, nearest object
  first. `Lookup` returns the binding of the first object that owns the name.
- `ArrayJoin` (array_join.dfy) models `Array.prototype.join`. It also defines a
  `Split` at ", ". `Split` inverts the join for non-empty lists of names that
  contain no comma. The empty list joins to "", and `Split("")` is `[""]`.
- `Interface` (interface.dfy) models `createInterface` (`Create`) and the guard.
  `Guard` is a method whose loop mirrors the `forEach` that pushes onto
  `unimplemented`. `Check` is the same behaviour as a function. `Missing` is the
  list the loop builds. `ParseViolation` reads a violation message back.
- `InterfaceScenarios` (scenarios.dfy) states each test in test/test.js as a
  lemma: the prototype chain the test builds and the outcome the test expects.

Inputs the JavaScript engine supplies become explicit parameters:

- the identity of each closure that `createInterface` returns (`id`);
- the instance's `this.constructor`, as its identity and `name` (`Ctor`), or
  `Nullish` when it is `undefined` or `null`;
- the prototype chain, including `Object.prototype` at its end. The empty chain
  stands for a `null` prototype.

A thrown `Error` becomes the value `Thrown(message)`. The `TypeError` of reading
a property of `null` or `undefined` becomes `ThrownTypeError`. Returning normally is
`Returned`.

Points where the code's behaviour is easy to misread:

- The code validates each time `Interface` runs, which is during an ancestor's
  constructor. It sees the prototype chain as it is at that moment. It does not
  validate once after the concrete class is fully built. The model checks the
  chain as it is given at the call.
- "Implemented" means that the nearest binding on the chain is a function. A
  nearer binding to a non-function hides a function further up the chain. This
  is not the same as pooling the callable members of all classes on the chain.
  `MissingEmptyIffCovered` shows that the two agree when no required name is
  bound to a non-function.
- The code accepts any list of names: empty, with duplicates, with empty
  strings. A duplicated unimplemented name is reported once per occurrence
  (`MissingCount`).

## Model

| member | source | states |
|---|---|---|
| `PropertyLookup.LookupNone` | index.js:17 | The lookup finds no binding (`None`) exactly when no object on the chain owns the name. An owned property whose value is `undefined` is `Some(NonFunc)`. |
| `PropertyLookup.LookupFirstHolder` | index.js:13-17 | When object k is the nearest owner of a name, the lookup returns object k's binding (first match wins). |
| `PropertyLookup.LookupHasFirstHolder` | index.js:13-17 | A defined lookup result is always the binding of the nearest owner. |
| `ArrayJoin.SplitJoin` | index.js:25 | Joining a non-empty list of comma-free names with ", " and splitting again gives back the same names in the same order. |
| `Interface.Create` | index.js:1-3 | The contract holds the given identity and the arguments in order, element by element. |
| `Interface.CreateThenMutate` | index.js:3 | Writing to the arguments object after creation leaves the captured names as they were at the call (`slice` copies). |
| `Interface.Guard` | index.js:5-28 | The guard's outcome is fully stated. If the constructor is the contract itself, it throws the fixed message, whatever the names. Otherwise it returns iff every required name resolves to a function. It throws the `TypeError` exactly when the constructor is not the contract and either the prototype is `null` with at least one name required, or the constructor is `undefined`/`null` with at least one name missing. Any other throw is the violation message for the constructor's name and the `Missing` list. The result equals `Check`. |
| `Interface.MissingSingle` | index.js:17-18 | One name is reported exactly when it does not resolve to a function. |
| `Interface.MissingConcat` | index.js:16-20 | Missing of `a + b` is Missing of `a` followed by Missing of `b`. Every name is examined and order is kept. |
| `Interface.MissingCount` | index.js:16-20 | Each unimplemented name occurs in the missing list as often as it is required. Each implemented name does not occur at all. |
| `Interface.MissingMembership` | index.js:16-20 | A name is in the missing list iff it is required and does not resolve to a function. |
| `Interface.MissingIsOrderedSelection` | index.js:14-20 | The missing list is the required list read at strictly increasing positions. Those are exactly the positions whose name does not resolve to a function. |
| `Interface.MissingEmptyIff` | index.js:23-26 | Nothing is missing iff every required name resolves to a function. |
| `Interface.MissingAllWhenNoneImplemented` | index.js:16-20 | When no required name is implemented, all names are reported, in declaration order. |
| `Interface.ImplementedIff` | index.js:13-17 | A name is implemented iff its nearest owner on the chain binds it to a function. |
| `Interface.InheritedFunctionCounts` | index.js:13-17 | A function on any ancestor prototype satisfies a name when no nearer object owns that name. |
| `Interface.NearerNonFunctionShadows` | index.js:13-17 | A nearer non-function binding makes a name unimplemented, whatever lies further up the chain. |
| `Interface.MissingEmptyIffCovered` | index.js:13-26 | When no object on the chain binds a required name to a non-function, nothing is missing iff every required name is owned by some object of the chain. |
| `Interface.DirectInstantiationFirst` | index.js:6-10 | Direct instantiation throws the fixed message, and the outcome does not depend on the names or the chain. |
| `Interface.EmptyContractAccepts` | index.js:14-26 | A contract with no names accepts every instance that is not a direct instantiation. |
| `Interface.OwnPropertiesIgnored` | index.js:13 | An own method on the instance never satisfies or hides a required name: the scan starts at its prototype. |
| `Interface.ParseViolationMessage` | index.js:24-25 | The violation message can be read back. It yields the class name and the missing list, for a class name without ':' and names without ','. |
| `Interface.ColonInClassNameAmbiguous` | index.js:24-25 | A class name containing ": " gives the same message as a shorter class name with that text moved into the first missing name, so the message alone cannot always be read back. |
| `Interface.DirectMessageIsNoViolation` | index.js:10 | The direct-instantiation message cannot be read as a violation message. |
| `Interface.ViolationReportsMissing` | index.js:23-25 | A thrown `Error`'s message, when the constructor is not the contract, carries the class name and the complete `Missing` list. |
| `InterfaceScenarios.InterfaceCannotBeInstantiated` | test/test.js:10-17 | `new MyInterface()` throws "Cannot create an instance of Interface". |
| `InterfaceScenarios.OneUnimplementedReported` | test/test.js:20-33 | For a class without `method`, the error is "...for class MyClass: method". |
| `InterfaceScenarios.AllUnimplementedReported` | test/test.js:35-48 | For a class that has none of three methods, the error lists all three, in order. |
| `InterfaceScenarios.ImplementingClassAccepted` | test/test.js:50-61 | When both methods are on the class prototype, the guard returns. |
| `InterfaceScenarios.SubclassMissingReported` | test/test.js:63-84 | `methodA` is inherited and `methodB` is absent, so the error names MySubClass and `methodB` only. |
| `InterfaceScenarios.SubclassCompletingContractAccepted` | test/test.js:109-126 | `methodA` on MyClass and `methodB` on MySubClass together satisfy the contract. |
| `InterfaceScenarios.ConstructorlessClassTypeError` | index.js:6-25 | For a class whose prototype is `Object.create(null)`, `this.constructor` is `undefined`; with `method` missing, reading `constructor.name` throws the `TypeError`. |
| `InterfaceScenarios.NonFunctionHidesInherited` | index.js:13-17 | A non-function `methodA` on the subclass prototype hides MyClass's `methodA`, and the error names MySubClass and `methodA`. |

## Left out

- `isImplementedBy`: it is not part of index.js, so it is not modelled.
- Invocation forms: `createInterface(...)`, `new createInterface(...)` and `createInterface.create(...)` are one function. `Create` stands for all three. (test/test.js imports the factory under the name `Interface`.)
- Prototype wiring: `util.inherits` and the lookup of `this.constructor` are not modelled. The constructor's identity and name, and the prototype chain, are inputs.
- Closure identity: the identity of each closure that `createInterface` returns is an input (`id`). Allocation is not modelled.
- Exceptions: `throw new Error(message)` is the value `Thrown(message)`. Nothing about stack traces or error objects is modelled.
- `typeof`: the model only tells a function from a non-function. Accessor properties (getters that run code) and proxies are not modelled.
- Timing: when methods are attached to prototypes relative to the guard call is host behaviour. The guard is modelled over the chain as it is at the call.
- The test harness (mocha, chai, `console.log` in test methods) and `module.exports` are not modelled.
- ParseViolationMessage: it requires a class name without ':' and method names without ','. Without these, the message is ambiguous. For example, `ViolationMessage("A: b", ["m"])` equals `ViolationMessage("A", ["b: m"])`, and a method name that contains ", " reads back as two names. A class's `name` and a method name can be any string, so these restrictions are real.
- ViolationReportsMissing: it carries the same restrictions on class and method names as ParseViolationMessage.
- OwnPropertiesIgnored: an own `constructor` property on the instance is not modelled. The instance's constructor is an input (`ctor`). At index.js:6, `this.constructor` reads own properties first, so an own `constructor` does change which constructor is used.
- Non-string names: index.js:3 keeps whatever values are passed. A number becomes a property key. `undefined` joins as "". A Symbol makes `join` throw at index.js:25. The model takes only strings.
- `TypeError` message: the text of the `TypeError` for a `null` prototype or a `null`/`undefined` constructor is engine-defined. `ThrownTypeError` carries no message.
