/**
 * The interface-contract enforcer: `createInterface(...names)` captures the
 * required method names and returns the guard constructor `Interface`, which
 * a class runs from its own constructor (`MyInterface.call(this)`).
 */
module Interface {
  import opened PropertyLookup
  import opened ArrayJoin

  /** The function object returned by `createInterface`: its identity (every
      call makes a fresh closure) and the names it captured, in order. */
  datatype Contract = Contract(id: nat, names: seq<string>)

  /** `this.constructor` of the instance under construction: its identity and
      its `name` property, or `undefined`/`null` (`Nullish`), which has no
      properties to read. */
  datatype Ctor = Ctor(id: nat, name: string) | Nullish

  /** The instance under construction: its own properties, the prototype chain
      that starts at `Object.getPrototypeOf(this)` (empty when that is `null`),
      and its constructor. */
  datatype Instance = Instance(own: Proto, chain: Chain, ctor: Ctor)

  /** How a run of the guard ends: it returns, it throws an `Error` with the
      given message, or it throws the `TypeError` of reading a property of
      `null` (the instance has no prototype). */
  datatype Outcome = Returned | Thrown(message: string) | ThrownTypeError

  const DirectInstantiationMessage: string := "Cannot create an instance of Interface"
  const ViolationPrefix: string := "The following function(s) need to be implemented for class "

  /** The message of a contract violation for class `className`. */
  function ViolationMessage(className: string, missing: seq<string>): (m: string)
  {
    ViolationPrefix + className + ": " + Join(missing, Separator)
  }

  // ---------------------------------------------------------------------------
  // createInterface

  /** `createInterface(...)`, also reachable as `createInterface.create`:
      `Array.prototype.slice` copies the arguments object, so the contract
      holds the names as they were at the call. `id` is the identity of the
      new closure. */
  method Create(id: nat, arguments: array<string>) returns (c: Contract)
    ensures c.id == id
    ensures |c.names| == arguments.Length
    ensures forall i :: 0 <= i < arguments.Length ==> c.names[i] == arguments[i]
  {
    var functionNames := arguments[..];
    c := Contract(id, functionNames);
  }

  /** Writing to the arguments object after `createInterface` returned does
      not change the names the contract requires. */
  method CreateThenMutate(id: nat, arguments: array<string>, i: nat, s: string) returns (c: Contract)
    requires i < arguments.Length
    modifies arguments
    ensures c.names == old(arguments[..])
    ensures arguments[..] == old(arguments[..])[i := s]
  {
    c := Create(id, arguments);
    assert c.names == arguments[..];
    arguments[i] := s;
  }

  // ---------------------------------------------------------------------------
  // The guard

  /** `typeof prototype[name] === 'function'`. */
  function Implemented(chain: Chain, name: string): (b: bool)
  {
    Lookup(chain, name) == Some(Func)
  }

  /** The names the `forEach` pushes onto `unimplemented`: those of `names`
      that do not resolve to a function, in their order, one entry per
      occurrence. */
  function Missing(names: seq<string>, chain: Chain): (r: seq<string>)
    decreases |names|
  {
    if |names| == 0 then []
    else
      var last := names[|names| - 1];
      Missing(names[..|names| - 1], chain) + (if Implemented(chain, last) then [] else [last])
  }

  /** `constructor === Interface`: the constructor is the contract's own
      closure. */
  predicate IsContract(ctor: Ctor, c: Contract)
  {
    ctor.Ctor? && ctor.id == c.id
  }

  /** What one run of the guard does, as a function of the contract and the
      instance at the time of the call. Reading a property of `null` (the
      prototype, or later `constructor.name`) throws the `TypeError`. */
  function Check(c: Contract, inst: Instance): (o: Outcome)
  {
    if IsContract(inst.ctor, c) then Thrown(DirectInstantiationMessage)
    else if |inst.chain| == 0 && |c.names| > 0 then ThrownTypeError
    else
      var missing := Missing(c.names, inst.chain);
      if |missing| == 0 then Returned
      else if inst.ctor.Nullish? then ThrownTypeError
      else Thrown(ViolationMessage(inst.ctor.name, missing))
  }

  /** The body of `Interface`. It reads the instance and changes nothing. */
  method Guard(c: Contract, inst: Instance) returns (o: Outcome)
    ensures IsContract(inst.ctor, c) ==> o == Thrown(DirectInstantiationMessage)
    ensures !IsContract(inst.ctor, c) ==>
      (o == Returned <==> forall i :: 0 <= i < |c.names| ==> Implemented(inst.chain, c.names[i]))
    ensures o == ThrownTypeError <==>
      && !IsContract(inst.ctor, c)
      && ((|inst.chain| == 0 && |c.names| > 0) ||
          (inst.ctor.Nullish? && |Missing(c.names, inst.chain)| > 0))
    ensures !IsContract(inst.ctor, c) && o.Thrown? ==>
      && inst.ctor.Ctor?
      && o == Thrown(ViolationMessage(inst.ctor.name, Missing(c.names, inst.chain)))
    ensures o == Check(c, inst)
  {
    var ctor := inst.ctor;
    if IsContract(ctor, c) {
      o := Thrown(DirectInstantiationMessage);
      return;
    }
    var prototype := inst.chain;
    var unimplemented: seq<string> := [];
    for i := 0 to |c.names|
      invariant unimplemented == Missing(c.names[..i], prototype)
      invariant |prototype| == 0 ==> i == 0
    {
      if |prototype| == 0 {
        // `null[functionName]`
        assert !Implemented(prototype, c.names[i]);
        o := ThrownTypeError;
        return;
      }
      var functionName := c.names[i];
      assert c.names[..i + 1][..i] == c.names[..i];
      if !Implemented(prototype, functionName) {
        unimplemented := unimplemented + [functionName];
      }
    }
    assert c.names[..|c.names|] == c.names;
    MissingEmptyIff(c.names, prototype);
    if |unimplemented| == 0 {
      o := Returned;
    } else if ctor.Nullish? {
      // `constructor.name` on `undefined` or `null`
      o := ThrownTypeError;
    } else {
      o := Thrown(ViolationMessage(ctor.name, unimplemented));
    }
  }

  // ---------------------------------------------------------------------------
  // Properties of the missing list

  /** Checking a list in two parts reports the first part's misses, then the
      second's: every name is examined and order is kept. */
  lemma {:induction false} MissingConcat(a: seq<string>, b: seq<string>, chain: Chain)
    ensures Missing(a + b, chain) == Missing(a, chain) + Missing(b, chain)
    decreases |b|
  {
    if |b| == 0 {
      assert a + b == a;
    } else {
      var init := b[..|b| - 1];
      assert (a + b)[..|a + b| - 1] == a + init;
      assert (a + b)[|a + b| - 1] == b[|b| - 1];
      MissingConcat(a, init, chain);
    }
  }

  /** A single name is reported exactly when it does not resolve to a function. */
  lemma MissingSingle(n: string, chain: Chain)
    ensures Missing([n], chain) == if Implemented(chain, n) then [] else [n]
  {
    assert [n][..0] == [];
  }

  /** Each name occurs in the missing list as often as it is required, when
      it is unimplemented, and not at all otherwise. */
  lemma {:induction false} MissingCount(names: seq<string>, chain: Chain, n: string)
    ensures multiset(Missing(names, chain))[n] ==
            if Implemented(chain, n) then 0 else multiset(names)[n]
    decreases |names|
  {
    if |names| > 0 {
      var init, last := names[..|names| - 1], names[|names| - 1];
      MissingCount(init, chain, n);
      assert names == init + [last];
    }
  }

  /** A name is in the missing list exactly when it is required and does not
      resolve to a function. */
  lemma {:induction false} MissingMembership(names: seq<string>, chain: Chain, n: string)
    ensures n in Missing(names, chain) <==> n in names && !Implemented(chain, n)
  {
    MissingCount(names, chain, n);
  }

  /** The failing positions of `names`, in increasing order. */
  function MissingPositions(names: seq<string>, chain: Chain): (r: seq<int>)
    decreases |names|
  {
    if |names| == 0 then []
    else
      var k := |names| - 1;
      MissingPositions(names[..k], chain) + (if Implemented(chain, names[k]) then [] else [k])
  }

  /** `sub` is `s` read at the strictly increasing positions `idx`. */
  ghost predicate SelectedAt(sub: seq<string>, s: seq<string>, idx: seq<int>)
  {
    && |idx| == |sub|
    && (forall j :: 0 <= j < |idx| ==> 0 <= idx[j] < |s| && sub[j] == s[idx[j]])
    && (forall j, l :: 0 <= j < l < |idx| ==> idx[j] < idx[l])
  }

  /** The missing list is the subsequence of `names` at exactly the positions
      whose name does not resolve to a function, in declaration order. */
  lemma {:induction false} MissingIsOrderedSelection(names: seq<string>, chain: Chain)
    ensures SelectedAt(Missing(names, chain), names, MissingPositions(names, chain))
    ensures forall i :: 0 <= i < |names| ==>
      (i in MissingPositions(names, chain) <==> !Implemented(chain, names[i]))
    decreases |names|
  {
    if |names| > 0 {
      var k := |names| - 1;
      var init := names[..k];
      MissingIsOrderedSelection(init, chain);
      var idx := MissingPositions(init, chain);
      assert forall j :: 0 <= j < |idx| ==> idx[j] < k;
      forall i | 0 <= i < k ensures names[i] == init[i] { }
    }
  }

  /** The guard finds nothing missing exactly when every required name
      resolves to a function. */
  lemma {:induction false} MissingEmptyIff(names: seq<string>, chain: Chain)
    ensures Missing(names, chain) == [] <==>
            forall i :: 0 <= i < |names| ==> Implemented(chain, names[i])
    decreases |names|
  {
    if |names| > 0 {
      var k := |names| - 1;
      MissingEmptyIff(names[..k], chain);
      assert forall i :: 0 <= i < k ==> names[..k][i] == names[i];
    }
  }

  /** When no required name is implemented, all of them are reported, in order. */
  lemma {:induction false} MissingAllWhenNoneImplemented(names: seq<string>, chain: Chain)
    requires forall i :: 0 <= i < |names| ==> !Implemented(chain, names[i])
    ensures Missing(names, chain) == names
    decreases |names|
  {
    if |names| > 0 {
      var k := |names| - 1;
      MissingAllWhenNoneImplemented(names[..k], chain);
      assert names[..k] + [names[k]] == names;
    }
  }

  // ---------------------------------------------------------------------------
  // Resolution through the prototype chain

  /** A name counts as implemented exactly when its nearest owner on the chain
      binds it to a function. */
  lemma ImplementedIff(chain: Chain, name: string)
    ensures Implemented(chain, name) <==>
            exists k :: IsFirstHolder(chain, name, k) && chain[k][name] == Func
  {
    if Implemented(chain, name) {
      LookupHasFirstHolder(chain, name);
    }
    if exists k :: IsFirstHolder(chain, name, k) && chain[k][name] == Func {
      var k :| IsFirstHolder(chain, name, k) && chain[k][name] == Func;
      LookupFirstHolder(chain, name, k);
    }
  }

  /** A function on any ancestor prototype satisfies a name, as long as no
      nearer object owns the name. */
  lemma InheritedFunctionCounts(chain: Chain, name: string, k: nat)
    requires k < |chain| && name in chain[k] && chain[k][name] == Func
    requires forall j :: 0 <= j < k ==> name !in chain[j]
    ensures Implemented(chain, name)
  {
    LookupFirstHolder(chain, name, k);
  }

  /** A nearer binding to something that is not a function hides every
      function further up the chain. */
  lemma NearerNonFunctionShadows(chain: Chain, name: string, k: nat)
    requires k < |chain| && name in chain[k] && chain[k][name] == NonFunc
    requires forall j :: 0 <= j < k ==> name !in chain[j]
    ensures !Implemented(chain, name)
  {
    LookupFirstHolder(chain, name, k);
  }

  /** No object on the chain binds a required name to a non-function. */
  ghost predicate NoNonFunctionBindings(names: seq<string>, chain: Chain)
  {
    forall k, i :: 0 <= k < |chain| && 0 <= i < |names| && names[i] in chain[k] ==>
      chain[k][names[i]] == Func
  }

  /** Without non-function bindings of required names, the members of all the
      classes on the chain pool together: the guard finds nothing missing
      exactly when every required name is owned by some object of the chain. */
  lemma MissingEmptyIffCovered(names: seq<string>, chain: Chain)
    requires NoNonFunctionBindings(names, chain)
    ensures Missing(names, chain) == [] <==>
            forall i :: 0 <= i < |names| ==> exists k :: 0 <= k < |chain| && names[i] in chain[k]
  {
    MissingEmptyIff(names, chain);
    forall i | 0 <= i < |names|
      ensures Implemented(chain, names[i]) <==> exists k :: 0 <= k < |chain| && names[i] in chain[k]
    {
      var n := names[i];
      LookupNone(chain, n);
      if Lookup(chain, n).Some? {
        LookupHasFirstHolder(chain, n);
      }
    }
  }

  // ---------------------------------------------------------------------------
  // Properties of one run of the guard

  /** Constructing the contract itself fails with the fixed message, whatever
      names it requires and whatever the chain holds. */
  lemma DirectInstantiationFirst(c: Contract, inst: Instance)
    requires IsContract(inst.ctor, c)
    ensures Check(c, inst) == Thrown(DirectInstantiationMessage)
    ensures forall names: seq<string>, chain: Chain ::
      Check(Contract(c.id, names), inst.(chain := chain)) == Check(c, inst)
  {
  }

  /** A contract with no names accepts every instance not built by the
      contract itself. */
  lemma EmptyContractAccepts(id: nat, inst: Instance)
    requires !IsContract(inst.ctor, Contract(id, []))
    ensures Check(Contract(id, []), inst) == Returned
  {
  }

  /** An own method of the instance never satisfies or hides a required name:
      the scan starts at its prototype. */
  lemma OwnPropertiesIgnored(c: Contract, inst: Instance, own: Proto)
    ensures Check(c, inst.(own := own)) == Check(c, inst)
  {
  }

  /** The violation message names the most-derived class and lists the
      missing names in order; both can be read back from it. */
  function ParseViolation(message: string): (r: Option<(string, seq<string>)>)
  {
    if |message| < |ViolationPrefix| || message[..|ViolationPrefix|] != ViolationPrefix then None
    else
      match SplitClassName(message[|ViolationPrefix|..])
      case None => None
      case Some(parts) => Some((parts.0, Split(parts.1)))
  }

  /** Splits at the first ':' and drops the space after it. */
  function SplitClassName(s: string): (r: Option<(string, string)>)
    decreases |s|
  {
    if |s| == 0 then None
    else if s[0] == ':' then (if |s| >= 2 && s[1] == ' ' then Some(("", s[2..])) else None)
    else
      match SplitClassName(s[1..])
      case None => None
      case Some(parts) => Some(([s[0]] + parts.0, parts.1))
  }

  lemma {:induction false} SplitClassNameOf(className: string, rest: string)
    requires forall i :: 0 <= i < |className| ==> className[i] != ':'
    ensures SplitClassName(className + ": " + rest) == Some((className, rest))
    decreases |className|
  {
    var s := className + ": " + rest;
    if |className| == 0 {
      assert s[2..] == rest;
    } else {
      assert s[1..] == className[1..] + ": " + rest;
      SplitClassNameOf(className[1..], rest);
      assert [className[0]] + className[1..] == className;
    }
  }

  /** Reading a violation message back gives the class name and the missing
      list, for a class name without ':' and method names without ','. */
  lemma ParseViolationMessage(className: string, missing: seq<string>)
    requires forall i :: 0 <= i < |className| ==> className[i] != ':'
    requires |missing| >= 1
    requires forall i :: 0 <= i < |missing| ==> CommaFree(missing[i])
    ensures ParseViolation(ViolationMessage(className, missing)) == Some((className, missing))
  {
    var m := ViolationMessage(className, missing);
    var rest := className + ": " + Join(missing, Separator);
    assert m == ViolationPrefix + rest;
    assert m[..|ViolationPrefix|] == ViolationPrefix;
    assert m[|ViolationPrefix|..] == rest;
    SplitClassNameOf(className, Join(missing, Separator));
    SplitJoin(missing);
  }

  /** The two errors cannot be confused: the fixed message is no violation
      message. */
  lemma DirectMessageIsNoViolation()
    ensures ParseViolation(DirectInstantiationMessage) == None
  {
    assert |DirectInstantiationMessage| < |ViolationPrefix|;
  }

  /** Why reading a message back needs a class name without ':': moving
      `": " + b` from the class name to the first method name gives the same
      message. */
  lemma ColonInClassNameAmbiguous(a: string, b: string, m: string, rest: seq<string>)
    ensures ViolationMessage(a + ": " + b, [m] + rest) == ViolationMessage(a, [b + ": " + m] + rest)
  {
  }

  /** A thrown violation carries the class name and the complete missing list
      in its message. */
  lemma ViolationReportsMissing(c: Contract, inst: Instance)
    requires inst.ctor.Ctor? && inst.ctor.id != c.id
    requires forall i :: 0 <= i < |inst.ctor.name| ==> inst.ctor.name[i] != ':'
    requires forall i :: 0 <= i < |c.names| ==> CommaFree(c.names[i])
    requires Check(c, inst).Thrown?
    ensures ParseViolation(Check(c, inst).message) ==
            Some((inst.ctor.name, Missing(c.names, inst.chain)))
  {
    var missing := Missing(c.names, inst.chain);
    forall i | 0 <= i < |missing| ensures CommaFree(missing[i]) {
      MissingMembership(c.names, inst.chain, missing[i]);
    }
    ParseViolationMessage(inst.ctor.name, missing);
  }
}
