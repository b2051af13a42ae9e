/**
 * Property lookup along a JavaScript prototype chain.
 *
 * An expression `prototype[name]` asks the first object of the chain that has
 * `name` as an own property; when no object on the chain has it, the result is
 * `undefined`. The chain is finite (it ends at `null`), so it is modelled as a
 * sequence of own-property tables, nearest object first.
 */
module PropertyLookup {

  /** What `typeof` tells apart for the guard: a function, or anything else
      (including an own property explicitly set to `undefined` or `null`). */
  datatype Value = Func | NonFunc

  /** The own properties of one object on the chain. */
  type Proto = map<string, Value>

  /** A prototype chain, nearest object first; the last entry is usually
      `Object.prototype`. */
  type Chain = seq<Proto>

  datatype Option<T> = None | Some(value: T)

  /** The value `chain[0][name]` in JavaScript: the binding of the first object
      that owns `name`, or `None` when no object owns it (the read then gives
      `undefined`; an owned `undefined` is `Some(NonFunc)`). */
  function Lookup(chain: Chain, name: string): (r: Option<Value>)
    decreases |chain|
  {
    if |chain| == 0 then None
    else if name in chain[0] then Some(chain[0][name])
    else Lookup(chain[1..], name)
  }

  /** Object `k` of the chain owns `name` and no nearer object does. */
  ghost predicate IsFirstHolder(chain: Chain, name: string, k: int)
  {
    && 0 <= k < |chain|
    && name in chain[k]
    && forall j :: 0 <= j < k ==> name !in chain[j]
  }

  /** The lookup finds no binding exactly when no object on the chain owns the name. */
  lemma {:induction false} LookupNone(chain: Chain, name: string)
    ensures Lookup(chain, name).None? <==> forall k :: 0 <= k < |chain| ==> name !in chain[k]
    decreases |chain|
  {
    if |chain| > 0 && name !in chain[0] {
      LookupNone(chain[1..], name);
      assert forall k :: 1 <= k < |chain| ==> chain[k] == chain[1..][k - 1];
    }
  }

  /** First match wins: the binding of the nearest owner is the result. */
  lemma {:induction false} LookupFirstHolder(chain: Chain, name: string, k: int)
    requires IsFirstHolder(chain, name, k)
    ensures Lookup(chain, name) == Some(chain[k][name])
    decreases |chain|
  {
    if k > 0 {
      assert name !in chain[0];
      assert IsFirstHolder(chain[1..], name, k - 1) by {
        forall j | 0 <= j < k - 1 ensures name !in chain[1..][j] {
          assert chain[1..][j] == chain[j + 1];
        }
      }
      LookupFirstHolder(chain[1..], name, k - 1);
    }
  }

  /** Conversely, a defined lookup result comes from the nearest owner. */
  lemma {:induction false} LookupHasFirstHolder(chain: Chain, name: string)
    requires Lookup(chain, name).Some?
    ensures exists k :: IsFirstHolder(chain, name, k) && chain[k][name] == Lookup(chain, name).value
    decreases |chain|
  {
    if name in chain[0] {
      assert IsFirstHolder(chain, name, 0);
    } else {
      LookupHasFirstHolder(chain[1..], name);
      var k :| IsFirstHolder(chain[1..], name, k) && chain[1..][k][name] == Lookup(chain[1..], name).value;
      assert IsFirstHolder(chain, name, k + 1) by {
        forall j | 0 <= j < k + 1 ensures name !in chain[j] {
          if j > 0 { assert chain[j] == chain[1..][j - 1]; }
        }
      }
    }
  }
}
