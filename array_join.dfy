/**
 * `Array.prototype.join` on an array of strings, and its inverse for the
 * separator ", " that the guard's error message uses.
 */
module ArrayJoin {

  const Separator: string := ", "

  /** `xs.join(sep)`: the empty array gives "", otherwise the elements with
      `sep` between neighbours. */
  function Join(xs: seq<string>, sep: string): (r: string)
    decreases |xs|
  {
    if |xs| == 0 then ""
    else if |xs| == 1 then xs[0]
    else xs[0] + sep + Join(xs[1..], sep)
  }

  /** Cuts a string at every occurrence of ", "; a string without one is a
      single piece. */
  function Split(s: string): (r: seq<string>)
    ensures |r| >= 1
    decreases |s|
  {
    if |s| == 0 then [""]
    else if |s| >= 2 && s[0] == ',' && s[1] == ' ' then [""] + Split(s[2..])
    else
      var rest := Split(s[1..]);
      [[s[0]] + rest[0]] + rest[1..]
  }

  /** A piece contains no comma, so it cannot hide a separator. */
  ghost predicate CommaFree(x: string)
  {
    forall i :: 0 <= i < |x| ==> x[i] != ','
  }

  lemma {:induction false} SplitCommaFree(x: string)
    requires CommaFree(x)
    ensures Split(x) == [x]
    decreases |x|
  {
    if |x| > 0 {
      SplitCommaFree(x[1..]);
      assert [x[0]] + x[1..] == x;
    }
  }

  lemma {:induction false} SplitAtFirstSeparator(x: string, t: string)
    requires CommaFree(x)
    ensures Split(x + Separator + t) == [x] + Split(t)
    decreases |x|
  {
    var s := x + Separator + t;
    if |x| == 0 {
      assert s == ", " + t;
      assert s[2..] == t;
    } else {
      assert s[1..] == x[1..] + Separator + t;
      SplitAtFirstSeparator(x[1..], t);
      assert [x[0]] + x[1..] == x;
    }
  }

  /** Joining comma-free pieces with ", " and splitting again gives the pieces
      back, in order: the joined list loses nothing. */
  lemma {:induction false} SplitJoin(xs: seq<string>)
    requires |xs| >= 1
    requires forall i :: 0 <= i < |xs| ==> CommaFree(xs[i])
    ensures Split(Join(xs, Separator)) == xs
    decreases |xs|
  {
    if |xs| == 1 {
      SplitCommaFree(xs[0]);
    } else {
      SplitJoin(xs[1..]);
      SplitAtFirstSeparator(xs[0], Join(xs[1..], Separator));
      assert [xs[0]] + xs[1..] == xs;
    }
  }
}
