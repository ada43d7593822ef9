/**
 * The loop `for x in xs: if test(x): out.append(f(x))`, whose test may raise, and the plain filter
 * it computes when nothing raises.
 */
module Filters {
  import opened Outcomes

  /** The loop over `xs` in order: the first test that raises ends it with that error. */
  function TryPick<T, U>(xs: seq<T>, test: T -> Result<bool>, f: T -> U): (r: Result<seq<U>>)
  {
    if xs == [] then Ok([])
    else
      var x := xs[|xs| - 1];
      match TryPick(xs[..|xs| - 1], test, f)
      case Err(e) => Err(e)
      case Ok(us) =>
        match test(x)
        case Err(e) => Err(e)
        case Ok(b) => Ok(if b then us + [f(x)] else us)
  }

  /** `[f(x) for x in xs if p(x)]`. */
  function Pick<T, U>(xs: seq<T>, p: T -> bool, f: T -> U): (us: seq<U>)
  {
    if xs == [] then [] else Pick(xs[..|xs| - 1], p, f) + (if p(xs[|xs| - 1]) then [f(xs[|xs| - 1])] else [])
  }

  /** One more pass of the loop. */
  lemma TryPickSnoc<T, U>(xs: seq<T>, x: T, test: T -> Result<bool>, f: T -> U)
    ensures TryPick(xs + [x], test, f) ==
      match TryPick(xs, test, f)
      case Err(e) => Err(e)
      case Ok(us) =>
        match test(x)
        case Err(e) => Err(e)
        case Ok(b) => Ok(if b then us + [f(x)] else us)
  {
    assert (xs + [x])[..|xs|] == xs;
  }

  /** A prefix one longer is the prefix and the next element. */
  lemma PrefixNext<T>(xs: seq<T>, i: nat)
    requires i < |xs|
    ensures xs[..i + 1] == xs[..i] + [xs[i]]
  {
  }

  /** Once a pass raises, the loop over any longer prefix raises the same. */
  lemma {:induction false} TryPickStops<T, U>(xs: seq<T>, n: nat, test: T -> Result<bool>, f: T -> U)
    requires n <= |xs| && TryPick(xs[..n], test, f).Err?
    ensures TryPick(xs, test, f) == TryPick(xs[..n], test, f)
    decreases |xs| - n
  {
    if n < |xs| {
      assert xs[..n + 1][..n] == xs[..n];
      TryPickStops(xs, n + 1, test, f);
    } else {
      assert xs[..n] == xs;
    }
  }

  /** The loop raises nothing exactly when no test raises. */
  lemma {:induction false} TryPickSucceeds<T, U>(xs: seq<T>, test: T -> Result<bool>, f: T -> U)
    ensures TryPick(xs, test, f).Ok? <==> forall i :: 0 <= i < |xs| ==> test(xs[i]).Ok?
  {
    if xs != [] {
      var init := xs[..|xs| - 1];
      TryPickSucceeds(init, test, f);
      assert forall i :: 0 <= i < |init| ==> init[i] == xs[i];
    }
  }

  /**
   * A second loop over what the first one kept, when neither raises, is one filter over `xs`
   * keeping what passes both tests.
   */
  lemma {:induction false} TryPickThenTryPick<T, U, W>(xs: seq<T>, t1: T -> Result<bool>, f: T -> U,
                                                      t2: U -> Result<bool>, g: U -> W, p: T -> bool, h: T -> W)
    requires forall i :: 0 <= i < |xs| ==> t1(xs[i]).Ok? && (t1(xs[i]) == Ok(true) ==> t2(f(xs[i])).Ok?)
    requires forall i :: 0 <= i < |xs| ==> p(xs[i]) == (t1(xs[i]) == Ok(true) && t2(f(xs[i])) == Ok(true))
    requires forall i :: 0 <= i < |xs| && p(xs[i]) ==> h(xs[i]) == g(f(xs[i]))
    ensures TryPick(xs, t1, f).Ok?
    ensures TryPick(TryPick(xs, t1, f).value, t2, g) == Ok(Pick(xs, p, h))
  {
    if xs != [] {
      var init := xs[..|xs| - 1];
      var x := xs[|xs| - 1];
      assert forall i :: 0 <= i < |init| ==> init[i] == xs[i];
      TryPickThenTryPick(init, t1, f, t2, g, p, h);
      var us := TryPick(init, t1, f).value;
      assert TryPick(xs, t1, f) == Ok(if t1(x) == Ok(true) then us + [f(x)] else us);
      assert Pick(xs, p, h) == Pick(init, p, h) + (if p(x) then [h(x)] else []);
      assert TryPick(us, t2, g) == Ok(Pick(init, p, h));
      if t1(x) == Ok(true) {
        TryPickSnoc(us, f(x), t2, g);
        assert t2(f(x)).Ok?;
        assert p(x) == (t2(f(x)) == Ok(true));
        if p(x) {
          assert h(x) == g(f(x));
          assert TryPick(us + [f(x)], t2, g) == Ok(Pick(init, p, h) + [g(f(x))]);
        } else {
          assert TryPick(us + [f(x)], t2, g) == Ok(Pick(init, p, h));
          assert Pick(init, p, h) + [] == Pick(init, p, h);
          assert TryPick(xs, t1, f).value == us + [f(x)];
        }
      } else {
        assert !p(x);
        assert Pick(init, p, h) + [] == Pick(init, p, h);
        assert TryPick(xs, t1, f).value == us;
      }
    }
  }

  /** The second loop raises when a kept element fails its test. */
  lemma {:induction false} TryPickThenRaises<T, U, W>(xs: seq<T>, t1: T -> Result<bool>, f: T -> U,
                                                     t2: U -> Result<bool>, g: U -> W, i: nat)
    requires i < |xs| && TryPick(xs, t1, f).Ok?
    requires t1(xs[i]) == Ok(true) && t2(f(xs[i])).Err?
    ensures TryPick(TryPick(xs, t1, f).value, t2, g).Err?
  {
    var us := TryPick(xs, t1, f).value;
    KeptAt(xs, t1, f, i);
    var j :| 0 <= j < |us| && us[j] == f(xs[i]);
    TryPickSucceeds(us, t2, g);
  }

  /** An element whose test passes has its value kept. */
  lemma {:induction false} KeptAt<T, U>(xs: seq<T>, test: T -> Result<bool>, f: T -> U, i: nat)
    requires i < |xs| && TryPick(xs, test, f).Ok? && test(xs[i]) == Ok(true)
    ensures f(xs[i]) in TryPick(xs, test, f).value
  {
    var init := xs[..|xs| - 1];
    if i < |init| {
      assert init[i] == xs[i];
      KeptAt(init, test, f, i);
    }
  }

  /** Two maps that agree on what passes give the same filter. */
  lemma {:induction false} PickSameMap<T, U>(xs: seq<T>, p: T -> bool, f1: T -> U, f2: T -> U)
    requires forall i :: 0 <= i < |xs| && p(xs[i]) ==> f1(xs[i]) == f2(xs[i])
    ensures Pick(xs, p, f1) == Pick(xs, p, f2)
  {
    if xs != [] {
      var init := xs[..|xs| - 1];
      assert forall i :: 0 <= i < |init| ==> init[i] == xs[i];
      PickSameMap(init, p, f1, f2);
    }
  }

  /** Only what passes is kept, and each kept value comes from an element of `xs`. */
  lemma {:induction false} PickSound<T, U>(xs: seq<T>, p: T -> bool, f: T -> U, j: nat)
    requires j < |Pick(xs, p, f)|
    ensures exists i :: 0 <= i < |xs| && p(xs[i]) && Pick(xs, p, f)[j] == f(xs[i])
  {
    var init := xs[..|xs| - 1];
    if j < |Pick(init, p, f)| {
      PickSound(init, p, f, j);
      var i :| 0 <= i < |init| && p(init[i]) && Pick(init, p, f)[j] == f(init[i]);
      assert init[i] == xs[i];
    } else {
      assert p(xs[|xs| - 1]) && Pick(xs, p, f)[j] == f(xs[|xs| - 1]);
    }
  }

  /** Everything that passes is kept. */
  lemma {:induction false} PickComplete<T, U>(xs: seq<T>, p: T -> bool, f: T -> U, i: nat)
    requires i < |xs| && p(xs[i])
    ensures f(xs[i]) in Pick(xs, p, f)
  {
    var init := xs[..|xs| - 1];
    if i < |init| {
      assert init[i] == xs[i];
      PickComplete(init, p, f, i);
    }
  }

  /** When nothing passes, nothing is kept. */
  lemma {:induction false} PickEmpty<T, U>(xs: seq<T>, p: T -> bool, f: T -> U)
    requires forall i :: 0 <= i < |xs| ==> !p(xs[i])
    ensures Pick(xs, p, f) == []
  {
    if xs != [] {
      var init := xs[..|xs| - 1];
      assert forall i :: 0 <= i < |init| ==> init[i] == xs[i];
      PickEmpty(init, p, f);
    }
  }

  /** The positions in `xs` of the elements that pass, in increasing order. */
  function Passing<T>(xs: seq<T>, p: T -> bool): (ix: seq<nat>)
    ensures forall j :: 0 <= j < |ix| ==> ix[j] < |xs|
  {
    if xs == [] then [] else Passing(xs[..|xs| - 1], p) + (if p(xs[|xs| - 1]) then [|xs| - 1] else [])
  }

  /** What is kept keeps the order of `xs`: the `j`-th kept value comes from the `j`-th passing position. */
  lemma {:induction false} PickInOrder<T, U>(xs: seq<T>, p: T -> bool, f: T -> U)
    ensures |Passing(xs, p)| == |Pick(xs, p, f)|
    ensures forall j :: 0 <= j < |Passing(xs, p)| ==>
      p(xs[Passing(xs, p)[j]]) && Pick(xs, p, f)[j] == f(xs[Passing(xs, p)[j]])
    ensures forall j, j' :: 0 <= j < j' < |Passing(xs, p)| ==> Passing(xs, p)[j] < Passing(xs, p)[j']
  {
    if xs != [] {
      var init := xs[..|xs| - 1];
      PickInOrder(init, p, f);
      assert forall i :: 0 <= i < |init| ==> init[i] == xs[i];
    }
  }
}
