/** Failures raised by the pipeline's record functions, and the all-or-nothing
    evaluation of a transform over a whole collection: one failing element
    aborts the batch run. */
module Errors {

  datatype Option<+T> = None | Some(value: T)

  /** The failures the record functions can raise. Python reports a tuple
      unpacking of the wrong arity as a `ValueError`; the model gives it its
      own label, `UnpackError`, to keep it apart from a failed `float`. */
  datatype Failure =
    | KeyError(key: string)                  // a dictionary field is absent
    | UnpackError(expected: nat, got: nat)   // ValueError: tuple unpacking of the wrong arity
    | ValueError(text: string)               // a measure that is not a number
    | IndexError(field: string)              // the first element of an empty list

  datatype Result<+T> = Ok(value: T) | Err(error: Failure)

  /** Applies `f` to every element in order (a `Map` step); the first failure
      aborts the whole run. */
  function Traverse<A, B>(xs: seq<A>, f: A -> Result<B>): (r: Result<seq<B>>)
    ensures r.Ok? <==> forall i :: 0 <= i < |xs| ==> f(xs[i]).Ok?
    ensures r.Ok? ==> |r.value| == |xs|
    ensures r.Ok? ==> forall i :: 0 <= i < |xs| ==> r.value[i] == f(xs[i]).value
    ensures r.Err? ==> exists i :: 0 <= i < |xs| && f(xs[i]) == Err(r.error)
                                  && forall j :: 0 <= j < i ==> f(xs[j]).Ok?
  {
    if xs == [] then Ok([])
    else
      match f(xs[0])
      case Err(e) => Err(e)
      case Ok(y) =>
        match Traverse(xs[1..], f)
        case Err(e) => Err(e)
        case Ok(ys) => Ok([y] + ys)
  }

  /** The outcome of running two batches one after the other. */
  function Then<B>(a: Result<seq<B>>, b: Result<seq<B>>): Result<seq<B>>
  {
    match a
    case Err(e) => Err(e)
    case Ok(xs) =>
      match b
      case Err(e) => Err(e)
      case Ok(ys) => Ok(xs + ys)
  }

  lemma {:induction false} TraverseAppend<A, B>(xs: seq<A>, ys: seq<A>, f: A -> Result<B>)
    ensures Traverse(xs + ys, f) == Then(Traverse(xs, f), Traverse(ys, f))
    decreases |xs|
  {
    if xs != [] {
      assert (xs + ys)[0] == xs[0];
      assert (xs + ys)[1..] == xs[1..] + ys;
      TraverseAppend(xs[1..], ys, f);
      match Traverse(xs[1..], f)
      case Err(_) =>
      case Ok(us) =>
        match Traverse(ys, f)
        case Err(_) =>
        case Ok(bs) =>
          if f(xs[0]).Ok? {
            assert [f(xs[0]).value] + (us + bs) == ([f(xs[0]).value] + us) + bs;
          }
    } else {
      assert xs + ys == ys;
      match Traverse(ys, f)
      case Err(_) =>
      case Ok(vs) => assert [] + vs == vs;
    }
  }

  /** One more successful element extends the run by its value. */
  lemma TraverseStep<A, B>(xs: seq<A>, i: nat, f: A -> Result<B>)
    requires i < |xs| && Traverse(xs[..i], f).Ok? && f(xs[i]).Ok?
    ensures Traverse(xs[..i + 1], f) == Ok(Traverse(xs[..i], f).value + [f(xs[i]).value])
  {
    assert xs[..i + 1] == xs[..i] + [xs[i]];
    TraverseAppend(xs[..i], [xs[i]], f);
    assert [xs[i]][1..] == [];
    assert Traverse([xs[i]], f) == Ok([f(xs[i]).value] + []);
    assert [f(xs[i]).value] + [] == [f(xs[i]).value];
  }

  /** After a successful prefix, the first failing element decides the run. */
  lemma TraverseStops<A, B>(xs: seq<A>, i: nat, f: A -> Result<B>)
    requires i < |xs| && Traverse(xs[..i], f).Ok? && f(xs[i]).Err?
    ensures Traverse(xs, f) == Err(f(xs[i]).error)
  {
    assert xs == xs[..i] + xs[i..];
    TraverseAppend(xs[..i], xs[i..], f);
    assert xs[i..][0] == xs[i];
  }

  /** Two runs whose elements produce the same outcomes, position by
      position, have the same outcome. */
  lemma {:induction false} TraversePointwise<A, A', B>(xs: seq<A>, ys: seq<A'>, f: A -> Result<B>, g: A' -> Result<B>)
    requires |xs| == |ys|
    requires forall i :: 0 <= i < |xs| ==> f(xs[i]) == g(ys[i])
    ensures Traverse(xs, f) == Traverse(ys, g)
    decreases |xs|
  {
    if xs != [] {
      TraversePointwise(xs[1..], ys[1..], f, g);
    }
  }

  /** Reordering the input does not change whether the run succeeds. */
  lemma TraverseOkPermutation<A, B>(xs: seq<A>, ys: seq<A>, f: A -> Result<B>)
    requires multiset(xs) == multiset(ys)
    ensures Traverse(xs, f).Ok? <==> Traverse(ys, f).Ok?
  {
    forall i | 0 <= i < |xs| ensures xs[i] in ys {
      assert xs[i] in multiset(ys);
    }
    forall i | 0 <= i < |ys| ensures ys[i] in xs {
      assert ys[i] in multiset(xs);
    }
  }

  /** The values of a successful run around one element. */
  lemma TraverseAround<A, B>(front: seq<A>, x: A, back: seq<A>, f: A -> Result<B>)
    requires Traverse(front + [x] + back, f).Ok?
    ensures Traverse(front, f).Ok? && Traverse(back, f).Ok? && f(x).Ok?
    ensures Traverse(front + back, f).Ok?
    ensures Traverse(front + [x] + back, f).value
         == Traverse(front, f).value + [f(x).value] + Traverse(back, f).value
    ensures Traverse(front + back, f).value == Traverse(front, f).value + Traverse(back, f).value
  {
    TraverseAppend(front + [x], back, f);
    TraverseAppend(front, [x], f);
    TraverseAppend(front, back, f);
    assert Traverse([x], f) == Ok([f(x).value] + []);
    assert [f(x).value] + [] == [f(x).value];
  }

  /** Reordering the input of a successful run does not change the multiset
      of values it produces. */
  lemma {:induction false} TraversePermutation<A, B>(xs: seq<A>, ys: seq<A>, f: A -> Result<B>)
    requires multiset(xs) == multiset(ys)
    requires Traverse(xs, f).Ok?
    ensures Traverse(ys, f).Ok?
    ensures multiset(Traverse(xs, f).value) == multiset(Traverse(ys, f).value)
    decreases |xs|
  {
    TraverseOkPermutation(xs, ys, f);
    if xs == [] {
      assert |ys| == |multiset(ys)| == |multiset(xs)| == 0;
    } else {
      assert xs[0] in multiset(ys);
      var j :| 0 <= j < |ys| && ys[j] == xs[0];
      RemoveOne(xs, ys, j);
      PermutationStep(xs, ys, j, f);
      TraversePermutation(xs[1..], ys[..j] + ys[j+1..], f);
    }
  }

  /** The inductive step of `TraversePermutation`: the first element of `xs`
      sits at `j` in `ys`. */
  lemma PermutationStep<A, B>(xs: seq<A>, ys: seq<A>, j: nat, f: A -> Result<B>)
    requires xs != [] && j < |ys| && ys[j] == xs[0]
    requires Traverse(xs, f).Ok? && Traverse(ys, f).Ok?
    ensures Traverse(xs[1..], f).Ok? && Traverse(ys[..j] + ys[j+1..], f).Ok?
    ensures multiset(Traverse(xs[1..], f).value) == multiset(Traverse(ys[..j] + ys[j+1..], f).value)
            ==> multiset(Traverse(xs, f).value) == multiset(Traverse(ys, f).value)
  {
    var x, front, back := xs[0], ys[..j], ys[j+1..];
    assert ys == front + [x] + back;
    assert xs == [] + [x] + xs[1..];
    assert [] + xs[1..] == xs[1..];
    TraverseAround([], x, xs[1..], f);
    TraverseAround(front, x, back, f);
    var v := f(x).value;
    var tail := Traverse(xs[1..], f).value;
    var a, b := Traverse(front, f).value, Traverse(back, f).value;
    assert Traverse(xs, f).value == [] + [v] + tail;
    assert Traverse(ys, f).value == a + [v] + b;
    if multiset(tail) == multiset(a + b) {
      calc {
        multiset(Traverse(xs, f).value);
        multiset([v]) + multiset(tail);
        multiset([v]) + multiset(a) + multiset(b);
        multiset(a + [v] + b);
      }
    }
  }

  /** Taking the same element out of two equal multisets. */
  lemma RemoveOne<A>(xs: seq<A>, ys: seq<A>, j: nat)
    requires multiset(xs) == multiset(ys) && xs != [] && j < |ys| && ys[j] == xs[0]
    ensures multiset(xs[1..]) == multiset(ys[..j] + ys[j+1..])
  {
    assert xs == [xs[0]] + xs[1..];
    assert ys == ys[..j] + [ys[j]] + ys[j+1..];
    calc {
      multiset(xs[1..]);
      multiset(xs) - multiset{xs[0]};
      multiset(ys) - multiset{xs[0]};
      multiset(ys[..j]) + multiset(ys[j+1..]);
      multiset(ys[..j] + ys[j+1..]);
    }
  }

  /** Applies `f` to every element in order and concatenates the emitted
      sequences (a `FlatMap` step); the first failure aborts the run. */
  function FlatTraverse<A, B>(xs: seq<A>, f: A -> Result<seq<B>>): (r: Result<seq<B>>)
    ensures r.Ok? <==> forall i :: 0 <= i < |xs| ==> f(xs[i]).Ok?
  {
    if xs == [] then Ok([])
    else Then(f(xs[0]), FlatTraverse(xs[1..], f))
  }
}
