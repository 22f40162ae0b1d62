/**
 * The loop shape every loader shares: walk a list, append what each element yields to one result
 * list, and stop at the first exception. A `Partial` is the list built so far together with the
 * exception that stopped the walk, if any; whoever catches the exception keeps the list, whoever
 * lets it propagate drops it.
 */
module Gathering {
  import opened Python

  datatype Partial<+U> = Partial(items: seq<U>, failure: Option<Error>)

  /** A single value, or the exception raised computing it, as a step of a walk. */
  function FromResult<U>(r: Result<U>): (p: Partial<U>)
    ensures r.Ok? ==> p == Partial([r.value], None)
    ensures r.Err? ==> p == Partial([], Some(r.error))
  {
    match r
    case Ok(v) => Partial([v], None)
    case Err(e) => Partial([], Some(e))
  }

  /** A list, or the exception raised computing it, as a step of a walk. */
  function FromResults<U>(r: Result<seq<U>>): (p: Partial<U>)
    ensures r.Ok? ==> p == Partial(r.value, None)
    ensures r.Err? ==> p == Partial([], Some(r.error))
  {
    match r
    case Ok(vs) => Partial(vs, None)
    case Err(e) => Partial([], Some(e))
  }

  /** A walk that let its exception propagate: the list is lost. */
  function ToResult<U>(p: Partial<U>): (r: Result<seq<U>>)
    ensures p.failure.None? ==> r == Ok(p.items)
    ensures p.failure.Some? ==> r == Err(p.failure.value)
  {
    if p.failure.Some? then Err(p.failure.value) else Ok(p.items)
  }

  /** Step `f` over `xs` in order, appending, until a step raises. */
  function Gather<T, U>(xs: seq<T>, f: T -> Partial<U>): Partial<U>
    decreases |xs|
  {
    if xs == [] then Partial([], None)
    else
      var done := Gather(xs[..|xs| - 1], f);
      if done.failure.Some? then done
      else
        var last := f(xs[|xs| - 1]);
        Partial(done.items + last.items, last.failure)
  }

  /** One more loop iteration: what the walk over `xs[..i + 1]` is, given the walk over `xs[..i]`. */
  lemma GatherStep<T, U>(xs: seq<T>, f: T -> Partial<U>, i: nat)
    requires i < |xs|
    ensures Gather(xs[..i + 1], f) ==
      (var done := Gather(xs[..i], f);
       if done.failure.Some? then done
       else Partial(done.items + f(xs[i]).items, f(xs[i]).failure))
  {
    assert xs[..i + 1][..i] == xs[..i];
  }

  /** Once a step has raised, the later elements are never visited. */
  lemma {:induction false} GatherStops<T, U>(xs: seq<T>, f: T -> Partial<U>, i: nat)
    requires i <= |xs|
    requires Gather(xs[..i], f).failure.Some?
    ensures Gather(xs, f) == Gather(xs[..i], f)
    decreases |xs| - i
  {
    if i == |xs| {
      assert xs[..i] == xs;
    } else {
      GatherStep(xs, f, i);
      GatherStops(xs, f, i + 1);
    }
  }

  /**
   * One iteration of a loop that lets exceptions propagate: after a walk of `xs[..i]` that
   * completed with `items`, a step yielding a list extends it, and a step raising decides the
   * result of the whole walk.
   */
  lemma GatherPropagates<T, U>(xs: seq<T>, f: T -> Partial<U>, i: nat, items: seq<U>, r: Result<seq<U>>)
    requires i < |xs|
    requires Gather(xs[..i], f) == Partial(items, None)
    requires f(xs[i]) == FromResults(r)
    ensures r.Ok? ==> Gather(xs[..i + 1], f) == Partial(items + r.value, None)
    ensures r.Err? ==> ToResult(Gather(xs, f)) == Err(r.error)
  {
    GatherStep(xs, f, i);
    if r.Err? {
      GatherStops(xs, f, i + 1);
    }
  }

  /** The end of such a loop: a walk of every element that completed with `items` returns them. */
  lemma GatherDone<T, U>(xs: seq<T>, f: T -> Partial<U>, items: seq<U>)
    requires Gather(xs[..|xs|], f) == Partial(items, None)
    ensures ToResult(Gather(xs, f)) == Ok(items)
  {
    assert xs[..|xs|] == xs;
  }

  /** Walking `a + b` is walking `a`, then (if nothing raised) walking `b` and appending. */
  lemma {:induction false} GatherAppend<T, U>(a: seq<T>, b: seq<T>, f: T -> Partial<U>)
    ensures Gather(a + b, f) ==
      (var first := Gather(a, f);
       if first.failure.Some? then first
       else Partial(first.items + Gather(b, f).items, Gather(b, f).failure))
    decreases |b|
  {
    if b == [] {
      assert a + b == a;
    } else {
      var ab := a + b;
      assert ab[..|ab| - 1] == a + b[..|b| - 1];
      GatherAppend(a, b[..|b| - 1], f);
      assert ab[|ab| - 1] == b[|b| - 1];
    }
  }

  /** The walk's list is the concatenation of what each visited element yielded. */
  function Flatten<T, U>(xs: seq<T>, f: T -> Partial<U>): seq<U>
    decreases |xs|
  {
    if xs == [] then [] else Flatten(xs[..|xs| - 1], f) + f(xs[|xs| - 1]).items
  }

  /** A walk that raised nowhere yields exactly the concatenation, and no step raised. */
  lemma {:induction false} GatherComplete<T, U>(xs: seq<T>, f: T -> Partial<U>)
    requires Gather(xs, f).failure.None?
    ensures Gather(xs, f).items == Flatten(xs, f)
    ensures forall i :: 0 <= i < |xs| ==> f(xs[i]).failure.None?
    decreases |xs|
  {
    if xs != [] {
      var init := xs[..|xs| - 1];
      GatherComplete(init, f);
      forall i | 0 <= i < |xs| ensures f(xs[i]).failure.None? {
        if i < |xs| - 1 { assert init[i] == xs[i]; }
      }
    }
  }

  /** A walk that stopped: some element raised, everything before it was visited normally. */
  lemma {:induction false} GatherFailed<T, U>(xs: seq<T>, f: T -> Partial<U>)
    requires Gather(xs, f).failure.Some?
    ensures exists i :: 0 <= i < |xs| && f(xs[i]).failure == Gather(xs, f).failure
                     && Gather(xs, f).items == Flatten(xs[..i + 1], f)
    decreases |xs|
  {
    var init := xs[..|xs| - 1];
    var last := |xs| - 1;
    if Gather(init, f).failure.Some? {
      GatherFailed(init, f);
      var i :| 0 <= i < |init| && f(init[i]).failure == Gather(init, f).failure
                && Gather(init, f).items == Flatten(init[..i + 1], f);
      assert init[..i + 1] == xs[..i + 1] && init[i] == xs[i];
    } else {
      GatherComplete(init, f);
      assert xs[..last + 1] == xs && xs[..last + 1][..last] == init;
    }
  }

  /** A walk raises exactly when one of its elements raises, and then with that element's exception. */
  lemma GatherSucceeds<T, U>(xs: seq<T>, f: T -> Partial<U>)
    ensures Gather(xs, f).failure.None? <==> forall x :: x in xs ==> f(x).failure.None?
    ensures Gather(xs, f).failure.Some? ==> exists x :: x in xs && f(x).failure == Gather(xs, f).failure
  {
    if Gather(xs, f).failure.None? {
      GatherComplete(xs, f);
      forall x | x in xs ensures f(x).failure.None? {
        var i :| 0 <= i < |xs| && xs[i] == x;
      }
    } else {
      GatherFailed(xs, f);
      var i :| 0 <= i < |xs| && f(xs[i]).failure == Gather(xs, f).failure && Gather(xs, f).items == Flatten(xs[..i + 1], f);
      assert xs[i] in xs;
    }
  }

  /** A walk whose exception propagates: it succeeds when no element raises, with everything gathered. */
  lemma GatherResult<T, U>(xs: seq<T>, f: T -> Partial<U>)
    ensures ToResult(Gather(xs, f)).Ok? <==> forall x :: x in xs ==> f(x).failure.None?
    ensures ToResult(Gather(xs, f)).Ok? ==> ToResult(Gather(xs, f)).value == Flatten(xs, f)
    ensures ToResult(Gather(xs, f)).Err? ==> exists x :: x in xs && f(x).failure == Some(ToResult(Gather(xs, f)).error)
  {
    GatherSucceeds(xs, f);
    if Gather(xs, f).failure.None? {
      GatherComplete(xs, f);
    }
  }

  /** When every step yields at most one item, the walk yields at most one item per element visited. */
  lemma {:induction false} GatherAtMostOne<T, U>(xs: seq<T>, f: T -> Partial<U>)
    requires forall x :: x in xs ==> |f(x).items| <= 1
    ensures |Gather(xs, f).items| <= |xs|
    decreases |xs|
  {
    if xs != [] {
      var init := xs[..|xs| - 1];
      assert forall x :: x in init ==> x in xs;
      GatherAtMostOne(init, f);
    }
  }

  /** When every step yields exactly one item or raises, a walk that never raised has one item per element. */
  lemma {:induction false} GatherOneEach<T, U>(xs: seq<T>, f: T -> Partial<U>)
    requires forall x :: x in xs ==> |f(x).items| == 1 || f(x).failure.Some?
    requires Gather(xs, f).failure.None?
    ensures |Gather(xs, f).items| == |xs|
    ensures forall i :: 0 <= i < |xs| ==> |f(xs[i]).items| == 1
    ensures forall i :: 0 <= i < |xs| ==> Gather(xs, f).items[i] == f(xs[i]).items[0]
    decreases |xs|
  {
    GatherComplete(xs, f);
    if xs != [] {
      var init := xs[..|xs| - 1];
      assert forall x :: x in init ==> x in xs;
      GatherOneEach(init, f);
      var done := Gather(init, f);
      var last := f(xs[|xs| - 1]);
      assert Gather(xs, f).items == done.items + last.items;
      forall i | 0 <= i < |xs| ensures Gather(xs, f).items[i] == f(xs[i]).items[0] {
        if i < |xs| - 1 { assert init[i] == xs[i]; }
      }
    }
  }

  /** Whatever holds of every item each step yields holds of every item the walk yields. */
  lemma {:induction false} GatherAll<T, U>(xs: seq<T>, f: T -> Partial<U>, P: U -> bool)
    requires forall x, u :: x in xs && u in f(x).items ==> P(u)
    ensures forall u :: u in Gather(xs, f).items ==> P(u)
    decreases |xs|
  {
    if xs != [] {
      var init := xs[..|xs| - 1];
      assert forall x :: x in init ==> x in xs;
      GatherAll(init, f, P);
      assert xs[|xs| - 1] in xs;
    }
  }
}
