/**
 * The contract every transform follows: `isApplicable` decides whether the transform runs and
 * produces its state; `transformField` rewrites the outgoing query using that state;
 * `getResultInstructions` rewrites the result using the same state.
 */
module Transform {
  import opened Wrappers
  import opened Fields
  import opened Json

  /**
   * What `transformField` returns. `newField == None` deletes the field from the outgoing
   * query; `artificialFields` are extra selections the transform needs for itself, and
   * default to none.
   */
  datatype TransformFieldResult = TransformFieldResult(newField: Option<Field>, artificialFields: seq<Field> := [])
  {
    /** The field is removed from the outgoing query. */
    predicate DeletesField() {
      newField.None?
    }
  }

  /** The idiomatic "nothing changed" result: the same field, no artificial fields. */
  function Unmodified(field: Field): (r: TransformFieldResult)
    ensures r.newField == Some(field) && !r.DeletesField()
    ensures r.artificialFields == []
  {
    TransformFieldResult(Some(field))
  }

  /**
   * The aliasing scheme a transform uses for the artificial fields it adds. Its internals are
   * not part of this model: the type-name result key and the two mappings are given.
   */
  datatype AliasHelper = AliasHelper(
    typeNameResultKey: string,
    toArtificial: Field -> Field,
    getQueryPath: seq<string> -> seq<string>)

  /**
   * One transform applied to one field, as the engine drives the three phases: nothing runs
   * unless `isApplicable` yields a state, and that one state feeds both later phases.
   */
  function RunTransform<S>(
    isApplicable: Field -> Option<S>,
    transformField: (Field, S) -> TransformFieldResult,
    getResultInstructions: (Field, S) -> seq<ResultInstruction>,
    field: Field): (r: Option<(TransformFieldResult, seq<ResultInstruction>)>)
    ensures r.None? <==> isApplicable(field).None?
    ensures r.Some? ==>
      && r.value.0 == transformField(field, isApplicable(field).value)
      && r.value.1 == getResultInstructions(field, isApplicable(field).value)
  {
    match isApplicable(field)
    case None => None
    case Some(state) => Some((transformField(field, state), getResultInstructions(field, state)))
  }

  /** The elements of `xs` that `f` maps to a value, in order. */
  function Kept<A, B>(xs: seq<A>, f: A -> Option<B>): (r: seq<A>)
    ensures |r| <= |xs|
    ensures forall i :: 0 <= i < |r| ==> r[i] in xs && f(r[i]).Some?
    ensures forall i :: 0 <= i < |xs| && f(xs[i]).Some? ==> xs[i] in r
  {
    if xs == [] then []
    else (if f(xs[0]).Some? then [xs[0]] else []) + Kept(xs[1..], f)
  }

  /** Kotlin's `mapNotNull`: the values `f` yields, in order, skipping the elements it maps to nothing. */
  function MapNotNull<A, B>(xs: seq<A>, f: A -> Option<B>): (r: seq<B>)
    ensures |r| == |Kept(xs, f)|
    ensures forall i :: 0 <= i < |r| ==> f(Kept(xs, f)[i]) == Some(r[i])
  {
    if xs == [] then []
    else
      var rest := MapNotNull(xs[1..], f);
      match f(xs[0])
      case Some(y) =>
        assert Kept(xs, f) == [xs[0]] + Kept(xs[1..], f);
        [y] + rest
      case None =>
        assert Kept(xs, f) == Kept(xs[1..], f);
        rest
  }

  /** The instructions of a successful step, none for a failed one (used only where every step succeeded). */
  function ValueOrEmpty<T>(r: Result<seq<T>>): seq<T> {
    if r.Success? then r.value else []
  }

  /** Kotlin's `flatMap`: the lists `f` yields, concatenated in order. */
  function FlatMap<A, B>(xs: seq<A>, f: A -> seq<B>): seq<B> {
    if xs == [] then [] else f(xs[0]) + FlatMap(xs[1..], f)
  }

  /** `flatMap` over a concatenation is the concatenation of the two `flatMap`s. */
  lemma {:induction false} FlatMapAppend<A, B>(xs: seq<A>, ys: seq<A>, f: A -> seq<B>)
    ensures FlatMap(xs + ys, f) == FlatMap(xs, f) + FlatMap(ys, f)
  {
    if xs == [] {
      assert xs + ys == ys;
    } else {
      assert (xs + ys)[1..] == xs[1..] + ys;
      FlatMapAppend(xs[1..], ys, f);
    }
  }

  /** Every element of a `flatMap` comes from some input element, and every output of an input element is kept. */
  lemma {:induction false} FlatMapMembership<A, B>(xs: seq<A>, f: A -> seq<B>, y: B)
    ensures y in FlatMap(xs, f) <==> exists x :: x in xs && y in f(x)
  {
    if xs != [] {
      FlatMapMembership(xs[1..], f, y);
      assert forall x :: x in xs <==> x == xs[0] || x in xs[1..];
    }
  }

  /** The lists a fallible step yields, with none for a failure. */
  function Values<A, B>(f: A -> Result<seq<B>>): A -> seq<B> {
    x => ValueOrEmpty(f(x))
  }

  /**
   * `flatMap` with a step that can throw: the lists `f` yields, concatenated in order, or the
   * first failure.
   */
  function FlatMapResult<A, B>(xs: seq<A>, f: A -> Result<seq<B>>): (r: Result<seq<B>>)
    ensures r.Failure? <==> exists i :: 0 <= i < |xs| && f(xs[i]).Failure?
    ensures r.Success? ==> r.value == FlatMap(xs, Values(f))
  {
    if xs == [] then Success([])
    else
      var first :- f(xs[0]);
      var rest :- FlatMapResult(xs[1..], f);
      assert forall i :: 1 <= i < |xs| ==> xs[i] == xs[1..][i - 1];
      Success(first + rest)
  }

  /** A failing `flatMap` over a concatenation succeeds on both parts, and its lists are theirs, in order. */
  lemma FlatMapResultAppend<A, B>(xs: seq<A>, ys: seq<A>, f: A -> Result<seq<B>>)
    requires FlatMapResult(xs + ys, f).Success?
    ensures FlatMapResult(xs, f).Success? && FlatMapResult(ys, f).Success?
    ensures FlatMapResult(xs + ys, f).value == FlatMapResult(xs, f).value + FlatMapResult(ys, f).value
  {
    assert forall i :: 0 <= i < |xs| ==> (xs + ys)[i] == xs[i];
    assert forall i :: 0 <= i < |ys| ==> (xs + ys)[|xs| + i] == ys[i];
    FlatMapAppend(xs, ys, Values(f));
  }
}
