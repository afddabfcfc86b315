/**
 * The execution plan for one top-level field sent to one service: the query is walked
 * depth-first, every transform is asked whether it applies to each field it reaches, and the
 * answers are collected as steps grouped per field; the type renames of every object type the
 * query touches are collected alongside.
 */
module ExecutionPlanFactory {
  import opened Wrappers
  import opened Fields
  import opened Grouping

  /**
   * A field as the walk reaches it, with the result keys of its ancestors: the walk identifies
   * fields by their position in pre-order, so two equal subtrees are still two fields.
   */
  datatype Visit = Visit(field: Field, parentKeys: seq<string>)

  /** One transform that applies to one field, with the state its `isApplicable` produced. */
  datatype Step<T, S> = Step(service: string, fieldIndex: nat, field: Field, transform: T, state: S)

  /** The steps grouped by field (in the order fields were first given a step) and the type renames by overall name. */
  datatype ExecutionPlan<T, S> = ExecutionPlan(
    transformationSteps: Groups<nat, Step<T, S>>,
    typeRenames: map<string, TypeRenameInstruction>)

  /** The transforms the factory is built with by default, in the order they are consulted. */
  datatype DefaultTransform = DeepRename | TypeRenameResult

  const DefaultTransforms: seq<DefaultTransform> := [DeepRename, TypeRenameResult]

  function FieldIndexOf<T, S>(s: Step<T, S>): nat {
    s.fieldIndex
  }

  /** The fields of the query rooted at `f`, parent before children, children in order. */
  function PreOrder(f: Field, parentKeys: seq<string>): (r: seq<Visit>)
    ensures |r| >= 1 && r[0] == Visit(f, parentKeys)
    decreases f, 1
  {
    [Visit(f, parentKeys)] + ChildrenPreOrder(f.children, ListOfResultKeys(parentKeys, f), |f.children|)
  }

  /** The pre-order walks of the first `n` of `children`, one after the other. */
  function ChildrenPreOrder(children: seq<Field>, parentKeys: seq<string>, n: nat): seq<Visit>
    requires n <= |children|
    decreases children, 0, n
  {
    if n == 0 then []
    else ChildrenPreOrder(children, parentKeys, n - 1) + PreOrder(children[n - 1], parentKeys)
  }

  /** The steps of the transforms in `ts` that apply to visit `v`, in transform order. */
  function TransformSteps<T, S>(
    isApplicable: (T, string, Visit) -> Option<S>, ts: seq<T>, service: string, index: nat, v: Visit): seq<Step<T, S>>
    decreases |ts|
  {
    if ts == [] then []
    else
      var t := ts[|ts| - 1];
      TransformSteps(isApplicable, ts[..|ts| - 1], service, index, v) +
      (match isApplicable(t, service, v)
       case Some(state) => [Step(service, index, v.field, t, state)]
       case None => [])
  }

  /** The steps of every visit in `visits`, the first numbered `start`, in walk order. */
  function StepsOf<T, S>(
    isApplicable: (T, string, Visit) -> Option<S>, ts: seq<T>, service: string, visits: seq<Visit>, start: nat): seq<Step<T, S>>
    decreases |visits|
  {
    if visits == [] then []
    else
      StepsOf(isApplicable, ts, service, visits[..|visits| - 1], start) +
      TransformSteps(isApplicable, ts, service, start + |visits| - 1, visits[|visits| - 1])
  }

  /** `renames` after recording the instruction of each type in `typeNames` that has one. */
  function AddTypeRenames(
    typeInstructions: map<string, TypeRenameInstruction>, renames: map<string, TypeRenameInstruction>,
    typeNames: seq<string>): map<string, TypeRenameInstruction>
    decreases |typeNames|
  {
    if typeNames == [] then renames
    else
      var m := AddTypeRenames(typeInstructions, renames, typeNames[..|typeNames| - 1]);
      var n := typeNames[|typeNames| - 1];
      if n in typeInstructions then m[typeInstructions[n].overallName := typeInstructions[n]] else m
  }

  /** `renames` after recording the type renames of every visited field. */
  function RenamesOf(
    typeInstructions: map<string, TypeRenameInstruction>, renames: map<string, TypeRenameInstruction>,
    visits: seq<Visit>): map<string, TypeRenameInstruction>
    decreases |visits|
  {
    if visits == [] then renames
    else
      AddTypeRenames(typeInstructions, RenamesOf(typeInstructions, renames, visits[..|visits| - 1]),
        visits[|visits| - 1].field.objectTypeNames)
  }

  /** The plan for `root`, as a function of the query. */
  function Plan<T, S>(
    isApplicable: (T, string, Visit) -> Option<S>, ts: seq<T>, typeInstructions: map<string, TypeRenameInstruction>,
    service: string, root: Field): ExecutionPlan<T, S>
  {
    var visits := PreOrder(root, []);
    ExecutionPlan(GroupBy(StepsOf(isApplicable, ts, service, visits, 0), FieldIndexOf), RenamesOf(typeInstructions, map[], visits))
  }

  /** The factory: the transforms, how each decides applicability, and the blueprint's type renames. */
  class PlanFactory<T, S> {
    const transforms: seq<T>
    const isApplicable: (T, string, Visit) -> Option<S>
    const typeInstructions: map<string, TypeRenameInstruction>

    constructor(transforms: seq<T>, isApplicable: (T, string, Visit) -> Option<S>, typeInstructions: map<string, TypeRenameInstruction>)
      ensures this.transforms == transforms && this.isApplicable == isApplicable
      ensures this.typeInstructions == typeInstructions
    {
      this.transforms := transforms;
      this.isApplicable := isApplicable;
      this.typeInstructions := typeInstructions;
    }

    /** Walks the query from `rootField`, accumulating steps and type renames, then groups the steps per field. */
    method Create(service: string, rootField: Field) returns (plan: ExecutionPlan<T, S>)
      ensures plan == Plan(isApplicable, transforms, typeInstructions, service, rootField)
    {
      var executionSteps: seq<Step<T, S>> := [];
      var typeRenames: map<string, TypeRenameInstruction> := map[];
      var next;
      executionSteps, typeRenames, next := TraverseQuery(service, rootField, [], 0, executionSteps, typeRenames);
      assert executionSteps == StepsOf(isApplicable, transforms, service, PreOrder(rootField, []), 0);
      plan := ExecutionPlan(GroupBy(executionSteps, FieldIndexOf), typeRenames);
    }

    /** What the walk does at one field: record its type renames, then ask every transform. */
    method VisitField(
      service: string, v: Visit, index: nat,
      executionSteps: seq<Step<T, S>>, typeRenames: map<string, TypeRenameInstruction>)
      returns (steps: seq<Step<T, S>>, renames: map<string, TypeRenameInstruction>)
      ensures steps == executionSteps + TransformSteps(isApplicable, transforms, service, index, v)
      ensures renames == AddTypeRenames(typeInstructions, typeRenames, v.field.objectTypeNames)
    {
      renames := typeRenames;
      var names := v.field.objectTypeNames;
      for i := 0 to |names|
        invariant renames == AddTypeRenames(typeInstructions, typeRenames, names[..i])
      {
        assert names[..i + 1][..i] == names[..i];
        if names[i] in typeInstructions {
          var instruction := typeInstructions[names[i]];
          renames := renames[instruction.overallName := instruction];
        }
      }
      assert names[..|names|] == names;
      steps := executionSteps;
      for j := 0 to |transforms|
        invariant steps == executionSteps + TransformSteps(isApplicable, transforms[..j], service, index, v)
      {
        assert transforms[..j + 1][..j] == transforms[..j];
        var state := isApplicable(transforms[j], service, v);
        if state.Some? {
          steps := steps + [Step(service, index, v.field, transforms[j], state.value)];
        }
      }
      assert transforms[..|transforms|] == transforms;
    }

    /** Visits `field` and then, in order, the subtrees of its children; `index` numbers the fields. */
    method TraverseQuery(
      service: string, field: Field, parentKeys: seq<string>, index: nat,
      executionSteps: seq<Step<T, S>>, typeRenames: map<string, TypeRenameInstruction>)
      returns (steps: seq<Step<T, S>>, renames: map<string, TypeRenameInstruction>, next: nat)
      ensures steps == executionSteps + StepsOf(isApplicable, transforms, service, PreOrder(field, parentKeys), index)
      ensures renames == RenamesOf(typeInstructions, typeRenames, PreOrder(field, parentKeys))
      ensures next == index + |PreOrder(field, parentKeys)|
      decreases field, 1
    {
      var v := Visit(field, parentKeys);
      steps, renames := VisitField(service, v, index, executionSteps, typeRenames);
      ghost var walked := [v];
      ghost var rest := ChildrenPreOrder(field.children, ListOfResultKeys(parentKeys, field), |field.children|);
      SingleVisit(isApplicable, transforms, typeInstructions, typeRenames, service, v, index);
      assert PreOrder(field, parentKeys) == walked + rest;
      StepsOfAppend(isApplicable, transforms, service, walked, rest, index);
      RenamesOfAppend(typeInstructions, typeRenames, walked, rest);
      steps, renames, next := TraverseChildren(service, field.children, ListOfResultKeys(parentKeys, field), index + 1, steps, renames);
    }

    /** The walks of `children`, one after the other, numbering fields from `index`. */
    method TraverseChildren(
      service: string, children: seq<Field>, parentKeys: seq<string>, index: nat,
      executionSteps: seq<Step<T, S>>, typeRenames: map<string, TypeRenameInstruction>)
      returns (steps: seq<Step<T, S>>, renames: map<string, TypeRenameInstruction>, next: nat)
      ensures steps == executionSteps + StepsOf(isApplicable, transforms, service, ChildrenPreOrder(children, parentKeys, |children|), index)
      ensures renames == RenamesOf(typeInstructions, typeRenames, ChildrenPreOrder(children, parentKeys, |children|))
      ensures next == index + |ChildrenPreOrder(children, parentKeys, |children|)|
      decreases children, 0
    {
      steps, renames, next := executionSteps, typeRenames, index;
      for j := 0 to |children|
        invariant steps == executionSteps + StepsOf(isApplicable, transforms, service, ChildrenPreOrder(children, parentKeys, j), index)
        invariant renames == RenamesOf(typeInstructions, typeRenames, ChildrenPreOrder(children, parentKeys, j))
        invariant next == index + |ChildrenPreOrder(children, parentKeys, j)|
      {
        ghost var walked := ChildrenPreOrder(children, parentKeys, j);
        ghost var child := PreOrder(children[j], parentKeys);
        ghost var before := steps;
        assert ChildrenPreOrder(children, parentKeys, j + 1) == walked + child;
        steps, renames, next := TraverseQuery(service, children[j], parentKeys, next, steps, renames);
        StepsOfAppend(isApplicable, transforms, service, walked, child, index);
        RenamesOfAppend(typeInstructions, typeRenames, walked, child);
        assert steps == executionSteps + (StepsOf(isApplicable, transforms, service, walked, index) +
          StepsOf(isApplicable, transforms, service, child, index + |walked|));
      }
    }
  }

  /** The walk of a single field is that field's visit. */
  lemma SingleVisit<T, S>(
    isApplicable: (T, string, Visit) -> Option<S>, ts: seq<T>, typeInstructions: map<string, TypeRenameInstruction>,
    renames: map<string, TypeRenameInstruction>, service: string, v: Visit, index: nat)
    ensures StepsOf(isApplicable, ts, service, [v], index) == TransformSteps(isApplicable, ts, service, index, v)
    ensures RenamesOf(typeInstructions, renames, [v]) == AddTypeRenames(typeInstructions, renames, v.field.objectTypeNames)
  {
    assert [v][..0] == [];
  }

  /** The steps of a walk split at any point: the second part continues the numbering. */
  lemma {:induction false} StepsOfAppend<T, S>(
    isApplicable: (T, string, Visit) -> Option<S>, ts: seq<T>, service: string, a: seq<Visit>, b: seq<Visit>, start: nat)
    ensures StepsOf(isApplicable, ts, service, a + b, start) ==
      StepsOf(isApplicable, ts, service, a, start) + StepsOf(isApplicable, ts, service, b, start + |a|)
    decreases |b|
  {
    if b != [] {
      var b', x := b[..|b| - 1], b[|b| - 1];
      assert (a + b)[..|a + b| - 1] == a + b';
      StepsOfAppend(isApplicable, ts, service, a, b', start);
    } else {
      assert a + b == a;
    }
  }

  /** Renames of a walk split at any point: the second part continues from the first. */
  lemma {:induction false} RenamesOfAppend(
    typeInstructions: map<string, TypeRenameInstruction>, renames: map<string, TypeRenameInstruction>,
    a: seq<Visit>, b: seq<Visit>)
    ensures RenamesOf(typeInstructions, renames, a + b) == RenamesOf(typeInstructions, RenamesOf(typeInstructions, renames, a), b)
    decreases |b|
  {
    if b != [] {
      var b', x := b[..|b| - 1], b[|b| - 1];
      assert (a + b)[..|a + b| - 1] == a + b';
      RenamesOfAppend(typeInstructions, renames, a, b');
    } else {
      assert a + b == a;
    }
  }

  /**
   * A step is produced for a visit exactly when its transform is one of the transforms and
   * `isApplicable` returned that step's state; the step carries the visit's field and number.
   */
  lemma {:induction false} TransformStepsMembership<T, S>(
    isApplicable: (T, string, Visit) -> Option<S>, ts: seq<T>, service: string, index: nat, v: Visit, step: Step<T, S>)
    ensures step in TransformSteps(isApplicable, ts, service, index, v) <==>
      && step.transform in ts
      && isApplicable(step.transform, service, v) == Some(step.state)
      && step == Step(service, index, v.field, step.transform, step.state)
    decreases |ts|
  {
    if ts != [] {
      var init, t := ts[..|ts| - 1], ts[|ts| - 1];
      assert ts == init + [t];
      TransformStepsMembership(isApplicable, init, service, index, v, step);
    }
  }

  /** Every step of a visit carries that visit's number. */
  lemma {:induction false} TransformStepsIndex<T, S>(
    isApplicable: (T, string, Visit) -> Option<S>, ts: seq<T>, service: string, index: nat, v: Visit)
    ensures forall i :: 0 <= i < |TransformSteps(isApplicable, ts, service, index, v)| ==>
      TransformSteps(isApplicable, ts, service, index, v)[i].fieldIndex == index
  {
    var steps := TransformSteps(isApplicable, ts, service, index, v);
    forall i | 0 <= i < |steps| ensures steps[i].fieldIndex == index {
      TransformStepsMembership(isApplicable, ts, service, index, v, steps[i]);
    }
  }

  /** The steps of the visit numbered `k`, picked out of a whole walk, are that visit's own steps. */
  lemma {:induction false} StepsOfFilter<T, S>(
    isApplicable: (T, string, Visit) -> Option<S>, ts: seq<T>, service: string, visits: seq<Visit>, start: nat, k: nat)
    ensures Filter(StepsOf(isApplicable, ts, service, visits, start), FieldIndexOf, k) ==
      if start <= k < start + |visits| then TransformSteps(isApplicable, ts, service, k, visits[k - start]) else []
    decreases |visits|
  {
    if visits != [] {
      var init, last := visits[..|visits| - 1], visits[|visits| - 1];
      var n := start + |visits| - 1;
      var before := StepsOf(isApplicable, ts, service, init, start);
      var own := TransformSteps(isApplicable, ts, service, n, last);
      assert StepsOf(isApplicable, ts, service, visits, start) == before + own;
      StepsOfFilter(isApplicable, ts, service, init, start, k);
      FilterAppend(before, own, FieldIndexOf, k);
      TransformStepsIndex(isApplicable, ts, service, n, last);
      FilterUniform(own, FieldIndexOf, k);
      if k == n {
        assert Filter(own, FieldIndexOf, k) == own;
      } else {
        assert Filter(own, FieldIndexOf, k) == [];
        if start <= k < n {
          assert visits[k - start] == init[k - start];
        }
      }
    }
  }

  /** Every step is numbered in `[lo, hi)`. */
  ghost predicate NumberedWithin<T, S>(steps: seq<Step<T, S>>, lo: nat, hi: nat) {
    forall i :: 0 <= i < |steps| ==> lo <= steps[i].fieldIndex < hi
  }

  /** No step is numbered below an earlier one. */
  ghost predicate NeverBack<T, S>(steps: seq<Step<T, S>>) {
    forall i, j :: 0 <= i < j < |steps| ==> steps[i].fieldIndex <= steps[j].fieldIndex
  }

  ghost predicate StrictlyIncreasing(keys: seq<nat>) {
    forall i, j :: 0 <= i < j < |keys| ==> keys[i] < keys[j]
  }

  /** Steps are numbered within the walk and never go back to an earlier field. */
  lemma {:induction false} StepsOfOrdered<T, S>(
    isApplicable: (T, string, Visit) -> Option<S>, ts: seq<T>, service: string, visits: seq<Visit>, start: nat)
    ensures NumberedWithin(StepsOf(isApplicable, ts, service, visits, start), start, start + |visits|)
    ensures NeverBack(StepsOf(isApplicable, ts, service, visits, start))
    decreases |visits|
  {
    if visits != [] {
      var init, last := visits[..|visits| - 1], visits[|visits| - 1];
      StepsOfOrdered(isApplicable, ts, service, init, start);
      TransformStepsIndex(isApplicable, ts, service, start + |visits| - 1, last);
      var a: seq<Step<T, S>> := StepsOf(isApplicable, ts, service, init, start);
      var b: seq<Step<T, S>> := TransformSteps(isApplicable, ts, service, start + |visits| - 1, last);
      assert StepsOf(isApplicable, ts, service, visits, start) == a + b;
      forall i | 0 <= i < |a + b| ensures start <= (a + b)[i].fieldIndex < start + |visits| {
        if i < |a| { assert (a + b)[i] == a[i]; } else { assert (a + b)[i] == b[i - |a|]; }
      }
      forall i, j | 0 <= i < j < |a + b| ensures (a + b)[i].fieldIndex <= (a + b)[j].fieldIndex {
        if j < |a| {
          assert (a + b)[i] == a[i] && (a + b)[j] == a[j];
        } else if i < |a| {
          assert (a + b)[i] == a[i] && (a + b)[j] == b[j - |a|];
        } else {
          assert (a + b)[i] == b[i - |a|] && (a + b)[j] == b[j - |a|];
        }
      }
    }
  }

  /** Keys taken in first-occurrence order from steps that never go back come out strictly increasing. */
  lemma {:induction false} DistinctKeysIncreasing<T, S>(steps: seq<Step<T, S>>)
    requires NeverBack(steps)
    ensures StrictlyIncreasing(DistinctKeys(steps, FieldIndexOf))
    ensures forall k :: k in DistinctKeys(steps, FieldIndexOf) ==> steps != [] && k <= steps[|steps| - 1].fieldIndex
    decreases |steps|
  {
    if steps != [] {
      var init, x := steps[..|steps| - 1], steps[|steps| - 1];
      assert forall i :: 0 <= i < |init| ==> init[i] == steps[i];
      DistinctKeysIncreasing(init);
      var d := DistinctKeys(init, FieldIndexOf);
      forall k | k in d ensures k <= x.fieldIndex {
        assert init[|init| - 1] == steps[|steps| - 2];
      }
      if x.fieldIndex !in d {
        var keys := d + [x.fieldIndex];
        forall i, j | 0 <= i < j < |keys| ensures keys[i] < keys[j] {
          if j == |d| {
            assert keys[i] == d[i] && keys[i] in d;
          } else {
            assert keys[i] == d[i] && keys[j] == d[j];
          }
        }
      }
    }
  }

  /** The steps the walk of `root` collects before grouping. */
  function WalkSteps<T, S>(isApplicable: (T, string, Visit) -> Option<S>, ts: seq<T>, service: string, root: Field): seq<Step<T, S>> {
    StepsOf(isApplicable, ts, service, PreOrder(root, []), 0)
  }

  /**
   * The plan's group for the field numbered `k` in pre-order is exactly the steps of the
   * transforms applicable to that field, in transform order, and a field has a group exactly
   * when some transform applies to it.
   */
  lemma {:induction false} PlanGroups<T, S>(
    isApplicable: (T, string, Visit) -> Option<S>, ts: seq<T>, typeInstructions: map<string, TypeRenameInstruction>,
    service: string, root: Field, k: nat)
    ensures GroupOf(Plan(isApplicable, ts, typeInstructions, service, root).transformationSteps, k) ==
      if k < |PreOrder(root, [])| then TransformSteps(isApplicable, ts, service, k, PreOrder(root, [])[k]) else []
    ensures k in Keys(Plan(isApplicable, ts, typeInstructions, service, root).transformationSteps) <==>
      k < |PreOrder(root, [])| && TransformSteps(isApplicable, ts, service, k, PreOrder(root, [])[k]) != []
  {
    var visits := PreOrder(root, []);
    var steps := StepsOf(isApplicable, ts, service, visits, 0);
    var groups := GroupBy(steps, FieldIndexOf);
    assert Plan(isApplicable, ts, typeInstructions, service, root).transformationSteps == groups;
    var own := if k < |visits| then TransformSteps(isApplicable, ts, service, k, visits[k]) else [];
    StepsOfFilter(isApplicable, ts, service, visits, 0, k);
    assert Filter(steps, FieldIndexOf, k) == own;
    GroupByLookup(steps, FieldIndexOf, k);
  }

  /**
   * The plan's groups follow pre-order, none is empty, and together they hold every step of the
   * walk exactly once.
   */
  lemma {:induction false} PlanPartition<T, S>(
    isApplicable: (T, string, Visit) -> Option<S>, ts: seq<T>, typeInstructions: map<string, TypeRenameInstruction>,
    service: string, root: Field)
    ensures StrictlyIncreasing(Keys(Plan(isApplicable, ts, typeInstructions, service, root).transformationSteps))
    ensures forall i :: 0 <= i < |Plan(isApplicable, ts, typeInstructions, service, root).transformationSteps| ==>
      Plan(isApplicable, ts, typeInstructions, service, root).transformationSteps[i].1 != []
    ensures multiset(Flatten(Plan(isApplicable, ts, typeInstructions, service, root).transformationSteps)) ==
      multiset(WalkSteps(isApplicable, ts, service, root))
  {
    var steps := WalkSteps(isApplicable, ts, service, root);
    assert Plan(isApplicable, ts, typeInstructions, service, root).transformationSteps == GroupBy(steps, FieldIndexOf);
    GroupByCorrect(steps, FieldIndexOf);
    StepsOfOrdered(isApplicable, ts, service, PreOrder(root, []), 0);
    DistinctKeysIncreasing(steps);
  }

  /** The type names of every visited field, in walk order. */
  function TouchedTypeNames(visits: seq<Visit>): seq<string>
    decreases |visits|
  {
    if visits == [] then [] else TouchedTypeNames(visits[..|visits| - 1]) + visits[|visits| - 1].field.objectTypeNames
  }

  /** Recording renames along several name lists is recording them along their concatenation. */
  lemma {:induction false} AddTypeRenamesAppend(
    typeInstructions: map<string, TypeRenameInstruction>, renames: map<string, TypeRenameInstruction>,
    a: seq<string>, b: seq<string>)
    ensures AddTypeRenames(typeInstructions, renames, a + b) ==
      AddTypeRenames(typeInstructions, AddTypeRenames(typeInstructions, renames, a), b)
    decreases |b|
  {
    if b == [] {
      assert a + b == a;
    } else {
      assert (a + b)[..|a + b| - 1] == a + b[..|b| - 1];
      AddTypeRenamesAppend(typeInstructions, renames, a, b[..|b| - 1]);
    }
  }

  /** Walking the fields records the renames of all the type names they touch. */
  lemma {:induction false} RenamesOfTouched(
    typeInstructions: map<string, TypeRenameInstruction>, renames: map<string, TypeRenameInstruction>, visits: seq<Visit>)
    ensures RenamesOf(typeInstructions, renames, visits) == AddTypeRenames(typeInstructions, renames, TouchedTypeNames(visits))
    decreases |visits|
  {
    if visits != [] {
      var init := visits[..|visits| - 1];
      RenamesOfTouched(typeInstructions, renames, init);
      AddTypeRenamesAppend(typeInstructions, renames, TouchedTypeNames(init), visits[|visits| - 1].field.objectTypeNames);
    }
  }

  /**
   * Starting from `renames`, an overall name is recorded exactly when it was there already or
   * one of `typeNames` has an instruction with that overall name; whatever is recorded under a
   * new name is an instruction of one of `typeNames` for that name.
   */
  lemma {:induction false} AddTypeRenamesCorrect(
    typeInstructions: map<string, TypeRenameInstruction>, renames: map<string, TypeRenameInstruction>,
    typeNames: seq<string>, overallName: string)
    ensures var m := AddTypeRenames(typeInstructions, renames, typeNames);
      && (overallName in m <==>
            overallName in renames ||
            exists n :: n in typeNames && n in typeInstructions && typeInstructions[n].overallName == overallName)
      && (overallName in m ==>
            (overallName in renames && m[overallName] == renames[overallName]) ||
            exists n :: n in typeNames && n in typeInstructions && typeInstructions[n] == m[overallName] &&
              typeInstructions[n].overallName == overallName)
    decreases |typeNames|
  {
    if typeNames != [] {
      var init, n := typeNames[..|typeNames| - 1], typeNames[|typeNames| - 1];
      assert typeNames == init + [n];
      AddTypeRenamesCorrect(typeInstructions, renames, init, overallName);
    }
  }

  /**
   * The plan's type renames: an overall name has an entry exactly when some field of the query
   * has an object type whose instruction renames to it, and that entry is such an instruction.
   */
  lemma {:induction false} PlanTypeRenames<T, S>(
    isApplicable: (T, string, Visit) -> Option<S>, ts: seq<T>, typeInstructions: map<string, TypeRenameInstruction>,
    service: string, root: Field, overallName: string)
    ensures var renames := Plan(isApplicable, ts, typeInstructions, service, root).typeRenames;
      var touched := TouchedTypeNames(PreOrder(root, []));
      && (overallName in renames <==>
            exists n :: n in touched && n in typeInstructions && typeInstructions[n].overallName == overallName)
      && (overallName in renames ==>
            exists n :: n in touched && n in typeInstructions && typeInstructions[n] == renames[overallName] &&
              typeInstructions[n].overallName == overallName)
  {
    RenamesOfTouched(typeInstructions, map[], PreOrder(root, []));
    AddTypeRenamesCorrect(typeInstructions, map[], TouchedTypeNames(PreOrder(root, [])), overallName);
  }

  /**
   * With the default transforms each field gets at most two steps, and when both transforms
   * apply the deep rename comes first.
   */
  lemma {:induction false} DefaultStepOrder<S>(
    isApplicable: (DefaultTransform, string, Visit) -> Option<S>, service: string, index: nat, v: Visit)
    ensures var steps := TransformSteps(isApplicable, DefaultTransforms, service, index, v);
      && |steps| <= 2
      && (|steps| == 2 ==> steps[0].transform == DeepRename && steps[1].transform == TypeRenameResult)
      && (|steps| == 2 <==> isApplicable(DeepRename, service, v).Some? && isApplicable(TypeRenameResult, service, v).Some?)
  {
    assert DefaultTransforms[..1] == [DeepRename];
    assert DefaultTransforms[..1][..0] == [];
  }
}
