# Nadel query planning and result rewriting, in Dafny

Nadel is a GraphQL gateway. It receives one overall query, splits it across the underlying
services, rewrites each outgoing query with a chain of *transforms*, and rewrites each service
result back into the overall shape with *result instructions* (`Set`, `Remove`, `Copy`).
This project models the core of that machinery and proves properties about it:

- `Transform` (transform.dfy) is the three-phase transform contract. `isApplicable` yields a
  state. `transformField` rewrites the query field. `getResultInstructions` rewrites the result.
  The same state feeds both later phases.
- `ExecutionPlanFactory` (plan.dfy) is the plan factory. It is a class whose `Create` walks the
  query in pre-order and asks every transform about every field. It accumulates the steps and
  the type renames, then groups the steps per field.
- `PathToField` (path_to_field.dfy) builds the chain of fields for a path of field names
  through object and interface types.
- `TypeRenameResultTransform`, `DeepRenameTransform` and `DeepRenameTransformOld` model the
  `__typename` rewrite and the two generations of the deep-rename transform.
- `HydrationTransform` and `HydrationTransformOld` model the two generations of the hydration
  transform.
- `HydrationArgumentsBuilder` and `BatchHydrator` model how hydration arguments are built and
  how batched hydration groups parent objects per instruction.
- `FieldInfos` is the top-level field index. `SplitFields` splits the query by the service
  that owns each field.
- `ExecutionStrategy` (execution_strategy.dfy) covers the older engine's strategy: service
  lookup, grouping top-level fields per service, merging result trees and filtering variables.
- Shared modules are `Wrappers` (Option, Result), `Json` (result values, paths, nodes and
  instructions), `Fields` (the normalized field tree and blueprint instructions) and `Grouping`.
  `Grouping` is Kotlin's insertion-ordered `groupBy`, with `Filter` and `DistinctKeys` as its
  reference definitions.

Helpers whose code is outside the modelled files become function parameters. These include
the JSON node extractor, the alias helper, the blueprint lookups, the execution hooks, the
batch matchers and the service call. Exceptions thrown by the modelled code become `Failure`
results, and Kotlin's `!!` and `as` casts become explicit failure branches; the exceptions
that are not modelled are listed under "## Left out".

Several operations are specified by the lemmas about them rather than by their own contracts,
so the table below cites them through those lemmas:
- `Grouping.GroupBy` (Kotlin's `groupBy`) through `Grouping.GroupByCorrect` and `Grouping.GroupByLookup`;
- `ExecutionPlanFactory.Plan`, `ExecutionPlanFactory.TransformSteps` and
  `ExecutionPlanFactory.AddTypeRenames` through `PlanFactory.Create`, `PlanGroups`,
  `PlanPartition`, `TransformStepsMembership`, `AddTypeRenamesCorrect` and `PlanTypeRenames`;
- `FieldInfos.InfosFromServices` through `FieldInfos.InfosFromServicesMembership` and
  `FieldInfos.EntriesAreConsistent`;
- `HydrationTransformOld.HydrateAll` through `HydrationTransformOld.HydrateAllMatched`;
- `BatchHydrator.HydrateGroups` through `BatchHydrator.HydrateGroupsAppend`,
  `BatchHydrator.Hydrate` and `BatchHydrator.SingleInstructionSingleGroup`.

## Model

| member | source | states |
|---|---|---|
| Transform.Unmodified | engine-nextgen/src/main/kotlin/graphql/nadel/enginekt/transform/NadelTransform.kt:92-101 | the unmodified result keeps the field and adds no artificial fields (the list defaults to empty) |
| Transform.RunTransform | engine-nextgen/src/main/kotlin/graphql/nadel/enginekt/transform/NadelTransform.kt:36-74 | no later phase runs unless `isApplicable` yields a state; when it does, both later phases receive exactly that state |
| Transform.MapNotNull | engine-nextgen/src/main/kotlin/graphql/nadel/enginekt/plan/NadelExecutionPlanFactory.kt:31 | `mapNotNull` keeps, in order, exactly the elements that map to a value, and yields those values |
| Transform.FlatMapMembership | engine-nextgen/src/main/kotlin/graphql/nadel/enginekt/transform/hydration/batch/NadelBatchHydrator.kt:50-52 | an element is in a `flatMap` iff some input element yields it |
| Transform.FlatMapAppend | engine-nextgen/src/main/kotlin/graphql/nadel/enginekt/transform/hydration/batch/NadelBatchHydrator.kt:50-52 | `flatMap` over a concatenation is the concatenation of the two `flatMap`s |
| Transform.FlatMapResult | engine-nextgen/src/main/kotlin/graphql/nadel/enginekt/transform/query/SplitFieldsByUnderlyingService.kt:18-19 | a `flatMap` whose step can throw fails iff some element's step fails; otherwise it is the `flatMap` of the steps' lists |
| Transform.FlatMapResultAppend | engine-nextgen/src/main/kotlin/graphql/nadel/enginekt/transform/query/SplitFieldsByUnderlyingService.kt:18-19 | when a throwing `flatMap` over a concatenation succeeds, it succeeds on both parts and yields their lists in order |
| Fields.ListOfResultKeys | engine-nextgen/src/main/kotlin/graphql/nadel/enginekt/transform/NadelTypeRenameResultTransform.kt:31 | the result-key path of a field extends its ancestors' path by exactly one key |
| Fields.MakeTypeNameField | engine-nextgen/src/main/kotlin/graphql/nadel/enginekt/transform/NadelDeepRenameTransform.kt:183-186 | the artificial `__typename` field has the given result key and object types, and no arguments or children |
| Json.Child | engine-nextgen/src/main/kotlin/graphql/nadel/enginekt/transform/NadelDeepRenameTransform.kt:284 | a child path extends its parent path by one key |
| Grouping.GroupByCorrect | engine-nextgen/src/main/kotlin/graphql/nadel/enginekt/plan/NadelExecutionPlanFactory.kt:48-51 | `groupBy` keys are the distinct keys in first-occurrence order, without duplicates; each group is the filter of the input by its key and is non-empty; the groups hold every element exactly once |
| Grouping.GroupByLookup | engine-nextgen/src/main/kotlin/graphql/nadel/enginekt/plan/NadelExecutionPlanFactory.kt:48-51 | looking up a key in a `groupBy` gives exactly the elements with that key, and the key is present iff some element has it |
| Grouping.DistinctKeysFirstOccurrence | engine-nextgen/src/main/kotlin/graphql/nadel/enginekt/transform/hydration/batch/NadelBatchHydrator.kt:42-48 | a key that comes earlier among the distinct keys occurs in the input before any occurrence of a later key |
| ExecutionPlanFactory.PreOrder | engine-nextgen/src/main/kotlin/graphql/nadel/enginekt/plan/NadelExecutionPlanFactory.kt:54-59 | the traversal visits the root first |
| ExecutionPlanFactory.PlanFactory.constructor | engine-nextgen/src/main/kotlin/graphql/nadel/enginekt/plan/NadelExecutionPlanFactory.kt:62-74 | the factory holds the given transforms, applicability and type instructions |
| ExecutionPlanFactory.PlanFactory.Create | engine-nextgen/src/main/kotlin/graphql/nadel/enginekt/plan/NadelExecutionPlanFactory.kt:22-52 | the accumulated plan equals the plan function of the query; `PlanGroups`, `PlanPartition` and `PlanTypeRenames` state what that plan is |
| ExecutionPlanFactory.PlanFactory.VisitField | engine-nextgen/src/main/kotlin/graphql/nadel/enginekt/plan/NadelExecutionPlanFactory.kt:30-46 | one visit records the type renames of the field's object types and appends the steps of the applicable transforms, in transform order |
| ExecutionPlanFactory.PlanFactory.TraverseQuery | engine-nextgen/src/main/kotlin/graphql/nadel/enginekt/plan/NadelExecutionPlanFactory.kt:54-59 | visiting a field and then its subtrees appends the steps and renames of the field's pre-order walk and numbers each field once |
| ExecutionPlanFactory.PlanFactory.TraverseChildren | engine-nextgen/src/main/kotlin/graphql/nadel/enginekt/plan/NadelExecutionPlanFactory.kt:56-58 | the children's subtrees are walked one after the other, in order |
| ExecutionPlanFactory.SingleVisit | engine-nextgen/src/main/kotlin/graphql/nadel/enginekt/plan/NadelExecutionPlanFactory.kt:30-46 | a walk of one field is that field's own visit |
| ExecutionPlanFactory.StepsOfAppend | engine-nextgen/src/main/kotlin/graphql/nadel/enginekt/plan/NadelExecutionPlanFactory.kt:54-59 | the steps of a split walk are the steps of the first part followed by those of the second, with continued numbering |
| ExecutionPlanFactory.RenamesOfAppend | engine-nextgen/src/main/kotlin/graphql/nadel/enginekt/plan/NadelExecutionPlanFactory.kt:31 | the renames of a split walk are the second part's renames applied after the first part's |
| ExecutionPlanFactory.TransformStepsMembership | engine-nextgen/src/main/kotlin/graphql/nadel/enginekt/plan/NadelExecutionPlanFactory.kt:33-45 | a step belongs to a field iff its transform's `isApplicable` yields its state for that field |
| ExecutionPlanFactory.TransformStepsIndex | engine-nextgen/src/main/kotlin/graphql/nadel/enginekt/plan/NadelExecutionPlanFactory.kt:36-43 | every step of a visit carries that field |
| ExecutionPlanFactory.StepsOfFilter | engine-nextgen/src/main/kotlin/graphql/nadel/enginekt/plan/NadelExecutionPlanFactory.kt:49 | the steps of one field, taken out of the whole walk, are exactly that field's own steps |
| ExecutionPlanFactory.StepsOfOrdered | engine-nextgen/src/main/kotlin/graphql/nadel/enginekt/plan/NadelExecutionPlanFactory.kt:54-59 | steps stay within the walk's fields and never go back to an earlier field |
| ExecutionPlanFactory.DistinctKeysIncreasing | engine-nextgen/src/main/kotlin/graphql/nadel/enginekt/plan/NadelExecutionPlanFactory.kt:49 | grouping steps that never go back yields fields in strictly increasing pre-order |
| ExecutionPlanFactory.PlanGroups | engine-nextgen/src/main/kotlin/graphql/nadel/enginekt/plan/NadelExecutionPlanFactory.kt:22-52 | the plan's group for a field is exactly the steps of the transforms applicable to it, in transform order; a field has a group iff some transform applies |
| ExecutionPlanFactory.PlanPartition | engine-nextgen/src/main/kotlin/graphql/nadel/enginekt/plan/NadelExecutionPlanFactory.kt:48-51 | the groups follow pre-order and none is empty; together they hold every collected step exactly once (multiset equality) |
| ExecutionPlanFactory.AddTypeRenamesAppend | engine-nextgen/src/main/kotlin/graphql/nadel/enginekt/plan/NadelExecutionPlanFactory.kt:31 | recording renames along two name lists is recording them along their concatenation |
| ExecutionPlanFactory.RenamesOfTouched | engine-nextgen/src/main/kotlin/graphql/nadel/enginekt/plan/NadelExecutionPlanFactory.kt:30-31 | the walk records the renames of every type name the visited fields touch |
| ExecutionPlanFactory.AddTypeRenamesCorrect | engine-nextgen/src/main/kotlin/graphql/nadel/enginekt/plan/NadelExecutionPlanFactory.kt:31 | an overall name is recorded iff it was already recorded or a touched type has an instruction for it, and each new entry is such an instruction |
| ExecutionPlanFactory.PlanTypeRenames | engine-nextgen/src/main/kotlin/graphql/nadel/enginekt/plan/NadelExecutionPlanFactory.kt:28-31 | the plan's renames hold an entry for an overall name iff some field of the query has an object type renamed to it, and the entry is that type's instruction |
| ExecutionPlanFactory.DefaultStepOrder | engine-nextgen/src/main/kotlin/graphql/nadel/enginekt/plan/NadelExecutionPlanFactory.kt:69-72 | with the default transforms a field gets at most two steps; it gets two iff both apply, and then the deep rename comes first |
| PathToField.GetFieldDefinition | engine-nextgen/src/main/kotlin/graphql/nadel/enginekt/transform/query/NadelPathToField.kt:88-90 | the definition found has the name asked for, and none is found iff the type has no field of that name |
| PathToField.GetObjectType | engine-nextgen/src/main/kotlin/graphql/nadel/enginekt/transform/NadelDeepRenameTransform.kt:215-217 | an object type is found iff the schema declares the name as an object type |
| PathToField.CreateField | engine-nextgen/src/main/kotlin/graphql/nadel/enginekt/transform/query/NadelPathToField.kt:11-26 | every field built is a chain along the path: each level carries the segment's name, one object type, the given arguments and no alias, and the last level has the given children |
| PathToField.CreateObjectField | engine-nextgen/src/main/kotlin/graphql/nadel/enginekt/transform/query/NadelPathToField.kt:28-43 | the single field built is such a chain under the given object type; an empty path fails |
| PathToField.CreateFieldRecursively | engine-nextgen/src/main/kotlin/graphql/nadel/enginekt/transform/query/NadelPathToField.kt:45-78 | an object parent gives one field; an interface gives one field per implementation, in order; any other type fails |
| PathToField.CreateEach | engine-nextgen/src/main/kotlin/graphql/nadel/enginekt/transform/query/NadelPathToField.kt:56-66 | one chain per implementation, in implementation order |
| PathToField.CreateParticularField | engine-nextgen/src/main/kotlin/graphql/nadel/enginekt/transform/query/NadelPathToField.kt:80-111 | the field built is typed by its parent object type; a segment missing from the type, or a path already used up, fails |
| PathToField.ObjectPathSucceeds | engine-nextgen/src/main/kotlin/graphql/nadel/enginekt/transform/query/NadelPathToField.kt:80-111 | a path whose segments are all defined through object types never fails, and each inner level has exactly one child |
| TypeRenameResultTransform.IsApplicable | engine-nextgen/src/main/kotlin/graphql/nadel/enginekt/transform/NadelTypeRenameResultTransform.kt:22-36 | applies iff the field is `__typename`; the state holds the field's result-key path |
| TypeRenameResultTransform.TransformField | engine-nextgen/src/main/kotlin/graphql/nadel/enginekt/transform/NadelTypeRenameResultTransform.kt:38-47 | the query field is left unchanged |
| TypeRenameResultTransform.GetResultInstructions | engine-nextgen/src/main/kotlin/graphql/nadel/enginekt/transform/NadelTypeRenameResultTransform.kt:49-69 | fails iff some `__typename` answer is not a string; otherwise it gives one `Set` per answer, in order, writing that answer's overall type name at its path |
| TypeRenameResultTransform.SetOverallTypeNames | engine-nextgen/src/main/kotlin/graphql/nadel/enginekt/transform/NadelTypeRenameResultTransform.kt:57-68 | fails iff some node's value is not a string; otherwise it gives one `Set` per node, at the node's path, with the overall name |
| TypeRenameResultTransform.UnrenamedTypesAreKept | engine-nextgen/src/main/kotlin/graphql/nadel/enginekt/transform/NadelTypeRenameResultTransform.kt:49-69 | when no type found is renamed, every instruction writes back the value already there |
| DeepRenameTransform.InstructionTypeNames | engine-nextgen/src/main/kotlin/graphql/nadel/enginekt/transform/NadelDeepRenameTransform.kt:185 | the type names of the instructions, in map order |
| DeepRenameTransform.IsApplicable | engine-nextgen/src/main/kotlin/graphql/nadel/enginekt/transform/NadelDeepRenameTransform.kt:77-95 | applies iff the blueprint has deep-rename instructions for the field; the state keeps them, the field and its alias helper |
| DeepRenameTransform.MakeTypeNameField | engine-nextgen/src/main/kotlin/graphql/nadel/enginekt/transform/NadelDeepRenameTransform.kt:180-187 | `__typename` with the helper's result key, over exactly the instruction type names |
| DeepRenameTransform.MakeDeepField | engine-nextgen/src/main/kotlin/graphql/nadel/enginekt/transform/NadelDeepRenameTransform.kt:206-228 | fails when the underlying object type is missing; otherwise it is the aliased chain along the deep path |
| DeepRenameTransform.MakeDeepFields | engine-nextgen/src/main/kotlin/graphql/nadel/enginekt/transform/NadelDeepRenameTransform.kt:157-166 | fails iff some instruction's deep field fails; otherwise one deep field per instruction, in order |
| DeepRenameTransform.TransformField | engine-nextgen/src/main/kotlin/graphql/nadel/enginekt/transform/NadelDeepRenameTransform.kt:147-169 | the original field is deleted; the artificial fields are the deep fields in instruction order, then `__typename` |
| DeepRenameTransform.DestinationPath | engine-nextgen/src/main/kotlin/graphql/nadel/enginekt/transform/NadelDeepRenameTransform.kt:284 | the overall field's place is the parent's path plus the field's result key |
| DeepRenameTransform.InstructionForParent | engine-nextgen/src/main/kotlin/graphql/nadel/enginekt/transform/NadelDeepRenameTransform.kt:273-294 | none iff the parent's type has no instruction; otherwise a `Copy` from the aliased deep path to the field's place, or a `Set` of null there when nothing is at the deep path |
| DeepRenameTransform.GetResultInstructions | engine-nextgen/src/main/kotlin/graphql/nadel/enginekt/transform/NadelDeepRenameTransform.kt:257-297 | exactly one instruction per parent whose type has a deep rename, in parent order |
| DeepRenameTransform.KeptSame | engine-nextgen/src/main/kotlin/graphql/nadel/enginekt/transform/NadelDeepRenameTransform.kt:272-295 | two selectors that agree on which parents they keep keep the same parents |
| DeepRenameTransform.DestinationsAreOwnPlaces | engine-nextgen/src/main/kotlin/graphql/nadel/enginekt/transform/NadelDeepRenameTransform.kt:257-297 | every instruction writes the overall field's place under the parent it came from, and none removes anything |
| DeepRenameTransformOld.IsApplicable | engine-nextgen/src/main/kotlin/graphql/nadel/enginekt/transform/deepRename/NadelDeepRenameTransform.kt:68-83 | applies iff the field's instruction is a deep rename; the state keeps it with the fixed alias |
| DeepRenameTransformOld.UnderlyingTypeName | engine-nextgen/src/main/kotlin/graphql/nadel/enginekt/transform/deepRename/NadelDeepRenameTransform.kt:53-55 | the type instruction's underlying name, or the overall name when it has no instruction |
| DeepRenameTransformOld.CreateDeepField | engine-nextgen/src/main/kotlin/graphql/nadel/enginekt/transform/deepRename/NadelDeepRenameTransform.kt:46-66 | fails when the field has no object type or its underlying object type is missing; otherwise it is the chain along the deep path |
| DeepRenameTransformOld.TransformField | engine-nextgen/src/main/kotlin/graphql/nadel/enginekt/transform/deepRename/NadelDeepRenameTransform.kt:25-44 | the field is replaced by exactly one deep field carrying the state's alias; this fails iff building it fails |
| DeepRenameTransformOld.InstructionsForParent | engine-nextgen/src/main/kotlin/graphql/nadel/enginekt/transform/deepRename/NadelDeepRenameTransform.kt:99-114 | a parent that is neither null nor an object fails the cast; a null parent or a missing deep value gives nothing; otherwise a `Copy` to the field's place then the removal of the deep selection |
| DeepRenameTransformOld.InstructionsForParents | engine-nextgen/src/main/kotlin/graphql/nadel/enginekt/transform/deepRename/NadelDeepRenameTransform.kt:98-115 | fails iff some parent fails the cast; otherwise the per-parent instructions concatenated in order |
| DeepRenameTransformOld.GetResultInstructions | engine-nextgen/src/main/kotlin/graphql/nadel/enginekt/transform/deepRename/NadelDeepRenameTransform.kt:85-116 | any instruction other than a deep rename fails the cast; otherwise the instructions for the parents at the field's parent path |
| DeepRenameTransformOld.MissingSourceDiffers | engine-nextgen/src/main/kotlin/graphql/nadel/enginekt/transform/deepRename/NadelDeepRenameTransform.kt:100-103 | when the deep path holds nothing, the earlier transform emits nothing while the newer one sets the field to null |
| HydrationTransform.IsApplicable | lib/src/main/java/graphql/nadel/engine/transform/hydration/NadelHydrationTransform.kt:64-86 | applies iff some object type of the field has hydration instructions; the state keeps them |
| HydrationTransform.SelectNames | lib/src/main/java/graphql/nadel/engine/transform/hydration/NadelHydrationTransform.kt:96 | the names that are, or are not, instruction keys, in order |
| HydrationTransform.MakeTypeNameField | lib/src/main/java/graphql/nadel/engine/transform/hydration/NadelHydrationTransform.kt:126-140 | none iff no object type of the field has instructions; otherwise `__typename` over exactly those types |
| HydrationTransform.TransformField | lib/src/main/java/graphql/nadel/engine/transform/hydration/NadelHydrationTransform.kt:88-124 | the field is kept only for its types without instructions (deleted when all have some); the source fields of each instruction list are added, then `__typename` |
| HydrationTransform.NarrowingPartitions | lib/src/main/java/graphql/nadel/engine/transform/hydration/NadelHydrationTransform.kt:88-140 | each object type of the field is covered by exactly one of the narrowed field and the `__typename` field |
| HydrationTransform.GetHydrationFieldInstruction | lib/src/main/java/graphql/nadel/engine/transform/hydration/NadelHydrationTransform.kt:267-291 | a single instruction is used as is; otherwise the engine hooks choose, and other hooks are an error |
| HydrationTransform.EmptyOrSingle | lib/src/main/java/graphql/nadel/engine/transform/hydration/NadelHydrationTransform.kt:228 | nothing or the only element; more than one element is an error |
| HydrationTransform.ValueOrNull | lib/src/main/java/graphql/nadel/engine/transform/hydration/NadelHydrationTransform.kt:230-242 | the node's value, or null when there is no node |
| HydrationTransform.HydrateWith | lib/src/main/java/graphql/nadel/engine/transform/hydration/NadelHydrationTransform.kt:225-264 | fails iff a one-to-one hydration has several actor results; one-to-one sets the single value (or null) at the field's place, then that result's errors; many-to-one sets a list with one entry per actor result, in order, then all errors |
| HydrationTransform.HydrateAsWritten | lib/src/main/java/graphql/nadel/engine/transform/hydration/NadelHydrationTransform.kt:174-265 | as written: when the hooks choose no instruction, null is set under the field's name |
| HydrationTransform.Hydrate | lib/src/main/java/graphql/nadel/engine/transform/hydration/NadelHydrationTransform.kt:174-265 | nothing for a parent without instructions; null at the field's result key when no instruction is chosen; otherwise the hydrated value, whose first instruction sets the field's place |
| HydrationTransform.AliasedNullHydrationMisplaced | lib/src/main/java/graphql/nadel/engine/transform/hydration/NadelHydrationTransform.kt:193-194 | for the aliased field `author: owner`, the as-written code writes null under `owner` where the corrected one writes it under `author` |
| HydrationTransform.GetResultInstructions | lib/src/main/java/graphql/nadel/engine/transform/hydration/NadelHydrationTransform.kt:142-172 | fails iff some parent's hydration fails; otherwise each parent's instructions concatenated in parent order |
| HydrationTransformOld.IsApplicable | engine-nextgen/src/main/kotlin/graphql/nadel/enginekt/transform/hydration/NadelHydrationTransform.kt:49-69 | applies iff the blueprint has hydration instructions for the field |
| HydrationTransformOld.MakeTypeNameField | engine-nextgen/src/main/kotlin/graphql/nadel/enginekt/transform/hydration/NadelHydrationTransform.kt:103-112 | `__typename` with the type-name result key, over the instruction type names in order |
| HydrationTransformOld.TransformField | engine-nextgen/src/main/kotlin/graphql/nadel/enginekt/transform/hydration/NadelHydrationTransform.kt:71-92 | the field is always deleted; each instruction's source fields are added, then `__typename` |
| HydrationTransformOld.GetMatchingInstruction | engine-nextgen/src/main/kotlin/graphql/nadel/enginekt/transform/hydration/NadelHydrationTransform.kt:184-195 | the instruction at the parent's overall type and the field's name, if any |
| HydrationTransformOld.Hydrate | engine-nextgen/src/main/kotlin/graphql/nadel/enginekt/transform/hydration/NadelHydrationTransform.kt:140-179 | nothing iff no instruction matches; otherwise one `Set` at the field's place of the actor value at the source path, or null |
| HydrationTransformOld.GetResultInstructions | engine-nextgen/src/main/kotlin/graphql/nadel/enginekt/transform/hydration/NadelHydrationTransform.kt:114-138 | the hydrations of the parents at the field's parent path; `HydrateAllMatched` states what they are |
| HydrationTransformOld.HydrateAllMatched | engine-nextgen/src/main/kotlin/graphql/nadel/enginekt/transform/hydration/NadelHydrationTransform.kt:114-179 | exactly the parents with a matching instruction get one instruction each, in parent order, setting the field's place under that parent |
| HydrationArgumentsBuilder.ToLong | engine-nextgen/src/main/kotlin/graphql/nadel/enginekt/transform/hydration/NadelHydrationArgumentsBuilder.kt:100-102 | the signed 64-bit conversion lands in range, is congruent modulo 2^64, and leaves in-range values unchanged |
| HydrationArgumentsBuilder.ValueToAstValue | engine-nextgen/src/main/kotlin/graphql/nadel/enginekt/transform/hydration/NadelHydrationArgumentsBuilder.kt:76-111 | fails iff the value holds a value of unknown kind anywhere; otherwise the literal has the value's shape: `Double`/`Float` stay float literals, every other number (a `BigDecimal` included) becomes an integer literal of its integer part, truncated to 64 bits |
| HydrationArgumentsBuilder.ValuesToAstValues | engine-nextgen/src/main/kotlin/graphql/nadel/enginekt/transform/hydration/NadelHydrationArgumentsBuilder.kt:78-80 | the list items converted pointwise; fails iff some item fails |
| HydrationArgumentsBuilder.EntriesToObjectFields | engine-nextgen/src/main/kotlin/graphql/nadel/enginekt/transform/hydration/NadelHydrationArgumentsBuilder.kt:81-91 | the object entries converted pointwise, keeping keys; fails iff some entry fails |
| HydrationArgumentsBuilder.SameShapeRoundTrip | engine-nextgen/src/main/kotlin/graphql/nadel/enginekt/transform/hydration/NadelHydrationArgumentsBuilder.kt:76-111 | a literal of the same shape as a value converts back to that value when its integers fit in 64 bits |
| HydrationArgumentsBuilder.RoundTrip | engine-nextgen/src/main/kotlin/graphql/nadel/enginekt/transform/hydration/NadelHydrationArgumentsBuilder.kt:76-111 | a value of known kinds whose numbers are integral and fit in 64 bits converts successfully and back to itself |
| HydrationArgumentsBuilder.IntegerPart | engine-nextgen/src/main/kotlin/graphql/nadel/enginekt/transform/hydration/NadelHydrationArgumentsBuilder.kt:100-102 | a `BigDecimal`'s integer part for `toLong`: the fraction is dropped, rounding toward zero |
| HydrationArgumentsBuilder.DecimalIsTruncated | engine-nextgen/src/main/kotlin/graphql/nadel/enginekt/transform/hydration/NadelHydrationArgumentsBuilder.kt:93-102 | the decimals 2.5 and -2.5 become the integer literals 2 and -2, 3E+2 becomes 300, and the double 2.5 stays the float 2.5 |
| HydrationArgumentsBuilder.MakeFieldInputValue | engine-nextgen/src/main/kotlin/graphql/nadel/enginekt/transform/hydration/NadelHydrationArgumentsBuilder.kt:61-73 | fails iff the argument type is missing or the value found is of unknown kind; no node gives a null literal; otherwise the literal has the node value's shape |
| HydrationArgumentsBuilder.MakeInputValue | engine-nextgen/src/main/kotlin/graphql/nadel/enginekt/transform/hydration/NadelHydrationArgumentsBuilder.kt:46-58 | an argument source copies the hydration field's argument; a field source builds the value from the parent node |
| HydrationArgumentsBuilder.CreateSourceFieldArgs | engine-nextgen/src/main/kotlin/graphql/nadel/enginekt/transform/hydration/NadelHydrationArgumentsBuilder.kt:28-43 | fails iff some argument fails; otherwise one (name, value) pair per argument, in order |
| BatchHydrator.InstructionPairs | engine-nextgen/src/main/kotlin/graphql/nadel/enginekt/transform/hydration/batch/NadelBatchHydrator.kt:28-40 | fails iff some parent has more than one instruction; each pair's parent has exactly that one instruction |
| BatchHydrator.PairedNodes | engine-nextgen/src/main/kotlin/graphql/nadel/enginekt/transform/hydration/batch/NadelBatchHydrator.kt:28-48 | the parents paired with an instruction are exactly the parents whose only instruction it is, in order |
| BatchHydrator.NodeGroups | engine-nextgen/src/main/kotlin/graphql/nadel/enginekt/transform/hydration/batch/NadelBatchHydrator.kt:42-48 | mapping the groups to their nodes keeps the keys and maps each group |
| BatchHydrator.ParentNodesByInstruction | engine-nextgen/src/main/kotlin/graphql/nadel/enginekt/transform/hydration/batch/NadelBatchHydrator.kt:28-48 | fails iff some parent has several instructions; otherwise each instruction's group is exactly the parents whose only instruction it is; keys are distinct and groups non-empty |
| BatchHydrator.GroupsInFirstOccurrenceOrder | engine-nextgen/src/main/kotlin/graphql/nadel/enginekt/transform/hydration/batch/NadelBatchHydrator.kt:42-48 | an earlier group's instruction occurs among the parents before any parent of a later group |
| BatchHydrator.ExecuteBatches | engine-nextgen/src/main/kotlin/graphql/nadel/enginekt/transform/hydration/batch/NadelBatchHydrator.kt:85-112 | one result per actor query, in query order |
| BatchHydrator.HydrateGroup | engine-nextgen/src/main/kotlin/graphql/nadel/enginekt/transform/hydration/batch/NadelBatchHydrator.kt:55-83 | the matcher the instruction's strategy names produces the first part; the errors of the batch results follow |
| BatchHydrator.HydrateGroupsAppend | engine-nextgen/src/main/kotlin/graphql/nadel/enginekt/transform/hydration/batch/NadelBatchHydrator.kt:50-52 | hydrating two runs of groups is hydrating them one after the other |
| BatchHydrator.Hydrate | engine-nextgen/src/main/kotlin/graphql/nadel/enginekt/transform/hydration/batch/NadelBatchHydrator.kt:23-53 | fails iff some parent has several instructions; otherwise the group hydrations in group order |
| BatchHydrator.NodesOfUniform | engine-nextgen/src/main/kotlin/graphql/nadel/enginekt/transform/hydration/batch/NadelBatchHydrator.kt:28-48 | when every parent has the same single instruction, its group is all the parents |
| BatchHydrator.SingleInstructionSingleGroup | engine-nextgen/src/main/kotlin/graphql/nadel/enginekt/transform/hydration/batch/NadelBatchHydrator.kt:23-53 | when every parent has the same single instruction, the result is one group's hydration holding all the parents |
| FieldInfos.GetFieldInfo | engine-nextgen/src/main/kotlin/graphql/nadel/enginekt/schema/NadelFieldInfos.kt:16-22 | the info in the operation kind's own map; none iff the name is not there |
| FieldInfos.LookupIgnoresOtherKinds | engine-nextgen/src/main/kotlin/graphql/nadel/enginekt/schema/NadelFieldInfos.kt:16-22 | updating another operation kind's map does not change a lookup |
| FieldInfos.FirstNamed | engine-nextgen/src/main/kotlin/graphql/nadel/enginekt/schema/NadelFieldInfos.kt:63-68 | the first definition with the name; none iff there is none |
| FieldInfos.GetOverallField | engine-nextgen/src/main/kotlin/graphql/nadel/enginekt/schema/NadelFieldInfos.kt:52-69 | none iff the overall operation types define no field of that name; otherwise the first one |
| FieldInfos.EntriesOf | engine-nextgen/src/main/kotlin/graphql/nadel/enginekt/schema/NadelFieldInfos.kt:43-46 | no more entries than underlying fields; an underlying field without an overall counterpart gives none |
| FieldInfos.EntriesOfMembership | engine-nextgen/src/main/kotlin/graphql/nadel/enginekt/schema/NadelFieldInfos.kt:42-46 | an entry exists iff an underlying name has an overall field of that name |
| FieldInfos.InfosFromServicesMembership | engine-nextgen/src/main/kotlin/graphql/nadel/enginekt/schema/NadelFieldInfos.kt:33-50 | an entry exists iff some service has an underlying field with an overall counterpart, and it names that service and kind |
| FieldInfos.EntriesAreConsistent | engine-nextgen/src/main/kotlin/graphql/nadel/enginekt/schema/NadelFieldInfos.kt:33-50 | every entry names one of the services and the operation kind, its key is its info's field name, and that name is a field of the service's underlying operation type |
| FieldInfos.Create | engine-nextgen/src/main/kotlin/graphql/nadel/enginekt/schema/NadelFieldInfos.kt:25-31 | each operation kind's map is `mapFrom` of that kind's entries |
| FieldInfos.CreateLookup | engine-nextgen/src/main/kotlin/graphql/nadel/enginekt/schema/NadelFieldInfos.kt:16-31 | a name is found iff some service provides it, and the info found is consistent |
| FieldInfos.CollisionHasNoWinner | engine-nextgen/src/main/kotlin/graphql/nadel/enginekt/schema/NadelFieldInfos.kt:25-31 | when two entries share a name, a map holding either info satisfies the map-from relation, so which one the index keeps is left to `mapFrom` |
| Grouping.Firsts | engine-nextgen/src/main/kotlin/graphql/nadel/enginekt/transform/hydration/batch/NadelBatchHydrator.kt:45-47 | the first components of the pairs, one per pair, in order |
| SplitFields.OwnedChildren | engine-nextgen/src/main/kotlin/graphql/nadel/enginekt/transform/query/SplitFieldsByUnderlyingService.kt:21-30 | fails iff some child has no owning service (the `!!`); otherwise each child paired with its owner, in order |
| SplitFields.OwnedChildrenGroups | engine-nextgen/src/main/kotlin/graphql/nadel/enginekt/transform/query/SplitFieldsByUnderlyingService.kt:21-30 | each service's group is exactly the children it owns |
| SplitFields.ExecutionsOf | engine-nextgen/src/main/kotlin/graphql/nadel/enginekt/transform/query/SplitFieldsByUnderlyingService.kt:32-34 | one execution per group, the top-level field narrowed to that group's children |
| SplitFields.ExecutionsFor | engine-nextgen/src/main/kotlin/graphql/nadel/enginekt/transform/query/SplitFieldsByUnderlyingService.kt:17-49 | a plain field is one execution with its owner (fails iff none); a namespaced field fails iff a child is unowned, else it is split per service |
| SplitFields.NamespacedSplitHolds | engine-nextgen/src/main/kotlin/graphql/nadel/enginekt/transform/query/SplitFieldsByUnderlyingService.kt:20-34 | the split has distinct services, each with exactly the children it owns (non-empty), and a service has an execution iff it owns a child |
| SplitFields.SplitServicesDistinct | engine-nextgen/src/main/kotlin/graphql/nadel/enginekt/transform/query/SplitFieldsByUnderlyingService.kt:22-34 | no service gets two executions |
| SplitFields.SplitExecutionChildren | engine-nextgen/src/main/kotlin/graphql/nadel/enginekt/transform/query/SplitFieldsByUnderlyingService.kt:32-34 | each execution's field has exactly the children its service owns, and they are not empty |
| SplitFields.SplitServiceMembership | engine-nextgen/src/main/kotlin/graphql/nadel/enginekt/transform/query/SplitFieldsByUnderlyingService.kt:21-34 | a service has an execution iff it owns a child |
| SplitFields.OwnedByOccurs | engine-nextgen/src/main/kotlin/graphql/nadel/enginekt/transform/query/SplitFieldsByUnderlyingService.kt:21-30 | a service with owned children owns some child |
| SplitFields.OccursOwnedBy | engine-nextgen/src/main/kotlin/graphql/nadel/enginekt/transform/query/SplitFieldsByUnderlyingService.kt:21-30 | a child's owner has that child among its owned children |
| SplitFields.SplitServicesFirstOccurrence | engine-nextgen/src/main/kotlin/graphql/nadel/enginekt/transform/query/SplitFieldsByUnderlyingService.kt:22-34 | executions come in the order their services first own a child |
| SplitFields.SplitPairOrder | engine-nextgen/src/main/kotlin/graphql/nadel/enginekt/transform/query/SplitFieldsByUnderlyingService.kt:22-34 | an earlier execution's service owns a child before any child of a later one |
| SplitFields.GetFieldsToExecute | engine-nextgen/src/main/kotlin/graphql/nadel/enginekt/transform/query/SplitFieldsByUnderlyingService.kt:17-49 | fails iff some top-level field fails; otherwise each field's executions, concatenated in field order |
| SplitFields.ExecutionsInFieldOrder | engine-nextgen/src/main/kotlin/graphql/nadel/enginekt/transform/query/SplitFieldsByUnderlyingService.kt:18-19 | the executions of two runs of fields are those of the first run followed by those of the second |
| ExecutionStrategy.AllChildrenBlocks | src/main/java/graphql/nadel/engine/NadelExecutionStrategy.java:225-231 | each root's children sit, in order, at their own offset in the merged children |
| ExecutionStrategy.GetTransformationForField | src/main/java/graphql/nadel/engine/NadelExecutionStrategy.java:131-133 | the first transformation whose new field is the field; "No value present" iff none |
| ExecutionStrategy.FindService | src/main/java/graphql/nadel/engine/NadelExecutionStrategy.java:220-222 | the first service with the name; fails iff there is none |
| ExecutionStrategy.HydrationTopLevelField | src/main/java/graphql/nadel/engine/NadelExecutionStrategy.java:162-173 | fails iff the hydration has no arguments (checked first) or the completed value is null, which `toString()` cannot print; otherwise the top-level field with the hydration's name and selection, and one argument named after the first argument, holding the completed value as a string |
| ExecutionStrategy.OnlyFirstArgumentUsed | src/main/java/graphql/nadel/engine/NadelExecutionStrategy.java:166-169 | arguments after the first do not change the field |
| ExecutionStrategy.NadelExecutionStrategy.constructor | src/main/java/graphql/nadel/engine/NadelExecutionStrategy.java:68-73 | the strategy holds the given non-empty services and field lookup |
| ExecutionStrategy.NadelExecutionStrategy.GetService | src/main/java/graphql/nadel/engine/NadelExecutionStrategy.java:220-222 | the first of the strategy's services with the hydration's service name; fails iff none |
| ExecutionStrategy.NadelExecutionStrategy.GetDelegatedExecutionForTopLevel | src/main/java/graphql/nadel/engine/NadelExecutionStrategy.java:233-244 | services in first-occurrence order without duplicates; each service's list is exactly its fields in query order, and never empty |
| ExecutionStrategy.MergeTrees | src/main/java/graphql/nadel/engine/NadelExecutionStrategy.java:225-231 | the merged root holds all the roots' children, root by root in order |
| ExecutionStrategy.FilterVariables | src/main/java/graphql/nadel/engine/NadelExecutionStrategy.java:251-259 | exactly the referenced variables are kept; each has its context value, or null when the context has none |

## Left out

- Concurrency: coroutines, `async`/`awaitAll` and `CompletableFuture` are modelled as sequential evaluation in list order.
- I/O: service calls, the actor query execution and the JSON node extractor are function parameters.
- The alias helper, the fields builder, the unused-field remover, `mapFrom`, the batch matchers and actor-query builder, `getInstructionForNode(s)` and `getOverallTypeName` are abstract function parameters; their code is not part of this model.
- Field identity: the source groups and compares fields by object identity. The model numbers fields in pre-order, and the older engine's transformations carry an explicit id.
- The parent back-reference of a normalized field is not modelled; operations receive the result keys of the field's ancestors instead.
- Floating-point values (`Double`, `Float`) are opaque tags carried through unchanged; no float arithmetic is modelled. A `BigDecimal` is its unscaled value and scale.
- The hooks' user context and the error overload of the result instructions are not modelled.
- The stripping of artificial fields from the final result is done by the engine, outside the modelled files.
- `getNodesAt(...).emptyOrSingle()` for single-node lookups is one parameter; the failure on more than one node is not modelled there.
- DeepRenameTransform.MakeDeepField: the newer deep rename (engine-nextgen/src/main/kotlin/graphql/nadel/enginekt/transform/NadelDeepRenameTransform.kt:220) builds its path with `NFUtil.createField`, which the model takes to build the same chain as `PathToField.CreateObjectField`; NFUtil.kt is not part of this model. The earlier deep rename calls `NadelPathToField.createField` itself.
- The older engine's strategy `execute`, `resolveAllHydrationInputs`, `callService`, the result-node zippers and the execution-context builders are not modelled; they only route futures and build contexts.
- ServiceExecutionParameters other than the variables are not modelled.
- ExecutionStrategy.FilterVariables: the insertion order of the resulting `LinkedHashMap` is not modelled, because the result is a `map`.
- ExecutionStrategy.NadelExecutionStrategy.constructor: the `assertNotEmpty` check is a precondition rather than a thrown exception.
- ExecutionStrategy.NadelExecutionStrategy: the field-to-service lookup through `FieldInfos.getInfo` is a total function parameter; a missing info is not modelled.
- SplitFields.ExecutionsFor: the source passes coordinates where the index lookup takes a top-level field name, and uses the info as the service. The model takes the owner of a (kind, coordinates) pair as a parameter, and the `getOneObjectType`/`getOneFieldDefinition` lookups as `coordinatesOf`.
- FieldInfos.Create: `mapFrom` is a parameter. `CreateLookup` assumes it builds a map from the entries. Its behaviour on duplicate names is only constrained by `CollisionHasNoWinner`.
- HydrationArgumentsBuilder.ValueToAstValue: a `Double` or `Float` is kept as its tag rather than converted through `toBigDecimal()`.

## Findings

| source | as written | input that shows it | evidently intended | confidence | as-written member | corrected member |
|---|---|---|---|---|---|---|
| lib/src/main/java/graphql/nadel/engine/transform/hydration/NadelHydrationTransform.kt:193-194 | when the engine hooks choose no instruction, null is set at the parent's path plus the field's name | field `owner` aliased `author`, a parent with two instructions, hooks choosing none: null goes to `.../owner` and `.../author` stays unset | null is set at the parent's path plus the field's result key, as every other branch does | medium, not executed | HydrationTransform.HydrateAsWritten | HydrationTransform.Hydrate |
