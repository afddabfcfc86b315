/**
 * Batch hydration: parent objects that share a batch-hydration instruction are hydrated
 * together. The parents are grouped by their instruction, each group's actor queries are run
 * in order, and the group's results are matched back to its parents by index or by object
 * identifier.
 */
module BatchHydrator {
  import opened Wrappers
  import opened Fields
  import opened Json
  import opened Transform
  import opened Grouping

  /** The parts of a batch-hydration instruction the hydrator reads. */
  datatype BatchHydrationFieldInstruction = BatchHydrationFieldInstruction(
    location: FieldCoordinates,
    actorService: string,
    queryPathToActorField: seq<string>,
    batchSize: int,
    batchHydrationMatchStrategy: BatchHydrationMatchStrategy)

  /** The batch-hydration transform's state for one hydrated field. */
  datatype State = State(
    instructionsByObjectTypeNames: Groups<string, BatchHydrationFieldInstruction>,
    hydratedFieldService: string,
    hydratedField: Field,
    aliasHelper: AliasHelper)

  /**
   * What the hydrator relies on but does not define: the instructions that apply to a parent
   * node, the actor queries of a batch, the actor call, the two matchers and the error
   * instructions of a list of results.
   */
  datatype Collaborators = Collaborators(
    getInstructionsForNode: (Groups<string, BatchHydrationFieldInstruction>, string, AliasHelper, JsonNode) -> seq<BatchHydrationFieldInstruction>,
    makeBatchActorQueries: (BatchHydrationFieldInstruction, AliasHelper, Field, seq<JsonNode>) -> seq<Field>,
    executeHydration: (string, Field, seq<string>) -> ServiceResult,
    matchingIndex: (State, BatchHydrationFieldInstruction, seq<JsonNode>, seq<ServiceResult>) -> seq<ResultInstruction>,
    matchingObjectId: (State, BatchHydrationFieldInstruction, seq<JsonNode>, seq<ServiceResult>, string) -> seq<ResultInstruction>,
    getInstructionsToAddErrors: seq<ServiceResult> -> seq<ResultInstruction>)

  /** The instructions that apply to one parent node. */
  function InstructionsFor(state: State, env: Collaborators, node: JsonNode): seq<BatchHydrationFieldInstruction> {
    env.getInstructionsForNode(state.instructionsByObjectTypeNames, state.hydratedFieldService, state.aliasHelper, node)
  }

  function Second(pair: (JsonNode, BatchHydrationFieldInstruction)): BatchHydrationFieldInstruction {
    pair.1
  }

  /** The parent nodes whose instructions are exactly `instruction`, in their original order (reference definition). */
  function NodesOf(state: State, env: Collaborators, parentNodes: seq<JsonNode>, instruction: BatchHydrationFieldInstruction): seq<JsonNode> {
    if parentNodes == [] then []
    else
      (if InstructionsFor(state, env, parentNodes[0]) == [instruction] then [parentNodes[0]] else [])
      + NodesOf(state, env, parentNodes[1..], instruction)
  }

  /**
   * Each parent node paired with its only instruction, in order; nodes without an instruction
   * are dropped, and a node with more than one is an error.
   */
  function InstructionPairs(state: State, env: Collaborators, parentNodes: seq<JsonNode>): (r: Result<seq<(JsonNode, BatchHydrationFieldInstruction)>>)
    ensures r.Failure? <==> exists i :: 0 <= i < |parentNodes| && |InstructionsFor(state, env, parentNodes[i])| > 1
    ensures r.Success? ==> forall j :: 0 <= j < |r.value| ==> InstructionsFor(state, env, r.value[j].0) == [r.value[j].1]
  {
    if parentNodes == [] then Success([])
    else
      var node := parentNodes[0];
      var instructions := InstructionsFor(state, env, node);
      if |instructions| > 1 then Failure("Collection contains more than one matching element.")
      else
        var rest :- InstructionPairs(state, env, parentNodes[1..]);
        assert forall i :: 1 <= i < |parentNodes| ==> parentNodes[i] == parentNodes[1..][i - 1];
        var pairs := if instructions == [] then [] else [(node, instructions[0])];
        var r := pairs + rest;
        assert forall j :: 0 <= j < |r| ==> InstructionsFor(state, env, r[j].0) == [r[j].1] by {
          forall j | 0 <= j < |r| ensures InstructionsFor(state, env, r[j].0) == [r[j].1] {
            if j >= |pairs| { assert r[j] == rest[j - |pairs|]; }
          }
        }
        Success(r)
  }

  /** The nodes paired with an instruction are exactly the parent nodes whose instructions are that one alone, in order. */
  lemma {:induction false} PairedNodes(state: State, env: Collaborators, parentNodes: seq<JsonNode>, instruction: BatchHydrationFieldInstruction)
    requires InstructionPairs(state, env, parentNodes).Success?
    ensures Firsts(Filter(InstructionPairs(state, env, parentNodes).value, Second, instruction)) == NodesOf(state, env, parentNodes, instruction)
  {
    if parentNodes != [] {
      var node, tail := parentNodes[0], parentNodes[1..];
      var instructions := InstructionsFor(state, env, node);
      assert |instructions| <= 1 && InstructionPairs(state, env, tail).Success?;
      var rest := InstructionPairs(state, env, tail).value;
      PairedNodes(state, env, tail, instruction);
      var pairs := if instructions == [] then [] else [(node, instructions[0])];
      assert InstructionPairs(state, env, parentNodes).value == pairs + rest;
      FilterAppend(pairs, rest, Second, instruction);
      var f := Filter(pairs, Second, instruction);
      var g := Filter(rest, Second, instruction);
      assert Firsts(f + g) == Firsts(f) + Firsts(g);
      assert NodesOf(state, env, parentNodes, instruction) ==
        (if instructions == [instruction] then [node] else []) + NodesOf(state, env, tail, instruction);
      if instructions == [] {
        assert f == [];
      } else {
        assert pairs[1..] == [];
        assert Firsts(f) == if instructions[0] == instruction then [node] else [];
      }
    }
  }

  /** Kotlin's `mapValues { it.map { pair -> pair.first } }`: each group's pairs reduced to their nodes. */
  function NodeGroups(g: Groups<BatchHydrationFieldInstruction, (JsonNode, BatchHydrationFieldInstruction)>): (r: Groups<BatchHydrationFieldInstruction, JsonNode>)
    ensures Keys(r) == Keys(g)
    ensures forall instruction :: GroupOf(r, instruction) == Firsts(GroupOf(g, instruction))
    ensures forall i :: 0 <= i < |g| ==> |r[i].1| == |g[i].1|
  {
    if g == [] then []
    else
      var r := [(g[0].0, Firsts(g[0].1))] + NodeGroups(g[1..]);
      KeysCons(g[0].0, Firsts(g[0].1), NodeGroups(g[1..]));
      KeysCons(g[0].0, g[0].1, g[1..]);
      assert [g[0]] + g[1..] == g;
      assert forall i :: 1 <= i < |g| ==> r[i] == NodeGroups(g[1..])[i - 1] && g[i] == g[1..][i - 1];
      r
  }

  /**
   * The parent nodes grouped by their only instruction (lines 28-48). Every parent node with
   * an instruction is in the group of that instruction and in no other, in its original
   * order; nodes without an instruction are in no group; the groups are distinct and
   * non-empty; a node with several instructions is an error.
   */
  function ParentNodesByInstruction(state: State, env: Collaborators, parentNodes: seq<JsonNode>): (r: Result<Groups<BatchHydrationFieldInstruction, JsonNode>>)
    ensures r.Failure? <==> exists i :: 0 <= i < |parentNodes| && |InstructionsFor(state, env, parentNodes[i])| > 1
    ensures r.Success? ==> forall instruction :: GroupOf(r.value, instruction) == NodesOf(state, env, parentNodes, instruction)
    ensures r.Success? ==> NoDuplicates(Keys(r.value))
    ensures r.Success? ==> forall i :: 0 <= i < |r.value| ==> |r.value[i].1| > 0
  {
    var pairs :- InstructionPairs(state, env, parentNodes);
    var g := GroupBy(pairs, Second);
    GroupByCorrect(pairs, Second);
    forall instruction ensures GroupOf(NodeGroups(g), instruction) == NodesOf(state, env, parentNodes, instruction) {
      PairedNodes(state, env, parentNodes, instruction);
    }
    Success(NodeGroups(g))
  }

  /**
   * The groups follow the first occurrence of their instruction among the paired parent nodes:
   * every node of a later group is preceded by a node of each earlier group.
   */
  lemma GroupsInFirstOccurrenceOrder(state: State, env: Collaborators, parentNodes: seq<JsonNode>)
    requires InstructionPairs(state, env, parentNodes).Success?
    ensures var pairs := InstructionPairs(state, env, parentNodes).value;
      var groups := ParentNodesByInstruction(state, env, parentNodes).value;
      forall a, b, n :: 0 <= a < b < |groups| && 0 <= n < |pairs| && pairs[n].1 == groups[b].0 ==>
        OccursBefore(pairs, Second, n, groups[a].0)
  {
    var pairs := InstructionPairs(state, env, parentNodes).value;
    GroupByCorrect(pairs, Second);
    DistinctKeysFirstOccurrence(pairs, Second);
  }

  /** The actor results of a batch: one per actor query, in query order (`awaitAll` keeps the order). */
  function ExecuteBatches(state: State, env: Collaborators, instruction: BatchHydrationFieldInstruction, parentNodes: seq<JsonNode>): (r: seq<ServiceResult>)
    ensures var actorQueries := env.makeBatchActorQueries(instruction, state.aliasHelper, state.hydratedField, parentNodes);
      && |r| == |actorQueries|
      && forall i :: 0 <= i < |r| ==>
           r[i] == env.executeHydration(instruction.actorService, actorQueries[i], instruction.queryPathToActorField)
  {
    var actorQueries := env.makeBatchActorQueries(instruction, state.aliasHelper, state.hydratedField, parentNodes);
    seq(|actorQueries|, i requires 0 <= i < |actorQueries| =>
      env.executeHydration(instruction.actorService, actorQueries[i], instruction.queryPathToActorField))
  }

  /**
   * One group: the matcher the instruction's strategy names (by index, or by object
   * identifier), then the error instructions of all the group's actor results.
   */
  function HydrateGroup(state: State, env: Collaborators, instruction: BatchHydrationFieldInstruction, parentNodes: seq<JsonNode>): (r: seq<ResultInstruction>)
    ensures var batches := ExecuteBatches(state, env, instruction, parentNodes);
      var errors := env.getInstructionsToAddErrors(batches);
      && |r| >= |errors|
      && r[|r| - |errors|..] == errors
      && (instruction.batchHydrationMatchStrategy.MatchIndex? ==>
            r[..|r| - |errors|] == env.matchingIndex(state, instruction, parentNodes, batches))
      && (instruction.batchHydrationMatchStrategy.MatchObjectIdentifier? ==>
            r[..|r| - |errors|] == env.matchingObjectId(state, instruction, parentNodes, batches, instruction.batchHydrationMatchStrategy.objectIdentifier))
  {
    var batches := ExecuteBatches(state, env, instruction, parentNodes);
    var matched := match instruction.batchHydrationMatchStrategy
      case MatchIndex => env.matchingIndex(state, instruction, parentNodes, batches)
      case MatchObjectIdentifier(objectIdentifier) => env.matchingObjectId(state, instruction, parentNodes, batches, objectIdentifier);
    matched + env.getInstructionsToAddErrors(batches)
  }

  /** The groups' instructions, group after group. */
  function HydrateGroups(state: State, env: Collaborators, groups: Groups<BatchHydrationFieldInstruction, JsonNode>): seq<ResultInstruction> {
    if groups == [] then []
    else HydrateGroup(state, env, groups[0].0, groups[0].1) + HydrateGroups(state, env, groups[1..])
  }

  /** Hydrating a concatenation of groups concatenates their instructions. */
  lemma {:induction false} HydrateGroupsAppend(state: State, env: Collaborators, a: Groups<BatchHydrationFieldInstruction, JsonNode>, b: Groups<BatchHydrationFieldInstruction, JsonNode>)
    ensures HydrateGroups(state, env, a + b) == HydrateGroups(state, env, a) + HydrateGroups(state, env, b)
  {
    if a == [] {
      assert a + b == b;
    } else {
      assert (a + b)[1..] == a[1..] + b;
      HydrateGroupsAppend(state, env, a[1..], b);
    }
  }

  /**
   * All parent nodes (lines 23-53): grouped by instruction, then each group hydrated in group
   * order; a node with several instructions is an error, and no parent without an instruction
   * reaches any group.
   */
  function Hydrate(state: State, env: Collaborators, parentNodes: seq<JsonNode>): (r: Result<seq<ResultInstruction>>)
    ensures r.Failure? <==> exists i :: 0 <= i < |parentNodes| && |InstructionsFor(state, env, parentNodes[i])| > 1
    ensures r.Success? ==> r.value == HydrateGroups(state, env, ParentNodesByInstruction(state, env, parentNodes).value)
  {
    var groups :- ParentNodesByInstruction(state, env, parentNodes);
    Success(HydrateGroups(state, env, groups))
  }

  /** When every parent node has the one instruction, its nodes are all of them and any other instruction's are none. */
  lemma {:induction false} NodesOfUniform(state: State, env: Collaborators, parentNodes: seq<JsonNode>, instruction: BatchHydrationFieldInstruction, other: BatchHydrationFieldInstruction)
    requires forall i :: 0 <= i < |parentNodes| ==> InstructionsFor(state, env, parentNodes[i]) == [instruction]
    ensures NodesOf(state, env, parentNodes, other) == if other == instruction then parentNodes else []
  {
    if parentNodes != [] {
      assert forall i :: 1 <= i < |parentNodes| ==> parentNodes[1..][i - 1] == parentNodes[i];
      NodesOfUniform(state, env, parentNodes[1..], instruction, other);
      assert [parentNodes[0]] + parentNodes[1..] == parentNodes;
    }
  }

  /** When every parent node shares one instruction, there is exactly one group, holding all of them. */
  lemma SingleInstructionSingleGroup(state: State, env: Collaborators, parentNodes: seq<JsonNode>, instruction: BatchHydrationFieldInstruction)
    requires parentNodes != []
    requires forall i :: 0 <= i < |parentNodes| ==> InstructionsFor(state, env, parentNodes[i]) == [instruction]
    ensures ParentNodesByInstruction(state, env, parentNodes) == Success([(instruction, parentNodes)])
    ensures Hydrate(state, env, parentNodes) == Success(HydrateGroup(state, env, instruction, parentNodes))
  {
    var r := ParentNodesByInstruction(state, env, parentNodes).value;
    NodesOfUniform(state, env, parentNodes, instruction, instruction);
    assert GroupOf(r, instruction) == parentNodes;
    forall i | 0 <= i < |r| ensures r[i].0 == instruction {
      var k := r[i].0;
      if k != instruction {
        GroupAtIndex(r, i);
        NodesOfUniform(state, env, parentNodes, instruction, k);
        assert false;
      }
    }
    assert |r| == 1 && r[0].0 == instruction by {
      assert r != [];
      if |r| > 1 {
        assert false;
      }
    }
    GroupAtIndex(r, 0);
    assert r == [(instruction, parentNodes)];
    assert r[1..] == [];
    assert HydrateGroups(state, env, r) == HydrateGroup(state, env, instruction, parentNodes) + HydrateGroups(state, env, []);
    assert Hydrate(state, env, parentNodes) == Success(HydrateGroups(state, env, r));
    var hydrated := HydrateGroup(state, env, instruction, parentNodes);
    assert HydrateGroups(state, env, []) == [] && hydrated + [] == hydrated;
  }
}
