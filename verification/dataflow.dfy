/** What an execution computes: the recursive evaluation of the graph, and the inputs that feed each node. */
module Dataflow {
  import opened Wrappers
  import opened Dag

  datatype Value = Dict(entries: map<string, Value>) | Scalar(text: string) | Nothing

  type Inputs = map<string, Value>

  /** A node can report an output with its failure. */
  datatype Outcome = Completed(output: Value) | Failed(output: Value)

  /** `run` is what each node does with its inputs, its configuration included. */
  datatype Graph = Graph(
    nodes: seq<Node>, edges: seq<Edge>, run: (Node, Inputs) -> Outcome,
    webhookSources: set<Node>, triggerPayload: Option<Value>)

  /** An output that is kept: an empty one is not. */
  predicate Truthy(v: Value) {
    match v
    case Dict(entries) => entries != map[]
    case Scalar(text) => text != ""
    case Nothing => false
  }

  predicate Stored(o: Outcome) {
    o.Completed? && Truthy(o.output)
  }

  /** The ends data flows along; unlike the scheduler's, `from` and `to` are not read. */
  function DataSource(edge: Edge): Option<Node> {
    OrElse(edge.source, edge.sourceId)
  }

  function DataTarget(edge: Edge): Option<Node> {
    OrElse(edge.target, edge.targetId)
  }

  function SourcePort(edge: Edge): string {
    if edge.sourcePort.Some? then edge.sourcePort.value else "output"
  }

  function TargetPort(edge: Edge): string {
    if edge.targetPort.Some? then edge.targetPort.value else "input"
  }

  /** The part of an output a port selects, or all of it. */
  function AtPort(output: Value, port: string): Value {
    if output.Dict? && port in output.entries then output.entries[port] else output
  }

  /** What the edges bring into a node; a later edge into the same port wins. */
  function Collected(edges: seq<Edge>, v: Node, outputs: map<Node, Value>): Inputs {
    if edges == [] then map[]
    else
      var before, last := Collected(edges[..|edges| - 1], v, outputs), edges[|edges| - 1];
      if DataTarget(last) == Some(v) && DataSource(last).Some? && DataSource(last).value in outputs then
        before[TargetPort(last) := AtPort(outputs[DataSource(last).value], SourcePort(last))]
      else before
  }

  /** The trigger payload reaches only a webhook source that no edge targets. */
  function WithPayload(g: Graph, v: Node, inputs: Inputs): Inputs {
    if v !in g.webhookSources || g.triggerPayload.None? then inputs
    else if exists e :: 0 <= e < |g.edges| && DataTarget(g.edges[e]) == Some(v) then inputs
    else inputs["webhook_payload" := g.triggerPayload.value]
  }

  function InputsOf(g: Graph, v: Node, outputs: map<Node, Value>): Inputs {
    WithPayload(g, v, Collected(g.edges, v, outputs))
  }

  /** The nodes whose outputs a node's inputs can depend on. */
  function Feeds(edges: seq<Edge>, v: Node): set<Node> {
    set e | e in edges && DataTarget(e) == Some(v) && DataSource(e).Some? :: DataSource(e).value
  }

  /** Data only flows upwards. */
  predicate Ordered(g: Graph, rank: map<Node, nat>) {
    forall v {:trigger FedFromBelow(g, rank, v)} :: v in rank ==> FedFromBelow(g, rank, v)
  }

  predicate FedFromBelow(g: Graph, rank: map<Node, nat>, v: Node)
    requires v in rank
  {
    forall u :: u in Feeds(g.edges, v) && u in rank ==> rank[u] < rank[v]
  }

  /** The recursive evaluation: run the node on the stored outputs of what feeds it. */
  ghost function Eval(g: Graph, rank: map<Node, nat>, v: Node): Outcome
    requires Ordered(g, rank) && v in rank
    decreases rank[v]
  {
    assert FedFromBelow(g, rank, v);
    g.run(v, InputsOf(g, v,
      map u | u in Feeds(g.edges, v) && u in rank && Stored(Eval(g, rank, u)) :: Eval(g, rank, u).output))
  }

  /** Every node's evaluation. */
  ghost function Evaluation(g: Graph, rank: map<Node, nat>): map<Node, Outcome>
    requires Ordered(g, rank)
  {
    map v | v in rank :: Eval(g, rank, v)
  }

  /** The outputs some outcomes leave stored. */
  function OutputsOf(outcomes: map<Node, Outcome>): map<Node, Value> {
    map u | u in outcomes && Stored(outcomes[u]) :: outcomes[u].output
  }

  predicate AgreeOn(nodes: set<Node>, a: map<Node, Value>, b: map<Node, Value>) {
    forall u :: u in nodes ==> (u in a <==> u in b) && (u in a ==> a[u] == b[u])
  }

  /** Inputs depend on the feeding nodes alone. */
  lemma {:induction false} CollectedAgrees(edges: seq<Edge>, v: Node, a: map<Node, Value>, b: map<Node, Value>)
    requires AgreeOn(Feeds(edges, v), a, b)
    ensures Collected(edges, v, a) == Collected(edges, v, b)
  {
    if edges != [] {
      var init, last := edges[..|edges| - 1], edges[|edges| - 1];
      assert last in edges;
      assert forall e :: e in init ==> e in edges;
      CollectedAgrees(init, v, a, b);
      if DataTarget(last) == Some(v) && DataSource(last).Some? {
        assert DataSource(last).value in Feeds(edges, v);
      }
    }
  }

  /** The edge leads from a stored output into this port of the node. */
  predicate LeadsInto(e: Edge, v: Node, port: string, outputs: map<Node, Value>) {
    && (e.target == Some(v) || (e.target.None? && e.targetId == Some(v)))
    && (e.source.Some? || e.sourceId.Some?)
    && (if e.source.Some? then e.source.value in outputs else e.sourceId.value in outputs)
    && (e.targetPort == Some(port) || (e.targetPort.None? && port == "input"))
  }

  /** What it brings: the entry its source port names, if the output is a dictionary that has it, else all of it. */
  predicate Brings(e: Edge, outputs: map<Node, Value>, value: Value) {
    exists u :: u in outputs && (e.source == Some(u) || (e.source.None? && e.sourceId == Some(u)))
      && PortOf(outputs[u], if e.sourcePort.None? then "output" else e.sourcePort.value, value)
  }

  predicate PortOf(output: Value, port: string, value: Value) {
    match output
    case Dict(entries) => if port in entries then value == entries[port] else value == output
    case _ => value == output
  }

  /** Each port that some edge leads into holds what the last such edge brings; no other port holds anything. */
  ghost predicate LastEdgesWin(edges: seq<Edge>, v: Node, outputs: map<Node, Value>, inputs: Inputs) {
    forall port {:trigger LastEdgeWins(edges, v, outputs, inputs, port)} ::
      LastEdgeWins(edges, v, outputs, inputs, port)
  }

  ghost predicate LastEdgeWins(edges: seq<Edge>, v: Node, outputs: map<Node, Value>, inputs: Inputs, port: string) {
    && (port in inputs <==> exists i :: 0 <= i < |edges| && LeadsInto(edges[i], v, port, outputs))
    && (forall i :: 0 <= i < |edges| && LeadsInto(edges[i], v, port, outputs)
                    && (forall j :: i < j < |edges| ==> !LeadsInto(edges[j], v, port, outputs)) ==>
          port in inputs && Brings(edges[i], outputs, inputs[port]))
  }

  lemma {:induction false} CollectedMeans(edges: seq<Edge>, v: Node, outputs: map<Node, Value>)
    ensures LastEdgesWin(edges, v, outputs, Collected(edges, v, outputs))
  {
    if edges == [] {
      forall port ensures LastEdgeWins(edges, v, outputs, map[], port) {
      }
    } else {
      var init, last := edges[..|edges| - 1], edges[|edges| - 1];
      CollectedMeans(init, v, outputs);
      assert edges == init + [last];
      forall port ensures LastEdgeWins(edges, v, outputs, Collected(edges, v, outputs), port) {
        assert LastEdgeWins(init, v, outputs, Collected(init, v, outputs), port);
        OneMoreEdge(init, last, v, outputs, port);
      }
    }
  }

  lemma OneMoreEdge(init: seq<Edge>, last: Edge, v: Node, outputs: map<Node, Value>, port: string)
    requires LastEdgeWins(init, v, outputs, Collected(init, v, outputs), port)
    ensures LastEdgeWins(init + [last], v, outputs, Collected(init + [last], v, outputs), port)
  {
    var edges := init + [last];
    assert edges[|init|] == last && forall i :: 0 <= i < |init| ==> edges[i] == init[i];
    if LeadsInto(last, v, port, outputs) {
      LastBrings(init, last, v, outputs, port);
    } else {
      LastBringsNothing(init, last, v, outputs, port);
    }
  }

  lemma LastBrings(init: seq<Edge>, last: Edge, v: Node, outputs: map<Node, Value>, port: string)
    requires LeadsInto(last, v, port, outputs)
    ensures var inputs := Collected(init + [last], v, outputs); port in inputs && Brings(last, outputs, inputs[port])
  {
    assert (init + [last])[..|init|] == init;
  }

  lemma LastBringsNothing(init: seq<Edge>, last: Edge, v: Node, outputs: map<Node, Value>, port: string)
    requires !LeadsInto(last, v, port, outputs)
    ensures var before, inputs := Collected(init, v, outputs), Collected(init + [last], v, outputs);
            (port in inputs <==> port in before) && (port in inputs ==> inputs[port] == before[port])
  {
    assert (init + [last])[..|init|] == init;
  }

  /** No edge leads into the node, whatever its source. */
  predicate Unfed(edges: seq<Edge>, v: Node) {
    forall i :: 0 <= i < |edges| ==>
      edges[i].target != Some(v) && (edges[i].target.None? ==> edges[i].targetId != Some(v))
  }

  /** A node's inputs: an unfed webhook source has the trigger payload alone, any other node what its edges bring. */
  ghost predicate InputsAre(g: Graph, v: Node, outputs: map<Node, Value>, inputs: Inputs) {
    if v in g.webhookSources && g.triggerPayload.Some? && Unfed(g.edges, v) then
      inputs == map["webhook_payload" := g.triggerPayload.value]
    else LastEdgesWin(g.edges, v, outputs, inputs)
  }

  lemma InputsMean(g: Graph, v: Node, outputs: map<Node, Value>)
    ensures InputsAre(g, v, outputs, InputsOf(g, v, outputs))
  {
    CollectedMeans(g.edges, v, outputs);
    if Unfed(g.edges, v) {
      forall port ensures port !in Collected(g.edges, v, outputs) {
        assert LastEdgeWins(g.edges, v, outputs, Collected(g.edges, v, outputs), port);
      }
      assert Collected(g.edges, v, outputs) == map[];
    }
  }

  /** An output is stored exactly if its node completed and it is not empty. */
  lemma StoredMeans(outcomes: map<Node, Outcome>, u: Node)
    ensures u in OutputsOf(outcomes) <==>
            u in outcomes && outcomes[u].Completed? && outcomes[u].output !in {Nothing, Scalar(""), Dict(map[])}
    ensures u in OutputsOf(outcomes) ==> OutputsOf(outcomes)[u] == outcomes[u].output
  {
  }

  /** The evaluation is a fixed point: every node ran on what its edges bring from the evaluation itself. */
  lemma EvaluationRuns(g: Graph, rank: map<Node, nat>, v: Node) returns (inputs: Inputs)
    requires Ordered(g, rank) && v in rank
    ensures InputsAre(g, v, OutputsOf(Evaluation(g, rank)), inputs)
    ensures Evaluation(g, rank)[v] == g.run(v, inputs)
  {
    var outputs := OutputsOf(Evaluation(g, rank));
    inputs := InputsOf(g, v, outputs);
    InputsMean(g, v, outputs);
    NodeStep(g, rank, outputs, v);
  }

  /** Running a node once everything that feeds it is stored gives its evaluation, whatever else is stored. */
  lemma NodeStep(g: Graph, rank: map<Node, nat>, outputs: map<Node, Value>, v: Node)
    requires Ordered(g, rank) && v in rank
    requires AgreeOn(Feeds(g.edges, v), outputs, OutputsOf(Evaluation(g, rank)))
    ensures g.run(v, InputsOf(g, v, outputs)) == Eval(g, rank, v)
  {
    var own := map u | u in Feeds(g.edges, v) && u in rank && Stored(Eval(g, rank, u)) :: Eval(g, rank, u).output;
    CollectedAgrees(g.edges, v, outputs, own);
  }

  /** The evaluation does not depend on which ranking shows the graph to be acyclic. */
  lemma {:induction false} RankIrrelevant(g: Graph, a: map<Node, nat>, b: map<Node, nat>, v: Node)
    requires Ordered(g, a) && Ordered(g, b) && a.Keys == b.Keys && v in a
    ensures Eval(g, a, v) == Eval(g, b, v)
    decreases a[v]
  {
    assert FedFromBelow(g, a, v);
    forall u | u in Feeds(g.edges, v) && u in a ensures Eval(g, a, u) == Eval(g, b, u) {
      RankIrrelevant(g, a, b, u);
    }
    var own := map u | u in Feeds(g.edges, v) && u in a && Stored(Eval(g, a, u)) :: Eval(g, a, u).output;
    var other := map u | u in Feeds(g.edges, v) && u in b && Stored(Eval(g, b, u)) :: Eval(g, b, u).output;
    assert own == other;
  }
}
