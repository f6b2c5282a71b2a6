/**
 * The analysis graph: one entry node that normalises currencies, fanned out to
 * six independent analysis nodes that each end the run. The graph is built by
 * the same fixed sequence of calls on every request, so it is modelled as
 * constant node and edge data, and a run as the entry node followed by the six
 * leaves in an arbitrary completion order, all reading the state left by the
 * entry node.
 */
module Graph {
  import opened Wrappers
  import opened Json
  import opened Errors
  import opened GraphState
  import CC = CurrencyConversion
  import PV = PropertyValuation
  import RP = RiskPercentages
  import BI = BusinessInterruption
  import CI = CurrentInsurance
  import MC = MultiCurrencyRisk
  import IR = InsuranceRecommendation

  datatype Node =
    | ConvertCurrency
    | PropertyValuation
    | RiskPercentage
    | BusinessInterruption
    | CurrentInsurance
    | MultiCurrencyRisk
    | InsuranceRecommendation

  /** The end of an edge: another node, or the graph's end marker. */
  datatype Target = To(node: Node) | End

  /** The identifier each node is registered under. */
  function Name(n: Node): string
  {
    match n
    case ConvertCurrency => "convert_currency"
    case PropertyValuation => "property_valuation"
    case RiskPercentage => "risk_percentage"
    case BusinessInterruption => "business_interruption"
    case CurrentInsurance => "current_insurance"
    case MultiCurrencyRisk => "multi_currency_risk"
    case InsuranceRecommendation => "insurance_recommendation"
  }

  /** The nodes, in registration order. */
  const Nodes: seq<Node> :=
    [ConvertCurrency, PropertyValuation, RiskPercentage, BusinessInterruption,
     CurrentInsurance, MultiCurrencyRisk, InsuranceRecommendation]

  const EntryPoint: Node := ConvertCurrency

  /** The edges, in the order they are added. */
  const Edges: seq<(Node, Target)> :=
    [(ConvertCurrency, To(PropertyValuation)),
     (ConvertCurrency, To(RiskPercentage)),
     (ConvertCurrency, To(BusinessInterruption)),
     (ConvertCurrency, To(CurrentInsurance)),
     (ConvertCurrency, To(MultiCurrencyRisk)),
     (ConvertCurrency, To(InsuranceRecommendation)),
     (PropertyValuation, End),
     (RiskPercentage, End),
     (BusinessInterruption, End),
     (CurrentInsurance, End),
     (MultiCurrencyRisk, End),
     (InsuranceRecommendation, End)]

  /** The analysis nodes: every node but the entry point. */
  const Leaves: seq<Node> :=
    [PropertyValuation, RiskPercentage, BusinessInterruption,
     CurrentInsurance, MultiCurrencyRisk, InsuranceRecommendation]

  /** The sources of the edges into `n`, in edge order. */
  function Incoming(edges: seq<(Node, Target)>, n: Node): seq<Node>
  {
    if edges == [] then []
    else (if edges[0].1 == To(n) then [edges[0].0] else []) + Incoming(edges[1..], n)
  }

  /** The targets of the edges out of `n`, in edge order. */
  function Outgoing(edges: seq<(Node, Target)>, n: Node): seq<Target>
  {
    if edges == [] then []
    else (if edges[0].0 == n then [edges[0].1] else []) + Outgoing(edges[1..], n)
  }

  /** The state field a node writes. */
  function Writes(n: Node): string
  {
    match n
    case ConvertCurrency => ConvertedTextKey
    case PropertyValuation => PropertyValuationsKey
    case RiskPercentage => RiskPercentageKey
    case BusinessInterruption => BusinessInterruptionKey
    case CurrentInsurance => CurrentInsuranceKey
    case MultiCurrencyRisk => MultiCurrencyRiskKey
    case InsuranceRecommendation => InsuranceRecommendationKey
  }

  /** The fields written by a sequence of nodes. */
  function Written(order: seq<Node>): set<string>
  {
    if order == [] then {} else {Writes(order[0])} + Written(order[1..])
  }

  /** A field is written by a sequence of nodes exactly when one of them writes it. */
  lemma {:induction false} WrittenMembers(order: seq<Node>, k: string)
    ensures k in Written(order) <==> exists n :: n in order && Writes(n) == k
  {
    if order != [] {
      WrittenMembers(order[1..], k);
      assert forall n :: n in order <==> n == order[0] || n in order[1..];
    }
  }

  /** The external chains a run calls: the entry node's, and one per analysis node. */
  datatype Chains = Chains(convert: CC.ConversionChain, analyse: Node -> Chain)

  /** One node's function applied to the state it is given. */
  function RunNode(n: Node, state: State, chains: Chains): (r: Result<Fragment, Error>)
    ensures r.Success? ==> r.value.Keys == {Writes(n)}
  {
    match n
    case ConvertCurrency => CC.RunCurrencyConversion(state, chains.convert)
    case PropertyValuation => PV.RunPropertyValuation(state, chains.analyse(n))
    case RiskPercentage => RP.RunRiskPercentage(state, chains.analyse(n))
    case BusinessInterruption => BI.RunBusinessInterruption(state, chains.analyse(n))
    case CurrentInsurance => CI.RunCurrentInsurance(state, chains.analyse(n))
    case MultiCurrencyRisk => MC.RunMultyCurrencyRisk(state, chains.analyse(n))
    case InsuranceRecommendation => IR.RunInsuranceRecommendation(state, chains.analyse(n))
  }

  /** A completion order of the fan-out: every analysis node exactly once. */
  predicate IsSchedule(order: seq<Node>)
  {
    multiset(order) == multiset(Leaves)
  }

  /** The completion orders a run can take. */
  type Schedule = order: seq<Node> | IsSchedule(order) witness Leaves

  /**
   * The fan-out stage: the nodes of `order` complete one after another, each
   * computed from `snapshot` and merged by name into `acc`; the first failure
   * ends the run and no state is returned.
   */
  function FanOut(order: seq<Node>, snapshot: State, acc: State, chains: Chains): Result<State, Error>
  {
    if order == [] then Success(acc)
    else
      match RunNode(order[0], snapshot, chains)
      case Failure(e) => Failure(e)
      case Success(fragment) => FanOut(order[1..], snapshot, Merge(acc, fragment), chains)
  }

  /** A run of the graph: the entry node, then the fan-out in the given completion order. */
  function RunGraph(initial: State, chains: Chains, order: seq<Node>): Result<State, Error>
  {
    match RunNode(EntryPoint, initial, chains)
    case Failure(e) => Failure(e)
    case Success(fragment) =>
      var snapshot := Merge(initial, fragment);
      FanOut(order, snapshot, snapshot, chains)
  }

  // ---------------------------------------------------------------------
  // Shape of the graph

  /** Seven nodes with pairwise distinct identifiers; the entry point is the currency conversion. */
  lemma NodesShape()
    ensures |Nodes| == 7
    ensures forall i, j :: 0 <= i < j < |Nodes| ==> Name(Nodes[i]) != Name(Nodes[j])
    ensures forall n: Node :: n in Nodes
    ensures EntryPoint == Nodes[0] && Name(EntryPoint) == "convert_currency"
    ensures Leaves == Nodes[1..]
  {
    forall n: Node ensures n in Nodes {
      match n
      case ConvertCurrency => assert Nodes[0] == n;
      case PropertyValuation => assert Nodes[1] == n;
      case RiskPercentage => assert Nodes[2] == n;
      case BusinessInterruption => assert Nodes[3] == n;
      case CurrentInsurance => assert Nodes[4] == n;
      case MultiCurrencyRisk => assert Nodes[5] == n;
      case InsuranceRecommendation => assert Nodes[6] == n;
    }
  }

  /** Filtering edges distributes over concatenation. */
  lemma FilterAppend(a: seq<(Node, Target)>, b: seq<(Node, Target)>, n: Node)
    ensures Incoming(a + b, n) == Incoming(a, n) + Incoming(b, n)
    ensures Outgoing(a + b, n) == Outgoing(a, n) + Outgoing(b, n)
  {
    IncomingAppend(a, b, n);
    OutgoingAppend(a, b, n);
  }

  lemma {:induction false} IncomingAppend(a: seq<(Node, Target)>, b: seq<(Node, Target)>, n: Node)
    ensures Incoming(a + b, n) == Incoming(a, n) + Incoming(b, n)
  {
    if a == [] {
      assert a + b == b;
    } else {
      assert (a + b)[0] == a[0];
      assert (a + b)[1..] == a[1..] + b;
      IncomingAppend(a[1..], b, n);
      var head := if a[0].1 == To(n) then [a[0].0] else [];
      assert Incoming(a + b, n) == head + (Incoming(a[1..], n) + Incoming(b, n));
      assert head + (Incoming(a[1..], n) + Incoming(b, n)) == (head + Incoming(a[1..], n)) + Incoming(b, n);
    }
  }

  lemma {:induction false} OutgoingAppend(a: seq<(Node, Target)>, b: seq<(Node, Target)>, n: Node)
    ensures Outgoing(a + b, n) == Outgoing(a, n) + Outgoing(b, n)
  {
    if a == [] {
      assert a + b == b;
    } else {
      assert (a + b)[0] == a[0];
      assert (a + b)[1..] == a[1..] + b;
      OutgoingAppend(a[1..], b, n);
      var head := if a[0].0 == n then [a[0].1] else [];
      assert Outgoing(a + b, n) == head + (Outgoing(a[1..], n) + Outgoing(b, n));
      assert head + (Outgoing(a[1..], n) + Outgoing(b, n)) == (head + Outgoing(a[1..], n)) + Outgoing(b, n);
    }
  }

  /** Filtering a list of six edges, edge by edge. */
  lemma FilterSix(e: seq<(Node, Target)>, n: Node)
    requires |e| == 6
    ensures Incoming(e, n) ==
      Incoming([e[0]], n) + Incoming([e[1]], n) + Incoming([e[2]], n) +
      Incoming([e[3]], n) + Incoming([e[4]], n) + Incoming([e[5]], n)
    ensures Outgoing(e, n) ==
      Outgoing([e[0]], n) + Outgoing([e[1]], n) + Outgoing([e[2]], n) +
      Outgoing([e[3]], n) + Outgoing([e[4]], n) + Outgoing([e[5]], n)
  {
    assert e == [e[0]] + [e[1]] + [e[2]] + [e[3]] + [e[4]] + [e[5]];
    FilterAppend([e[0]] + [e[1]] + [e[2]] + [e[3]] + [e[4]], [e[5]], n);
    FilterAppend([e[0]] + [e[1]] + [e[2]] + [e[3]], [e[4]], n);
    FilterAppend([e[0]] + [e[1]] + [e[2]], [e[3]], n);
    FilterAppend([e[0]] + [e[1]], [e[2]], n);
    FilterAppend([e[0]], [e[1]], n);
  }

  /** The edges added from the entry point, and the edges added to the end, in order. */
  const FanOutEdges: seq<(Node, Target)> :=
    [(ConvertCurrency, To(PropertyValuation)), (ConvertCurrency, To(RiskPercentage)),
     (ConvertCurrency, To(BusinessInterruption)), (ConvertCurrency, To(CurrentInsurance)),
     (ConvertCurrency, To(MultiCurrencyRisk)), (ConvertCurrency, To(InsuranceRecommendation))]
  const EndEdges: seq<(Node, Target)> :=
    [(PropertyValuation, End), (RiskPercentage, End), (BusinessInterruption, End),
     (CurrentInsurance, End), (MultiCurrencyRisk, End), (InsuranceRecommendation, End)]

  /** The fan-out edges lead from the entry point to each analysis node once. */
  lemma FanOutEdgesOf(n: Node)
    ensures Incoming(FanOutEdges, n) == (if n == EntryPoint then [] else [EntryPoint])
    ensures Outgoing(FanOutEdges, n) ==
      (if n == EntryPoint then [To(PropertyValuation), To(RiskPercentage), To(BusinessInterruption),
                                 To(CurrentInsurance), To(MultiCurrencyRisk), To(InsuranceRecommendation)]
       else [])
  {
    FilterSix(FanOutEdges, n);
    match n
    case ConvertCurrency =>
    case PropertyValuation =>
    case RiskPercentage =>
    case BusinessInterruption =>
    case CurrentInsurance =>
    case MultiCurrencyRisk =>
    case InsuranceRecommendation =>
  }

  /** The end edges lead from each analysis node to the end once. */
  lemma EndEdgesOf(n: Node)
    ensures Incoming(EndEdges, n) == []
    ensures Outgoing(EndEdges, n) == (if n == EntryPoint then [] else [End])
  {
    FilterSix(EndEdges, n);
    match n
    case ConvertCurrency =>
    case PropertyValuation =>
    case RiskPercentage =>
    case BusinessInterruption =>
    case CurrentInsurance =>
    case MultiCurrencyRisk =>
    case InsuranceRecommendation =>
  }

  /** The edge list is the fan-out edges followed by the edges to the end. */
  lemma EdgesSplit()
    ensures Edges == FanOutEdges + EndEdges
  {
  }

  /** The edges into and out of `n`: the fan-out edges contribute first, then the edges to the end. */
  lemma EdgesOf(n: Node)
    ensures Incoming(Edges, n) == (if n == EntryPoint then [] else [EntryPoint])
    ensures Outgoing(Edges, n) ==
      (if n == EntryPoint then [To(PropertyValuation), To(RiskPercentage), To(BusinessInterruption),
                                 To(CurrentInsurance), To(MultiCurrencyRisk), To(InsuranceRecommendation)]
       else [End])
  {
    EdgesSplit();
    FilterAppend(FanOutEdges, EndEdges, n);
    FanOutEdgesOf(n);
    EndEdgesOf(n);
  }

  /** The entry point has no incoming edge and one outgoing edge to each analysis node, in order. */
  lemma EntryFansOut()
    ensures Incoming(Edges, EntryPoint) == []
    ensures Outgoing(Edges, EntryPoint) ==
      [To(Leaves[0]), To(Leaves[1]), To(Leaves[2]), To(Leaves[3]), To(Leaves[4]), To(Leaves[5])]
  {
    EdgesOf(EntryPoint);
  }

  /**
   * Each analysis node has exactly one incoming edge, from the entry point,
   * and exactly one outgoing edge, to the end: there are no edges between
   * analysis nodes.
   */
  lemma LeafEdges(n: Node)
    requires n in Leaves
    ensures Incoming(Edges, n) == [EntryPoint]
    ensures Outgoing(Edges, n) == [End]
  {
    assert n != EntryPoint;
    EdgesOf(n);
  }

  /**
   * Every field is written by at most one node: the six analysis nodes write
   * the six result fields, only the entry node writes the converted text and no
   * node writes the input text.
   */
  lemma WritersAreDisjoint()
    ensures forall m: Node, n: Node :: m != n ==> Writes(m) != Writes(n)
    ensures forall n: Node :: Writes(n) in Fields && Writes(n) != InputTextKey
    ensures forall n: Node :: Writes(n) == ConvertedTextKey <==> n == EntryPoint
  {
  }

  /** The analysis nodes write exactly the six result fields. */
  lemma LeavesWriteResultFields()
    ensures Written(Leaves) == set f | f in ResultFields
  {
    assert Written(Leaves) ==
      {PropertyValuationsKey, RiskPercentageKey, BusinessInterruptionKey,
       CurrentInsuranceKey, MultiCurrencyRiskKey, InsuranceRecommendationKey};
  }

  // ---------------------------------------------------------------------
  // Behaviour of the nodes

  /**
   * An analysis node reads nothing of the state but the converted text, and
   * when that text is falsy or absent it fails with the same error before its
   * chain is consulted, whatever the chain would have returned.
   */
  lemma LeafReadsOnlyConvertedText(n: Node, s1: State, s2: State, c1: Chains, c2: Chains)
    requires n != EntryPoint
    requires CleanedText(s1) == CleanedText(s2)
    ensures c1.analyse(n) == c2.analyse(n) ==> RunNode(n, s1, c1) == RunNode(n, s2, c2)
    ensures !Truthy(CleanedText(s1)) ==>
      RunNode(n, s1, c1) == RunNode(n, s2, c2) == Failure(ValueError(MissingConvertedText))
  {
  }

  /** No node writes the input text; only the entry node writes the converted text. */
  lemma FragmentOwnership(n: Node, state: State, chains: Chains)
    requires RunNode(n, state, chains).Success?
    ensures InputTextKey !in RunNode(n, state, chains).value
    ensures ConvertedTextKey in RunNode(n, state, chains).value <==> n == EntryPoint
  {
    WritersAreDisjoint();
  }

  // ---------------------------------------------------------------------
  // The fan-out and its independence of completion order

  /** The value a successful node leaves under its own field. */
  function Output(n: Node, snapshot: State, chains: Chains): Value
    requires RunNode(n, snapshot, chains).Success?
  {
    RunNode(n, snapshot, chains).value[Writes(n)]
  }

  predicate Distinct(order: seq<Node>)
  {
    forall i, j :: 0 <= i < j < |order| ==> order[i] != order[j]
  }

  /**
   * The fan-out over distinct nodes succeeds exactly when every one of them
   * succeeds on the snapshot; then each node's output sits under its own field
   * and every other field keeps the value it had before the fan-out.
   */
  lemma {:induction false} FanOutOutcome(order: seq<Node>, snapshot: State, acc: State, chains: Chains)
    requires Distinct(order)
    ensures FanOut(order, snapshot, acc, chains).Success? <==>
      forall n :: n in order ==> RunNode(n, snapshot, chains).Success?
    ensures FanOut(order, snapshot, acc, chains).Success? ==>
      var r := FanOut(order, snapshot, acc, chains).value;
      && r.Keys == acc.Keys + Written(order)
      && (forall n :: n in order ==> Writes(n) in r && r[Writes(n)] == Output(n, snapshot, chains))
      && (forall k :: k in acc && k !in Written(order) ==> r[k] == acc[k])
  {
    if order != [] {
      var n, rest := order[0], order[1..];
      assert forall m :: m in order <==> m == n || m in rest;
      assert Distinct(rest) by {
        forall i, j | 0 <= i < j < |rest| ensures rest[i] != rest[j] {
          assert rest[i] == order[i + 1] && rest[j] == order[j + 1];
        }
      }
      if RunNode(n, snapshot, chains).Success? {
        var fragment := RunNode(n, snapshot, chains).value;
        FanOutOutcome(rest, snapshot, Merge(acc, fragment), chains);
        assert n !in rest;
        WritersAreDisjoint();
        WrittenMembers(rest, Writes(n));
      }
    }
  }

  /**
   * A failed fan-out reports the error of the first node, in completion order,
   * whose step fails; the nodes completing before it make no difference.
   */
  lemma {:induction false} FanOutFirstFailure(order: seq<Node>, snapshot: State, acc: State, chains: Chains, i: nat)
    requires i < |order| && RunNode(order[i], snapshot, chains).Failure?
    requires forall j :: 0 <= j < i ==> RunNode(order[j], snapshot, chains).Success?
    ensures FanOut(order, snapshot, acc, chains) == Failure(RunNode(order[i], snapshot, chains).error)
  {
    if i > 0 {
      var fragment := RunNode(order[0], snapshot, chains).value;
      var rest := order[1..];
      assert forall j :: 0 <= j < i - 1 ==> rest[j] == order[j + 1];
      FanOutFirstFailure(rest, snapshot, Merge(acc, fragment), chains, i - 1);
    }
  }

  /** Each analysis node occurs once in the list of leaves. */
  lemma LeavesOccurOnce(n: Node)
    ensures multiset(Leaves)[n] == (if n == EntryPoint then 0 else 1)
  {
    match n
    case ConvertCurrency =>
    case PropertyValuation =>
    case RiskPercentage =>
    case BusinessInterruption =>
    case CurrentInsurance =>
    case MultiCurrencyRisk =>
    case InsuranceRecommendation =>
  }

  /** A completion order holds exactly the analysis nodes. */
  lemma ScheduleMembers(order: seq<Node>)
    requires IsSchedule(order)
    ensures forall n :: n in order <==> n in Leaves
  {
    forall n ensures n in order <==> n in Leaves {
      assert n in order <==> n in multiset(order);
      assert n in Leaves <==> n in multiset(Leaves);
    }
  }

  /** A schedule holds every analysis node, and none twice. */
  lemma ScheduleDistinct(order: seq<Node>)
    requires IsSchedule(order)
    ensures Distinct(order)
    ensures forall n :: n in order <==> n in Leaves
  {
    ScheduleMembers(order);
    forall i, j | 0 <= i < j < |order|
      ensures order[i] != order[j]
    {
      var x := order[j];
      assert order == order[..j] + [x] + order[j + 1..];
      assert multiset(order)[x] == multiset(order[..j])[x] + 1 + multiset(order[j + 1..])[x];
      LeavesOccurOnce(x);
      assert order[i] in order[..j];
    }
  }

  /**
   * Merging the disjoint fragments gives the same outcome in every completion
   * order: two schedules either both fail or both produce the same state.
   */
  lemma FanOutOrderIndependent(o1: seq<Node>, o2: seq<Node>, snapshot: State, acc: State, chains: Chains)
    requires IsSchedule(o1) && IsSchedule(o2)
    ensures FanOut(o1, snapshot, acc, chains).Success? == FanOut(o2, snapshot, acc, chains).Success?
    ensures FanOut(o1, snapshot, acc, chains).Success? ==>
      FanOut(o1, snapshot, acc, chains).value == FanOut(o2, snapshot, acc, chains).value
  {
    ScheduleDistinct(o1);
    ScheduleDistinct(o2);
    ScheduleMembers(o1);
    ScheduleMembers(o2);
    FanOutOutcome(o1, snapshot, acc, chains);
    FanOutOutcome(o2, snapshot, acc, chains);
    if FanOut(o1, snapshot, acc, chains).Success? {
      ScheduleWritesResultFields(o1);
      ScheduleWritesResultFields(o2);
      FanOutResultsAgree(o1, o2, snapshot, acc, chains,
        FanOut(o1, snapshot, acc, chains).value, FanOut(o2, snapshot, acc, chains).value);
    }
  }

  /** Two fan-outs over the same nodes that both succeed leave the same state. */
  lemma FanOutResultsAgree(o1: seq<Node>, o2: seq<Node>, snapshot: State, acc: State, chains: Chains, r1: State, r2: State)
    requires forall n :: n in o1 <==> n in o2
    requires Written(o1) == Written(o2)
    requires r1.Keys == acc.Keys + Written(o1) && r2.Keys == acc.Keys + Written(o2)
    requires forall n :: n in o1 ==> RunNode(n, snapshot, chains).Success? && Writes(n) in r1 && r1[Writes(n)] == Output(n, snapshot, chains)
    requires forall n :: n in o2 ==> RunNode(n, snapshot, chains).Success? && Writes(n) in r2 && r2[Writes(n)] == Output(n, snapshot, chains)
    requires forall k :: k in acc && k !in Written(o1) ==> r1[k] == acc[k]
    requires forall k :: k in acc && k !in Written(o2) ==> r2[k] == acc[k]
    ensures r1 == r2
  {
    forall k | k in r1.Keys
      ensures r1[k] == r2[k]
    {
      WrittenMembers(o1, k);
      if k in Written(o1) {
        var n :| n in o1 && Writes(n) == k;
        assert r1[k] == Output(n, snapshot, chains) == r2[k];
      } else {
        assert r1[k] == acc[k] == r2[k];
      }
    }
  }

  // ---------------------------------------------------------------------
  // A whole run

  /** The state every analysis node reads: the initial state after the entry node's fragment. */
  function Snapshot(initial: State, chains: Chains): State
    requires RunNode(EntryPoint, initial, chains).Success?
  {
    Merge(initial, RunNode(EntryPoint, initial, chains).value)
  }

  /**
   * Inside a run the analysis nodes' guard never fires: the entry node always
   * leaves a message object behind, which is truthy, so each analysis node
   * succeeds or fails exactly as its chain does on that message.
   */
  lemma GuardsPassInRun(initial: State, chains: Chains, n: Node)
    requires RunNode(EntryPoint, initial, chains).Success?
    requires n != EntryPoint
    ensures Truthy(CleanedText(Snapshot(initial, chains)))
    ensures RunNode(n, Snapshot(initial, chains), chains).Success? <==>
      chains.analyse(n)(CleanedText(Snapshot(initial, chains))).Success?
  {
  }

  /**
   * All or nothing: a run succeeds exactly when the entry node and then all six
   * analysis nodes succeed, whatever the completion order; a single failing
   * node leaves no state at all, and a failing entry node ends the run with its
   * own error.
   */
  lemma RunGraphSucceeds(initial: State, chains: Chains, order: seq<Node>)
    requires IsSchedule(order)
    ensures RunGraph(initial, chains, order).Success? <==>
      && RunNode(EntryPoint, initial, chains).Success?
      && forall n :: n in Leaves ==> RunNode(n, Snapshot(initial, chains), chains).Success?
    ensures RunNode(EntryPoint, initial, chains).Failure? ==>
      RunGraph(initial, chains, order) == Failure(RunNode(EntryPoint, initial, chains).error)
  {
    ScheduleDistinct(order);
    if RunNode(EntryPoint, initial, chains).Success? {
      var snapshot := Snapshot(initial, chains);
      FanOutOutcome(order, snapshot, snapshot, chains);
    }
  }

  /**
   * A run whose entry node succeeds fails with the error of the first analysis
   * node, in completion order, that fails on the snapshot.
   */
  lemma RunGraphFirstFailure(initial: State, chains: Chains, order: seq<Node>, i: nat)
    requires RunNode(EntryPoint, initial, chains).Success?
    requires i < |order| && RunNode(order[i], Snapshot(initial, chains), chains).Failure?
    requires forall j :: 0 <= j < i ==> RunNode(order[j], Snapshot(initial, chains), chains).Success?
    ensures RunGraph(initial, chains, order) == Failure(RunNode(order[i], Snapshot(initial, chains), chains).error)
  {
    var snapshot := Snapshot(initial, chains);
    FanOutFirstFailure(order, snapshot, snapshot, chains, i);
  }

  /** After a successful entry node, a run is the fan-out over the snapshot. */
  lemma RunGraphUnfold(initial: State, chains: Chains, order: seq<Node>)
    requires RunNode(EntryPoint, initial, chains).Success?
    ensures RunGraph(initial, chains, order) ==
      FanOut(order, Snapshot(initial, chains), Snapshot(initial, chains), chains)
  {
  }

  /** Whatever the completion order, the fan-out writes exactly the six result fields. */
  lemma ScheduleWritesResultFields(order: seq<Node>)
    requires IsSchedule(order)
    ensures Written(order) == set f | f in ResultFields
  {
    ScheduleDistinct(order);
    LeavesWriteResultFields();
    forall k ensures k in Written(order) <==> k in Written(Leaves) {
      WrittenMembers(order, k);
      WrittenMembers(Leaves, k);
    }
  }

  /**
   * A successful run holds every field it started with, the converted text
   * from the entry node and each analysis node's output under its own result
   * field; no other field is changed.
   */
  lemma RunGraphFinalState(initial: State, chains: Chains, order: seq<Node>)
    requires IsSchedule(order)
    requires RunGraph(initial, chains, order).Success?
    ensures RunNode(EntryPoint, initial, chains).Success?
    ensures forall n :: n in Leaves ==> RunNode(n, Snapshot(initial, chains), chains).Success?
    ensures var r := RunGraph(initial, chains, order).value;
      && r.Keys == initial.Keys + {ConvertedTextKey} + (set f | f in ResultFields)
      && ConvertedTextKey in r && r[ConvertedTextKey] == Output(EntryPoint, initial, chains)
      && (forall n :: n in Leaves ==> Writes(n) in r && r[Writes(n)] == Output(n, Snapshot(initial, chains), chains))
      && (forall k :: k in initial && k != ConvertedTextKey && k !in ResultFields ==> k in r && r[k] == initial[k])
  {
    RunGraphUnfold(initial, chains, order);
    SnapshotFields(initial, chains);
    ScheduleOutcome(order, Snapshot(initial, chains), chains);
    assert ConvertedTextKey !in ResultFields;
  }

  /**
   * A successful fan-out over a completion order: every analysis node
   * succeeded, each result field holds its node's output and every other
   * field of the snapshot is kept.
   */
  lemma ScheduleOutcome(order: seq<Node>, snapshot: State, chains: Chains)
    requires IsSchedule(order)
    requires FanOut(order, snapshot, snapshot, chains).Success?
    ensures forall n :: n in Leaves ==> RunNode(n, snapshot, chains).Success?
    ensures var r := FanOut(order, snapshot, snapshot, chains).value;
      && r.Keys == snapshot.Keys + (set f | f in ResultFields)
      && (forall n :: n in Leaves ==> Writes(n) in r && r[Writes(n)] == Output(n, snapshot, chains))
      && (forall k :: k in snapshot && k !in ResultFields ==> r[k] == snapshot[k])
  {
    ScheduleDistinct(order);
    ScheduleMembers(order);
    FanOutOutcome(order, snapshot, snapshot, chains);
    ScheduleWritesResultFields(order);
  }

  /** The snapshot is the initial state with the entry node's converted text added or replaced. */
  lemma SnapshotFields(initial: State, chains: Chains)
    requires RunNode(EntryPoint, initial, chains).Success?
    ensures Snapshot(initial, chains).Keys == initial.Keys + {ConvertedTextKey}
    ensures ConvertedTextKey in Snapshot(initial, chains)
    ensures Snapshot(initial, chains)[ConvertedTextKey] == Output(EntryPoint, initial, chains)
    ensures forall k :: k in initial && k != ConvertedTextKey ==> Snapshot(initial, chains)[k] == initial[k]
  {
  }

  /** The outcome of a run does not depend on the order in which the analysis nodes complete. */
  lemma RunGraphOrderIndependent(initial: State, chains: Chains, o1: seq<Node>, o2: seq<Node>)
    requires IsSchedule(o1) && IsSchedule(o2)
    ensures RunGraph(initial, chains, o1).Success? == RunGraph(initial, chains, o2).Success?
    ensures RunGraph(initial, chains, o1).Success? ==>
      RunGraph(initial, chains, o1).value == RunGraph(initial, chains, o2).value
  {
    if RunNode(EntryPoint, initial, chains).Success? {
      var snapshot := Snapshot(initial, chains);
      FanOutOrderIndependent(o1, o2, snapshot, snapshot, chains);
    }
  }
}
