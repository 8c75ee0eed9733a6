/** The search-tree node record of the agent and `findOverallScore`, which
    reduces a list of nodes to one score: the arithmetic mean of their
    values. Node values are Python numbers; here they are exact reals. */
module SearchNode {
  import opened Outcomes

  /** A node of the search tree: the move taken from the parent node, the
      game state that move leads to, the parent (None at the root) and the
      value of the state reached. Moves and states are opaque here. */
  datatype Node<M, S> = Node(move: M, state: S, parent: Option<Node<M, S>>, val: real)

  /** Sum of the nodes' values, accumulated from the front as the loop does. */
  function SumVals<M, S>(nodes: seq<Node<M, S>>): real
  {
    if |nodes| == 0 then 0.0 else SumVals(nodes[..|nodes| - 1]) + nodes[|nodes| - 1].val
  }

  /** The arithmetic mean of the nodes' values, the reference for findOverallScore. */
  function Mean<M, S>(nodes: seq<Node<M, S>>): real
    requires |nodes| > 0
  {
    SumVals(nodes) / (|nodes| as real)
  }

  /** findOverallScore: adds up every node's value in a loop, then divides by
      the list's length. An empty list makes Python's division raise. */
  method FindOverallScore<M, S>(nodeList: seq<Node<M, S>>) returns (avg: Result<real>)
    ensures avg.Failure? <==> |nodeList| == 0
    ensures avg.Failure? ==> avg.error == DivisionByZero
    ensures avg.Success? ==> avg.value * (|nodeList| as real) == SumVals(nodeList)
    ensures avg.Success? ==> avg.value == Mean(nodeList)
  {
    var total: real := 0.0;
    for i := 0 to |nodeList|
      invariant total == SumVals(nodeList[..i])
    {
      var sub := total;
      var score := nodeList[i].val;
      total := score + sub;
      assert nodeList[..i + 1][..i] == nodeList[..i];
    }
    assert nodeList[..|nodeList|] == nodeList;
    if |nodeList| == 0 {
      return Failure(DivisionByZero);
    }
    avg := Success(total / (|nodeList| as real));
  }

  /** The smallest value in a non-empty list of nodes. */
  function MinVal<M, S>(nodes: seq<Node<M, S>>): (m: real)
    requires |nodes| > 0
    ensures exists i :: 0 <= i < |nodes| && nodes[i].val == m
    ensures forall i :: 0 <= i < |nodes| ==> m <= nodes[i].val
  {
    if |nodes| == 1 then nodes[0].val
    else
      var rest := MinVal(nodes[1..]);
      if nodes[0].val <= rest then nodes[0].val else rest
  }

  /** The largest value in a non-empty list of nodes. */
  function MaxVal<M, S>(nodes: seq<Node<M, S>>): (m: real)
    requires |nodes| > 0
    ensures exists i :: 0 <= i < |nodes| && nodes[i].val == m
    ensures forall i :: 0 <= i < |nodes| ==> nodes[i].val <= m
  {
    if |nodes| == 1 then nodes[0].val
    else
      var rest := MaxVal(nodes[1..]);
      if rest <= nodes[0].val then nodes[0].val else rest
  }

  /** When every value lies in [lo, hi], the sum lies in [lo * n, hi * n]. */
  lemma {:induction false} SumValsBounded<M, S>(nodes: seq<Node<M, S>>, lo: real, hi: real)
    requires forall i :: 0 <= i < |nodes| ==> lo <= nodes[i].val <= hi
    ensures lo * (|nodes| as real) <= SumVals(nodes) <= hi * (|nodes| as real)
  {
    if |nodes| > 0 {
      var n := |nodes|;
      SumValsBounded(nodes[..n - 1], lo, hi);
      assert lo * (n as real) == lo * ((n - 1) as real) + lo;
      assert hi * (n as real) == hi * ((n - 1) as real) + hi;
    }
  }

  /** When every value lies in [lo, hi], so does the mean. */
  lemma MeanBounded<M, S>(nodes: seq<Node<M, S>>, lo: real, hi: real)
    requires |nodes| > 0
    requires forall i :: 0 <= i < |nodes| ==> lo <= nodes[i].val <= hi
    ensures lo <= Mean(nodes) <= hi
  {
    var n := |nodes| as real;
    SumValsBounded(nodes, lo, hi);
    assert Mean(nodes) * n == SumVals(nodes);
  }

  /** The mean lies between the smallest and the largest value. */
  lemma MeanBetweenMinAndMax<M, S>(nodes: seq<Node<M, S>>)
    requires |nodes| > 0
    ensures MinVal(nodes) <= Mean(nodes) <= MaxVal(nodes)
  {
    MeanBounded(nodes, MinVal(nodes), MaxVal(nodes));
  }

  /** Averaging nodes that all carry the same value gives that value. */
  lemma MeanOfEqualVals<M, S>(nodes: seq<Node<M, S>>, c: real)
    requires |nodes| > 0
    requires forall i :: 0 <= i < |nodes| ==> nodes[i].val == c
    ensures Mean(nodes) == c
  {
    MeanBounded(nodes, c, c);
  }
}
