/** The D-REPR graph the transformation functions edit in place: a list of nodes, each
    with a mutable `data` dict from attribute names to string values. Both graph
    functions walk the nodes in order, rewrite a node's data, and stop at the first node
    that raises, leaving the nodes already visited changed and the rest untouched. */
module DataGraph {
  import opened Wrappers

  type Data = map<string, string>

  class GraphNode {
    var data: Data

    constructor (d: Data)
      ensures data == d
    {
      data := d;
    }
  }

  /** The nodes are distinct objects. */
  ghost predicate DistinctNodes(nodes: seq<GraphNode>) {
    forall i, j :: 0 <= i < j < |nodes| ==> nodes[i] != nodes[j]
  }

  /** The data of every node, in node order. */
  function Datas(nodes: seq<GraphNode>): (ds: seq<Data>)
    reads set n | n in nodes
    ensures |ds| == |nodes| && forall i :: 0 <= i < |nodes| ==> ds[i] == nodes[i].data
  {
    if nodes == [] then []
    else
      var rest := Datas(nodes[1..]);
      assert forall i :: 1 <= i < |nodes| ==> nodes[i] == nodes[1..][i - 1];
      [nodes[0].data] + rest
  }

  /** Rewriting the data `ds` one after another with `f`, stopping at the first failure:
      the data afterwards, and the error raised if any. */
  function Visit<E>(ds: seq<Data>, f: Data -> Result<Data, E>): (r: (seq<Data>, Option<E>))
    decreases |ds|
  {
    if ds == [] then ([], None)
    else match f(ds[0])
      case Err(e) => (ds, Some(e))
      case Ok(d) =>
        var (rest, err) := Visit(ds[1..], f);
        ([d] + rest, err)
  }

  /** How many leading items `f` rewrites without failing. */
  function Leading<E>(ds: seq<Data>, f: Data -> Result<Data, E>): (k: nat)
    ensures k <= |ds|
    ensures forall i :: 0 <= i < k ==> f(ds[i]).Ok?
    ensures k < |ds| ==> f(ds[k]).Err?
    decreases |ds|
  {
    if ds == [] || f(ds[0]).Err? then 0
    else
      var k := Leading(ds[1..], f);
      assert forall i :: 1 <= i < k + 1 ==> ds[i] == ds[1..][i - 1];
      k + 1
  }

  /** The visit rewrites exactly the items before the first failure and leaves the rest
      as they were; it raises the first failure's error, and nothing iff no item fails. */
  lemma {:induction false} VisitEffect<E>(ds: seq<Data>, f: Data -> Result<Data, E>)
    ensures var (out, err) := Visit(ds, f); var k := Leading(ds, f);
      && |out| == |ds|
      && (forall i :: 0 <= i < k ==> out[i] == f(ds[i]).value)
      && (forall i :: k <= i < |ds| ==> out[i] == ds[i])
      && (err.None? <==> k == |ds|)
      && (err.Some? ==> f(ds[k]) == Err(err.value))
    decreases |ds|
  {
    if ds != [] && f(ds[0]).Ok? {
      VisitEffect(ds[1..], f);
      var k := Leading(ds[1..], f);
      assert forall i :: 1 <= i < |ds| ==> ds[i] == ds[1..][i - 1];
    }
  }

  /** The loop invariant of both `exec` methods, after the first `i` nodes: they hold the
      rewritten data, the others their old data. */
  ghost predicate VisitedPrefix<E>(before: seq<Data>, after: seq<Data>, i: nat, f: Data -> Result<Data, E>) {
    && |after| == |before| && i <= |before|
    && (forall j :: 0 <= j < i ==> f(before[j]).Ok? && after[j] == f(before[j]).value)
    && (forall j :: i <= j < |before| ==> after[j] == before[j])
  }

  /** Node `i` has not been visited yet: it still holds its data from before. */
  lemma VisitedAt<E>(before: seq<Data>, after: seq<Data>, i: nat, f: Data -> Result<Data, E>)
    requires VisitedPrefix(before, after, i, f) && i < |before|
    ensures after[i] == before[i]
  {
  }

  /** Rewriting node `i` extends the visited prefix by one. */
  lemma VisitedStep<E>(before: seq<Data>, after: seq<Data>, i: nat, f: Data -> Result<Data, E>)
    requires VisitedPrefix(before, after, i, f)
    requires i < |before| && f(before[i]).Ok?
    ensures VisitedPrefix(before, after[i := f(before[i]).value], i + 1, f)
  {
  }

  /** Stopping with an error at node `i`, or finishing, matches `Visit`. */
  lemma VisitStops<E>(before: seq<Data>, after: seq<Data>, i: nat, f: Data -> Result<Data, E>)
    requires VisitedPrefix(before, after, i, f)
    requires i == |before| || f(before[i]).Err?
    ensures Visit(before, f).0 == after
    ensures Visit(before, f).1 == if i == |before| then None else Some(f(before[i]).error)
  {
    VisitEffect(before, f);
    var k := Leading(before, f);
    if k < |before| { assert f(before[k]).Err?; }
    if i < |before| { assert f(before[i]).Err?; }
    assert k == i;
  }
}
