/** The topological loop at the end of `DiGraphSchema.create_digraph`
    (webapp/api/config_graph_parser.py): Kahn's algorithm over the adapter names, picking
    at each step the first name, in declaration order, whose count of pending incoming
    edges is zero and which has not been placed yet.

    The loop as written never records a node without outgoing edges as placed, so such a
    node stays eligible and is emitted again (`AsWrittenSinkRepeats` and `AsWrittenRepeatsSink` show this). `TopoOrder`, the
    corrected loop that also records those nodes, is what the rest of the model uses. */
module TopoSort {
  import opened Wrappers
  import opened OrderedMaps
  import opened PipelineGraph

  /** Edges into `v` whose source has not been placed: what `topo_graph_count[v]` holds. */
  function InDegree(edges: seq<Edge>, v: string, added: seq<string>): nat {
    if edges == [] then 0
    else
      var e := edges[|edges| - 1];
      InDegree(edges[..|edges| - 1], v, added) + (if e.target == v && e.source !in added then 1 else 0)
  }

  /** Edges from `s` to `v`. */
  function Mult(edges: seq<Edge>, s: string, v: string): nat {
    if edges == [] then 0
    else
      var e := edges[|edges| - 1];
      Mult(edges[..|edges| - 1], s, v) + (if e.source == s && e.target == v then 1 else 0)
  }

  /** `topo_graph_edges[s]`: the targets of the edges leaving `s`, in edge order. */
  function Targets(edges: seq<Edge>, s: string): seq<string> {
    if edges == [] then []
    else
      var e := edges[|edges| - 1];
      var init := Targets(edges[..|edges| - 1], s);
      if e.source == s then init + [e.target] else init
  }

  /** Every target listed is the target of some edge. */
  lemma {:induction false} TargetsIn(edges: seq<Edge>, s: string, count: map<string, int>)
    requires forall e :: e in edges ==> e.target in count
    ensures forall t :: t in Targets(edges, s) ==> t in count
  {
    if edges != [] {
      var init := edges[..|edges| - 1];
      assert forall e :: e in init ==> e in edges;
      TargetsIn(init, s, count);
    }
  }

  /** `s` is a key of `topo_graph_edges`. */
  predicate HasOut(edges: seq<Edge>, s: string) {
    Targets(edges, s) != []
  }

  /** The names that may start next: counted, with no pending incoming edge, not placed. */
  predicate Ready(v: string, count: map<string, int>, added: seq<string>) {
    v in count && count[v] == 0 && v !in added
  }

  /** The first ready name in declaration order, if any. */
  function FirstReady(names: seq<string>, count: map<string, int>, added: seq<string>): (r: Option<string>)
    ensures r.Some? ==> r.value in names && Ready(r.value, count, added)
    ensures r.None? ==> forall v :: v in names ==> !Ready(v, count, added)
  {
    if names == [] then None
    else if Ready(names[0], count, added) then Some(names[0])
    else
      assert forall v :: v in names ==> v == names[0] || v in names[1..];
      FirstReady(names[1..], count, added)
  }

  /** No name declared before the one picked is ready. */
  lemma {:induction false} FirstReadyIsFirst(names: seq<string>, count: map<string, int>, added: seq<string>) returns (i: nat)
    requires FirstReady(names, count, added).Some?
    ensures i < |names| && names[i] == FirstReady(names, count, added).value
    ensures forall j :: 0 <= j < i ==> !Ready(names[j], count, added)
  {
    if Ready(names[0], count, added) {
      i := 0;
    } else {
      var i' := FirstReadyIsFirst(names[1..], count, added);
      i := i' + 1;
      assert forall j :: 0 < j <= i' ==> names[j] == names[1..][j - 1];
    }
  }

  /** The inner loop over `topo_graph_edges[s]`: one decrement per target, raising when a
      count is already zero. */
  function Decrement(count: map<string, int>, ts: seq<string>): (r: Result<map<string, int>, GraphError>)
    requires forall t :: t in ts ==> t in count
    ensures r.Ok? ==> r.value.Keys == count.Keys
    ensures r.Err? ==> r.error == CountUnderflow
  {
    if ts == [] then Ok(count)
    else if count[ts[0]] == 0 then Err(CountUnderflow)
    else Decrement(count[ts[0] := count[ts[0]] - 1], ts[1..])
  }

  /** The loop `for index in range(k)` from a given state, returning the emitted names.
      `markSinks` chooses between the loop as written (false: a name without outgoing edges
      is not added to `added_nodes`) and the corrected loop (true). */
  function Kahn(markSinks: bool, names: seq<string>, edges: seq<Edge>, count: map<string, int>,
                added: seq<string>, out: seq<string>, k: nat): (r: Result<seq<string>, GraphError>)
    requires forall e :: e in edges ==> e.target in count
    decreases k
  {
    if k == 0 then Ok(out)
    else
      match FirstReady(names, count, added)
      case None => Err(NoStartNode)
      case Some(s) =>
        if !HasOut(edges, s) then
          Kahn(markSinks, names, edges, count, if markSinks then added + [s] else added, out + [s], k - 1)
        else
          TargetsIn(edges, s, count);
          match Decrement(count, Targets(edges, s))
          case Err(x) => Err(x)
          case Ok(c) => Kahn(markSinks, names, edges, c, added + [s], out + [s], k - 1)
  }

  /** The loop only appends, one name per iteration, each a declared one. */
  lemma {:induction false} KahnShape(markSinks: bool, names: seq<string>, edges: seq<Edge>, count: map<string, int>,
                                     added: seq<string>, out: seq<string>, k: nat)
    requires forall e :: e in edges ==> e.target in count
    ensures var r := Kahn(markSinks, names, edges, count, added, out, k);
      r.Ok? ==> (|r.value| == |out| + k && r.value[..|out|] == out
                 && forall x :: x in r.value ==> x in out || x in names)
    decreases k
  {
    if k > 0 {
      var s := FirstReady(names, count, added);
      if s.Some? {
        var v := s.value;
        TargetsIn(edges, v, count);
        var added' := if !HasOut(edges, v) && !markSinks then added else added + [v];
        var c := if !HasOut(edges, v) then Ok(count) else Decrement(count, Targets(edges, v));
        if c.Ok? {
          KahnShape(markSinks, names, edges, c.value, added', out + [v], k - 1);
          var r := Kahn(markSinks, names, edges, c.value, added', out + [v], k - 1);
          if r.Ok? {
            assert r.value[..|out|] == (r.value[..|out| + 1])[..|out|];
          }
        }
      }
    }
  }

  /** One iteration of the loop, unfolded. */
  lemma KahnUnfold(markSinks: bool, names: seq<string>, edges: seq<Edge>, count: map<string, int>,
                   added: seq<string>, out: seq<string>, k: nat)
    requires forall e :: e in edges ==> e.target in count
    requires k > 0
    ensures FirstReady(names, count, added).None? ==> Kahn(markSinks, names, edges, count, added, out, k) == Err(NoStartNode)
    ensures FirstReady(names, count, added).Some? ==>
      var s := FirstReady(names, count, added).value;
      && (forall t :: t in Targets(edges, s) ==> t in count)
      && (!HasOut(edges, s) ==>
            Kahn(markSinks, names, edges, count, added, out, k)
            == Kahn(markSinks, names, edges, count, if markSinks then added + [s] else added, out + [s], k - 1))
      && (HasOut(edges, s) && Decrement(count, Targets(edges, s)).Err? ==>
            Kahn(markSinks, names, edges, count, added, out, k) == Err(Decrement(count, Targets(edges, s)).error))
      && (HasOut(edges, s) && Decrement(count, Targets(edges, s)).Ok? ==>
            Kahn(markSinks, names, edges, count, added, out, k)
            == Kahn(markSinks, names, edges, Decrement(count, Targets(edges, s)).value, added + [s], out + [s], k - 1))
  {
    if FirstReady(names, count, added).Some? {
      TargetsIn(edges, FirstReady(names, count, added).value, count);
    }
  }

  /** `topo_graph_count` after counting: each name's number of incoming edges. */
  function InitialCounts(names: seq<string>, edges: seq<Edge>): map<string, int> {
    map v | v in names :: InDegree(edges, v, [])
  }

  /** The order the corrected loop emits the names in. */
  function TopoOrder(names: seq<string>, edges: seq<Edge>): Result<seq<string>, GraphError>
    requires forall e :: e in edges ==> e.target in names
  {
    Kahn(true, names, edges, InitialCounts(names, edges), [], [], |names|)
  }

  /** The order the loop as written emits the names in. */
  function TopoOrderAsWritten(names: seq<string>, edges: seq<Edge>): Result<seq<string>, GraphError>
    requires forall e :: e in edges ==> e.target in names
  {
    Kahn(false, names, edges, InitialCounts(names, edges), [], [], |names|)
  }

  /** Every edge whose target is placed has its source placed earlier. */
  ghost predicate SourcesFirst(order: seq<string>, edges: seq<Edge>) {
    forall j, i :: 0 <= j < |order| && 0 <= i < |edges| && edges[i].target == order[j] ==>
      edges[i].source in order[..j]
  }

  /** `order` lists each name once, and every edge's source comes before its target. */
  ghost predicate IsTopoOrder(order: seq<string>, names: seq<string>, edges: seq<Edge>) {
    |order| == |names| && Distinct(order) && (forall x :: x in order ==> x in names)
    && SourcesFirst(order, edges)
  }

  // ---------------------------------------------------------------------------------
  // Counting lemmas

  lemma {:induction false} MultTargets(edges: seq<Edge>, s: string, v: string)
    ensures multiset(Targets(edges, s))[v] == Mult(edges, s, v)
  {
    if edges != [] {
      MultTargets(edges[..|edges| - 1], s, v);
    }
  }

  /** Placing `s` removes exactly the edges from `s` from every in-degree. */
  lemma {:induction false} InDegreePlace(edges: seq<Edge>, v: string, added: seq<string>, s: string)
    requires s !in added
    ensures InDegree(edges, v, added + [s]) + Mult(edges, s, v) == InDegree(edges, v, added)
  {
    if edges != [] {
      InDegreePlace(edges[..|edges| - 1], v, added, s);
    }
  }

  lemma {:induction false} InDegreeZero(edges: seq<Edge>, v: string, added: seq<string>)
    requires InDegree(edges, v, added) == 0
    ensures forall i :: 0 <= i < |edges| && edges[i].target == v ==> edges[i].source in added
  {
    if edges != [] {
      var init := edges[..|edges| - 1];
      InDegreeZero(init, v, added);
      assert forall i :: 0 <= i < |init| ==> edges[i] == init[i];
    }
  }

  lemma {:induction false} InDegreePositive(edges: seq<Edge>, v: string, added: seq<string>) returns (i: nat)
    requires InDegree(edges, v, added) > 0
    ensures i < |edges| && edges[i].target == v && edges[i].source !in added
  {
    var init := edges[..|edges| - 1];
    if InDegree(init, v, added) > 0 {
      i := InDegreePositive(init, v, added);
      assert edges[i] == init[i];
    } else {
      i := |edges| - 1;
    }
  }

  /** With enough in every count, the inner loop never raises and takes off each target's
      number of occurrences. */
  lemma {:induction false} DecrementOk(count: map<string, int>, ts: seq<string>)
    requires forall t :: t in ts ==> t in count && count[t] >= multiset(ts)[t]
    ensures Decrement(count, ts).Ok?
    ensures forall v :: v in count ==> Decrement(count, ts).value[v] == count[v] - multiset(ts)[v]
  {
    if ts != [] {
      var t := ts[0];
      assert ts == [t] + ts[1..];
      assert multiset(ts) == multiset{t} + multiset(ts[1..]);
      var c := count[t := count[t] - 1];
      forall u | u in ts[1..]
        ensures u in c && c[u] >= multiset(ts[1..])[u]
      {
        assert u in ts;
      }
      DecrementOk(c, ts[1..]);
    }
  }

  // ---------------------------------------------------------------------------------
  // The corrected loop: soundness and completeness

  /** What holds of the corrected loop's state before each iteration. */
  ghost predicate KahnInv(names: seq<string>, edges: seq<Edge>, count: map<string, int>, added: seq<string>) {
    Distinct(added) && (forall x :: x in added ==> x in names)
    && (forall v :: v in count <==> v in names)
    && (forall v :: v in names ==> count[v] == InDegree(edges, v, added))
    && SourcesFirst(added, edges)
  }

  lemma InitialInv(names: seq<string>, edges: seq<Edge>)
    ensures KahnInv(names, edges, InitialCounts(names, edges), [])
  {
  }

  /** One iteration of the corrected loop keeps the invariant, and its inner loop never
      raises. */
  lemma KahnStep(names: seq<string>, edges: seq<Edge>, count: map<string, int>, added: seq<string>, s: string)
    requires KahnInv(names, edges, count, added)
    requires s in names && Ready(s, count, added)
    requires forall e :: e in edges ==> e.target in names
    ensures (forall t :: t in Targets(edges, s) ==> t in count) && Decrement(count, Targets(edges, s)).Ok?
    ensures KahnInv(names, edges, Decrement(count, Targets(edges, s)).value, added + [s])
  {
    var ts := Targets(edges, s);
    TargetsIn(edges, s, count);
    forall t | t in ts
      ensures t in count && count[t] >= multiset(ts)[t]
    {
      MultTargets(edges, s, t);
      InDegreePlace(edges, t, added, s);
    }
    DecrementOk(count, ts);
    var c := Decrement(count, ts).value;
    var added' := added + [s];
    forall v | v in names
      ensures c[v] == InDegree(edges, v, added')
    {
      MultTargets(edges, s, v);
      InDegreePlace(edges, v, added, s);
    }
    InDegreeZero(edges, s, added);
    forall j, i | 0 <= j < |added'| && 0 <= i < |edges| && edges[i].target == added'[j]
      ensures edges[i].source in added'[..j]
    {
      if j < |added| {
        assert added'[..j] == added[..j];
      } else {
        assert added'[..j] == added;
      }
    }
  }

  /** With a name left to place and none ready, no topological order exists. */
  lemma Stuck(names: seq<string>, edges: seq<Edge>, count: map<string, int>, added: seq<string>, order: seq<string>)
    requires Distinct(names) && KahnInv(names, edges, count, added)
    requires |added| < |names|
    requires forall v :: v in names ==> !Ready(v, count, added)
    ensures !IsTopoOrder(order, names, edges)
  {
    if IsTopoOrder(order, names, edges) {
      Pigeonhole(order, names);
      Pigeonhole(added, names);
      var x :| x in names && x !in added;
      var j := FirstOutside(order, added, x);
      var v := order[j];
      assert v in names && v !in added;
      assert count[v] != 0;
      var i := InDegreePositive(edges, v, added);
    }
  }

  /** The first element of `order` that `added` lacks. */
  lemma FirstOutside(order: seq<string>, added: seq<string>, x: string) returns (j: nat)
    requires x in order && x !in added
    ensures j < |order| && order[j] !in added
    ensures forall y :: y in order[..j] ==> y in added
  {
    j := 0;
    while order[j] in added
      invariant j < |order|
      invariant forall y :: y in order[..j] ==> y in added
      invariant x in order[j..]
      decreases |order| - j
    {
      assert order[j..] == [order[j]] + order[j + 1..];
      j := j + 1;
    }
  }

  /** From any state satisfying the invariant, the corrected loop either emits a
      topological order or stops with "no start node" because none exists. */
  lemma {:induction false} KahnResult(names: seq<string>, edges: seq<Edge>, count: map<string, int>, added: seq<string>, k: nat)
    requires Distinct(names) && (forall e :: e in edges ==> e.target in names)
    requires KahnInv(names, edges, count, added) && |added| + k == |names|
    ensures var r := Kahn(true, names, edges, count, added, added, k);
      (r.Ok? ==> IsTopoOrder(r.value, names, edges))
      && (r.Err? ==> r.error == NoStartNode && forall order :: !IsTopoOrder(order, names, edges))
    decreases k
  {
    if k > 0 {
      match FirstReady(names, count, added)
      case None =>
        forall order
          ensures !IsTopoOrder(order, names, edges)
        {
          Stuck(names, edges, count, added, order);
        }
      case Some(s) =>
        KahnStep(names, edges, count, added, s);
        TargetsIn(edges, s, count);
        var c := Decrement(count, Targets(edges, s)).value;
        assert !HasOut(edges, s) ==> c == count;
        KahnResult(names, edges, c, added + [s], k - 1);
    }
  }

  /** The corrected loop succeeds exactly when a topological order exists, and what it
      emits is one: every name once, each edge's source before its target. */
  lemma TopoOrderCorrect(names: seq<string>, edges: seq<Edge>)
    requires Distinct(names) && (forall e :: e in edges ==> e.target in names)
    ensures TopoOrder(names, edges).Ok? ==> IsTopoOrder(TopoOrder(names, edges).value, names, edges)
    ensures TopoOrder(names, edges).Ok? <==> exists order :: IsTopoOrder(order, names, edges)
    ensures TopoOrder(names, edges).Err? ==> TopoOrder(names, edges).error == NoStartNode
  {
    InitialInv(names, edges);
    KahnResult(names, edges, InitialCounts(names, edges), [], |names|);
  }

  /** A topological order holds every name. */
  lemma TopoOrderCovers(order: seq<string>, names: seq<string>, edges: seq<Edge>)
    requires Distinct(names) && IsTopoOrder(order, names, edges)
    ensures forall x :: x in names <==> x in order
  {
    Pigeonhole(order, names);
  }

  // ---------------------------------------------------------------------------------
  // The loop as written

  function Repeat(s: string, k: nat): (r: seq<string>)
    ensures |r| == k && forall i :: 0 <= i < k ==> r[i] == s
  {
    if k == 0 then [] else [s] + Repeat(s, k - 1)
  }

  /** Once the loop as written picks a name without outgoing edges, nothing changes any
      more, so it picks that name on every remaining iteration. */
  lemma {:induction false} AsWrittenSinkRepeats(names: seq<string>, edges: seq<Edge>, count: map<string, int>,
                                                added: seq<string>, out: seq<string>, k: nat, s: string)
    requires forall e :: e in edges ==> e.target in count
    requires FirstReady(names, count, added) == Some(s) && !HasOut(edges, s)
    ensures Kahn(false, names, edges, count, added, out, k) == Ok(out + Repeat(s, k))
    decreases k
  {
    if k > 0 {
      assert Kahn(false, names, edges, count, added, out, k) == Kahn(false, names, edges, count, added, out + [s], k - 1);
      AsWrittenSinkRepeats(names, edges, count, added, out + [s], k - 1, s);
      assert out + [s] + Repeat(s, k - 1) == out + Repeat(s, k);
    } else {
      assert out + Repeat(s, k) == out;
    }
  }

  /** Two adapters and no edges: the loop as written emits the first one twice and never
      the second; the corrected loop emits both. */
  lemma AsWrittenRepeatsSink()
    ensures TopoOrderAsWritten(["A", "B"], []) == Ok(["A", "A"])
    ensures TopoOrder(["A", "B"], []) == Ok(["A", "B"])
  {
    var names: seq<string> := ["A", "B"];
    var count := InitialCounts(names, []);
    assert count == map["A" := 0, "B" := 0];
    assert FirstReady(names, count, []) == Some("A");
    assert !HasOut([], "A") && !HasOut([], "B");
    AsWrittenSinkRepeats(names, [], count, [], [], 2, "A");
    assert [] + Repeat("A", 2) == ["A", "A"];
    assert !Ready("A", count, ["A"]);
    assert FirstReady(names, count, ["A"]) == Some("B");
    assert [] + ["A"] == ["A"] && ["A"] + ["B"] == ["A", "B"];
    assert Kahn(true, names, [], count, [], [], 2) == Kahn(true, names, [], count, ["A"], ["A"], 1);
    assert Kahn(true, names, [], count, ["A"], ["A"], 1) == Kahn(true, names, [], count, ["A", "B"], ["A", "B"], 0);
  }

  /** An adapter A without edges, declared first, beside a cycle B -> C -> B: the loop as
      written emits A three times and raises nothing, while the corrected loop raises
      after emitting A once. */
  lemma AsWrittenMasksCycle()
    ensures TopoOrderAsWritten(["A", "B", "C"], [Edge("B", "o", "C", "i"), Edge("C", "o", "B", "i")])
            == Ok(["A", "A", "A"])
    ensures TopoOrder(["A", "B", "C"], [Edge("B", "o", "C", "i"), Edge("C", "o", "B", "i")]) == Err(NoStartNode)
  {
    var names: seq<string> := ["A", "B", "C"];
    var edges := [Edge("B", "o", "C", "i"), Edge("C", "o", "B", "i")];
    var count := InitialCounts(names, edges);
    assert edges[..1] == [edges[0]] && edges[..1][..0] == [];
    assert InDegree(edges[..1], "A", []) == 0 && InDegree(edges, "A", []) == 0;
    assert InDegree(edges[..1], "B", []) == 0 && InDegree(edges, "B", []) == 1;
    assert InDegree(edges[..1], "C", []) == 1 && InDegree(edges, "C", []) == 1;
    assert count == map["A" := 0, "B" := 1, "C" := 1];
    assert FirstReady(names, count, []) == Some("A");
    assert Targets(edges[..1], "A") == [];
    assert edges[..|edges| - 1] == edges[..1] && edges[|edges| - 1].source == "C";
    assert Targets(edges, "A") == [];
    AsWrittenSinkRepeats(names, edges, count, [], [], 3, "A");
    assert [] + Repeat("A", 3) == ["A", "A", "A"];
    assert FirstReady(names, count, ["A"]) == None;
    assert Kahn(true, names, edges, count, [], [], 3) == Kahn(true, names, edges, count, ["A"], ["A"], 2);
  }

  /** The two loops agree as long as no name without outgoing edges is emitted before the
      last iteration. */
  lemma {:induction false} AsWrittenAgrees(names: seq<string>, edges: seq<Edge>, count: map<string, int>,
                                           added: seq<string>, out: seq<string>, k: nat, res: seq<string>)
    requires forall e :: e in edges ==> e.target in count
    requires Kahn(true, names, edges, count, added, out, k) == Ok(res) && |res| == |out| + k
    requires forall i :: |out| <= i < |out| + k - 1 ==> HasOut(edges, res[i])
    ensures Kahn(false, names, edges, count, added, out, k) == Ok(res)
    decreases k
  {
    if k > 0 {
      var s := FirstReady(names, count, added).value;
      if HasOut(edges, s) {
        TargetsIn(edges, s, count);
        var c := Decrement(count, Targets(edges, s)).value;
        assert Kahn(true, names, edges, c, added + [s], out + [s], k - 1) == Ok(res);
        AsWrittenAgrees(names, edges, c, added + [s], out + [s], k - 1, res);
      } else {
        assert Kahn(true, names, edges, count, added + [s], out + [s], k - 1) == Ok(res);
        KahnShape(true, names, edges, count, added + [s], out + [s], k - 1);
        assert res[|out|] == res[..|out| + 1][|out|] == s;
        assert k == 1;
      }
    }
  }

  /** A topological order of the chain A -> B -> C is A, B, C. */
  lemma ChainUnique(names: seq<string>, order: seq<string>)
    requires |names| == 3 && Distinct(names) && forall x :: x in names <==> x in ["A", "B", "C"]
    requires IsTopoOrder(order, names, [Edge("A", "out", "B", "in"), Edge("B", "out", "C", "in")])
    ensures order == ["A", "B", "C"]
  {
    var edges := [Edge("A", "out", "B", "in"), Edge("B", "out", "C", "in")];
    TopoOrderCovers(order, names, edges);
    assert "C" in names;
    var jc :| 0 <= jc < 3 && order[jc] == "C";
    assert edges[1].target == order[jc];
    var jb :| 0 <= jb < jc && order[jb] == "B";
    assert edges[0].target == order[jb];
    var ja :| 0 <= ja < jb && order[ja] == "A";
    assert ja == 0 && jb == 1 && jc == 2;
  }

  /** For the chain A -> B -> C the corrected loop emits exactly A, B, C, whatever order
      the three adapters are declared in. */
  lemma ChainOrder(names: seq<string>)
    requires |names| == 3 && Distinct(names) && forall x :: x in names <==> x in ["A", "B", "C"]
    ensures TopoOrder(names, [Edge("A", "out", "B", "in"), Edge("B", "out", "C", "in")]) == Ok(["A", "B", "C"])
  {
    var edges := [Edge("A", "out", "B", "in"), Edge("B", "out", "C", "in")];
    var abc: seq<string> := ["A", "B", "C"];
    assert IsTopoOrder(abc, names, edges) by {
      assert abc[..1] == ["A"] && abc[..2] == ["A", "B"];
    }
    TopoOrderCorrect(names, edges);
    ChainUnique(names, TopoOrder(names, edges).value);
  }

  /** So does the loop as written: A and B have outgoing edges, and C is emitted last. */
  lemma ChainOrderAsWritten(names: seq<string>)
    requires |names| == 3 && Distinct(names) && forall x :: x in names <==> x in ["A", "B", "C"]
    ensures TopoOrderAsWritten(names, [Edge("A", "out", "B", "in"), Edge("B", "out", "C", "in")]) == Ok(["A", "B", "C"])
  {
    var edges := [Edge("A", "out", "B", "in"), Edge("B", "out", "C", "in")];
    ChainOrder(names);
    assert Targets(edges, "A") == ["B"] by {
      assert edges[..1] == [edges[0]];
    }
    assert Targets(edges, "B") == ["C"] by {
      assert edges[..1] == [edges[0]];
    }
    AsWrittenAgrees(names, edges, InitialCounts(names, edges), [], [], 3, ["A", "B", "C"]);
  }

  // ---------------------------------------------------------------------------------
  // The loop itself

  /** The nodes of `order`, looked up in `tmp_nodes_dict`. */
  function NodesIn(nodes: OMap<string, Node>, order: seq<string>): (r: seq<Node>)
    requires forall x :: x in order ==> x in nodes.vals
    ensures |r| == |order| && forall i :: 0 <= i < |order| ==> r[i] == nodes.vals[order[i]]
  {
    seq(|order|, i requires 0 <= i < |order| => nodes.vals[order[i]])
  }

  lemma NodesInAppend(nodes: OMap<string, Node>, order: seq<string>, s: string)
    requires forall x :: x in order ==> x in nodes.vals
    requires s in nodes.vals
    ensures NodesIn(nodes, order) + [nodes.vals[s]] == NodesIn(nodes, order + [s])
  {
  }

  /** `digraph['nodes']` as the corrected loop fills it. */
  function TopoNodes(nodes: OMap<string, Node>, edges: seq<Edge>): Result<seq<Node>, GraphError>
    requires forall e :: e in edges ==> e.target in nodes.vals
  {
    match TopoOrder(nodes.keys, edges)
    case Err(x) => Err(x)
    case Ok(order) =>
      KahnShape(true, nodes.keys, edges, InitialCounts(nodes.keys, edges), [], [], |nodes.keys|);
      Ok(NodesIn(nodes, order))
  }

  /** The emitted nodes are the stored nodes named by the topological order, one each. */
  lemma TopoNodesOrder(nodes: OMap<string, Node>, edges: seq<Edge>)
    requires forall e :: e in edges ==> e.target in nodes.vals
    requires TopoNodes(nodes, edges).Ok?
    ensures TopoOrder(nodes.keys, edges).Ok?
    ensures var order, r := TopoOrder(nodes.keys, edges).value, TopoNodes(nodes, edges).value;
      |r| == |order| && forall i :: 0 <= i < |order| ==> order[i] in nodes.vals && r[i] == nodes.vals[order[i]]
  {
    KahnShape(true, nodes.keys, edges, InitialCounts(nodes.keys, edges), [], [], |nodes.keys|);
  }

  /** When every node is stored under its own id, the emitted ids are the order itself. */
  lemma TopoNodesIds(nodes: OMap<string, Node>, edges: seq<Edge>)
    requires forall e :: e in edges ==> e.target in nodes.vals
    requires forall x :: x in nodes.vals ==> nodes.vals[x].id == x
    requires TopoNodes(nodes, edges).Ok?
    ensures TopoOrder(nodes.keys, edges).Ok?
    ensures Ids(TopoNodes(nodes, edges).value) == TopoOrder(nodes.keys, edges).value
  {
    TopoNodesOrder(nodes, edges);
  }

  /** Lines 107-115 of `create_digraph`: `topo_graph_count` and `topo_graph_edges`. */
  method CountEdges(names: seq<string>, edges: seq<Edge>) returns (count: map<string, int>, succ: map<string, seq<string>>)
    requires forall e :: e in edges ==> e.target in names
    ensures count == InitialCounts(names, edges)
    ensures forall s :: s in succ <==> HasOut(edges, s)
    ensures forall s :: s in succ ==> succ[s] == Targets(edges, s)
  {
    count := map v | v in names :: 0;
    succ := map[];
    var i := 0;
    while i < |edges|
      invariant 0 <= i <= |edges|
      invariant forall v :: v in count <==> v in names
      invariant forall v :: v in names ==> count[v] == InDegree(edges[..i], v, [])
      invariant forall s :: s in succ <==> HasOut(edges[..i], s)
      invariant forall s :: s in succ ==> succ[s] == Targets(edges[..i], s)
    {
      var e := edges[i];
      assert edges[..i + 1][..i] == edges[..i];
      count := count[e.target := count[e.target] + 1];
      if e.source in succ {
        succ := succ[e.source := succ[e.source] + [e.target]];
      } else {
        succ := succ[e.source := [e.target]];
      }
      i := i + 1;
    }
    assert edges[..i] == edges;
  }

  /** Lines 132-136 of `create_digraph`: decrement the count of each target of `s`. */
  method DecrementTargets(count: map<string, int>, ts: seq<string>) returns (r: Result<map<string, int>, GraphError>)
    requires forall t :: t in ts ==> t in count
    ensures r == Decrement(count, ts)
  {
    var c := count;
    for j := 0 to |ts|
      invariant c.Keys == count.Keys
      invariant Decrement(count, ts) == Decrement(c, ts[j..])
    {
      var t := ts[j];
      assert ts[j..] == [t] + ts[j + 1..];
      if c[t] == 0 {
        return Err(CountUnderflow);
      }
      c := c[t := c[t] - 1];
    }
    assert ts[|ts|..] == [];
    return Ok(c);
  }

  /** One iteration of the loop at lines 118-138 of `create_digraph`, with the sink fix:
      the node to emit and the counts after it. */
  method Iteration(names: seq<string>, edges: seq<Edge>, succ: map<string, seq<string>>, count: map<string, int>,
                   added: seq<string>, ghost out: seq<string>, ghost k: nat)
    returns (r: Result<(string, map<string, int>), GraphError>)
    requires forall e :: e in edges ==> e.target in count
    requires forall s :: s in succ <==> HasOut(edges, s)
    requires forall s :: s in succ ==> succ[s] == Targets(edges, s)
    requires k > 0
    ensures r.Err? ==> Kahn(true, names, edges, count, added, out, k) == Err(r.error)
    ensures r.Ok? ==> (r.value.0 in names && r.value.1.Keys == count.Keys
                       && Kahn(true, names, edges, count, added, out, k)
                          == Kahn(true, names, edges, r.value.1, added + [r.value.0], out + [r.value.0], k - 1))
  {
    KahnUnfold(true, names, edges, count, added, out, k);
    var start := FirstReady(names, count, added);
    if start.None? {
      return Err(NoStartNode);
    }
    var s := start.value;
    if s !in succ {
      return Ok((s, count));
    }
    var next := DecrementTargets(count, succ[s]);
    if next.Err? {
      return Err(next.error);
    }
    return Ok((s, next.value));
  }

  /** `TopoNodes` in terms of the order the corrected loop computes. */
  lemma TopoNodesOf(nodes: OMap<string, Node>, edges: seq<Edge>)
    requires forall e :: e in edges ==> e.target in nodes.vals
    ensures TopoOrder(nodes.keys, edges).Err? ==> TopoNodes(nodes, edges) == Err(TopoOrder(nodes.keys, edges).error)
    ensures TopoOrder(nodes.keys, edges).Ok? ==>
              && (forall x :: x in TopoOrder(nodes.keys, edges).value ==> x in nodes.vals)
              && TopoNodes(nodes, edges) == Ok(NodesIn(nodes, TopoOrder(nodes.keys, edges).value))
  {
    KahnShape(true, nodes.keys, edges, InitialCounts(nodes.keys, edges), [], [], |nodes.keys|);
  }

  /** The state of the emitting loop after `out` was emitted, with `k` iterations left:
      the counts cover every target, the emitted nodes are those of `out`, and the rest of
      the loop yields what the whole loop yields. */
  ghost predicate EmitInv(nodes: OMap<string, Node>, edges: seq<Edge>, count: map<string, int>,
                          added: seq<string>, out: seq<string>, emitted: seq<Node>, k: nat)
    requires forall e :: e in edges ==> e.target in nodes.vals
  {
    && (forall e :: e in edges ==> e.target in count)
    && (forall x :: x in out ==> x in nodes.vals)
    && emitted == NodesIn(nodes, out)
    && TopoOrder(nodes.keys, edges) == Kahn(true, nodes.keys, edges, count, added, out, k)
  }

  /** One iteration of the emitting loop: the node to emit is found, appended to the
      node list, and the counts are updated. */
  method EmitAt(nodes: OMap<string, Node>, edges: seq<Edge>, succ: map<string, seq<string>>, count: map<string, int>,
                added: seq<string>, ghost out: seq<string>, emitted: seq<Node>, k: nat)
    returns (r: Result<(string, map<string, int>, seq<Node>), GraphError>)
    requires forall e :: e in edges ==> e.target in nodes.vals
    requires forall s :: s in succ <==> HasOut(edges, s)
    requires forall s :: s in succ ==> succ[s] == Targets(edges, s)
    requires k > 0 && EmitInv(nodes, edges, count, added, out, emitted, k)
    ensures r.Err? ==> TopoOrder(nodes.keys, edges) == Err(r.error)
    ensures r.Ok? ==> EmitInv(nodes, edges, r.value.1, added + [r.value.0], out + [r.value.0], r.value.2, k - 1)
  {
    var step := Iteration(nodes.keys, edges, succ, count, added, out, k);
    if step.Err? {
      return Err(step.error);
    }
    var (s, c) := step.value;
    NodesInAppend(nodes, out, s);
    return Ok((s, c, emitted + [nodes.vals[s]]));
  }

  /** Lines 107-138 of `create_digraph`, with the sink fix: count the edges, then emit one
      node per iteration. */
  method EmitNodes(nodes: OMap<string, Node>, edges: seq<Edge>) returns (r: Result<seq<Node>, GraphError>)
    requires forall e :: e in edges ==> e.target in nodes.vals
    ensures r == TopoNodes(nodes, edges)
  {
    var count, succ := CountEdges(nodes.keys, edges);
    var added: seq<string> := [];
    ghost var out: seq<string> := [];
    var emitted: seq<Node> := [];
    var k: nat := |nodes.keys|;
    while k > 0
      invariant EmitInv(nodes, edges, count, added, out, emitted, k)
    {
      var step := EmitAt(nodes, edges, succ, count, added, out, emitted, k);
      if step.Err? {
        TopoNodesOf(nodes, edges);
        return Err(step.error);
      }
      var s := step.value.0;
      out, count, added, emitted, k := out + [s], step.value.1, added + [s], step.value.2, k - 1;
    }
    TopoNodesOf(nodes, edges);
    return Ok(emitted);
  }
}
