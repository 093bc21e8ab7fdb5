/** `DiGraphSchema.create_config` (webapp/api/config_graph_parser.py): the digraph form is
    folded back into the config form, each edge becoming a `$.<source>.<output>` reference
    on its target's input. */
module DigraphToConfig {
  import opened Wrappers
  import opened OrderedMaps
  import opened PipelineGraph

  /** The names among `keys` whose field has a non-null `val`, in their original order. */
  function NonNullKeys(keys: seq<string>, fields: map<string, IOField>): (r: seq<string>)
    requires forall k :: k in keys ==> k in fields
    ensures forall k :: k in r <==> k in keys && fields[k].val != Null
    ensures |r| <= |keys|
  {
    if keys == [] then []
    else
      var init := NonNullKeys(keys[..|keys| - 1], fields);
      var k := keys[|keys| - 1];
      assert forall x :: x in keys <==> x in keys[..|keys| - 1] || x == k;
      if fields[k].val != Null then init + [k] else init
  }

  /** The `adapter_inputs` map of one node: every input whose `val` is not null, with
      that value, in the node's input order. */
  function KeptInputs(keys: seq<string>, fields: map<string, IOField>): (r: OMap<string, Value>)
    requires forall k :: k in keys ==> k in fields
    requires Distinct(keys)
    ensures r.keys == NonNullKeys(keys, fields)
    ensures forall k :: k in r.vals ==> r.vals[k] == fields[k].val
  {
    if keys == [] then Empty()
    else
      var init := KeptInputs(keys[..|keys| - 1], fields);
      var k := keys[|keys| - 1];
      assert k !in init.vals by { assert k !in keys[..|keys| - 1]; }
      if fields[k].val != Null then Put(init, k, fields[k].val) else init
  }

  /** The config entry of one node: `adapter`, `comment` when present, and `inputs` only
      when at least one input has a non-null value. */
  function AdapterConfigOf(n: Node): AdapterConfig {
    var kept := KeptInputs(n.inputs.keys, n.inputs.vals);
    AdapterConfig(n.adapter, n.comment, if kept.keys == [] then None else Some(kept))
  }

  /** `pipeline_config['adapters']` after the loop over nodes. */
  function AdaptersOf(nodes: seq<Node>): (r: OMap<string, AdapterConfig>)
  {
    if nodes == [] then Empty()
    else
      var n := nodes[|nodes| - 1];
      Put(AdaptersOf(nodes[..|nodes| - 1]), n.id, AdapterConfigOf(n))
  }

  /** One entry per node id. */
  lemma {:induction false} AdaptersOfKeys(nodes: seq<Node>)
    ensures forall k :: k in AdaptersOf(nodes).vals <==> k in Ids(nodes)
  {
    if nodes != [] {
      var init := nodes[..|nodes| - 1];
      AdaptersOfKeys(init);
      assert Ids(nodes) == Ids(init) + [nodes[|nodes| - 1].id];
    }
  }

  /** When ids repeat, the last node with that id gives the entry. */
  lemma {:induction false} AdaptersOfEntry(nodes: seq<Node>, i: nat)
    requires i < |nodes|
    requires forall j :: i < j < |nodes| ==> nodes[j].id != nodes[i].id
    ensures nodes[i].id in AdaptersOf(nodes).vals
    ensures AdaptersOf(nodes).vals[nodes[i].id] == AdapterConfigOf(nodes[i])
  {
    var init := nodes[..|nodes| - 1];
    if i < |nodes| - 1 {
      assert init[i] == nodes[i];
      forall j | i < j < |init| ensures init[j].id != init[i].id { assert init[j] == nodes[j]; }
      AdaptersOfEntry(init, i);
    }
  }

  /** With distinct ids the adapters come out in node order. */
  lemma {:induction false} AdaptersOfOrder(nodes: seq<Node>)
    requires Distinct(Ids(nodes))
    ensures AdaptersOf(nodes).keys == Ids(nodes)
  {
    if nodes != [] {
      var init := nodes[..|nodes| - 1];
      assert Ids(nodes) == Ids(init) + [nodes[|nodes| - 1].id];
      assert Distinct(Ids(init));
      AdaptersOfOrder(init);
      AdaptersOfKeys(init);
      assert nodes[|nodes| - 1].id !in Ids(init);
    }
  }

  /** The value written for an edge: `f"$.{source}.{output}"`. */
  function EdgeRef(e: Edge): Value {
    Str(RefString(e.source, e.output))
  }

  function InputsOrEmpty(ac: AdapterConfig): OMap<string, Value> {
    if ac.inputs.Some? then ac.inputs.value else Empty()
  }

  /** One pass of the edge loop: check both endpoints, then set the target's input. */
  function ApplyEdge(m: OMap<string, AdapterConfig>, e: Edge): Result<OMap<string, AdapterConfig>, GraphError> {
    if e.source !in m.vals then Err(InvalidEdgeSource(e.source))
    else if e.target !in m.vals then Err(InvalidEdgeTarget(e.target))
    else
      var ac := m.vals[e.target];
      Ok(Put(m, e.target, ac.(inputs := Some(Put(InputsOrEmpty(ac), e.input, EdgeRef(e))))))
  }

  /** The edge loop, stopping at the first edge that raises. */
  function ApplyEdges(m: OMap<string, AdapterConfig>, edges: seq<Edge>): Result<OMap<string, AdapterConfig>, GraphError>
    decreases |edges|
  {
    if edges == [] then Ok(m)
    else match ApplyEdge(m, edges[0])
      case Err(x) => Err(x)
      case Ok(m1) => ApplyEdges(m1, edges[1..])
  }

  /** A resolving edge keeps the adapters and their order. */
  lemma ApplyEdgeKeys(m: OMap<string, AdapterConfig>, e: Edge)
    requires EdgeResolves(e, m)
    ensures ApplyEdge(m, e).Ok?
    ensures ApplyEdge(m, e).value.keys == m.keys && ApplyEdge(m, e).value.vals.Keys == m.vals.Keys
  {
  }

  /** A resolving edge changes only its target's inputs, setting its input to the edge's
      reference. */
  lemma ApplyEdgeEntry(m: OMap<string, AdapterConfig>, e: Edge, n: string)
    requires EdgeResolves(e, m) && n in m.vals
    ensures ApplyEdge(m, e).Ok?
    ensures var m1 := ApplyEdge(m, e).value;
      && n in m1.vals
      && var ac, ac' := m.vals[n], m1.vals[n];
      && ac'.adapter == ac.adapter && ac'.comment == ac.comment
      && InputMap(ac') == (if e.target == n then InputMap(ac)[e.input := EdgeRef(e)] else InputMap(ac))
      && (ac'.inputs.Some? <==> ac.inputs.Some? || e.target == n)
  {
  }

  /** Both endpoints of `e` are adapters of `m`. */
  predicate EdgeResolves(e: Edge, m: OMap<string, AdapterConfig>) {
    e.source in m.vals && e.target in m.vals
  }

  /** The exception raised for an edge that does not resolve: the source is checked first. */
  function EdgeError(e: Edge, m: OMap<string, AdapterConfig>): GraphError {
    if e.source !in m.vals then InvalidEdgeSource(e.source) else InvalidEdgeTarget(e.target)
  }

  /** The inputs of a config entry as a plain map (empty when the key is absent). */
  function InputMap(ac: AdapterConfig): map<string, Value> {
    InputsOrEmpty(ac).vals
  }

  /** The inputs of adapter `n` once every edge targeting it, in order, has written its
      reference: a later edge to the same input overrides an earlier one. */
  function Overlay(base: map<string, Value>, edges: seq<Edge>, n: string): map<string, Value>
    decreases |edges|
  {
    if edges == [] then base
    else Overlay(if edges[0].target == n then base[edges[0].input := EdgeRef(edges[0])] else base, edges[1..], n)
  }

  /** What `Overlay` holds under one input name: the reference of the last edge writing it,
      or the base value when no edge writes it. */
  lemma {:induction false} OverlayAt(base: map<string, Value>, edges: seq<Edge>, n: string, k: string)
    ensures k in Overlay(base, edges, n) <==>
              k in base || exists i :: 0 <= i < |edges| && edges[i].target == n && edges[i].input == k
    ensures ((forall i :: 0 <= i < |edges| ==> !(edges[i].target == n && edges[i].input == k)) && k in base)
              ==> Overlay(base, edges, n)[k] == base[k]
    ensures forall i :: 0 <= i < |edges| && edges[i].target == n && edges[i].input == k
                        && (forall j :: i < j < |edges| ==> !(edges[j].target == n && edges[j].input == k))
                        ==> Overlay(base, edges, n)[k] == EdgeRef(edges[i])
    decreases |edges|
  {
    if edges != [] {
      var e := edges[0];
      var base' := if e.target == n then base[e.input := EdgeRef(e)] else base;
      OverlayAt(base', edges[1..], n, k);
      assert forall i :: 1 <= i < |edges| ==> edges[1..][i - 1] == edges[i];
      if exists i :: 0 <= i < |edges| && edges[i].target == n && edges[i].input == k {
        var i :| 0 <= i < |edges| && edges[i].target == n && edges[i].input == k;
        if i > 0 { assert edges[1..][i - 1] == edges[i]; }
      }
    }
  }

  /** The edge loop succeeds iff every edge resolves. */
  lemma {:induction false} ApplyEdgesOk(m: OMap<string, AdapterConfig>, edges: seq<Edge>)
    ensures ApplyEdges(m, edges).Ok? <==> forall i :: 0 <= i < |edges| ==> EdgeResolves(edges[i], m)
    decreases |edges|
  {
    if edges != [] {
      var rest := edges[1..];
      if EdgeResolves(edges[0], m) {
        ApplyEdgeKeys(m, edges[0]);
        var m1 := ApplyEdge(m, edges[0]).value;
        ApplyEdgesOk(m1, rest);
        if forall i :: 0 <= i < |rest| ==> EdgeResolves(rest[i], m1) {
          forall i | 0 <= i < |edges|
            ensures EdgeResolves(edges[i], m)
          {
            if i > 0 { assert edges[i] == rest[i - 1]; }
          }
        } else {
          var i :| 0 <= i < |rest| && !EdgeResolves(rest[i], m1);
          assert edges[i + 1] == rest[i];
        }
      }
    }
  }

  /** Otherwise it raises for the first edge that does not resolve, naming its source if
      that is missing and else its target. */
  lemma {:induction false} ApplyEdgesFirstError(m: OMap<string, AdapterConfig>, edges: seq<Edge>, i: nat)
    requires i < |edges| && !EdgeResolves(edges[i], m)
    requires forall j :: 0 <= j < i ==> EdgeResolves(edges[j], m)
    ensures ApplyEdges(m, edges) == Err(EdgeError(edges[i], m))
    decreases |edges|
  {
    if i > 0 {
      ApplyEdgeKeys(m, edges[0]);
      var m1 := ApplyEdge(m, edges[0]).value;
      assert edges[1..][i - 1] == edges[i];
      forall j | 0 <= j < i - 1 ensures EdgeResolves(edges[1..][j], m1) { assert edges[1..][j] == edges[j + 1]; }
      ApplyEdgesFirstError(m1, edges[1..], i - 1);
    }
  }

  /** Some edge of a non-empty list targets `n` iff the first does or one of the rest. */
  lemma TargetedCons(edges: seq<Edge>, n: string)
    requires edges != []
    ensures (exists i :: 0 <= i < |edges| && edges[i].target == n)
            <==> edges[0].target == n || exists i :: 0 <= i < |edges[1..]| && edges[1..][i].target == n
  {
    if exists i :: 0 <= i < |edges| && edges[i].target == n {
      var i :| 0 <= i < |edges| && edges[i].target == n;
      if i > 0 { assert edges[1..][i - 1] == edges[i]; }
    }
    if exists i :: 0 <= i < |edges[1..]| && edges[1..][i].target == n {
      var i :| 0 <= i < |edges[1..]| && edges[1..][i].target == n;
      assert edges[i + 1] == edges[1..][i];
    }
  }

  /** After a successful edge loop the adapters, their order, their `adapter` and `comment`
      fields are unchanged; each adapter's inputs are its old inputs overlaid with the
      references of the edges targeting it; the `inputs` key exists iff it existed before
      or some edge targets the adapter. */
  lemma {:induction false} ApplyEdgesEffect(m: OMap<string, AdapterConfig>, edges: seq<Edge>, n: string)
    requires ApplyEdges(m, edges).Ok?
    requires n in m.vals
    ensures ApplyEdges(m, edges).value.keys == m.keys
    ensures n in ApplyEdges(m, edges).value.vals
    ensures var ac, ac' := m.vals[n], ApplyEdges(m, edges).value.vals[n];
            && ac'.adapter == ac.adapter && ac'.comment == ac.comment
            && InputMap(ac') == Overlay(InputMap(ac), edges, n)
            && (ac'.inputs.Some? <==> ac.inputs.Some? || exists i :: 0 <= i < |edges| && edges[i].target == n)
    decreases |edges|
  {
    if edges != [] {
      var e, rest := edges[0], edges[1..];
      ApplyEdgeKeys(m, e);
      ApplyEdgeEntry(m, e, n);
      var m1 := ApplyEdge(m, e).value;
      ApplyEdgesEffect(m1, rest, n);
      TargetedCons(edges, n);
    }
  }

  /** The config a digraph converts to. */
  function ConfigOf(g: Digraph): Result<PipelineConfig, GraphError> {
    match ApplyEdges(AdaptersOf(g.nodes), g.edges)
    case Err(x) => Err(x)
    case Ok(adapters) => Ok(PipelineConfig(g.version, g.description, adapters))
  }

  /** The input map of a node grows by one input at a time. */
  lemma KeptInputsStep(keys: seq<string>, fields: map<string, IOField>, j: nat)
    requires forall k :: k in keys ==> k in fields
    requires Distinct(keys) && j < |keys|
    ensures Distinct(keys[..j]) && Distinct(keys[..j + 1])
    ensures KeptInputs(keys[..j + 1], fields)
            == if fields[keys[j]].val != Null then Put(KeptInputs(keys[..j], fields), keys[j], fields[keys[j]].val)
               else KeptInputs(keys[..j], fields)
  {
    DistinctPrefix(keys, j);
    DistinctPrefix(keys, j + 1);
    assert keys[..j + 1][..j] == keys[..j];
  }

  /** The adapters grow by one node at a time. */
  lemma AdaptersOfStep(nodes: seq<Node>, i: nat)
    requires i < |nodes|
    ensures AdaptersOf(nodes[..i + 1]) == Put(AdaptersOf(nodes[..i]), nodes[i].id, AdapterConfigOf(nodes[i]))
  {
    assert nodes[..i + 1][..i] == nodes[..i];
  }

  /** The edge loop, from edge `k` on, is one edge and then the rest. */
  lemma ApplyEdgesFrom(m: OMap<string, AdapterConfig>, edges: seq<Edge>, k: nat)
    requires k < |edges|
    ensures ApplyEdges(m, edges[k..]) == match ApplyEdge(m, edges[k])
                                         case Err(x) => Err(x)
                                         case Ok(m1) => ApplyEdges(m1, edges[k + 1..])
  {
    assert edges[k..][0] == edges[k] && edges[k..][1..] == edges[k + 1..];
  }

  /** The body of the loop over nodes in `create_config`: one node's config entry. */
  method NodeEntry(node: Node) returns (entry: AdapterConfig)
    ensures entry == AdapterConfigOf(node)
  {
    var keys, fields := node.inputs.keys, node.inputs.vals;
    assert Distinct(keys) && forall k :: k in keys ==> k in fields;
    var kept: OMap<string, Value> := Empty();
    var j := 0;
    while j < |keys|
      invariant 0 <= j <= |keys| && Distinct(keys[..j])
      invariant kept == KeptInputs(keys[..j], fields)
    {
      KeptInputsStep(keys, fields, j);
      var name := keys[j];
      var field := fields[name];
      if field.val != Null {
        kept := Put(kept, name, field.val);
      }
      j := j + 1;
    }
    assert keys[..j] == keys;
    entry := AdapterConfig(node.adapter, node.comment, if kept.keys != [] then Some(kept) else None);
  }

  /** The body of the loop over edges in `create_config`: check both endpoints, then write
      the reference into the target's inputs, creating them when absent. */
  method EdgeEntry(adapters: OMap<string, AdapterConfig>, e: Edge) returns (r: Result<OMap<string, AdapterConfig>, GraphError>)
    ensures r == ApplyEdge(adapters, e)
  {
    if e.source !in adapters.vals {
      return Err(InvalidEdgeSource(e.source));
    }
    if e.target !in adapters.vals {
      return Err(InvalidEdgeTarget(e.target));
    }
    var entry := adapters.vals[e.target];
    var inputs := if entry.inputs.None? then Empty() else entry.inputs.value;
    inputs := Put(inputs, e.input, Str(RefString(e.source, e.output)));
    return Ok(Put(adapters, e.target, entry.(inputs := Some(inputs))));
  }

  /** `create_config`. */
  method CreateConfig(g: Digraph) returns (r: Result<PipelineConfig, GraphError>)
    ensures r == ConfigOf(g)
  {
    var adapters: OMap<string, AdapterConfig> := Empty();
    var i := 0;
    while i < |g.nodes|
      invariant 0 <= i <= |g.nodes|
      invariant adapters == AdaptersOf(g.nodes[..i])
    {
      AdaptersOfStep(g.nodes, i);
      var node := g.nodes[i];
      var entry := NodeEntry(node);
      adapters := Put(adapters, node.id, entry);
      i := i + 1;
    }
    assert g.nodes[..i] == g.nodes;

    var k := 0;
    while k < |g.edges|
      invariant 0 <= k <= |g.edges|
      invariant ApplyEdges(AdaptersOf(g.nodes), g.edges) == ApplyEdges(adapters, g.edges[k..])
    {
      ApplyEdgesFrom(adapters, g.edges, k);
      var step := EdgeEntry(adapters, g.edges[k]);
      if step.Err? {
        return Err(step.error);
      }
      adapters := step.value;
      k := k + 1;
    }
    r := Ok(PipelineConfig(g.version, g.description, adapters));
  }
}
