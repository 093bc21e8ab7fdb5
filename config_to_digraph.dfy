/** `DiGraphSchema.create_digraph` (webapp/api/config_graph_parser.py): the config form is
    unfolded into nodes and edges. Each adapter becomes a node carrying its class's declared
    inputs and outputs; each input value written as a `$.<source>.<output>` reference
    becomes an edge, any other value replaces the declared default. The nodes are then
    emitted in topological order (module `TopoSort`). */
module ConfigToDigraph {
  import opened Wrappers
  import opened OrderedMaps
  import opened PipelineGraph
  import opened TopoSort

  /** The adapter classes `import_module`/`getattr` can reach, by dotted path. */
  type Registry = map<string, AdapterSchema>

  /** A config value the converter treats as wiring: a string matching `wired_pattern`. */
  predicate IsWired(v: Value) {
    v.Str? && IsWiredRef(v.s)
  }

  /** The edge a wired value of input `input` of adapter `name` becomes. */
  function WireEdge(name: string, input: string, v: Value): (e: Edge)
    requires IsWired(v)
    ensures e.target == name && e.input == input
    ensures RefString(e.source, e.output) == v.s
    ensures IsWord(e.source) && MatchesKey(e.output)
  {
    var (source, output) := RefParts(v.s);
    Edge(source, output, name, input)
  }

  /** The node of adapter `name` before its config inputs are read: the class's declared
      inputs, with their default values, and outputs. */
  function Skeleton(name: string, ac: AdapterConfig, schema: AdapterSchema): Node {
    Node(name, ac.adapter, ac.comment, schema.inputs, schema.outputs)
  }

  /** The loop over one adapter's config inputs, from `keys[0]` on: a wired value appends an
      edge, any other value overwrites the declared input's `val`, raising `KeyError` when
      the class declares no such input. */
  function ScanInputs(name: string, node: Node, keys: seq<string>, vals: map<string, Value>, edges: seq<Edge>)
    : Result<(Node, seq<Edge>), GraphError>
    requires forall k :: k in keys ==> k in vals
    decreases |keys|
  {
    if keys == [] then Ok((node, edges))
    else
      var k := keys[0];
      var v := vals[k];
      if IsWired(v) then ScanInputs(name, node, keys[1..], vals, edges + [WireEdge(name, k, v)])
      else if k in node.inputs.vals then
        ScanInputs(name, node.(inputs := Put(node.inputs, k, node.inputs.vals[k].(val := v))), keys[1..], vals, edges)
      else Err(UndeclaredInput(name, k))
  }

  /** The edges the wired values among `keys` become, in order. */
  function WiredEdges(name: string, keys: seq<string>, vals: map<string, Value>): (r: seq<Edge>)
    requires forall k :: k in keys ==> k in vals
    decreases |keys|
  {
    if keys == [] then []
    else
      var rest := WiredEdges(name, keys[1..], vals);
      if IsWired(vals[keys[0]]) then [WireEdge(name, keys[0], vals[keys[0]])] + rest else rest
  }

  /** `tmp_nodes_dict` and `digraph['edges']` as the adapter loop builds them. */
  datatype Scan = Scan(nodes: OMap<string, Node>, edges: seq<Edge>)

  /** One iteration of the adapter loop. The class is looked up first, so an unknown
      adapter raises even when it has no `inputs`; an adapter without `inputs` is then
      skipped and never stored. */
  function ScanAdapter(registry: Registry, name: string, ac: AdapterConfig, acc: Scan): Result<Scan, GraphError> {
    if ac.adapter !in registry then Err(UnknownAdapter(ac.adapter))
    else if ac.inputs.None? then Ok(acc)
    else
      match ScanInputs(name, Skeleton(name, ac, registry[ac.adapter]), ac.inputs.value.keys, ac.inputs.value.vals, acc.edges)
      case Err(x) => Err(x)
      case Ok(res) => Ok(Scan(Put(acc.nodes, name, res.0), res.1))
  }

  /** The adapter loop over `names` in order. */
  function ScanAdapters(registry: Registry, names: seq<string>, adapters: map<string, AdapterConfig>, acc: Scan)
    : Result<Scan, GraphError>
    requires forall n :: n in names ==> n in adapters
    decreases |names|
  {
    if names == [] then Ok(acc)
    else
      match ScanAdapter(registry, names[0], adapters[names[0]], acc)
      case Err(x) => Err(x)
      case Ok(acc') => ScanAdapters(registry, names[1..], adapters, acc')
  }

  function Collect(registry: Registry, cfg: PipelineConfig): Result<Scan, GraphError> {
    ScanAdapters(registry, cfg.adapters.keys, cfg.adapters.vals, Scan(Empty(), []))
  }

  /** Every edge the scan appends targets the adapter being scanned. */
  lemma {:induction false} ScanInputsTargets(name: string, node: Node, keys: seq<string>, vals: map<string, Value>, edges: seq<Edge>)
    requires forall k :: k in keys ==> k in vals
    requires ScanInputs(name, node, keys, vals, edges).Ok?
    ensures var res := ScanInputs(name, node, keys, vals, edges).value;
      |res.1| >= |edges| && res.1[..|edges|] == edges
      && forall i :: |edges| <= i < |res.1| ==> res.1[i].target == name
    decreases |keys|
  {
    if keys != [] {
      var k := keys[0];
      if IsWired(vals[k]) {
        var edges' := edges + [WireEdge(name, k, vals[k])];
        ScanInputsTargets(name, node, keys[1..], vals, edges');
        var res := ScanInputs(name, node, keys, vals, edges).value;
        assert res.1[..|edges|] == res.1[..|edges'|][..|edges|];
      } else {
        ScanInputsTargets(name, node.(inputs := Put(node.inputs, k, node.inputs.vals[k].(val := vals[k]))), keys[1..], vals, edges);
      }
    }
  }

  /** Every edge of a successful adapter loop targets a stored node. */
  lemma {:induction false} ScanAdaptersTargets(registry: Registry, names: seq<string>, adapters: map<string, AdapterConfig>, acc: Scan)
    requires forall n :: n in names ==> n in adapters
    requires forall e :: e in acc.edges ==> e.target in acc.nodes.vals
    requires ScanAdapters(registry, names, adapters, acc).Ok?
    ensures var sc := ScanAdapters(registry, names, adapters, acc).value;
      forall e :: e in sc.edges ==> e.target in sc.nodes.vals
    decreases |names|
  {
    if names != [] {
      var name, ac := names[0], adapters[names[0]];
      var acc' := ScanAdapter(registry, name, ac, acc).value;
      if ac.inputs.Some? {
        var skel := Skeleton(name, ac, registry[ac.adapter]);
        ScanInputsTargets(name, skel, ac.inputs.value.keys, ac.inputs.value.vals, acc.edges);
        forall e | e in acc'.edges
          ensures e.target in acc'.nodes.vals
        {
          var i :| 0 <= i < |acc'.edges| && acc'.edges[i] == e;
          if i < |acc.edges| {
            assert e == acc'.edges[..|acc.edges|][i];
          }
        }
      }
      ScanAdaptersTargets(registry, names[1..], adapters, acc');
    }
  }

  /** The digraph a config converts to: the scanned nodes in the corrected loop's
      topological order, and the edges in scan order. */
  function DigraphOf(registry: Registry, cfg: PipelineConfig): Result<Digraph, GraphError> {
    match Collect(registry, cfg)
    case Err(x) => Err(x)
    case Ok(sc) =>
      ScanAdaptersTargets(registry, cfg.adapters.keys, cfg.adapters.vals, Scan(Empty(), []));
      match TopoNodes(sc.nodes, sc.edges)
      case Err(x) => Err(x)
      case Ok(nodes) => Ok(Digraph(cfg.version, cfg.description, nodes, sc.edges))
  }

  // ---------------------------------------------------------------------------------
  // What the scan does

  /** One adapter's input loop succeeds iff every config input is wired or declared. */
  lemma {:induction false} ScanInputsOk(name: string, node: Node, keys: seq<string>, vals: map<string, Value>, edges: seq<Edge>)
    requires forall k :: k in keys ==> k in vals
    ensures ScanInputs(name, node, keys, vals, edges).Ok? <==>
              forall k :: k in keys ==> IsWired(vals[k]) || k in node.inputs.vals
    decreases |keys|
  {
    if keys != [] {
      var k := keys[0];
      assert forall x :: x in keys <==> x == k || x in keys[1..];
      if IsWired(vals[k]) {
        ScanInputsOk(name, node, keys[1..], vals, edges + [WireEdge(name, k, vals[k])]);
      } else if k in node.inputs.vals {
        var node' := node.(inputs := Put(node.inputs, k, node.inputs.vals[k].(val := vals[k])));
        ScanInputsOk(name, node', keys[1..], vals, edges);
      }
    }
  }

  /** The declared inputs `fields` once each literal config value among `keys` has been
      written into the `val` of the input of that name. */
  function Fill(fields: OMap<string, IOField>, keys: seq<string>, vals: map<string, Value>): OMap<string, IOField>
    requires forall k :: k in keys ==> k in vals
    decreases |keys|
  {
    if keys == [] then fields
    else
      var k := keys[0];
      Fill(if !IsWired(vals[k]) && k in fields.vals then Put(fields, k, fields.vals[k].(val := vals[k])) else fields,
           keys[1..], vals)
  }

  /** Filling keeps the declared inputs and their order, and changes exactly the `val` of
      each input given a literal value. */
  lemma {:induction false} FillEffect(fields: OMap<string, IOField>, keys: seq<string>, vals: map<string, Value>)
    requires forall k :: k in keys ==> k in vals
    requires Distinct(keys)
    ensures Fill(fields, keys, vals).keys == fields.keys
    ensures forall f :: f in fields.vals ==>
              Fill(fields, keys, vals).vals[f] == if f in keys && !IsWired(vals[f]) then fields.vals[f].(val := vals[f])
                                                  else fields.vals[f]
    decreases |keys|
  {
    if keys != [] {
      var k := keys[0];
      assert forall x :: x in keys <==> x == k || x in keys[1..];
      assert k !in keys[1..];
      var fields' := if !IsWired(vals[k]) && k in fields.vals then Put(fields, k, fields.vals[k].(val := vals[k])) else fields;
      FillEffect(fields', keys[1..], vals);
    }
  }

  lemma ConcatAssoc<T>(a: seq<T>, b: seq<T>, c: seq<T>)
    ensures (a + b) + c == a + (b + c)
  {
  }

  /** A successful input loop appends the wired edges in input order. */
  lemma {:induction false} ScanInputsEdges(name: string, node: Node, keys: seq<string>, vals: map<string, Value>, edges: seq<Edge>)
    requires forall k :: k in keys ==> k in vals
    requires ScanInputs(name, node, keys, vals, edges).Ok?
    ensures ScanInputs(name, node, keys, vals, edges).value.1 == edges + WiredEdges(name, keys, vals)
    decreases |keys|
  {
    if keys != [] {
      var k := keys[0];
      if IsWired(vals[k]) {
        var e := WireEdge(name, k, vals[k]);
        ScanInputsEdges(name, node, keys[1..], vals, edges + [e]);
        assert WiredEdges(name, keys, vals) == [e] + WiredEdges(name, keys[1..], vals);
        ConcatAssoc(edges, [e], WiredEdges(name, keys[1..], vals));
      } else {
        var node' := node.(inputs := Put(node.inputs, k, node.inputs.vals[k].(val := vals[k])));
        ScanInputsEdges(name, node', keys[1..], vals, edges);
      }
    }
  }

  /** A successful input loop only fills the node's declared inputs. */
  lemma {:induction false} ScanInputsNode(name: string, node: Node, keys: seq<string>, vals: map<string, Value>, edges: seq<Edge>)
    requires forall k :: k in keys ==> k in vals
    requires ScanInputs(name, node, keys, vals, edges).Ok?
    ensures ScanInputs(name, node, keys, vals, edges).value.0 == node.(inputs := Fill(node.inputs, keys, vals))
    decreases |keys|
  {
    if keys != [] {
      var k := keys[0];
      if IsWired(vals[k]) {
        ScanInputsNode(name, node, keys[1..], vals, edges + [WireEdge(name, k, vals[k])]);
      } else {
        var node' := node.(inputs := Put(node.inputs, k, node.inputs.vals[k].(val := vals[k])));
        ScanInputsNode(name, node', keys[1..], vals, edges);
      }
    }
  }

  /** The node stored for an adapter with inputs: its class's declared inputs, filled with
      the config's literal values, and outputs. */
  function FilledNode(name: string, ac: AdapterConfig, schema: AdapterSchema): Node
    requires ac.inputs.Some?
  {
    Node(name, ac.adapter, ac.comment, Fill(schema.inputs, ac.inputs.value.keys, ac.inputs.value.vals), schema.outputs)
  }

  /** An adapter the loop accepts: its class exists and, when it has inputs, each one is
      wired or declared by the class. */
  ghost predicate AdapterOk(registry: Registry, ac: AdapterConfig) {
    ac.adapter in registry
    && (ac.inputs.Some? ==>
          forall k :: k in ac.inputs.value.vals ==> IsWired(ac.inputs.value.vals[k]) || k in registry[ac.adapter].inputs.vals)
  }

  /** The names among `names` of adapters that have an `inputs` key: `tmp_nodes_dict`'s keys. */
  function WithInputs(names: seq<string>, adapters: map<string, AdapterConfig>): (r: seq<string>)
    requires forall n :: n in names ==> n in adapters
    decreases |names|
  {
    if names == [] then []
    else
      var rest := WithInputs(names[1..], adapters);
      if adapters[names[0]].inputs.Some? then [names[0]] + rest else rest
  }

  lemma {:induction false} WithInputsMembers(names: seq<string>, adapters: map<string, AdapterConfig>)
    requires forall n :: n in names ==> n in adapters
    ensures forall n :: n in WithInputs(names, adapters) <==> n in names && adapters[n].inputs.Some?
    decreases |names|
  {
    if names != [] {
      assert forall x :: x in names <==> x == names[0] || x in names[1..];
      WithInputsMembers(names[1..], adapters);
    }
  }

  /** All wired edges of the adapters in `names`, adapter by adapter, input by input. */
  function AllWired(names: seq<string>, adapters: map<string, AdapterConfig>): seq<Edge>
    requires forall n :: n in names ==> n in adapters
    decreases |names|
  {
    if names == [] then []
    else
      AdapterWired(names[0], adapters[names[0]]) + AllWired(names[1..], adapters)
  }

  /** The adapter loop succeeds iff every adapter is accepted. */
  lemma {:induction false} ScanAdaptersOk(registry: Registry, names: seq<string>, adapters: map<string, AdapterConfig>, acc: Scan)
    requires forall n :: n in names ==> n in adapters
    ensures ScanAdapters(registry, names, adapters, acc).Ok? <==> forall n :: n in names ==> AdapterOk(registry, adapters[n])
    decreases |names|
  {
    if names != [] {
      var name, ac := names[0], adapters[names[0]];
      assert forall x :: x in names <==> x == name || x in names[1..];
      if ac.adapter in registry && ac.inputs.Some? {
        ScanInputsOk(name, Skeleton(name, ac, registry[ac.adapter]), ac.inputs.value.keys, ac.inputs.value.vals, acc.edges);
      }
      if ScanAdapter(registry, name, ac, acc).Ok? {
        ScanAdaptersOk(registry, names[1..], adapters, ScanAdapter(registry, name, ac, acc).value);
      }
    }
  }

  /** The wired edges of one adapter, in input order. */
  function AdapterWired(name: string, ac: AdapterConfig): seq<Edge> {
    if ac.inputs.Some? then WiredEdges(name, ac.inputs.value.keys, ac.inputs.value.vals) else []
  }

  /** One iteration appends the adapter's wired edges. */
  lemma ScanAdapterEdges(registry: Registry, name: string, ac: AdapterConfig, acc: Scan)
    requires ScanAdapter(registry, name, ac, acc).Ok?
    ensures ScanAdapter(registry, name, ac, acc).value.edges == acc.edges + AdapterWired(name, ac)
  {
    if ac.inputs.Some? {
      ScanInputsEdges(name, Skeleton(name, ac, registry[ac.adapter]), ac.inputs.value.keys, ac.inputs.value.vals, acc.edges);
    }
  }

  /** A successful adapter loop appends the wired edges of every adapter, in order. */
  lemma {:induction false} ScanAdaptersEdges(registry: Registry, names: seq<string>, adapters: map<string, AdapterConfig>, acc: Scan)
    requires forall n :: n in names ==> n in adapters
    requires ScanAdapters(registry, names, adapters, acc).Ok?
    ensures ScanAdapters(registry, names, adapters, acc).value.edges == acc.edges + AllWired(names, adapters)
    decreases |names|
  {
    if names != [] {
      var name, ac, rest := names[0], adapters[names[0]], names[1..];
      var acc' := ScanAdapter(registry, name, ac, acc).value;
      assert ScanAdapters(registry, names, adapters, acc) == ScanAdapters(registry, rest, adapters, acc');
      ScanAdaptersEdges(registry, rest, adapters, acc');
      ScanAdapterEdges(registry, name, ac, acc);
      assert AllWired(names, adapters) == AdapterWired(name, ac) + AllWired(rest, adapters);
      ConcatAssoc(acc.edges, AdapterWired(name, ac), AllWired(rest, adapters));
    }
  }

  /** One iteration stores the adapter at the end iff it has inputs. */
  lemma ScanAdapterKeys(registry: Registry, name: string, ac: AdapterConfig, acc: Scan)
    requires name !in acc.nodes.vals
    requires ScanAdapter(registry, name, ac, acc).Ok?
    ensures ScanAdapter(registry, name, ac, acc).value.nodes.keys == acc.nodes.keys + (if ac.inputs.Some? then [name] else [])
    ensures forall x :: x in ScanAdapter(registry, name, ac, acc).value.nodes.vals <==>
                        x in acc.nodes.vals || (x == name && ac.inputs.Some?)
  {
  }

  /** A successful adapter loop stores the adapters with inputs, in declaration order. */
  lemma {:induction false} ScanAdaptersKeys(registry: Registry, names: seq<string>, adapters: map<string, AdapterConfig>, acc: Scan)
    requires forall n :: n in names ==> n in adapters
    requires Distinct(names) && forall n :: n in names ==> n !in acc.nodes.vals
    requires ScanAdapters(registry, names, adapters, acc).Ok?
    ensures ScanAdapters(registry, names, adapters, acc).value.nodes.keys == acc.nodes.keys + WithInputs(names, adapters)
    decreases |names|
  {
    if names != [] {
      var name, ac := names[0], adapters[names[0]];
      var rest := names[1..];
      var acc' := ScanAdapter(registry, name, ac, acc).value;
      assert ScanAdapters(registry, names, adapters, acc) == ScanAdapters(registry, rest, adapters, acc');
      assert Distinct(rest) && forall x :: x in rest ==> x !in acc'.nodes.vals by {
        DistinctTail(names);
        ScanAdapterKeys(registry, name, ac, acc);
        assert forall x :: x in rest ==> x in names && x != name;
      }
      assert acc'.nodes.keys == acc.nodes.keys + (if ac.inputs.Some? then [name] else []) by {
        ScanAdapterKeys(registry, name, ac, acc);
      }
      ScanAdaptersKeys(registry, rest, adapters, acc');
      var w := WithInputs(rest, adapters);
      if ac.inputs.Some? {
        assert WithInputs(names, adapters) == [name] + w;
        ConcatAssoc(acc.nodes.keys, [name], w);
      } else {
        assert WithInputs(names, adapters) == w;
      }
    }
  }

  /** Each adapter with inputs is stored as `FilledNode`; entries already present stay. */
  lemma {:induction false} ScanAdaptersEntries(registry: Registry, names: seq<string>, adapters: map<string, AdapterConfig>, acc: Scan)
    requires forall n :: n in names ==> n in adapters
    requires Distinct(names)
    requires ScanAdapters(registry, names, adapters, acc).Ok?
    ensures var sc := ScanAdapters(registry, names, adapters, acc).value;
      && (forall n :: n in acc.nodes.vals && n !in names ==> n in sc.nodes.vals && sc.nodes.vals[n] == acc.nodes.vals[n])
      && forall n :: n in names && adapters[n].inputs.Some? ==>
           adapters[n].adapter in registry && n in sc.nodes.vals
           && sc.nodes.vals[n] == FilledNode(n, adapters[n], registry[adapters[n].adapter])
    decreases |names|
  {
    if names != [] {
      var name, ac := names[0], adapters[names[0]];
      var rest := names[1..];
      assert forall x :: x in names <==> x == name || x in rest;
      DistinctTail(names);
      var acc' := ScanAdapter(registry, name, ac, acc).value;
      ScanAdaptersEntries(registry, rest, adapters, acc');
      if ac.inputs.Some? {
        ScanInputsNode(name, Skeleton(name, ac, registry[ac.adapter]), ac.inputs.value.keys, ac.inputs.value.vals, acc.edges);
      }
    }
  }

  /** What the adapter loop of `create_digraph` collects from a config. */
  lemma CollectResult(registry: Registry, cfg: PipelineConfig)
    ensures Collect(registry, cfg).Ok? <==> forall n :: n in cfg.adapters.vals ==> AdapterOk(registry, cfg.adapters.vals[n])
    ensures Collect(registry, cfg).Ok? ==>
      var sc, adapters := Collect(registry, cfg).value, cfg.adapters.vals;
      && sc.edges == AllWired(cfg.adapters.keys, adapters)
      && sc.nodes.keys == WithInputs(cfg.adapters.keys, adapters)
      && forall n :: n in adapters && adapters[n].inputs.Some? ==>
           adapters[n].adapter in registry && n in sc.nodes.vals
           && sc.nodes.vals[n] == FilledNode(n, adapters[n], registry[adapters[n].adapter])
  {
    var acc := Scan(Empty(), []);
    ScanAdaptersOk(registry, cfg.adapters.keys, cfg.adapters.vals, acc);
    if Collect(registry, cfg).Ok? {
      ScanAdaptersEdges(registry, cfg.adapters.keys, cfg.adapters.vals, acc);
      ScanAdaptersKeys(registry, cfg.adapters.keys, cfg.adapters.vals, acc);
      ScanAdaptersEntries(registry, cfg.adapters.keys, cfg.adapters.vals, acc);
    }
  }

  /** `create_digraph` succeeds iff every adapter is accepted and the adapters with inputs
      admit a topological order under the wired edges. */
  lemma DigraphOfOk(registry: Registry, cfg: PipelineConfig)
    ensures DigraphOf(registry, cfg).Ok? <==>
              (forall n :: n in cfg.adapters.vals ==> AdapterOk(registry, cfg.adapters.vals[n]))
              && exists order :: IsTopoOrder(order, WithInputs(cfg.adapters.keys, cfg.adapters.vals),
                                             AllWired(cfg.adapters.keys, cfg.adapters.vals))
  {
    CollectResult(registry, cfg);
    if Collect(registry, cfg).Ok? {
      var sc := Collect(registry, cfg).value;
      ScanAdaptersTargets(registry, cfg.adapters.keys, cfg.adapters.vals, Scan(Empty(), []));
      TopoOrderCorrect(sc.nodes.keys, sc.edges);
    }
  }

  /** The digraph `create_digraph` returns: version and description copied, the wired
      edges in declaration order, and the adapters with inputs as nodes, each once, each
      edge's source before its target. */
  lemma DigraphOfShape(registry: Registry, cfg: PipelineConfig)
    requires DigraphOf(registry, cfg).Ok?
    ensures var g := DigraphOf(registry, cfg).value;
      && g.version == cfg.version && g.description == cfg.description
      && g.edges == AllWired(cfg.adapters.keys, cfg.adapters.vals)
      && IsTopoOrder(Ids(g.nodes), WithInputs(cfg.adapters.keys, cfg.adapters.vals), g.edges)
  {
    CollectResult(registry, cfg);
    var sc := Collect(registry, cfg).value;
    ScanAdaptersTargets(registry, cfg.adapters.keys, cfg.adapters.vals, Scan(Empty(), []));
    TopoOrderCorrect(sc.nodes.keys, sc.edges);
    assert forall x :: x in sc.nodes.vals ==> sc.nodes.vals[x].id == x by {
      WithInputsMembers(cfg.adapters.keys, cfg.adapters.vals);
    }
    TopoNodesIds(sc.nodes, sc.edges);
  }

  /** Each node of the digraph is the `FilledNode` of an adapter that has inputs. */
  lemma DigraphOfNodes(registry: Registry, cfg: PipelineConfig)
    requires DigraphOf(registry, cfg).Ok?
    ensures var g, adapters := DigraphOf(registry, cfg).value, cfg.adapters.vals;
      forall i :: 0 <= i < |g.nodes| ==>
        g.nodes[i].id in adapters
        && var ac := adapters[g.nodes[i].id];
        ac.inputs.Some? && ac.adapter in registry && g.nodes[i] == FilledNode(g.nodes[i].id, ac, registry[ac.adapter])
  {
    CollectResult(registry, cfg);
    var sc := Collect(registry, cfg).value;
    ScanAdaptersTargets(registry, cfg.adapters.keys, cfg.adapters.vals, Scan(Empty(), []));
    TopoNodesOrder(sc.nodes, sc.edges);
    var order := TopoOrder(sc.nodes.keys, sc.edges).value;
    WithInputsMembers(cfg.adapters.keys, cfg.adapters.vals);
    forall i | 0 <= i < |order|
      ensures order[i] in cfg.adapters.vals && cfg.adapters.vals[order[i]].inputs.Some?
    {
      assert order[i] in sc.nodes.keys;
    }
  }

  // ---------------------------------------------------------------------------------
  // What `DiGraphSchema`'s field rules say about the digraph

  /** Every name the digraph can carry matches `keys_pattern`: the adapter names, their
      config input names, and the input and output names their classes declare. */
  ghost predicate KeyedConfig(registry: Registry, cfg: PipelineConfig) {
    forall n :: n in cfg.adapters.vals ==>
      && MatchesKey(n)
      && var ac := cfg.adapters.vals[n];
      && (ac.inputs.Some? ==> forall k :: k in ac.inputs.value.vals ==> MatchesKey(k))
      && (ac.adapter in registry ==>
            && (forall k :: k in registry[ac.adapter].inputs.vals ==> MatchesKey(k))
            && (forall k :: k in registry[ac.adapter].outputs.vals ==> MatchesKey(k)))
  }

  /** The edges of one adapter's wired inputs: source and output always match
      `keys_pattern`, the target is the adapter and the input is one of its config inputs. */
  lemma {:induction false} WiredEdgesNames(name: string, keys: seq<string>, vals: map<string, Value>)
    requires forall k :: k in keys ==> k in vals
    ensures forall e :: e in WiredEdges(name, keys, vals) ==>
              MatchesKey(e.source) && MatchesKey(e.output) && e.target == name && e.input in keys
    decreases |keys|
  {
    if keys != [] {
      WiredEdgesNames(name, keys[1..], vals);
      assert forall x :: x in keys[1..] ==> x in keys;
    }
  }

  /** All wired edges: source and output match `keys_pattern`, and the edge targets one
      of the config inputs of an adapter in `names` that has inputs. */
  lemma {:induction false} AllWiredNames(names: seq<string>, adapters: map<string, AdapterConfig>)
    requires forall n :: n in names ==> n in adapters
    ensures forall e :: e in AllWired(names, adapters) ==>
              && MatchesKey(e.source) && MatchesKey(e.output)
              && e.target in names && adapters[e.target].inputs.Some?
              && e.input in adapters[e.target].inputs.value.vals
    decreases |names|
  {
    if names != [] {
      var ac := adapters[names[0]];
      if ac.inputs.Some? {
        WiredEdgesNames(names[0], ac.inputs.value.keys, ac.inputs.value.vals);
      }
      AllWiredNames(names[1..], adapters);
      assert forall x :: x in names[1..] ==> x in names;
    }
  }

  /** The edges of the digraph: source and output always match `keys_pattern`, and so
      do target and input when the config's names do. */
  lemma DigraphOfEdgeNames(registry: Registry, cfg: PipelineConfig)
    requires DigraphOf(registry, cfg).Ok?
    ensures var g := DigraphOf(registry, cfg).value;
      forall i :: 0 <= i < |g.edges| ==> MatchesKey(g.edges[i].source) && MatchesKey(g.edges[i].output)
    ensures KeyedConfig(registry, cfg) ==>
      var g := DigraphOf(registry, cfg).value;
      forall i :: 0 <= i < |g.edges| ==> ValidEdge(g.edges[i])
  {
    var g, names, adapters := DigraphOf(registry, cfg).value, cfg.adapters.keys, cfg.adapters.vals;
    DigraphOfShape(registry, cfg);
    AllWiredNames(names, adapters);
    forall i | 0 <= i < |g.edges|
      ensures g.edges[i] in AllWired(names, adapters)
    {
    }
  }

  /** The node list is non-empty iff some adapter has `inputs`. */
  lemma DigraphOfNodeCount(registry: Registry, cfg: PipelineConfig)
    requires DigraphOf(registry, cfg).Ok?
    ensures |DigraphOf(registry, cfg).value.nodes| >= 1 <==>
              exists n :: n in cfg.adapters.vals && cfg.adapters.vals[n].inputs.Some?
  {
    var g, names, adapters := DigraphOf(registry, cfg).value, cfg.adapters.keys, cfg.adapters.vals;
    DigraphOfShape(registry, cfg);
    WithInputsMembers(names, adapters);
    var present := WithInputs(names, adapters);
    if exists n :: n in adapters && adapters[n].inputs.Some? {
      var n :| n in adapters && adapters[n].inputs.Some?;
      assert n in present;
    }
    if present != [] {
      assert present[0] in names;
    }
    assert |g.nodes| == |Ids(g.nodes)| == |present|;
  }

  /** Each node's id, input names and output names match `keys_pattern` when the
      config's and its classes' names do. */
  lemma DigraphOfNodeNames(registry: Registry, cfg: PipelineConfig)
    requires DigraphOf(registry, cfg).Ok? && KeyedConfig(registry, cfg)
    ensures var g := DigraphOf(registry, cfg).value;
      forall i :: 0 <= i < |g.nodes| ==> ValidNode(g.nodes[i])
  {
    var g, adapters := DigraphOf(registry, cfg).value, cfg.adapters.vals;
    DigraphOfNodes(registry, cfg);
    forall i | 0 <= i < |g.nodes|
      ensures ValidNode(g.nodes[i])
    {
      var ac := adapters[g.nodes[i].id];
      FillEffect(registry[ac.adapter].inputs, ac.inputs.value.keys, ac.inputs.value.vals);
    }
  }

  /** What `DiGraphSchema` checks of the digraph `create_digraph` dumps: when every name
      of the config and its classes matches `keys_pattern`, the digraph passes the
      schema's rules iff some adapter has `inputs`, so a config without any fails
      `validate.Length(min=1)` on the way back. */
  lemma DigraphOfValid(registry: Registry, cfg: PipelineConfig)
    requires DigraphOf(registry, cfg).Ok? && KeyedConfig(registry, cfg)
    ensures ValidDigraph(DigraphOf(registry, cfg).value) <==>
              exists n :: n in cfg.adapters.vals && cfg.adapters.vals[n].inputs.Some?
  {
    DigraphOfEdgeNames(registry, cfg);
    DigraphOfNodeCount(registry, cfg);
    DigraphOfNodeNames(registry, cfg);
  }

  // ---------------------------------------------------------------------------------
  // The converter

  /** The loop over one adapter's config inputs (lines 92-103). */
  method ReadInputs(name: string, skeleton: Node, inputs: OMap<string, Value>, edges0: seq<Edge>)
    returns (r: Result<(Node, seq<Edge>), GraphError>)
    ensures r == ScanInputs(name, skeleton, inputs.keys, inputs.vals, edges0)
  {
    var node := skeleton;
    var edges := edges0;
    for j := 0 to |inputs.keys|
      invariant ScanInputs(name, skeleton, inputs.keys, inputs.vals, edges0)
                == ScanInputs(name, node, inputs.keys[j..], inputs.vals, edges)
    {
      var input := inputs.keys[j];
      var value := inputs.vals[input];
      assert inputs.keys[j..][0] == input && inputs.keys[j..][1..] == inputs.keys[j + 1..];
      if value.Str? && IsWiredRef(value.s) {
        var (source, output) := RefParts(value.s);
        edges := edges + [Edge(source, output, name, input)];
      } else {
        if input !in node.inputs.vals {
          return Err(UndeclaredInput(name, input));
        }
        var field := node.inputs.vals[input];
        node := node.(inputs := Put(node.inputs, input, field.(val := value)));
      }
    }
    assert inputs.keys[|inputs.keys|..] == [];
    return Ok((node, edges));
  }

  /** One iteration of the adapter loop (lines 67-105): look up the class, skip an
      adapter without `inputs`, otherwise read its inputs and store its node. */
  method ScanAdapterStep(registry: Registry, name: string, adapter: AdapterConfig, acc: Scan)
    returns (r: Result<Scan, GraphError>)
    ensures r == ScanAdapter(registry, name, adapter, acc)
  {
    if adapter.adapter !in registry {
      return Err(UnknownAdapter(adapter.adapter));
    }
    var schema := registry[adapter.adapter];
    var skeleton := Node(name, adapter.adapter, adapter.comment, schema.inputs, schema.outputs);
    if adapter.inputs.None? {
      return Ok(acc);
    }
    var scanned := ReadInputs(name, skeleton, adapter.inputs.value, acc.edges);
    if scanned.Err? {
      return Err(scanned.error);
    }
    return Ok(Scan(Put(acc.nodes, name, scanned.value.0), scanned.value.1));
  }

  /** `create_digraph`, with the topological loop corrected to record every emitted node. */
  method CreateDigraph(registry: Registry, cfg: PipelineConfig) returns (r: Result<Digraph, GraphError>)
    ensures r == DigraphOf(registry, cfg)
  {
    var names := cfg.adapters.keys;
    var acc := Scan(Empty(), []);
    for i := 0 to |names|
      invariant Collect(registry, cfg) == ScanAdapters(registry, names[i..], cfg.adapters.vals, acc)
    {
      assert names[i..][0] == names[i] && names[i..][1..] == names[i + 1..];
      var step := ScanAdapterStep(registry, names[i], cfg.adapters.vals[names[i]], acc);
      if step.Err? {
        return Err(step.error);
      }
      acc := step.value;
    }
    assert names[|names|..] == [];
    ScanAdaptersTargets(registry, names, cfg.adapters.vals, Scan(Empty(), []));
    var nodes := EmitNodes(acc.nodes, acc.edges);
    if nodes.Err? {
      return Err(nodes.error);
    }
    return Ok(Digraph(cfg.version, cfg.description, nodes.value, acc.edges));
  }
}
