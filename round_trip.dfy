/** The two converters of webapp/api/config_graph_parser.py undo each other: a config that
    `create_digraph` accepts comes back from `create_config` with the same version,
    description, adapters and input values, the adapters listed in a topological order.
    This needs the config to give every adapter at least one input, no literal input the
    value null, and the adapter classes to declare every input with a null default: an
    adapter without inputs is dropped from the digraph, and `create_config` keeps exactly
    the inputs whose value is not null. */
module RoundTrip {
  import opened Wrappers
  import opened OrderedMaps
  import opened PipelineGraph
  import opened TopoSort
  import opened DigraphToConfig
  import opened ConfigToDigraph

  /** Every input each adapter class declares has a null default. */
  ghost predicate NullDefaults(registry: Registry) {
    forall a, k :: a in registry && k in registry[a].inputs.vals ==> registry[a].inputs.vals[k].val == Null
  }

  /** Every adapter has a non-empty `inputs` map with no null value. */
  ghost predicate InputsGiven(cfg: PipelineConfig) {
    forall n :: n in cfg.adapters.vals ==>
      cfg.adapters.vals[n].inputs.Some? && cfg.adapters.vals[n].inputs.value.keys != []
      && forall k :: k in cfg.adapters.vals[n].inputs.value.vals ==> cfg.adapters.vals[n].inputs.value.vals[k] != Null
  }

  /** The literal (not wired) values among the inputs `keys`. */
  function LiteralPart(keys: seq<string>, vals: map<string, Value>): (r: map<string, Value>)
    requires forall k :: k in keys ==> k in vals
    ensures forall k :: k in r <==> k in keys && !IsWired(vals[k])
  {
    map k | k in keys && !IsWired(vals[k]) :: vals[k]
  }

  /** The wired values among the inputs `keys`. */
  function WiredPart(keys: seq<string>, vals: map<string, Value>): (r: map<string, Value>)
    requires forall k :: k in keys ==> k in vals
    ensures forall k :: k in r <==> k in keys && IsWired(vals[k])
  {
    map k | k in keys && IsWired(vals[k]) :: vals[k]
  }

  function WiredInputs(ac: AdapterConfig): map<string, Value> {
    if ac.inputs.Some? then WiredPart(ac.inputs.value.keys, ac.inputs.value.vals) else map[]
  }

  // ---------------------------------------------------------------------------------
  // Overlaying edge references

  lemma {:induction false} OverlayAppend(base: map<string, Value>, e1: seq<Edge>, e2: seq<Edge>, n: string)
    ensures Overlay(base, e1 + e2, n) == Overlay(Overlay(base, e1, n), e2, n)
    decreases |e1|
  {
    if e1 == [] {
      assert e1 + e2 == e2;
    } else {
      assert (e1 + e2)[0] == e1[0] && (e1 + e2)[1..] == e1[1..] + e2;
      OverlayAppend(if e1[0].target == n then base[e1[0].input := EdgeRef(e1[0])] else base, e1[1..], e2, n);
    }
  }

  lemma {:induction false} OverlayUntouched(base: map<string, Value>, edges: seq<Edge>, n: string)
    requires forall e :: e in edges ==> e.target != n
    ensures Overlay(base, edges, n) == base
    decreases |edges|
  {
    if edges != [] {
      assert edges[0] in edges;
      OverlayUntouched(base, edges[1..], n);
    }
  }

  lemma {:induction false} WiredEdgesTarget(name: string, keys: seq<string>, vals: map<string, Value>)
    requires forall k :: k in keys ==> k in vals
    ensures forall e :: e in WiredEdges(name, keys, vals) ==> e.target == name
    decreases |keys|
  {
    if keys != [] {
      WiredEdgesTarget(name, keys[1..], vals);
    }
  }

  lemma WiredPartCons(keys: seq<string>, vals: map<string, Value>)
    requires forall k :: k in keys ==> k in vals
    requires keys != []
    ensures WiredPart(keys, vals)
            == if IsWired(vals[keys[0]]) then WiredPart(keys[1..], vals)[keys[0] := vals[keys[0]]]
               else WiredPart(keys[1..], vals)
  {
    assert forall x :: x in keys <==> x == keys[0] || x in keys[1..];
  }

  lemma UnionUpdate(base: map<string, Value>, w: map<string, Value>, k: string, v: Value)
    requires k in w ==> w[k] == v
    ensures base[k := v] + w == base + w[k := v]
  {
  }

  /** One wired input: its edge writes back the value it was read from. */
  lemma OverlayWiredStep(base: map<string, Value>, n: string, keys: seq<string>, vals: map<string, Value>)
    requires forall k :: k in keys ==> k in vals
    requires keys != [] && IsWired(vals[keys[0]])
    ensures Overlay(base, WiredEdges(n, keys, vals), n)
            == Overlay(base[keys[0] := vals[keys[0]]], WiredEdges(n, keys[1..], vals), n)
  {
    var k, v := keys[0], vals[keys[0]];
    var e := WireEdge(n, k, v);
    var edges := WiredEdges(n, keys, vals);
    assert edges == [e] + WiredEdges(n, keys[1..], vals);
    assert edges[0] == e && edges[1..] == WiredEdges(n, keys[1..], vals);
    assert EdgeRef(e) == v;
  }

  /** The references written by an adapter's own wired edges are its wired values. */
  lemma {:induction false} OverlayWired(base: map<string, Value>, n: string, keys: seq<string>, vals: map<string, Value>)
    requires forall k :: k in keys ==> k in vals
    ensures Overlay(base, WiredEdges(n, keys, vals), n) == base + WiredPart(keys, vals)
    decreases |keys|
  {
    if keys == [] {
      assert base + WiredPart(keys, vals) == base;
    } else {
      var k, v, rest := keys[0], vals[keys[0]], keys[1..];
      WiredPartCons(keys, vals);
      if IsWired(v) {
        OverlayWiredStep(base, n, keys, vals);
        OverlayWired(base[k := v], n, rest, vals);
        UnionUpdate(base, WiredPart(rest, vals), k, v);
      } else {
        OverlayWired(base, n, rest, vals);
      }
    }
  }

  lemma OverlayAdapter(base: map<string, Value>, n: string, ac: AdapterConfig)
    ensures Overlay(base, AdapterWired(n, ac), n) == base + WiredInputs(ac)
  {
    if ac.inputs.Some? {
      OverlayWired(base, n, ac.inputs.value.keys, ac.inputs.value.vals);
    } else {
      assert base + WiredInputs(ac) == base;
    }
  }

  lemma {:induction false} AllWiredTargets(names: seq<string>, adapters: map<string, AdapterConfig>)
    requires forall n :: n in names ==> n in adapters
    ensures forall e :: e in AllWired(names, adapters) ==> e.target in names
    decreases |names|
  {
    if names != [] {
      var ac := adapters[names[0]];
      if ac.inputs.Some? {
        WiredEdgesTarget(names[0], ac.inputs.value.keys, ac.inputs.value.vals);
      }
      AllWiredTargets(names[1..], adapters);
    }
  }

  /** Of all the wired edges of a config, only adapter `n`'s own write to its inputs. */
  lemma {:induction false} OverlayAllWired(base: map<string, Value>, names: seq<string>, adapters: map<string, AdapterConfig>, n: string)
    requires forall x :: x in names ==> x in adapters
    requires Distinct(names) && n in names
    ensures Overlay(base, AllWired(names, adapters), n) == base + WiredInputs(adapters[n])
    decreases |names|
  {
    var first, rest := names[0], names[1..];
    OverlayAppend(base, AdapterWired(first, adapters[first]), AllWired(rest, adapters), n);
    DistinctTail(names);
    if first == n {
      OverlayAdapter(base, n, adapters[n]);
      AllWiredTargets(rest, adapters);
      OverlayUntouched(base + WiredInputs(adapters[n]), AllWired(rest, adapters), n);
    } else {
      var ac := adapters[first];
      if ac.inputs.Some? {
        WiredEdgesTarget(first, ac.inputs.value.keys, ac.inputs.value.vals);
      }
      OverlayUntouched(base, AdapterWired(first, ac), n);
      OverlayAllWired(base, rest, adapters, n);
    }
  }

  // ---------------------------------------------------------------------------------
  // What `create_config` keeps of a scanned node

  /** The inputs `create_config` keeps of declared inputs holding exactly the literal
      config values, every other one null. */
  lemma KeptAreLiterals(fields: OMap<string, IOField>, keys: seq<string>, vals: map<string, Value>)
    requires forall k :: k in keys <==> k in vals
    requires forall k :: k in vals ==> vals[k] != Null && (IsWired(vals[k]) || k in fields.vals)
    requires forall k :: k in fields.vals ==>
               fields.vals[k].val == if k in keys && !IsWired(vals[k]) then vals[k] else Null
    ensures KeptInputs(fields.keys, fields.vals).vals == LiteralPart(keys, vals)
  {
    var kept := KeptInputs(fields.keys, fields.vals);
    var literals := LiteralPart(keys, vals);
    forall k | k in kept.vals
      ensures k in literals && kept.vals[k] == literals[k]
    {
      assert k in fields.keys && fields.vals[k].val != Null;
    }
    forall k | k in literals
      ensures k in kept.vals
    {
      assert fields.vals[k].val == vals[k];
    }
  }

  /** With null defaults and non-null literals, a scanned node's kept inputs are exactly
      its adapter's literal config values. */
  lemma KeptLiterals(n: string, ac: AdapterConfig, schema: AdapterSchema)
    requires ac.inputs.Some?
    requires forall k :: k in schema.inputs.vals ==> schema.inputs.vals[k].val == Null
    requires forall k :: k in ac.inputs.value.vals ==> ac.inputs.value.vals[k] != Null
    requires forall k :: k in ac.inputs.value.vals ==> IsWired(ac.inputs.value.vals[k]) || k in schema.inputs.vals
    ensures InputMap(AdapterConfigOf(FilledNode(n, ac, schema))) == LiteralPart(ac.inputs.value.keys, ac.inputs.value.vals)
  {
    var keys, vals := ac.inputs.value.keys, ac.inputs.value.vals;
    assert Distinct(keys);
    FillEffect(schema.inputs, keys, vals);
    var fields := Fill(schema.inputs, keys, vals);
    assert fields.vals.Keys == schema.inputs.vals.Keys;
    KeptAreLiterals(fields, keys, vals);
    var kept := KeptInputs(fields.keys, fields.vals);
    if kept.keys == [] {
      assert kept.vals.Keys == {};
    }
  }

  /** An adapter's literal and wired values together are all of its inputs. */
  lemma InputsSplit(inputs: OMap<string, Value>)
    ensures LiteralPart(inputs.keys, inputs.vals) + WiredPart(inputs.keys, inputs.vals) == inputs.vals
  {
  }

  // ---------------------------------------------------------------------------------
  // The round trip

  lemma {:induction false} WithInputsAll(names: seq<string>, adapters: map<string, AdapterConfig>)
    requires forall n :: n in names ==> n in adapters && adapters[n].inputs.Some?
    ensures WithInputs(names, adapters) == names
    decreases |names|
  {
    if names != [] {
      WithInputsAll(names[1..], adapters);
    }
  }

  /** The digraph of an accepted config lists each adapter once, in a topological order of
      the wired edges, and every wired edge resolves. */
  lemma DigraphNodes(registry: Registry, cfg: PipelineConfig)
    requires InputsGiven(cfg)
    requires DigraphOf(registry, cfg).Ok?
    ensures var g := DigraphOf(registry, cfg).value;
      && g.version == cfg.version && g.description == cfg.description
      && g.edges == AllWired(cfg.adapters.keys, cfg.adapters.vals)
      && IsTopoOrder(Ids(g.nodes), cfg.adapters.keys, g.edges)
      && (forall x :: x in Ids(g.nodes) <==> x in cfg.adapters.vals)
      && forall e :: e in g.edges ==> e.source in Ids(g.nodes) && e.target in Ids(g.nodes)
  {
    var g := DigraphOf(registry, cfg).value;
    DigraphOfShape(registry, cfg);
    WithInputsAll(cfg.adapters.keys, cfg.adapters.vals);
    assert Distinct(cfg.adapters.keys);
    TopoOrderCovers(Ids(g.nodes), cfg.adapters.keys, g.edges);
    AllWiredTargets(cfg.adapters.keys, cfg.adapters.vals);
    forall e | e in g.edges
      ensures e.source in Ids(g.nodes) && e.target in Ids(g.nodes)
    {
      var i :| 0 <= i < |g.edges| && g.edges[i] == e;
      var j :| 0 <= j < |Ids(g.nodes)| && Ids(g.nodes)[j] == e.target;
      assert e.source in Ids(g.nodes)[..j];
    }
  }

  /** `create_config` accepts a digraph whose node ids are distinct and whose edges all
      resolve, and lists the adapters in node order. */
  lemma ConfigOfResolved(g: Digraph)
    requires Distinct(Ids(g.nodes))
    requires forall e :: e in g.edges ==> e.source in Ids(g.nodes) && e.target in Ids(g.nodes)
    ensures ConfigOf(g).Ok?
    ensures ConfigOf(g).value.version == g.version && ConfigOf(g).value.description == g.description
    ensures ConfigOf(g).value.adapters.keys == Ids(g.nodes)
  {
    var m := AdaptersOf(g.nodes);
    AdaptersOfKeys(g.nodes);
    AdaptersOfOrder(g.nodes);
    ApplyEdgesOk(m, g.edges);
    if g.nodes != [] {
      ApplyEdgesEffect(m, g.edges, g.nodes[0].id);
    }
  }

  /** `create_config` accepts the digraph and lists the adapters in node order. */
  lemma RoundTripOk(registry: Registry, cfg: PipelineConfig)
    requires InputsGiven(cfg)
    requires DigraphOf(registry, cfg).Ok?
    ensures var g := DigraphOf(registry, cfg).value;
      && ConfigOf(g).Ok?
      && ConfigOf(g).value.version == cfg.version && ConfigOf(g).value.description == cfg.description
      && ConfigOf(g).value.adapters.keys == Ids(g.nodes)
  {
    DigraphNodes(registry, cfg);
    ConfigOfResolved(DigraphOf(registry, cfg).value);
  }

  /** The entry `create_config` first builds for the node at `i`: its adapter's scanned node. */
  lemma EntryOfNode(registry: Registry, cfg: PipelineConfig, i: nat)
    requires DigraphOf(registry, cfg).Ok?
    requires i < |DigraphOf(registry, cfg).value.nodes|
    requires Distinct(Ids(DigraphOf(registry, cfg).value.nodes))
    ensures var g := DigraphOf(registry, cfg).value;
      var n := g.nodes[i].id;
      && n in cfg.adapters.vals && AdapterOk(registry, cfg.adapters.vals[n]) && cfg.adapters.vals[n].inputs.Some?
      && n in AdaptersOf(g.nodes).vals
      && AdaptersOf(g.nodes).vals[n] == AdapterConfigOf(FilledNode(n, cfg.adapters.vals[n], registry[cfg.adapters.vals[n].adapter]))
  {
    var g := DigraphOf(registry, cfg).value;
    DigraphOfNodes(registry, cfg);
    CollectResult(registry, cfg);
    forall j | i < j < |g.nodes| ensures g.nodes[j].id != g.nodes[i].id {
      assert Ids(g.nodes)[j] != Ids(g.nodes)[i];
    }
    AdaptersOfEntry(g.nodes, i);
  }

  /** Before the edge loop, an adapter's entry holds its literal config values. */
  lemma NodeEntryLiterals(registry: Registry, cfg: PipelineConfig, n: string)
    requires NullDefaults(registry) && InputsGiven(cfg)
    requires DigraphOf(registry, cfg).Ok?
    requires n in cfg.adapters.vals
    ensures var g, ac := DigraphOf(registry, cfg).value, cfg.adapters.vals[n];
      && n in AdaptersOf(g.nodes).vals
      && AdaptersOf(g.nodes).vals[n].adapter == ac.adapter && AdaptersOf(g.nodes).vals[n].comment == ac.comment
      && InputMap(AdaptersOf(g.nodes).vals[n]) == LiteralPart(ac.inputs.value.keys, ac.inputs.value.vals)
  {
    var g, ac := DigraphOf(registry, cfg).value, cfg.adapters.vals[n];
    DigraphNodes(registry, cfg);
    var i :| 0 <= i < |g.nodes| && Ids(g.nodes)[i] == n;
    EntryOfNode(registry, cfg, i);
    KeptLiterals(n, ac, registry[ac.adapter]);
  }

  /** One adapter comes back with the same class, comment and input values. */
  lemma RoundTripEntry(registry: Registry, cfg: PipelineConfig, n: string)
    requires NullDefaults(registry) && InputsGiven(cfg)
    requires DigraphOf(registry, cfg).Ok?
    requires n in cfg.adapters.vals
    ensures var g := DigraphOf(registry, cfg).value;
      && ConfigOf(g).Ok? && n in ConfigOf(g).value.adapters.vals
      && var ac, ac' := cfg.adapters.vals[n], ConfigOf(g).value.adapters.vals[n];
      && ac'.adapter == ac.adapter && ac'.comment == ac.comment
      && ac'.inputs.Some? && ac'.inputs.value.vals == ac.inputs.value.vals
  {
    var g, ac := DigraphOf(registry, cfg).value, cfg.adapters.vals[n];
    var m := AdaptersOf(g.nodes);
    DigraphNodes(registry, cfg);
    RoundTripOk(registry, cfg);
    NodeEntryLiterals(registry, cfg, n);
    ApplyEdgesEffect(m, g.edges, n);
    assert Distinct(cfg.adapters.keys);
    OverlayAllWired(InputMap(m.vals[n]), cfg.adapters.keys, cfg.adapters.vals, n);
    InputsSplit(ac.inputs.value);
    assert ac.inputs.value.keys[0] in ac.inputs.value.vals;
  }

  /** `create_config(create_digraph(cfg))` gives back `cfg`, up to the order of the
      adapters (a topological order of the wired edges) and of each adapter's inputs. */
  lemma RoundTripConfig(registry: Registry, cfg: PipelineConfig)
    requires NullDefaults(registry) && InputsGiven(cfg)
    requires DigraphOf(registry, cfg).Ok?
    ensures var g := DigraphOf(registry, cfg).value;
      && ConfigOf(g).Ok?
      && var cfg' := ConfigOf(g).value;
      && cfg'.version == cfg.version && cfg'.description == cfg.description
      && IsTopoOrder(cfg'.adapters.keys, cfg.adapters.keys, g.edges)
      && cfg'.adapters.vals.Keys == cfg.adapters.vals.Keys
      && forall n :: n in cfg.adapters.vals ==>
           var ac, ac' := cfg.adapters.vals[n], cfg'.adapters.vals[n];
           && ac'.adapter == ac.adapter && ac'.comment == ac.comment
           && ac'.inputs.Some? && ac'.inputs.value.vals == ac.inputs.value.vals
  {
    DigraphNodes(registry, cfg);
    RoundTripOk(registry, cfg);
    forall n | n in cfg.adapters.vals
      ensures var ac, ac' := cfg.adapters.vals[n], ConfigOf(DigraphOf(registry, cfg).value).value.adapters.vals[n];
        && ac'.adapter == ac.adapter && ac'.comment == ac.comment
        && ac'.inputs.Some? && ac'.inputs.value.vals == ac.inputs.value.vals
    {
      RoundTripEntry(registry, cfg, n);
    }
  }
}
