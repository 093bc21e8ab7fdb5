# MINT-Transformation core, modelled in Dafny

MINT-Transformation builds data-transformation pipelines out of adapters. A pipeline
is written in one of two forms:

- the compact **config** form: each adapter has a class name, an optional comment and
  optional `inputs`. An input wired to another adapter's output holds the reference
  string `$.<adapter>.<output>`.
- the explicit **digraph** form: a list of nodes with their declared inputs and outputs,
  and a list of edges.

`webapp/api/config_graph_parser.py` converts between the two:

- `create_digraph` scans the config, turns each reference into an edge, and emits the
  nodes with a hand-written topological loop.
- `create_config` checks every edge's endpoints and writes each edge back as a
  reference.

This project models both converters and the schema rules of the digraph form. It proves:

- what each converter produces and when it raises;
- that the topological loop, once corrected, emits a topological order exactly when one
  exists;
- that `create_config(create_digraph(cfg))` gives back `cfg`, under stated conditions.

It also models the smaller cores of the transformation functions:

- the Data-Catalog reader (`funcs/readers/dcat_read_func.py`): representation choice,
  the temporal filter, the download loop and cache counting, the `ShardedBackend` slot
  array, the API-key cache, the client singleton, query building and response handling.
- `graph_str2str_func` and `unit_trans`: in-place rewrites of the attribute maps of a
  graph's nodes, stopping at the first node that raises.
- the TopoFlow climate writer: bounding-box disjointness, raster bounds from a
  geotransform, the GPM raster repair (rotation, masking, swapped geotransform), the
  per-file loop of `create_rts_from_nc_files`, the resampling-algorithm lookup and the
  parsing of the DEM bounds.

Modules, one per file:

| module | file | models |
|---|---|---|
| `Wrappers` | wrappers.dfy | `Option`, `Result` |
| `Strings` | strings.dfy | Python `str.split`, `join`, `replace`, `strip` |
| `OrderedMaps` | ordered_maps.dfy | insertion-ordered `dict` / `OrderedDict` |
| `PipelineGraph` | pipeline_graph.dfy | the two pipeline forms, the two regular expressions, the schema field rules |
| `ConfigToDigraph` | config_to_digraph.dfy | `create_digraph` |
| `TopoSort` | topo_sort.dfy | the topological loop of `create_digraph`, as written and corrected |
| `DigraphToConfig` | digraph_to_config.dfy | `create_config` |
| `RoundTrip` | round_trip.dfy | config → digraph → config |
| `DcatRead` | dcat_read.dfy | `DcatReadFunc.__init__` logic, `ShardedBackend`, `DCatAPI` |
| `DataGraph` | data_graph.dfy | graph nodes with mutable `data`, and the stop-at-first-error visit |
| `GraphStr2Str` | graph_str2str.dfy | `GraphStr2StrFunc` |
| `TransUnit` | trans_unit.dfy | `UnitTransFunc.exec` |
| `TopoflowClimate` | topoflow_climate.dfy | the TopoFlow climate writer |

Where the source mutates state, the model does too:

- `create_digraph`, `create_config` and their loops are methods. Each is proved equal to
  a specification function (`DigraphOf`, `ConfigOf`, `TopoNodes`, ...), and the lemmas
  are stated about those functions.
- `ShardedBackend`, `DCatAPI` and the graph nodes are classes whose methods update their
  fields.
- The GPM masking works in place on an `array2`.

## Model

| member | source | states |
|---|---|---|
| PipelineGraph.RefParts | webapp/api/config_graph_parser.py:93-95 | a string matching `wired_pattern` splits on `.` into exactly three pieces; the last two are a word and a key, and rebuilding `$.{a}.{b}` from them gives the string back |
| PipelineGraph.RefRoundTrip | webapp/api/config_graph_parser.py:172 | the reference `create_config` writes for a valid source and output matches `wired_pattern` and parses back (lines 93-95) to the same source and output |
| PipelineGraph.WiredIff | webapp/api/config_graph_parser.py:9 | a string is a wiring reference iff it is `$.{a}.{b}` for a word `a` and a key `b`, with `\w` read as ASCII word characters |
| PipelineGraph.NoDotInKey | webapp/api/config_graph_parser.py:10 | a string matching `keys_pattern` contains no `.`, so the split at lines 93-95 cannot cut inside it |
| PipelineGraph.LoadIOField | webapp/api/config_graph_parser.py:17-20 | an IO field loads iff `id`, `optional` and `val` are all present; `val` may be null, and the loaded field carries the given values |
| PipelineGraph.LoadDumpIOField | webapp/api/config_graph_parser.py:17-20 | every IO field, a null `val` included, loads back to itself |
| ConfigToDigraph.WireEdge | webapp/api/config_graph_parser.py:93-100 | the edge of a wired input targets the adapter and input being scanned, its source and output rebuild the reference, and both match `keys_pattern` |
| ConfigToDigraph.ScanInputsOk | webapp/api/config_graph_parser.py:92-103 | an adapter's input loop succeeds iff every config input is wired or declared by the class; a literal for an undeclared input raises |
| ConfigToDigraph.ScanInputsTargets | webapp/api/config_graph_parser.py:98 | every edge the input loop appends targets the adapter being scanned |
| ConfigToDigraph.FillEffect | webapp/api/config_graph_parser.py:77-103 | the node's inputs keep the class's declaration order; exactly the inputs given a literal value get that `val`, and wired inputs keep the schema default |
| ConfigToDigraph.ScanInputsEdges | webapp/api/config_graph_parser.py:92-101 | the input loop appends the edges of the wired inputs, in input order, after the edges already collected |
| ConfigToDigraph.ScanInputsNode | webapp/api/config_graph_parser.py:92-103 | the input loop changes the node only by filling literal values into its declared inputs |
| ConfigToDigraph.WithInputsMembers | webapp/api/config_graph_parser.py:90-91 | the adapters stored in `tmp_nodes_dict` are exactly those with an `inputs` key |
| ConfigToDigraph.ScanAdaptersOk | webapp/api/config_graph_parser.py:66-105 | the adapter loop succeeds iff every adapter's class is known and its inputs are accepted |
| ConfigToDigraph.ScanAdaptersTargets | webapp/api/config_graph_parser.py:66-105 | every collected edge targets a stored node |
| ConfigToDigraph.ScanAdapterEdges | webapp/api/config_graph_parser.py:92-101 | one adapter appends its wired edges, in input order |
| ConfigToDigraph.ScanAdaptersEdges | webapp/api/config_graph_parser.py:66-101 | the collected edges are every adapter's wired edges, adapter by adapter, input by input |
| ConfigToDigraph.ScanAdapterKeys | webapp/api/config_graph_parser.py:90-105 | one adapter is stored, last, iff it has an `inputs` key |
| ConfigToDigraph.ScanAdaptersKeys | webapp/api/config_graph_parser.py:90-105 | the stored adapters are those with an `inputs` key, in declaration order; an adapter without `inputs` is dropped |
| ConfigToDigraph.ScanAdaptersEntries | webapp/api/config_graph_parser.py:66-105 | each adapter with inputs is stored as its class's declared node with its literal values filled in, and earlier entries stay |
| ConfigToDigraph.CollectResult | webapp/api/config_graph_parser.py:59-105 | the adapter loop succeeds iff every adapter is accepted; it then yields all wired edges and exactly the adapters with inputs, each filled |
| ConfigToDigraph.DigraphOfOk | webapp/api/config_graph_parser.py:56-141 | the corrected `create_digraph` succeeds iff every adapter is accepted and the stored adapters and wired edges admit a topological order |
| ConfigToDigraph.DigraphOfShape | webapp/api/config_graph_parser.py:56-141 | in the digraph of the corrected `create_digraph`, version and description are copied, the edges are all wired edges in order, and the node ids are a topological order of the adapters with inputs |
| ConfigToDigraph.DigraphOfNodes | webapp/api/config_graph_parser.py:104-128 | in the corrected `create_digraph`, each emitted node belongs to an adapter with inputs and is that adapter's filled node |
| ConfigToDigraph.ReadInputs | webapp/api/config_graph_parser.py:92-103 | the input loop, run imperatively, computes the specified scan of one adapter |
| ConfigToDigraph.DigraphOfEdgeNames | webapp/api/config_graph_parser.py:37-41 | every dumped edge's source and output pass `keys_pattern`, and its target and input do when the config's names do |
| ConfigToDigraph.DigraphOfNodeCount | webapp/api/config_graph_parser.py:50 | the dumped node list is non-empty iff some adapter has `inputs` |
| ConfigToDigraph.DigraphOfNodeNames | webapp/api/config_graph_parser.py:26-31 | when the config's and its classes' names pass `keys_pattern`, so does every dumped node's id, input name and output name |
| ConfigToDigraph.DigraphOfValid | webapp/api/config_graph_parser.py:47-51 | with such names, the dumped digraph passes every `DiGraphSchema` field rule iff some adapter has `inputs`; otherwise `validate.Length(min=1)` rejects it on the way back |
| ConfigToDigraph.CreateDigraph | webapp/api/config_graph_parser.py:56-141 | the converter, run imperatively, returns exactly the specified digraph or error |
| TopoSort.FirstReady | webapp/api/config_graph_parser.py:122-126 | the picked start node is declared and ready (count zero, not added); none is picked only when no declared node is ready |
| TopoSort.FirstReadyIsFirst | webapp/api/config_graph_parser.py:122-126 | no node declared before the picked one is ready |
| TopoSort.Decrement | webapp/api/config_graph_parser.py:132-136 | the inner loop keeps the counted names and raises only the count-underflow error |
| TopoSort.DecrementOk | webapp/api/config_graph_parser.py:132-136 | with enough in every count the inner loop never raises and takes off each target's number of occurrences |
| TopoSort.KahnShape | webapp/api/config_graph_parser.py:118-128 | the loop appends exactly one declared node per iteration and never changes what it emitted before |
| TopoSort.KahnUnfold | webapp/api/config_graph_parser.py:120-138 | one iteration: raise when nothing is ready; a node without outgoing edges is emitted (and, as written, not recorded); otherwise decrement or raise, then record it |
| TopoSort.InitialInv | webapp/api/config_graph_parser.py:108-115 | after counting, each count is the node's number of incoming edges |
| TopoSort.KahnStep | webapp/api/config_graph_parser.py:120-138 | one corrected iteration never underflows and keeps each count equal to the pending in-degree |
| TopoSort.Stuck | webapp/api/config_graph_parser.py:124-125 | when a node is left and none is ready, no topological order exists, so the `ValueError` is justified |
| TopoSort.KahnResult | webapp/api/config_graph_parser.py:118-138 | from any consistent state the corrected loop emits a topological order, or raises and none exists |
| TopoSort.TopoOrderCorrect | webapp/api/config_graph_parser.py:107-138 | the corrected loop succeeds iff a topological order exists; what it emits is one, and its only error is "no start node" |
| TopoSort.TopoOrderCovers | webapp/api/config_graph_parser.py:118-128 | a topological order holds every node |
| TopoSort.AsWrittenSinkRepeats | webapp/api/config_graph_parser.py:130-131 | as written, once a node without outgoing edges is picked it is picked on every remaining iteration |
| TopoSort.AsWrittenRepeatsSink | webapp/api/config_graph_parser.py:130-138 | two adapters and no edges: as written the output is [A, A]; corrected it is [A, B] |
| TopoSort.AsWrittenMasksCycle | webapp/api/config_graph_parser.py:120-138 | with A unconnected and declared before a cycle B⇄C, the loop as written emits [A, A, A] and raises nothing; the corrected loop raises `ValueError` |
| TopoSort.AsWrittenAgrees | webapp/api/config_graph_parser.py:130-138 | the loop as written and the corrected loop agree while every node emitted before the last has outgoing edges |
| TopoSort.ChainUnique | webapp/api/config_graph_parser.py:107-138 | the only topological order of the chain A→B→C is A, B, C |
| TopoSort.ChainOrder | webapp/api/config_graph_parser.py:107-138 | the corrected loop emits A, B, C for the chain, whatever the declaration order |
| TopoSort.ChainOrderAsWritten | webapp/api/config_graph_parser.py:107-138 | so does the loop as written |
| TopoSort.TopoNodesOrder | webapp/api/config_graph_parser.py:126-128 | the emitted nodes are the stored nodes named by the topological order, one per name |
| TopoSort.TopoNodesIds | webapp/api/config_graph_parser.py:126-128 | when each node is stored under its own id, the emitted ids are the order itself |
| TopoSort.CountEdges | webapp/api/config_graph_parser.py:108-115 | `topo_graph_count` holds each node's in-degree; `topo_graph_edges` has a key iff the node has outgoing edges, mapped to its targets in edge order |
| TopoSort.DecrementTargets | webapp/api/config_graph_parser.py:132-136 | the inner loop, run imperatively, computes the specified decrement or error |
| TopoSort.Iteration | webapp/api/config_graph_parser.py:120-138 | one iteration, run imperatively, advances the loop exactly as the specification does, or raises its error |
| TopoSort.EmitNodes | webapp/api/config_graph_parser.py:107-138 | the counting and emitting loops, run imperatively, return exactly the specified nodes or error |
| DigraphToConfig.NonNullKeys | webapp/api/config_graph_parser.py:157-159 | an input is kept iff its `val` is not null |
| DigraphToConfig.KeptInputs | webapp/api/config_graph_parser.py:156-159 | `adapter_inputs` holds the non-null inputs in their original order, each with its `val` |
| DigraphToConfig.AdaptersOfKeys | webapp/api/config_graph_parser.py:151-162 | there is one adapter entry per node id |
| DigraphToConfig.AdaptersOfEntry | webapp/api/config_graph_parser.py:162 | the entry of an id comes from the last node with that id |
| DigraphToConfig.AdaptersOfOrder | webapp/api/config_graph_parser.py:150-162 | with distinct ids, the adapters are listed in node order |
| DigraphToConfig.OverlayAt | webapp/api/config_graph_parser.py:164-172 | after the edge loop an input holds the reference of the last edge writing it, or else its earlier value; it exists iff it existed or some edge writes it |
| DigraphToConfig.ApplyEdgesOk | webapp/api/config_graph_parser.py:164-169 | the edge loop succeeds iff every edge's source and target are adapters |
| DigraphToConfig.ApplyEdgesFirstError | webapp/api/config_graph_parser.py:165-169 | otherwise it raises for the first bad edge, naming the source when the source is missing and the target otherwise |
| DigraphToConfig.ApplyEdgeKeys | webapp/api/config_graph_parser.py:165-172 | an edge whose endpoints are adapters does not raise and keeps the adapters and their order |
| DigraphToConfig.ApplyEdgeEntry | webapp/api/config_graph_parser.py:164-172 | one resolving edge keeps every adapter's class and comment, sets its target's input to the edge's reference, and gives the target `inputs` |
| DigraphToConfig.ApplyEdgesEffect | webapp/api/config_graph_parser.py:164-172 | the edge loop keeps the adapters, their order, class and comment; it overlays the references on the inputs and creates `inputs` exactly when an edge targets the adapter |
| DigraphToConfig.NodeEntry | webapp/api/config_graph_parser.py:152-161 | the node loop body, run imperatively, builds the specified entry |
| DigraphToConfig.EdgeEntry | webapp/api/config_graph_parser.py:165-172 | the edge loop body, run imperatively, raises or writes the reference exactly as specified |
| DigraphToConfig.CreateConfig | webapp/api/config_graph_parser.py:145-174 | the converter, run imperatively, returns exactly the specified config or error |
| RoundTrip.OverlayWired | webapp/api/config_graph_parser.py:172 | the references an adapter's own wired edges write back are its wired values |
| RoundTrip.OverlayAllWired | webapp/api/config_graph_parser.py:164-172 | of all the wired edges of a config, only adapter `n`'s own edges change its inputs |
| RoundTrip.KeptAreLiterals | webapp/api/config_graph_parser.py:156-161 | when each input's value is its literal or null, the kept inputs are exactly the literal ones |
| RoundTrip.KeptLiterals | webapp/api/config_graph_parser.py:156-161 | with null defaults and non-null literals, the inputs kept for a scanned node are its literal config values |
| RoundTrip.WithInputsAll | webapp/api/config_graph_parser.py:90-91 | when every adapter has inputs, none is dropped |
| RoundTrip.DigraphNodes | webapp/api/config_graph_parser.py:118-128 | the digraph of a config whose adapters all have inputs lists every adapter exactly once, in a topological order, and every edge resolves |
| RoundTrip.ConfigOfResolved | webapp/api/config_graph_parser.py:164-169 | a digraph with distinct ids whose edges all resolve is accepted; version, description and node order are kept |
| RoundTrip.RoundTripOk | webapp/api/config_graph_parser.py:145-174 | `create_config` accepts what `create_digraph` returns and keeps version, description and node order |
| RoundTrip.EntryOfNode | webapp/api/config_graph_parser.py:151-162 | before the edge loop, each node's entry is built from its adapter's filled node |
| RoundTrip.NodeEntryLiterals | webapp/api/config_graph_parser.py:151-162 | before the edge loop, each entry keeps its class and comment and holds exactly its literal config values |
| RoundTrip.RoundTripEntry | webapp/api/config_graph_parser.py:145-174 | each adapter comes back with the same class, comment and input values |
| RoundTrip.RoundTripConfig | webapp/api/config_graph_parser.py:56-174 | `create_config(create_digraph(cfg))` gives back the same version, description, adapters, classes and comments, and each adapter's inputs with the same values, compared as maps; the adapters come back in a topological order |
| DataGraph.Leading | funcs/graph_str2str_func.py:25-27 | counts the leading nodes that are rewritten without raising; the next node, if any, raises |
| DataGraph.VisitEffect | funcs/graph_str2str_func.py:25-27 | the visit rewrites exactly the nodes before the first failure and leaves the rest; it raises that failure's error, and nothing iff no node fails |
| DataGraph.VisitStops | funcs/graph_str2str_func.py:25-27 | a loop that stopped at a failing node, or finished, has produced exactly the visit's data and error |
| GraphStr2Str.SplitSemanticType | funcs/graph_str2str_func.py:21 | the split fails iff `semantic_type.split("--")` does not give exactly two pieces |
| GraphStr2Str.SplitSemanticTypeJoins | funcs/graph_str2str_func.py:21 | the two parts joined with `--` are the semantic type |
| GraphStr2Str.SplitSemanticTypeOf | funcs/graph_str2str_func.py:21 | a class and a predicate without `-` are split back out of `class--predicate` |
| GraphStr2Str.Rewrite | funcs/graph_str2str_func.py:26-27 | a node raises iff it has no `@type`, or it is of the class and its predicate's value is not in the map; otherwise only the predicate of a matching node changes, to the mapped value |
| GraphStr2Str.GraphStr2StrFunc.constructor | funcs/graph_str2str_func.py:18-22 | stores the nodes, class, predicate and map |
| GraphStr2Str.GraphStr2StrFunc.RewriteNode | funcs/graph_str2str_func.py:26-27 | one node's data becomes its rewrite, or the node raises and keeps its data |
| GraphStr2Str.GraphStr2StrFunc.RewriteAt | funcs/graph_str2str_func.py:25-27 | one iteration extends the rewritten prefix by one node, or raises and changes nothing |
| GraphStr2Str.GraphStr2StrFunc.Exec | funcs/graph_str2str_func.py:24-29 | `exec` leaves the nodes as the visit does and returns `{}` iff no node raises, the first error otherwise |
| GraphStr2Str.NewGraphStr2StrFunc | funcs/graph_str2str_func.py:18-22 | construction fails iff the semantic type does not split into two parts; otherwise class and predicate are the two parts |
| TransUnit.Convert | funcs/trans_unit_func.py:33-44 | a node the filter rejects is unchanged; a converted node keeps its keys, gets the desired unit label and the value parsed, times the factor and printed |
| TransUnit.ConvertErrors | funcs/trans_unit_func.py:35-42 | a kept node raises iff the label is missing, the unit library fails, the value is missing or does not parse; the first two give `KeyError` and the `ValueError` |
| TransUnit.ConvertIdempotent | funcs/trans_unit_func.py:35-44 | converting a converted node again changes nothing, when value and label keys differ, the unit converts to itself by 1 and printed numbers parse back |
| TransUnit.UnitTransFunc.constructor | funcs/trans_unit_func.py:21-29 | stores the nodes and the settings |
| TransUnit.UnitTransFunc.ConvertNode | funcs/trans_unit_func.py:33-44 | one node's data becomes its conversion, or the node raises and keeps its data |
| TransUnit.UnitTransFunc.ConvertAt | funcs/trans_unit_func.py:32-44 | one iteration extends the converted prefix by one node, or raises and changes nothing |
| TransUnit.UnitTransFunc.Exec | funcs/trans_unit_func.py:31-46 | `exec` leaves the nodes as the visit does and returns the same graph iff no node raises, the first error otherwise |
| DcatRead.SelectRepr | funcs/readers/dcat_read_func.py:58-61 | exactly one of `resource_repr` and `dataset_repr` must be present, and the one present is chosen; each failing assertion is distinguished |
| DcatRead.KeptIffOverlaps | funcs/readers/dcat_read_func.py:71-77 | a resource is kept iff its coverage meets the requested interval, each missing bound open; with no bounds all are kept |
| DcatRead.KeptResources | funcs/readers/dcat_read_func.py:70-79 | the kept resources are exactly those the filter does not skip |
| DcatRead.ResourceIdsKept | funcs/readers/dcat_read_func.py:67-79 | the collected ids are exactly the ids of the kept resources |
| DcatRead.ResourceIdsOrder | funcs/readers/dcat_read_func.py:67-79 | with distinct ids the kept ids come in resource order |
| DcatRead.ResourceIdsUrl | funcs/readers/dcat_read_func.py:79 | each kept id maps to the url of the last kept resource with that id |
| DcatRead.ResourceIds | funcs/readers/dcat_read_func.py:67-87 | the `dataset_repr` path succeeds iff there is exactly one resource, which it takes; the `resource_repr` path applies the filter |
| DcatRead.CollectResourceIds | funcs/readers/dcat_read_func.py:67-87 | the loops, run imperatively, compute the specified ids or error |
| DcatRead.PathJoin | funcs/readers/dcat_read_func.py:102 | `os.path.join`: an absolute name is kept, and any other name ends the joined path |
| DcatRead.FetchesOf | funcs/readers/dcat_read_func.py:101-110 | each download fetches one listed resource not in the cache into its path; without the cache every resource is fetched |
| DcatRead.RecordedPaths | funcs/readers/dcat_read_func.py:101-103 | distinct ids are recorded in order, each with its path in the download directory |
| DcatRead.Download | funcs/readers/dcat_read_func.py:98-112 | the loop records every id with its path, runs the specified downloads, and `n_skip + n_download` is the number of resources |
| DcatRead.SlotsAdd | funcs/readers/dcat_read_func.py:152-154 | `add` writes the next free slot from the back |
| DcatRead.SlotsReversed | funcs/readers/dcat_read_func.py:159-160 | with every slot filled, the slots read backwards are the datasets in insertion order |
| DcatRead.ClassesOfPresent | funcs/readers/dcat_read_func.py:159-160 | over filled slots, `iter_classes` yields every dataset's classes in order |
| DcatRead.ShardedBackend.constructor | funcs/readers/dcat_read_func.py:141-145 | `n_chunks` empty slots and `count = 0` |
| DcatRead.ShardedBackend.Add | funcs/readers/dcat_read_func.py:152-154 | with a free slot, writes slot `n_chunks - count - 1`, leaves the others, and counts the dataset |
| DcatRead.ShardedBackend.InjectClassId | funcs/readers/dcat_read_func.py:156-157 | the tag is the number of datasets added so far |
| DcatRead.ShardedBackend.ShardAsWritten | funcs/readers/dcat_read_func.py:162-163 | as written, tag `idx` reads slot `idx`, which holds dataset `n_chunks - 1 - idx`, raises on an empty slot and is out of range past the slots |
| DcatRead.ShardedBackend.Shard | funcs/readers/dcat_read_func.py:162-163 | corrected lookup: tag `idx` finds the `idx`-th dataset added |
| DcatRead.ShardedBackend.Drain | funcs/readers/dcat_read_func.py:179-184 | `drain` yields the slots from the end and leaves the list empty; with every slot filled it yields the datasets in insertion order |
| DcatRead.IterClassesInOrder | funcs/readers/dcat_read_func.py:159-160 | with every slot filled, `iter_classes` walks the datasets in insertion order |
| DcatRead.LoadSharded | funcs/readers/dcat_read_func.py:123-126 | `exec` fills one slot per resource; the i-th dataset is tagged i |
| DcatRead.LookupByTag | funcs/readers/dcat_read_func.py:152-157 | dataset i sits in slot `n - 1 - i`, and slot i holds dataset `n - 1 - i` |
| DcatRead.AsWrittenLookupMisses | funcs/readers/dcat_read_func.py:162-163 | with two datasets, tag 0 reads the second dataset as written and the first one corrected |
| DcatRead.KeyAfter | funcs/readers/dcat_read_func.py:238-242 | a key is fetched iff there is none or the cached one is more than 600 s old; otherwise the cache is unchanged |
| DcatRead.KeyCached | funcs/readers/dcat_read_func.py:238-242 | a fetched key is reused for the next 600 s and replaced after |
| DcatRead.DCatApi.constructor | funcs/readers/dcat_read_func.py:192-194 | stores the url, with no key |
| DcatRead.DCatApi.GetApiKey | funcs/readers/dcat_read_func.py:234-242 | returns the fresh token when a refresh is due and the cached key otherwise, updating the cache |
| DcatRead.ApiSingleton.constructor | funcs/readers/dcat_read_func.py:188 | no instance yet |
| DcatRead.ApiSingleton.GetInstance | funcs/readers/dcat_read_func.py:196-200 | the first call creates the client with its url; later calls return that same client |
| DcatRead.GetInstanceTwice | funcs/readers/dcat_read_func.py:196-200 | two calls give the same client, built with the first url |
| DcatRead.BuildQuery | funcs/readers/dcat_read_func.py:209-218 | the query names the dataset and limit; a filter is added iff a bound is given, with exactly the keys of the given bounds |
| DcatRead.HandleApiResponse | funcs/readers/dcat_read_func.py:252-262 | the body is returned iff it parses and the status is 200; 400, 403 and every other status raise their own error |
| TopoflowClimate.DisjointIffNoCommonPoint | funcs/topoflow/write_topoflow4_climate_func.py:317-318 | two well-formed boxes are disjoint iff no point lies in both |
| TopoflowClimate.DisjointSymmetric | funcs/topoflow/write_topoflow4_climate_func.py:317-318 | disjointness does not depend on the argument order |
| TopoflowClimate.TouchingNotDisjoint | funcs/topoflow/write_topoflow4_climate_func.py:317-318 | boxes sharing a point, even on an edge, are not disjoint |
| TopoflowClimate.SelfNotDisjoint | funcs/topoflow/write_topoflow4_climate_func.py:317-318 | a well-formed box is not disjoint from itself |
| TopoflowClimate.RasterBoundsNorthUp | funcs/topoflow/write_topoflow4_climate_func.py:227-243 | a north-up raster's bounds are well formed, start at the upper-left corner and span the raster's columns and rows |
| TopoflowClimate.SwapAxesKeepsDisjoint | funcs/topoflow/write_topoflow4_climate_func.py:447-455 | exchanging the axes of both boxes keeps disjointness |
| TopoflowClimate.GpmBoundsSwapAxes | funcs/topoflow/write_topoflow4_climate_func.py:447-455 | the rebuilt geotransform, with rows and columns exchanged, covers the original box with its axes exchanged |
| TopoflowClimate.Rot90 | funcs/topoflow/write_topoflow4_climate_func.py:435-437 | `np.rot90`: the cells of the array turned a quarter counter-clockwise, copied into a new array |
| TopoflowClimate.MaskNodata | funcs/topoflow/write_topoflow4_climate_func.py:442 | every cell at or below `nodata` becomes `out_nodata`, the rest stay; afterwards every cell is above `nodata` or `out_nodata` |
| TopoflowClimate.FixGpmRaster | funcs/topoflow/write_topoflow4_climate_func.py:435-455 | the band is rotated and masked, rows and columns exchanged, and the geotransform rebuilt from the bounds |
| TopoflowClimate.Fill | funcs/topoflow/write_topoflow4_climate_func.py:620-621 | a grid of the DEM's shape holding the nodata value everywhere |
| TopoflowClimate.RtsCount | funcs/topoflow/write_topoflow4_climate_func.py:626-628 | one grid is written and counted per file |
| TopoflowClimate.RtsBadCount | funcs/topoflow/write_topoflow4_climate_func.py:579-590 | `bad_count` is the number of files whose bounds miss the DEM box |
| TopoflowClimate.RtsBadFile | funcs/topoflow/write_topoflow4_climate_func.py:590-621 | `BAD_FILE` is set iff some file misses the DEM box; from the first such file on, every grid is nodata, and before it each grid is the resampled one |
| TopoflowClimate.RtsPmax | funcs/topoflow/write_topoflow4_climate_func.py:551-552 | `Pmax` is the largest of -1 and the files' maxima |
| TopoflowClimate.DemBox | funcs/topoflow/write_topoflow4_climate_func.py:300-311 | the DEM bounds give a box iff the list has at least four numbers |
| TopoflowClimate.CreateRts | funcs/topoflow/write_topoflow4_climate_func.py:524-628 | the loop raises `IndexError` iff there is a file and the DEM bounds have fewer than four numbers; otherwise it returns the grids, counts, `Pmax` and RTI name of the specified run |
| TopoflowClimate.RtiNameOf | funcs/topoflow/write_topoflow4_climate_func.py:667 | for a base name without dots, `base.rts` gives `base.rti` |
| TopoflowClimate.GlobSuffixSelects | funcs/topoflow/write_topoflow4_climate_func.py:518-522 | with `NC4` the inputs are the `.nc4` files, without it the `.nc` files, and no file is both |
| TopoflowClimate.ResampleAlgorithmRoundTrip | funcs/topoflow/write_topoflow4_climate_func.py:331-343 | the lookup succeeds exactly on the ten names, and names and algorithms correspond one to one |
| Strings.Strip | funcs/topoflow/write_topoflow4_climate_func.py:35 | `x.strip()` yields the infix left when the whitespace `str.isspace()` accepts, Unicode spaces included, is cut from both ends |
| Strings.StripUnicodeSpace | funcs/topoflow/write_topoflow4_climate_func.py:35 | a no-break space and an ideographic space around a number are stripped, as Python strips them |
| TopoflowClimate.ParseAll | funcs/topoflow/write_topoflow4_climate_func.py:35 | the bounds parse iff every stripped piece parses, and then hold the pieces' numbers in order |
| TopoflowClimate.ParseDemBoundsRoundTrip | funcs/topoflow/write_topoflow4_climate_func.py:35 | numbers written as comma-separated pieces parse back, when no piece holds a comma or surrounding space |

## Left out

- Dynamic adapter loading (`import_module`/`getattr`) is a registry parameter that maps a class name to its declared inputs and outputs. An unknown class gives an error.
- The `PipelineSchema` pre-validation, the Marshmallow machinery and the `print` tracing are not modelled. The digraph field rules are the predicates `ValidNode`, `ValidEdge` and `ValidDigraph`; `ConfigToDigraph.DigraphOfValid` states when the digraph `create_digraph` dumps meets them.
- PipelineGraph.WordChar and PipelineGraph.WiredIff: `\w` is read as ASCII letters, digits and `_`. Both patterns are Python 3 `str` patterns, whose `\w` also matches every Unicode word character. A reference such as `$.café.out` is wiring in the source but a literal in the model, and the names `keys_pattern` accepts are likewise only the ASCII ones. The Unicode character database is not modelled.
- TopoflowClimate.Rot90: `np.rot90` returns a view that shares the array's storage, so the later masking also changes `array`. The model copies the cells instead. Nothing reads `array` after the rotation, so no result differs.
- Config values other than strings and null are one opaque `Other` value. The `isinstance(value, str)` test is kept.
- RoundTrip.RoundTripConfig: the round trip holds only under stated conditions. Every adapter must have a non-empty `inputs` with no null literal. Every declared input must default to null. The config's adapter order comes back as a topological order, not the original order.
- RoundTrip.RoundTripConfig: the order of an adapter's inputs is not stated, and it changes. `create_config` lists the literal inputs first, in the class's declaration order, and then appends the wired inputs in edge order. So `{w: "$.x.o", l: 1}` comes back as `{l: 1, w: "$.x.o"}`. The inputs are compared as maps.
- ConfigToDigraph.CreateDigraph, ConfigToDigraph.DigraphOfOk, ConfigToDigraph.DigraphOfShape, ConfigToDigraph.DigraphOfNodes and the specification function `DigraphOf` they are about: all use the corrected topological loop, which records sinks (see Findings). The loop as written is `TopoSort.TopoOrderAsWritten`, and it behaves differently. An adapter A without edges, declared first, beside a cycle B⇄C, comes out as [A, A, A] with no `ValueError` (`TopoSort.AsWrittenMasksCycle`). When the loop as written succeeds, its node list need not list each adapter once.
- GraphStr2Str.GraphStr2StrFunc.Exec and TransUnit.UnitTransFunc.Exec: both require the graph's nodes to be distinct objects. Aliasing between nodes is not modelled.
- `ujson.loads(str2str)`: the dictionary is given already parsed, as a map.
- The CCUT unit library, `IFunc.filter_func`, `float()` and `str()`: all are parameters of `TransUnit.Settings`. There are no claims about floating-point rounding.
- The `print(node)` calls are not modelled.
- The Data-Catalog HTTP requests, `wget`, environment-variable reads and `mkdir` are not modelled. The clock, file existence, responses and session tokens are parameters.
- D-REPR parsing, the Array/Graph backends and `ShardedBackend.c`/`get_sm` are not modelled. Datasets are opaque values and their classes a function.
- The hard-coded GPM/GLDAS representation overrides and the `isoformat` rendering of times are not modelled. Times are integer seconds.
- `drain` is a generator in the source. The model drains eagerly and returns the yielded sequence.
- DcatRead.ShardedBackend.Add: requires a free slot. Past `n_chunks`, Python's negative index would wrap around and overwrite an earlier slot.
- GDAL, OSR and numpy file I/O are not modelled: opening and warping files, `ReadAsArray`, `tofile`, RTI file generation and the regridding. Each file's bounds, maximum and resampled grid are inputs.
- The float32 casts and NaN are not modelled.
- `read_nc_grid` and the unused `fix_raster_bounds` are not modelled.
- TopoflowClimate.CreateRts and TopoflowClimate.RtsBadFile: the DEM's `ncols`/`nrows` are whole numbers. In the source they are floats. `Topoflow4ClimateWriteFunc.__init__` (lines 38-39), the only caller, stores `float(DEM_ncols)` and `float(DEM_nrows)`. `exec` (line 45) passes them on, and line 620 hands them to `np.zeros` as the shape. NumPy versions that reject float shapes raise `TypeError` there. Through `exec`, the nodata-grid branch that `RtsBadFile` describes would then crash at the first disjoint file, where the model returns a grid of nodata. This was not executed and depends on the NumPy version.
- The DEM `xres`, `yres`, `ncols` and `nrows` strings are not parsed. Only the bounds string is.
- TopoflowClimate.CreateRts: the files are given already sorted. `sorted(glob.glob(...))` is not modelled beyond the suffix choice.
- The example pipeline scripts, the notebook scripts, the web UI store and `funcs/__init__.py` are not modelled.

## Findings

| source | as written | input that shows it | evidently intended | confidence | as-written member | corrected member |
|---|---|---|---|---|---|---|
| webapp/api/config_graph_parser.py:130-138 | a node without outgoing edges hits `continue` before `added_nodes.append`, so it stays ready and is emitted again | two adapters with inputs and no wired edges: the nodes come out as [A, A], and B is lost | every emitted node is recorded, so the output is a topological order listing each node once | not executed | TopoSort.AsWrittenRepeatsSink | TopoSort.TopoOrderCorrect |
| funcs/readers/dcat_read_func.py:162-163 | `get_record_by_id` and `cid` read `datasets[idx]`, but `add` stored the dataset tagged `idx` in slot `n_chunks - 1 - idx` | two resources: a class id tagged 0, which belongs to the first dataset, is looked up in the second one | look up slot `n_chunks - 1 - idx` | not executed | DcatRead.AsWrittenLookupMisses | DcatRead.ShardedBackend.Shard |
