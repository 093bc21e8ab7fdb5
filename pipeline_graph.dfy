/** The two textual forms of a pipeline handled by `webapp/api/config_graph_parser.py`,
    the two regular expressions it matches against, and the field rules its digraph schema
    enforces. */
module PipelineGraph {
  import opened Wrappers
  import opened Strings
  import opened OrderedMaps

  /** A literal input value of a YAML/JSON pipeline file. `Null` is `None`; `Other` stands
      for any value that is neither a string nor null (numbers, booleans, lists, maps). */
  datatype Value = Null | Str(s: string) | Other(code: int)

  /** The `{id, optional, val}` triple declared for each input and output of an adapter. */
  datatype IOField = IOField(id: string, optional: bool, val: Value)

  /** What the adapter class declares: its `inputs` and `outputs`, in declaration order. */
  datatype AdapterSchema = AdapterSchema(inputs: OMap<string, IOField>, outputs: OMap<string, IOField>)

  /** Config form: one adapter entry, with optional `comment` and optional `inputs` keys. */
  datatype AdapterConfig = AdapterConfig(adapter: string, comment: Option<string>, inputs: Option<OMap<string, Value>>)

  datatype PipelineConfig = PipelineConfig(version: string, description: Option<string>, adapters: OMap<string, AdapterConfig>)

  /** Digraph form. */
  datatype Node = Node(id: string, adapter: string, comment: Option<string>,
                       inputs: OMap<string, IOField>, outputs: OMap<string, IOField>)

  datatype Edge = Edge(source: string, output: string, target: string, input: string)

  datatype Digraph = Digraph(version: string, description: Option<string>, nodes: seq<Node>, edges: seq<Edge>)

  /** The node ids of a node list, in order. */
  function Ids(nodes: seq<Node>): (ids: seq<string>)
    ensures |ids| == |nodes| && forall i :: 0 <= i < |nodes| ==> ids[i] == nodes[i].id
  {
    seq(|nodes|, i requires 0 <= i < |nodes| => nodes[i].id)
  }

  /** The exceptions the two converters raise. */
  datatype GraphError =
    | UnknownAdapter(path: string)                    // import_module / getattr fails
    | UndeclaredInput(adapter: string, input: string) // KeyError on node['inputs'][input]
    | NoStartNode                                     // ValueError("Something is wrong")
    | CountUnderflow                                  // ValueError("Something is WRONG")
    | InvalidEdgeSource(source: string)               // ValidationError
    | InvalidEdgeTarget(target: string)               // ValidationError

  // ---------------------------------------------------------------------------
  // The two regular expressions
  // ---------------------------------------------------------------------------

  /** `\w` on ASCII text. */
  predicate WordChar(c: char) {
    ('a' <= c <= 'z') || ('A' <= c <= 'Z') || ('0' <= c <= '9') || c == '_'
  }

  /** `\w+` matches all of `s`. */
  predicate IsWord(s: string) {
    |s| > 0 && forall i :: 0 <= i < |s| ==> WordChar(s[i])
  }

  /** `keys_pattern.match(s)` for `^\w+$`: Python's `$` also matches just before a final
      newline, so one trailing "\n" is accepted. */
  predicate MatchesKey(s: string) {
    IsWord(s) || (|s| >= 2 && s[|s| - 1] == '\n' && IsWord(s[..|s| - 1]))
  }

  /** `wired_pattern.match(s)` for `^\$\.\w+\.\w+$`. */
  predicate IsWiredRef(s: string) {
    && |s| >= 2 && s[0] == '$' && s[1] == '.'
    && var p := Split(s[2..], ".");
       |p| == 2 && IsWord(p[0]) && MatchesKey(p[1])
  }

  /** The reference string `f"$.{source}.{output}"` written by `create_config`. */
  function RefString(source: string, output: string): string {
    "$." + source + "." + output
  }

  /** `adapter_name, output = value.split('.')[1:]` on a wired reference. */
  function RefParts(s: string): (r: (string, string))
    requires IsWiredRef(s)
    ensures |Split(s, ".")| == 3 && r == (Split(s, ".")[1], Split(s, ".")[2])
    ensures IsWord(r.0) && MatchesKey(r.1)
    ensures RefString(r.0, r.1) == s
  {
    var p := Split(s[2..], ".");
    assert Split(s, ".") == ["$"] + p by {
      assert s[1..][1..] == s[2..];
      assert s[1..][..1] == ".";
      assert Split(s[1..], ".") == [""] + p;
      assert !StartsWith(s, ".") by { assert s[..1][0] == '$'; }
      assert Split(s, ".") == [[s[0]] + ""] + p;
      assert [s[0]] + "" == "$";
    }
    JoinSplit(s[2..], ".");
    assert s == s[..2] + s[2..];
    (p[0], p[1])
  }

  lemma NoDotInKey(s: string)
    requires MatchesKey(s)
    ensures forall i :: 0 <= i < |s| ==> s[i] != '.'
  {
    if !IsWord(s) {
      forall i | 0 <= i < |s| ensures s[i] != '.' {
        if i < |s| - 1 { assert s[..|s| - 1][i] == s[i]; }
      }
    }
  }

  /** The reference built for an edge is recognised as wired and parses back to the same
      source and output. */
  lemma RefRoundTrip(source: string, output: string)
    requires IsWord(source) && MatchesKey(output)
    ensures IsWiredRef(RefString(source, output))
    ensures RefParts(RefString(source, output)) == (source, output)
  {
    var s := RefString(source, output);
    assert s[2..] == source + "." + output;
    NoDotInKey(source);
    NoDotInKey(output);
    SplitAfter(source, ".", output);
    SplitNoSeparator(output, ".");
    assert Split(s[2..], ".") == [source, output];
  }

  /** A string is wired iff it is the reference string of some valid source/output pair. */
  lemma WiredIff(s: string)
    ensures IsWiredRef(s) <==> exists a, b :: IsWord(a) && MatchesKey(b) && s == RefString(a, b)
  {
    if IsWiredRef(s) {
      var r := RefParts(s);
      assert IsWord(r.0) && MatchesKey(r.1) && s == RefString(r.0, r.1);
    }
    if exists a, b :: IsWord(a) && MatchesKey(b) && s == RefString(a, b) {
      var a, b :| IsWord(a) && MatchesKey(b) && s == RefString(a, b);
      RefRoundTrip(a, b);
    }
  }

  // ---------------------------------------------------------------------------
  // Field rules of IOFieldSchema, NodeSchema, EdgeSchema and DiGraphSchema
  // ---------------------------------------------------------------------------

  /** An IO field as read from a file, before validation: `None` marks a missing key,
      `Some(Null)` a key present with value null. */
  datatype RawIOField = RawIOField(id: Option<string>, optional: Option<bool>, val: Option<Value>)

  /** IOFieldSchema: `id`, `optional` and `val` are all required; `val` may be null. */
  function LoadIOField(raw: RawIOField): (r: Result<IOField, string>)
    ensures r.Ok? <==> raw.id.Some? && raw.optional.Some? && raw.val.Some?
    ensures r.Ok? ==> r.value.id == raw.id.value && r.value.optional == raw.optional.value
                      && r.value.val == raw.val.value
  {
    if raw.id.None? then Err("id: Missing data for required field.")
    else if raw.optional.None? then Err("optional: Missing data for required field.")
    else if raw.val.None? then Err("val: Missing data for required field.")
    else Ok(IOField(raw.id.value, raw.optional.value, raw.val.value))
  }

  /** The form in which a field is written out. */
  function DumpIOField(f: IOField): RawIOField {
    RawIOField(Some(f.id), Some(f.optional), Some(f.val))
  }

  /** Every dumped field loads back to itself, a null `val` included. */
  lemma LoadDumpIOField(f: IOField)
    ensures LoadIOField(DumpIOField(f)) == Ok(f)
  {
  }

  /** NodeSchema: the id and every input and output name match `^\w+$`. */
  ghost predicate ValidNode(n: Node) {
    && MatchesKey(n.id)
    && (forall k :: k in n.inputs.keys ==> MatchesKey(k))
    && (forall k :: k in n.outputs.keys ==> MatchesKey(k))
  }

  /** EdgeSchema: all four fields match `^\w+$`. */
  predicate ValidEdge(e: Edge) {
    MatchesKey(e.source) && MatchesKey(e.output) && MatchesKey(e.target) && MatchesKey(e.input)
  }

  /** DiGraphSchema: at least one node; every node and edge valid. */
  ghost predicate ValidDigraph(g: Digraph) {
    && |g.nodes| >= 1
    && (forall i :: 0 <= i < |g.nodes| ==> ValidNode(g.nodes[i]))
    && (forall i :: 0 <= i < |g.edges| ==> ValidEdge(g.edges[i]))
  }
}
