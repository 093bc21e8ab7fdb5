/** `graph_str2str_func`: for every node of a given class, replaces the value of one
    attribute by the string a dictionary maps it to, in place. */
module GraphStr2Str {
  import opened Wrappers
  import opened Strings
  import opened DataGraph

  datatype Str2StrError =
    | NotTwoParts(count: nat)  // the semantic type does not split into class and predicate
    | MissingKey(key: string)  // a lookup in a dict raised KeyError

  const TypeKey := "@type"
  const Separator := "--"

  /** `class_name, predicate = semantic_type.split("--")`: exactly two pieces, or the
      unpacking fails. */
  function SplitSemanticType(semanticType: string): (r: Result<(string, string), Str2StrError>)
    ensures r.Err? <==> |Split(semanticType, Separator)| != 2
  {
    var pieces := Split(semanticType, Separator);
    if |pieces| == 2 then Ok((pieces[0], pieces[1])) else Err(NotTwoParts(|pieces|))
  }

  /** The two parts put back together with the separator give the semantic type. */
  lemma SplitSemanticTypeJoins(semanticType: string)
    requires SplitSemanticType(semanticType).Ok?
    ensures var (c, p) := SplitSemanticType(semanticType).value; c + Separator + p == semanticType
  {
    var pieces := Split(semanticType, Separator);
    JoinSplit(semanticType, Separator);
    assert Join(pieces, Separator) == pieces[0] + Separator + pieces[1];
  }

  /** A class and a predicate free of dashes are split back out of `class--predicate`. */
  lemma SplitSemanticTypeOf(c: string, p: string)
    requires forall i :: 0 <= i < |c| ==> c[i] != '-'
    requires forall i :: 0 <= i < |p| ==> p[i] != '-'
    ensures SplitSemanticType(c + Separator + p) == Ok((c, p))
  {
    SplitAfter(c, Separator, p);
    SplitNoSeparator(p, Separator);
  }

  /** One iteration of the loop in `exec` on a node's data. It fails iff the node has no
      type, or it is of the class and its attribute's value is not in the dictionary. A
      node that passes keeps its keys and every value but the attribute's, which changes
      only when the node is of the class, to the value the dictionary maps it to. */
  function Rewrite(className: string, attribute: string, str2str: map<string, string>, d: Data): (r: Result<Data, Str2StrError>)
    ensures r.Err? <==> TypeKey !in d || (d[TypeKey] == className && attribute in d && d[attribute] !in str2str)
    ensures r.Ok? ==> r.value.Keys == d.Keys && forall k :: k in d && k != attribute ==> r.value[k] == d[k]
    ensures r.Ok? && d[TypeKey] != className ==> r.value == d
    ensures r.Ok? && attribute in d && d[TypeKey] == className ==> r.value[attribute] == str2str[d[attribute]]
  {
    if TypeKey !in d then Err(MissingKey(TypeKey))
    else if d[TypeKey] == className && attribute in d then
      if d[attribute] in str2str then Ok(d[attribute := str2str[d[attribute]]])
      else Err(MissingKey(d[attribute]))
    else Ok(d)
  }

  class GraphStr2StrFunc {
    const nodes: seq<GraphNode>
    const className: string
    const attribute: string
    const str2str: map<string, string>

    constructor (nodes: seq<GraphNode>, className: string, attribute: string, str2str: map<string, string>)
      ensures this.nodes == nodes && this.className == className
      ensures this.attribute == attribute && this.str2str == str2str
    {
      this.nodes := nodes;
      this.className := className;
      this.attribute := attribute;
      this.str2str := str2str;
    }

    function Step(): Data -> Result<Data, Str2StrError> {
      d => Rewrite(className, attribute, str2str, d)
    }

    /** The body of the loop in `exec`, on one node: rewrites its data, or raises and
        leaves it as it was. */
    method RewriteNode(node: GraphNode) returns (r: Result<(), Str2StrError>)
      modifies node
      ensures r.Ok? ==> Rewrite(className, attribute, str2str, old(node.data)) == Ok(node.data)
      ensures r.Err? ==> Rewrite(className, attribute, str2str, old(node.data)) == Err(r.error) && node.data == old(node.data)
    {
      var d := node.data;
      if TypeKey !in d {
        return Err(MissingKey(TypeKey));
      }
      if d[TypeKey] == className && attribute in d {
        var value := d[attribute];
        if value !in str2str {
          return Err(MissingKey(value));
        }
        node.data := d[attribute := str2str[value]];
      }
      return Ok(());
    }

    /** Iteration `i` of the loop in `exec`: rewrites node `i`, extending the rewritten
        prefix by one, or raises and changes nothing. */
    method RewriteAt(i: nat, ghost before: seq<Data>) returns (r: Result<(), Str2StrError>)
      requires i < |nodes| && DistinctNodes(nodes)
      requires VisitedPrefix(before, Datas(nodes), i, Step())
      modifies nodes[i]
      ensures r.Ok? ==> VisitedPrefix(before, Datas(nodes), i + 1, Step())
      ensures r.Err? ==> Step()(before[i]) == Err(r.error) && Datas(nodes) == old(Datas(nodes))
    {
      ghost var ds := Datas(nodes);
      VisitedAt(before, ds, i, Step());
      r := RewriteNode(nodes[i]);
      if r.Ok? {
        ghost var d := nodes[i].data;
        assert Step()(before[i]) == Ok(d);
        assert Datas(nodes) == ds[i := d];
        VisitedStep(before, ds, i, Step());
      } else {
        assert Step()(before[i]) == Err(r.error);
      }
    }

    /** Rewrites the nodes in order; a failing node raises, leaving the nodes before it
        rewritten and the rest as they were. Returns no outputs. */
    method Exec() returns (r: Result<map<string, string>, Str2StrError>)
      requires DistinctNodes(nodes)
      modifies set n | n in nodes
      ensures Datas(nodes) == Visit(old(Datas(nodes)), Step()).0
      ensures r.Ok? <==> Visit(old(Datas(nodes)), Step()).1.None?
      ensures r.Ok? ==> r.value == map[]
      ensures r.Err? ==> Visit(old(Datas(nodes)), Step()).1 == Some(r.error)
    {
      ghost var before := Datas(nodes);
      var i := 0;
      while i < |nodes|
        invariant 0 <= i <= |nodes|
        invariant VisitedPrefix(before, Datas(nodes), i, Step())
      {
        ghost var ds := Datas(nodes);
        var step := RewriteAt(i, before);
        if step.Err? {
          VisitStops(before, ds, i, Step());
          return Err(step.error);
        }
        i := i + 1;
      }
      VisitStops(before, Datas(nodes), i, Step());
      return Ok(map[]);
    }
  }

  /** `__init__`: the semantic type must split into class and predicate. */
  method NewGraphStr2StrFunc(nodes: seq<GraphNode>, semanticType: string, str2str: map<string, string>)
    returns (r: Result<GraphStr2StrFunc, Str2StrError>)
    ensures r.Err? <==> SplitSemanticType(semanticType).Err?
    ensures r.Ok? ==> && fresh(r.value) && r.value.nodes == nodes && r.value.str2str == str2str
                      && (r.value.className, r.value.attribute) == SplitSemanticType(semanticType).value
  {
    var parts := SplitSemanticType(semanticType);
    if parts.Err? {
      return Err(parts.error);
    }
    var f := new GraphStr2StrFunc(nodes, parts.value.0, parts.value.1, str2str);
    return Ok(f);
  }
}
