/** `unit_trans`: converts the observed value of every node the filter keeps to the
    desired unit, in place, and relabels the node with that unit. The unit library, the
    node filter, and the float parsing and printing are parameters of the model. */
module TransUnit {
  import opened Wrappers
  import opened DataGraph

  /** What the unit library answers for a source and a target unit: the factor to
      multiply by, or the error code it failed with. */
  datatype Conversion = Converted(factor: real) | Failed(code: int)

  datatype UnitError =
    | MissingKey(key: string)                                      // KeyError on node.data
    | ConversionFailed(source: string, target: string, code: int)  // the ValueError raised
    | NotANumber(text: string)                                     // float() rejects the value

  /** The collaborators a `unit_trans` instance is built from. */
  datatype Settings = Settings(
    unitValue: string,
    unitLabel: string,
    unitDesired: string,
    keep: Data -> bool,
    transform: (string, string) -> Conversion,
    parse: string -> Option<real>,
    show: real -> string)

  /** The converted observation: the parsed value times the conversion factor. */
  function Scale(x: real, factor: real): real {
    x * factor
  }

  /** One iteration of the loop in `exec` on a node's data. */
  function Convert(s: Settings, d: Data): (r: Result<Data, UnitError>)
    ensures !s.keep(d) ==> r == Ok(d)
    ensures r.Ok? ==> r.value.Keys == d.Keys
    ensures r.Ok? ==> forall k :: k in d && k != s.unitValue && k != s.unitLabel ==> r.value[k] == d[k]
    ensures r.Ok? && s.keep(d) ==>
      && s.unitLabel in d && s.unitValue in d
      && r.value[s.unitLabel] == s.unitDesired
      && s.transform(d[s.unitLabel], s.unitDesired).Converted?
      && s.parse(d[s.unitValue]).Some?
      && (s.unitValue != s.unitLabel ==> r.value[s.unitValue] == s.show(Scale(s.parse(d[s.unitValue]).value, s.transform(d[s.unitLabel], s.unitDesired).factor)))
  {
    if !s.keep(d) then Ok(d)
    else if s.unitLabel !in d then Err(MissingKey(s.unitLabel))
    else
      var source := d[s.unitLabel];
      var conversion := s.transform(source, s.unitDesired);
      if conversion.Failed? then Err(ConversionFailed(source, s.unitDesired, conversion.code))
      else if s.unitValue !in d then Err(MissingKey(s.unitValue))
      else
        var parsed := s.parse(d[s.unitValue]);
        if parsed.None? then Err(NotANumber(d[s.unitValue]))
        else
          Ok(d[s.unitValue := s.show(Scale(parsed.value, conversion.factor))][s.unitLabel := s.unitDesired])
  }

  /** Which nodes fail, and with which error, in the order the loop checks them. */
  lemma ConvertErrors(s: Settings, d: Data)
    ensures var r := Convert(s, d);
      (r.Err? <==>
        && s.keep(d)
        && (|| s.unitLabel !in d
            || s.transform(d[s.unitLabel], s.unitDesired).Failed?
            || s.unitValue !in d
            || s.parse(d[s.unitValue]).None?))
    ensures s.keep(d) && s.unitLabel !in d ==> Convert(s, d) == Err(MissingKey(s.unitLabel))
    ensures s.keep(d) && s.unitLabel in d && s.transform(d[s.unitLabel], s.unitDesired).Failed? ==>
      Convert(s, d) == Err(ConversionFailed(d[s.unitLabel], s.unitDesired, s.transform(d[s.unitLabel], s.unitDesired).code))
  {
  }

  /** Converting a converted node again changes nothing, provided value and unit are
      stored under different keys, the library converts the desired unit to itself with
      factor 1, and printed floats parse back. */
  lemma {:induction false} ConvertIdempotent(s: Settings, d: Data)
    requires Convert(s, d).Ok? && s.unitValue != s.unitLabel
    requires s.transform(s.unitDesired, s.unitDesired) == Converted(1.0)
    requires forall x :: s.parse(s.show(x)) == Some(x)
    ensures Convert(s, Convert(s, d).value) == Convert(s, d)
  {
    var d' := Convert(s, d).value;
    if s.keep(d) && s.keep(d') {
      var x := Scale(s.parse(d[s.unitValue]).value, s.transform(d[s.unitLabel], s.unitDesired).factor);
      assert d'[s.unitLabel] == s.unitDesired && d'[s.unitValue] == s.show(x);
      assert s.parse(s.show(x)) == Some(x);
      assert Scale(x, 1.0) == x;
      assert d'[s.unitValue := s.show(Scale(x, 1.0))][s.unitLabel := s.unitDesired] == d';
    }
  }

  class UnitTransFunc {
    const nodes: seq<GraphNode>
    const settings: Settings

    constructor (nodes: seq<GraphNode>, settings: Settings)
      ensures this.nodes == nodes && this.settings == settings
    {
      this.nodes := nodes;
      this.settings := settings;
    }

    function Step(): Data -> Result<Data, UnitError> {
      d => Convert(settings, d)
    }

    /** The body of the loop in `exec`, on one node: converts its data, or raises and
        leaves it as it was. */
    method ConvertNode(node: GraphNode) returns (r: Result<(), UnitError>)
      modifies node
      ensures r.Ok? ==> Convert(settings, old(node.data)) == Ok(node.data)
      ensures r.Err? ==> Convert(settings, old(node.data)) == Err(r.error) && node.data == old(node.data)
    {
      var s := settings;
      var d := node.data;
      if s.keep(d) {
        if s.unitLabel !in d {
          return Err(MissingKey(s.unitLabel));
        }
        var source := d[s.unitLabel];
        var conversion := s.transform(source, s.unitDesired);
        if conversion.Failed? {
          return Err(ConversionFailed(source, s.unitDesired, conversion.code));
        }
        if s.unitValue !in d {
          return Err(MissingKey(s.unitValue));
        }
        var x := s.parse(d[s.unitValue]);
        if x.None? {
          return Err(NotANumber(d[s.unitValue]));
        }
        node.data := node.data[s.unitValue := s.show(Scale(x.value, conversion.factor))];
        node.data := node.data[s.unitLabel := s.unitDesired];
      }
      return Ok(());
    }

    /** Iteration `i` of the loop in `exec`: converts node `i`, extending the converted
        prefix by one, or raises and changes nothing. */
    method ConvertAt(i: nat, ghost before: seq<Data>) returns (r: Result<(), UnitError>)
      requires i < |nodes| && DistinctNodes(nodes)
      requires VisitedPrefix(before, Datas(nodes), i, Step())
      modifies nodes[i]
      ensures r.Ok? ==> VisitedPrefix(before, Datas(nodes), i + 1, Step())
      ensures r.Err? ==> Step()(before[i]) == Err(r.error) && Datas(nodes) == old(Datas(nodes))
    {
      ghost var ds := Datas(nodes);
      VisitedAt(before, ds, i, Step());
      r := ConvertNode(nodes[i]);
      if r.Ok? {
        ghost var d := nodes[i].data;
        assert Step()(before[i]) == Ok(d);
        assert Datas(nodes) == ds[i := d];
        VisitedStep(before, ds, i, Step());
      } else {
        assert Step()(before[i]) == Err(r.error);
      }
    }

    /** Converts the nodes in order; a failing node raises, leaving the nodes before it
        converted and the rest as they were. Returns the same graph. */
    method Exec() returns (r: Result<seq<GraphNode>, UnitError>)
      requires DistinctNodes(nodes)
      modifies set n | n in nodes
      ensures Datas(nodes) == Visit(old(Datas(nodes)), Step()).0
      ensures r.Ok? <==> Visit(old(Datas(nodes)), Step()).1.None?
      ensures r.Ok? ==> r.value == nodes
      ensures r.Err? ==> Visit(old(Datas(nodes)), Step()).1 == Some(r.error)
    {
      ghost var before := Datas(nodes);
      var i := 0;
      while i < |nodes|
        invariant 0 <= i <= |nodes|
        invariant VisitedPrefix(before, Datas(nodes), i, Step())
      {
        ghost var ds := Datas(nodes);
        var step := ConvertAt(i, before);
        if step.Err? {
          VisitStops(before, ds, i, Step());
          return Err(step.error);
        }
        i := i + 1;
      }
      VisitStops(before, Datas(nodes), i, Step());
      return Ok(nodes);
    }
  }
}
