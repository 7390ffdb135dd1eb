/**
 * The flowchart graph of promptperfector/logic/flowchart.py: nodes holding an id, a
 * text and two lists of connected ids, and their JSON form, in which an empty
 * connection list is written as `null` and read back as `[]`.
 *
 * Python is duck-typed, so a node's fields hold whatever JSON value the input had;
 * the parser copies them verbatim (no check that connection ids exist or that a
 * node does not point at itself).
 */
module Flowchart {
  import opened Base
  import opened JsonValue
  import opened Text

  datatype Node = Node(id: Json, text: Json, connectsTo: Json, connectsFrom: Json)

  /** What the source raises: TypeError/AttributeError, or KeyError on a missing key. */
  datatype ParseError = WrongType | MissingKey(key: string)

  /** A connection value as `Node.__init__` leaves it: the empty list, or a truthy value. */
  predicate IsConnections(v: Json) {
    v == Arr([]) || Truthy(v)
  }

  /** What `Node.__init__` guarantees of every node it builds. */
  predicate WellFormed(n: Node) {
    Truthy(n.id) && IsConnections(n.connectsTo) && IsConnections(n.connectsFrom)
  }

  /**
   * `Node(text, node_id, connectsTo, connectsFrom)`: a falsy id is replaced by a fresh
   * UUID, falsy connection values by the empty list; anything else is kept.
   */
  function NewNode(text: Json, nodeId: Json, connectsTo: Json, connectsFrom: Json, freshId: Uuid): (n: Node)
    ensures WellFormed(n)
    ensures n.text == text
    ensures Truthy(nodeId) ==> n.id == nodeId
    ensures !Truthy(nodeId) ==> n.id == Str(freshId)
    ensures Truthy(connectsTo) ==> n.connectsTo == connectsTo
    ensures !Truthy(connectsTo) ==> n.connectsTo == Arr([])
    ensures Truthy(connectsFrom) ==> n.connectsFrom == connectsFrom
    ensures !Truthy(connectsFrom) ==> n.connectsFrom == Arr([])
  {
    UuidShape(freshId);
    Node(Or(nodeId, Str(freshId)), text, Or(connectsTo, Arr([])), Or(connectsFrom, Arr([])))
  }

  /** `Node.to_dict`: an empty connection list is written as `null`. */
  function ToDict(n: Node): (d: Json)
    ensures d.Obj? && d.fields.Keys == {"id", "text", "connectsTo", "connectsFrom"}
    ensures d.fields["id"] == n.id && d.fields["text"] == n.text
    ensures Truthy(n.connectsTo) ==> d.fields["connectsTo"] == n.connectsTo
    ensures !Truthy(n.connectsTo) ==> d.fields["connectsTo"] == Null
    ensures Truthy(n.connectsFrom) ==> d.fields["connectsFrom"] == n.connectsFrom
    ensures !Truthy(n.connectsFrom) ==> d.fields["connectsFrom"] == Null
    ensures WellFormed(n) ==> (d.fields["connectsTo"] == Null <==> n.connectsTo == Arr([]))
    ensures WellFormed(n) ==> (d.fields["connectsFrom"] == Null <==> n.connectsFrom == Arr([]))
  {
    Obj(map[
      "id" := n.id,
      "text" := n.text,
      "connectsTo" := if Truthy(n.connectsTo) then n.connectsTo else Null,
      "connectsFrom" := if Truthy(n.connectsFrom) then n.connectsFrom else Null])
  }

  /**
   * One element of the comprehension in `from_json`: `n['text']` and `n['id']` must
   * exist, a missing or `null` connection list becomes `[]`.
   */
  function ParseNode(v: Json, freshId: Uuid): (r: Result<Node, ParseError>)
    ensures !v.Obj? ==> r == Err(WrongType)
    ensures v.Obj? && "text" !in v.fields ==> r == Err(MissingKey("text"))
    ensures v.Obj? && "text" in v.fields && "id" !in v.fields ==> r == Err(MissingKey("id"))
    ensures v.Obj? && "text" in v.fields && "id" in v.fields ==> r.Ok?
    ensures r.Ok? ==> WellFormed(r.value) && r.value.text == v.fields["text"]
    ensures r.Ok? && Truthy(v.fields["id"]) ==> r.value.id == v.fields["id"]
    ensures r.Ok? && !Truthy(Get(v.fields, "connectsTo", Null)) ==> r.value.connectsTo == Arr([])
    ensures r.Ok? && Truthy(Get(v.fields, "connectsTo", Null)) ==> r.value.connectsTo == v.fields["connectsTo"]
    ensures r.Ok? && !Truthy(Get(v.fields, "connectsFrom", Null)) ==> r.value.connectsFrom == Arr([])
    ensures r.Ok? && Truthy(Get(v.fields, "connectsFrom", Null)) ==> r.value.connectsFrom == v.fields["connectsFrom"]
  {
    if !v.Obj? then Err(WrongType)
    else if "text" !in v.fields then Err(MissingKey("text"))
    else if "id" !in v.fields then Err(MissingKey("id"))
    else
      Ok(NewNode(v.fields["text"], v.fields["id"],
                 Or(Get(v.fields, "connectsTo", Null), Arr([])),
                 Or(Get(v.fields, "connectsFrom", Null), Arr([])),
                 freshId))
  }

  /**
   * The list comprehension of `from_json` over `vs`, left to right: the first element
   * that fails stops it. Element `i` may draw the fresh id `newId(k + i)`.
   */
  function ParseNodes(vs: seq<Json>, newId: nat -> Uuid, k: nat): (r: Result<seq<Node>, ParseError>)
    ensures r.Ok? ==> |r.value| == |vs|
    ensures r.Ok? ==> forall i :: 0 <= i < |vs| ==> ParseNode(vs[i], newId(k + i)) == Ok(r.value[i])
    ensures r.Err? <==> exists i :: 0 <= i < |vs| && ParseNode(vs[i], newId(k + i)).Err?
    decreases |vs|
  {
    if vs == [] then Ok([])
    else
      match ParseNode(vs[0], newId(k))
      case Err(e) => Err(e)
      case Ok(n) =>
        match ParseNodes(vs[1..], newId, k + 1)
        case Err(e) =>
          assert exists i :: 0 <= i < |vs[1..]| && ParseNode(vs[1..][i], newId(k + 1 + i)).Err?;
          var i :| 0 <= i < |vs[1..]| && ParseNode(vs[1..][i], newId(k + 1 + i)).Err?;
          assert ParseNode(vs[i + 1], newId(k + (i + 1))).Err?;
          Err(e)
        case Ok(rest) =>
          assert forall i :: 1 <= i < |vs| ==> ParseNode(vs[i], newId(k + i)) == Ok(rest[i - 1]) by {
            forall i | 1 <= i < |vs| ensures ParseNode(vs[i], newId(k + i)) == Ok(rest[i - 1]) {
              assert vs[1..][i - 1] == vs[i];
              assert k + 1 + (i - 1) == k + i;
            }
          }
          Ok([n] + rest)
  }

  /**
   * `FlowchartModel.from_json` on an already decoded value: an absent `nodes` key gives
   * an empty model; every node is parsed by `ParseNode`.
   */
  function ParseModel(v: Json, newId: nat -> Uuid): (r: Result<seq<Node>, ParseError>)
    ensures !v.Obj? ==> r == Err(WrongType)
    ensures v.Obj? && "nodes" !in v.fields ==> r == Ok([])
    ensures v.Obj? && "nodes" in v.fields && v.fields["nodes"].Arr? ==>
              r == ParseNodes(v.fields["nodes"].items, newId, 0)
    ensures r.Ok? ==> forall i :: 0 <= i < |r.value| ==> WellFormed(r.value[i])
  {
    if !v.Obj? then Err(WrongType)
    else
      match Iterate(Get(v.fields, "nodes", Arr([])))
      case None => Err(WrongType)
      case Some(items) => ParseNodes(items, newId, 0)
  }

  /** The records `to_json` writes, one per node, in list order. */
  function Dicts(nodes: seq<Node>): (ds: seq<Json>)
    ensures |ds| == |nodes|
    ensures forall i :: 0 <= i < |nodes| ==> ds[i] == ToDict(nodes[i])
  {
    seq(|nodes|, i requires 0 <= i < |nodes| => ToDict(nodes[i]))
  }

  /** The `FlowchartModel` object: a list of nodes that `add_node` appends to. */
  class FlowchartModel {
    var nodes: seq<Node>

    ghost predicate Valid()
      reads this
    {
      forall i :: 0 <= i < |nodes| ==> WellFormed(nodes[i])
    }

    /** `FlowchartModel(nodes)`. */
    constructor (nodes: seq<Node>)
      requires forall i :: 0 <= i < |nodes| ==> WellFormed(nodes[i])
      ensures Valid() && this.nodes == nodes
    {
      this.nodes := nodes;
    }

    /** The class method `from_json`: the parsed model, or the error it raises. */
    static method FromJson(v: Json, newId: nat -> Uuid) returns (r: Result<FlowchartModel, ParseError>)
      ensures ParseModel(v, newId).Err? ==> r == Err(ParseModel(v, newId).error)
      ensures ParseModel(v, newId).Ok? ==>
                r.Ok? && fresh(r.value) && r.value.Valid() && r.value.nodes == ParseModel(v, newId).value
    {
      match ParseModel(v, newId)
      case Err(e) =>
        r := Err(e);
      case Ok(ns) =>
        var m := new FlowchartModel(ns);
        r := Ok(m);
    }

    /** `add_node(text)`: appends a node with a fresh id and no connections, and returns it. */
    method AddNode(text: Json, freshId: Uuid) returns (node: Node)
      requires Valid()
      modifies this
      ensures Valid()
      ensures nodes == old(nodes) + [node]
      ensures node.id == Str(freshId) && node.text == text
      ensures node.connectsTo == Arr([]) && node.connectsFrom == Arr([])
    {
      node := NewNode(text, Null, Null, Null, freshId);
      nodes := nodes + [node];
    }

    /** `to_json()`: `{'nodes': [...]}` with one record per node, in list order. */
    function ToJson(): (v: Json)
      reads this
      ensures v.Obj? && v.fields.Keys == {"nodes"}
      ensures v.fields["nodes"] == Arr(Dicts(nodes))
    {
      Obj(map["nodes" := Arr(Dicts(nodes))])
    }
  }

  /** Reading back what `ToDict` wrote gives the node again. */
  lemma ParseNodeOfDict(n: Node, freshId: Uuid)
    requires WellFormed(n)
    ensures ParseNode(ToDict(n), freshId) == Ok(n)
  {
  }

  lemma {:induction false} ParseNodesOfDicts(nodes: seq<Node>, newId: nat -> Uuid, k: nat)
    requires forall i :: 0 <= i < |nodes| ==> WellFormed(nodes[i])
    ensures ParseNodes(Dicts(nodes), newId, k) == Ok(nodes)
    decreases |nodes|
  {
    if nodes != [] {
      ParseNodeOfDict(nodes[0], newId(k));
      assert Dicts(nodes)[1..] == Dicts(nodes[1..]);
      ParseNodesOfDicts(nodes[1..], newId, k + 1);
      assert [nodes[0]] + nodes[1..] == nodes;
    }
  }

  /**
   * Round trip: `from_json(to_json(m))` has the same nodes in the same order, each
   * with the same id, text and connection lists; `null` markers read back as `[]`.
   * No fresh id is drawn, since every node's id is non-empty.
   */
  lemma RoundTrip(m: FlowchartModel, newId: nat -> Uuid)
    requires m.Valid()
    ensures ParseModel(m.ToJson(), newId) == Ok(m.nodes)
  {
    ParseNodesOfDicts(m.nodes, newId, 0);
  }
}
