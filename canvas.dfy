/**
 * `FlowchartCanvas` of promptperfector/ui/flowchart_canvas.py as a class over
 * the state it updates in place: the `nodes` dict (its key order and its
 * contents), the `connectors` list, `_pending_connector` and `_color_idx`.
 * Python object identity (what `is` compares) is a number handed out by
 * `nextObj`; `cleared` marks the objects the last `scene().clear()` deleted.
 */
module Canvas {
  import opened Base
  import opened JsonValue
  import opened Text
  import opened CanvasNode
  import opened CanvasGraph

  /** The four connector buttons of a node. */
  datatype Side = Top | Bottom | Left | Right

  /**
   * `_pending_connector`: the node object and button of the first click, and
   * whether "Delete" has since taken that node out of the scene (a node taken
   * out is not destroyed, so a later `scene().clear()` does not delete it).
   */
  datatype Pending = Pending(obj: nat, id: string, side: Side, removed: bool)

  /** The text of a node made by double-clicking the empty canvas. */
  const NewNodeText: string := "Editable text box"

  /** `f"node_{n}"`. */
  function NodeId(n: nat): (id: string)
    ensures |id| > 5 && id[..5] == "node_" && ParseNat(id[5..]) == n
  {
    ParseNatToString(n);
    assert ("node_" + NatToString(n))[5..] == NatToString(n);
    "node_" + NatToString(n)
  }

  /** Different counts give different ids. */
  lemma NodeIdInjective(m: nat, n: nat)
    requires NodeId(m) == NodeId(n)
    ensures m == n
  {
    assert NodeId(m)[5..] == NodeId(n)[5..];
  }

  /**
   * A dict holding, for each key of a list without repeats, a node carrying that
   * key as its id: its keys are listed in that order, one node per key.
   */
  lemma {:induction false} DictOfKeys(keys: seq<string>, item: NodeItem) returns (nodes: map<string, NodeItem>)
    requires forall i, j :: 0 <= i < j < |keys| ==> keys[i] != keys[j]
    ensures Keyed(keys, nodes) && |nodes| == |keys|
    ensures forall k :: k in nodes ==> nodes[k] == item.(id := k)
  {
    if keys == [] {
      nodes := map[];
    } else {
      var init, k := keys[..|keys| - 1], keys[|keys| - 1];
      var m := DictOfKeys(init, item);
      assert keys == init + [k];
      assert k !in init by {
        forall i | 0 <= i < |init| ensures init[i] != k {
          assert init[i] == keys[i];
        }
      }
      nodes := m[k := item.(id := k)];
      assert |nodes| == |m| + 1;
    }
  }

  /** `name(2)` .. `name(n + 1)`: for an injective naming, a list without repeats. */
  lemma NamesFrom2(n: nat, name: nat -> string) returns (keys: seq<string>)
    requires forall a: nat, b: nat :: name(a) == name(b) ==> a == b
    ensures |keys| == n && forall i :: 0 <= i < n ==> keys[i] == name(i + 2)
    ensures forall i, j :: 0 <= i < j < |keys| ==> keys[i] != keys[j]
    ensures n >= 1 ==> name(n + 1) in keys
  {
    keys := seq(n, i requires 0 <= i => name(i + 2));
    if n >= 1 {
      assert keys[n - 1] == name(n + 1);
    }
  }

  /**
   * The id of a new node is not always fresh. For every size n >= 1 there is a
   * dict of n nodes, keyed `node_2` .. `node_<n + 1>` (as an import or earlier
   * replacements can leave it), that already holds `node_<n + 1>`, the id the next
   * double click computes; assigning the new node under it keeps the key order
   * and the size, so the old node of that id is replaced, not added to.
   */
  lemma NodeIdCollides(n: nat, item: NodeItem)
    returns (order: seq<string>, nodes: map<string, NodeItem>)
    requires n >= 1
    ensures Keyed(order, nodes) && |order| == n && |nodes| == n
    ensures forall k :: k in nodes ==> nodes[k] == item.(id := k)
    ensures NodeId(|nodes| + 1) in nodes
    ensures Assign(order, nodes, NodeId(|nodes| + 1), item).0 == order
    ensures |Assign(order, nodes, NodeId(|nodes| + 1), item).1| == n
  {
    forall a: nat, b: nat | NodeId(a) == NodeId(b) ensures a == b {
      NodeIdInjective(a, b);
    }
    order := NamesFrom2(n, NodeId);
    nodes := DictOfKeys(order, item);
  }

  /** No line item is in the list twice. */
  predicate DistinctLines(cs: seq<Connector>) {
    forall i, j :: 0 <= i < j < |cs| ==> cs[i].line != cs[j].line
  }

  /** Which connectors a deletion removes. */
  datatype Doomed =
    | Touching(id: string)  // node delete: `c[0] == id or c[1] == id`
    | Holding(line: nat)    // connector delete: `c[2] is item`

  predicate Hit(c: Connector, d: Doomed) {
    match d
    case Touching(id) => c.from == id || c.to == id
    case Holding(line) => c.line == line
  }

  /** What the comprehension keeps of one connector. */
  function Kept(c: Connector, d: Doomed): seq<Connector> {
    if Hit(c, d) then [] else [c]
  }

  /** The list comprehension both deletions use: the connectors not hit, in order. */
  function Remove(cs: seq<Connector>, d: Doomed): (r: seq<Connector>)
    ensures |r| <= |cs|
  {
    if cs == [] then [] else Kept(cs[0], d) + Remove(cs[1..], d)
  }

  /** What remains was in the list and is not hit. */
  lemma {:induction false} RemoveMembers(cs: seq<Connector>, d: Doomed)
    ensures forall c :: c in Remove(cs, d) ==> c in cs && !Hit(c, d)
  {
    if cs != [] {
      RemoveMembers(cs[1..], d);
      assert Remove(cs, d) == Kept(cs[0], d) + Remove(cs[1..], d);
    }
  }

  /** Every connector that is not hit stays, as often as it was there. */
  lemma {:induction false} RemoveCounts(cs: seq<Connector>, d: Doomed, c: Connector)
    requires !Hit(c, d)
    ensures multiset(Remove(cs, d))[c] == multiset(cs)[c]
  {
    if cs != [] {
      var head := Kept(cs[0], d);
      RemoveCounts(cs[1..], d, c);
      assert cs == [cs[0]] + cs[1..];
      assert multiset(cs) == multiset([cs[0]]) + multiset(cs[1..]);
      assert Remove(cs, d) == head + Remove(cs[1..], d);
      assert multiset(Remove(cs, d)) == multiset(head) + multiset(Remove(cs[1..], d));
    }
  }

  /** Removing keeps the remaining connectors in their order: it distributes over `+`. */
  lemma {:induction false} RemoveAppend(a: seq<Connector>, b: seq<Connector>, d: Doomed)
    ensures Remove(a + b, d) == Remove(a, d) + Remove(b, d)
  {
    if a == [] {
      assert a + b == b;
    } else {
      var head := Kept(a[0], d);
      assert (a + b)[0] == a[0] && (a + b)[1..] == a[1..] + b;
      assert Remove(a + b, d) == head + Remove(a[1..] + b, d);
      RemoveAppend(a[1..], b, d);
      assert Remove(a, d) == head + Remove(a[1..], d);
    }
  }

  /** A list where nothing is hit is left as it was. */
  lemma {:induction false} RemoveNothing(cs: seq<Connector>, d: Doomed)
    requires forall i :: 0 <= i < |cs| ==> !Hit(cs[i], d)
    ensures Remove(cs, d) == cs
  {
    if cs != [] {
      assert forall i :: 0 <= i < |cs[1..]| ==> cs[1..][i] == cs[i + 1];
      RemoveNothing(cs[1..], d);
    }
  }

  /** Removing never puts a line item in the list twice. */
  lemma {:induction false} RemoveDistinct(cs: seq<Connector>, d: Doomed)
    requires DistinctLines(cs)
    ensures DistinctLines(Remove(cs, d))
  {
    if cs != [] {
      var rest := cs[1..];
      assert DistinctLines(rest) by {
        assert forall i :: 0 <= i < |rest| ==> rest[i] == cs[i + 1];
      }
      RemoveDistinct(rest, d);
      RemoveMembers(rest, d);
      var tail := Remove(rest, d);
      assert forall c :: c in tail ==> c.line != cs[0].line by {
        forall c | c in tail
          ensures c.line != cs[0].line
        {
          var i :| 0 <= i < |rest| && rest[i] == c;
          assert cs[i + 1] == c;
        }
      }
    }
  }

  /**
   * With distinct line items, deleting one removes exactly the entry that holds
   * it and keeps the others in order.
   */
  lemma {:induction false} RemoveHolding(cs: seq<Connector>, i: nat)
    requires DistinctLines(cs)
    requires i < |cs|
    ensures Remove(cs, Holding(cs[i].line)) == cs[..i] + cs[i + 1..]
  {
    var d := Holding(cs[i].line);
    var pre, post := cs[..i], cs[i + 1..];
    assert Remove(pre, d) == pre by {
      forall j | 0 <= j < |pre|
        ensures !Hit(pre[j], d)
      {
        assert pre[j] == cs[j];
      }
      RemoveNothing(pre, d);
    }
    assert Remove(post, d) == post by {
      forall j | 0 <= j < |post|
        ensures !Hit(post[j], d)
      {
        assert post[j] == cs[i + 1 + j];
      }
      RemoveNothing(post, d);
    }
    assert Remove(pre + [cs[i]], d) == pre by {
      assert Remove([cs[i]], d) == Kept(cs[i], d) + Remove([], d) == [];
      RemoveAppend(pre, [cs[i]], d);
      assert pre + [] == pre;
    }
    assert cs == (pre + [cs[i]]) + post;
    RemoveAppend(pre + [cs[i]], post, d);
  }

  /** Every line item was made before `bound`, and no line item is in the list twice. */
  ghost predicate LinesWell(cs: seq<Connector>, bound: nat) {
    (forall c :: c in cs ==> c.line < bound) && DistinctLines(cs)
  }

  /** Both ends of every connector are keys of `nodes`. */
  ghost predicate JoinsKeys(cs: seq<Connector>, nodes: map<string, NodeItem>) {
    forall c :: c in cs ==> c.from in nodes && c.to in nodes
  }

  /** Either deletion keeps the connectors list well formed, and joining keys. */
  lemma RemoveKeepsLines(cs: seq<Connector>, d: Doomed, nodes: map<string, NodeItem>, bound: nat)
    requires LinesWell(cs, bound)
    ensures LinesWell(Remove(cs, d), bound)
    ensures JoinsKeys(cs, nodes) ==> JoinsKeys(Remove(cs, d), nodes)
  {
    RemoveDistinct(cs, d);
    RemoveMembers(cs, d);
  }

  /**
   * With distinct line items, deleting line item `line` removes the one entry
   * holding it, or nothing when no entry does.
   */
  lemma RemoveLine(cs: seq<Connector>, line: nat)
    requires DistinctLines(cs)
    ensures forall i :: 0 <= i < |cs| && cs[i].line == line ==> Remove(cs, Holding(line)) == cs[..i] + cs[i + 1..]
    ensures (forall i :: 0 <= i < |cs| ==> cs[i].line != line) ==> Remove(cs, Holding(line)) == cs
  {
    forall i | 0 <= i < |cs| && cs[i].line == line
      ensures Remove(cs, Holding(line)) == cs[..i] + cs[i + 1..]
    {
      RemoveHolding(cs, i);
    }
    if forall i :: 0 <= i < |cs| ==> cs[i].line != line {
      RemoveNothing(cs, Holding(line));
    }
  }

  /** Every node is stored under its own id and was made before `bound`. */
  ghost predicate NodesMadeBefore(nodes: map<string, NodeItem>, bound: nat) {
    forall k :: k in nodes ==> nodes[k].id == k && nodes[k].obj < bound
  }

  /** Storing a node under its own id keeps the dict well formed. */
  lemma AssignKeepsShape(order: seq<string>, nodes: map<string, NodeItem>, item: NodeItem, bound: nat)
    requires Keyed(order, nodes) && NodesMadeBefore(nodes, bound)
    requires item.obj < bound
    ensures Keyed(Assign(order, nodes, item.id, item).0, Assign(order, nodes, item.id, item).1)
    ensures NodesMadeBefore(Assign(order, nodes, item.id, item).1, bound)
  {
    AssignKeyed(order, nodes, item.id, item);
  }

  /** Line items numbered consecutively from `base`, in list order. */
  ghost predicate NumberedFrom(cs: seq<Connector>, base: nat) {
    forall m :: 0 <= m < |cs| ==> cs[m].line == base + m
  }

  /**
   * After an import whose nodes were objects `base` onwards and whose line items
   * were numbered after them, the canvas is well formed again.
   */
  lemma ImportedWellFormed(recs: seq<Entry>, base: nat, cs: seq<Connector>)
    requires NumberedFrom(cs, base + |recs|)
    ensures Keyed(Place(recs, base).0, Place(recs, base).1)
    ensures NodesMadeBefore(Place(recs, base).1, base + |recs| + |cs|)
    ensures (forall c :: c in cs ==> base + |recs| <= c.line < base + |recs| + |cs|) && DistinctLines(cs)
  {
    PlaceShape(recs, base);
  }

  /** Line items whose edges are an import's edges join keys of its dict. */
  lemma ImportedJoined(model: Json, base: nat, cs: seq<Connector>)
    requires Edges(cs) == ImportModel(model, base).edges
    ensures JoinsKeys(cs, ImportModel(model, base).nodes)
  {
    ImportShape(model, base);
    forall c | c in cs ensures c.from in ImportModel(model, base).nodes && c.to in ImportModel(model, base).nodes {
      var i :| 0 <= i < |cs| && cs[i] == c;
      assert Edges(cs)[i] in Edges(cs);
    }
  }

  class FlowchartCanvas {
    var order: seq<string>
    var nodes: map<string, NodeItem>
    var connectors: seq<Connector>
    var pending: Option<Pending>
    var colorIdx: nat
    var nextObj: nat
    /** Objects numbered below `cleared` were deleted by the last `scene().clear()`. */
    var cleared: nat

    /**
     * Each key is listed once and holds a node with that id; every node and line
     * item was made before `nextObj`; no line item is in the list twice; and the
     * first click, when its node was made after the last clear, is on a node
     * whose id is a key.
     */
    ghost predicate Valid()
      reads this
    {
      Keyed(order, nodes)
      && NodesMadeBefore(nodes, nextObj)
      && LinesWell(connectors, nextObj)
      && cleared <= nextObj
      && (pending.Some? ==> pending.value.obj < nextObj)
      && (pending.Some? && cleared <= pending.value.obj ==> pending.value.id in nodes)
    }

    /**
     * Both ends of every connector are keys of the dict. Every operation but a
     * click keeps this, and an import restores it; a click breaks it only by
     * completing a connector from a node the dict no longer holds.
     */
    ghost predicate Joined()
      reads this
    {
      JoinsKeys(connectors, nodes)
    }

    /** The effective `__init__`: no nodes, no connectors, colour index 0. */
    constructor ()
      ensures Valid() && Joined()
      ensures order == [] && nodes == map[] && connectors == [] && pending == None && colorIdx == 0
    {
      order := [];
      nodes := map[];
      connectors := [];
      pending := None;
      colorIdx := 0;
      nextObj := 0;
      cleared := 0;
    }

    /** `export_to_model` on the current state. */
    function ExportToModel(): (v: Json)
      reads this
      requires Valid()
      ensures v == Export(order, nodes, Edges(connectors))
    {
      Export(order, nodes, Edges(connectors))
    }

    /**
     * What importing this canvas's own export rebuilds when its connectors join
     * keys: the same keys in the same order, the same subjects, read-back texts
     * and positions, and the same connectors, each node's targets in the same
     * order.
     */
    lemma ReimportRebuilds(base: nat)
      requires Valid() && Joined()
      ensures var r := ImportModel(ExportToModel(), base);
        r.failure == None && r.order == order && r.nodes.Keys == nodes.Keys
        && (forall k :: k in nodes ==> r.nodes[k].subject == nodes[k].subject)
        && (forall k :: k in nodes ==> GetText(r.nodes[k]) == GetText(nodes[k]) && r.nodes[k].pos == nodes[k].pos)
        && (forall k :: ConnectsTo(r.edges, k) == ConnectsTo(Edges(connectors), k))
        && multiset(r.edges) == multiset(Edges(connectors))
    {
      var es := Edges(connectors);
      forall e | e in es ensures e.0 in nodes && e.1 in nodes {
        var i :| 0 <= i < |es| && es[i] == e;
        assert connectors[i] in connectors;
      }
      ImportOfExport(order, nodes, es, base);
    }

    /**
     * `handle_connector_button_click(node, btn)` for a node on the scene: the
     * first click remembers the node; the second adds a connector from the
     * remembered node when the node is a different object, and in either case
     * forgets the first click. When the remembered node was destroyed by a
     * clear (it was still in the scene then), reading its position raises:
     * nothing changes and the first click stays. A remembered node that
     * "Delete" had taken out of the scene survives the clear, and the connector
     * is made from its id, which the dict may no longer hold.
     */
    method Click(node: NodeItem, side: Side) returns (raised: bool)
      requires Valid()
      requires node.id in nodes && cleared <= node.obj < nextObj
      modifies this
      ensures Valid()
      ensures order == old(order) && nodes == old(nodes) && colorIdx == old(colorIdx) && cleared == old(cleared)
      ensures raised <==> old(pending).Some? && old(pending).value.obj < cleared && !old(pending).value.removed
      ensures raised ==> pending == old(pending) && connectors == old(connectors) && nextObj == old(nextObj)
      ensures old(pending).None? ==>
        pending == Some(Pending(node.obj, node.id, side, false)) && connectors == old(connectors) && nextObj == old(nextObj)
      ensures old(pending).Some? && !raised ==> pending.None?
      ensures old(pending).Some? && !raised && old(pending).value.obj != node.obj ==>
        connectors == old(connectors) + [Connector(old(pending).value.id, node.id, old(nextObj))]
        && nextObj == old(nextObj) + 1
      ensures old(pending).Some? && old(pending).value.obj == node.obj ==>
        connectors == old(connectors) && nextObj == old(nextObj)
      ensures Joined() <==>
        (old(Joined()) && (old(pending).Some? && !raised && old(pending).value.obj != node.obj ==> old(pending).value.id in nodes))
    {
      if pending.None? {
        pending := Some(Pending(node.obj, node.id, side, false));
        return false;
      }
      var start := pending.value;
      if start.obj < cleared && !start.removed {
        return true;
      }
      if start.obj != node.obj {
        AddConnector(start.id, node.id);
      }
      pending := None;
      raised := false;
    }

    /**
     * Choosing "Delete Connector" on line item `line`: the entry holding it goes,
     * the others stay in order.
     */
    method DeleteConnector(line: nat)
      requires Valid()
      modifies this
      ensures Valid()
      ensures old(Joined()) ==> Joined()
      ensures connectors == Remove(old(connectors), Holding(line))
      ensures forall i :: 0 <= i < |old(connectors)| && old(connectors)[i].line == line ==>
        connectors == old(connectors)[..i] + old(connectors)[i + 1..]
      ensures (forall i :: 0 <= i < |old(connectors)| ==> old(connectors)[i].line != line) ==> connectors == old(connectors)
      ensures order == old(order) && nodes == old(nodes) && pending == old(pending) && cleared == old(cleared)
      ensures colorIdx == old(colorIdx) && nextObj == old(nextObj)
    {
      RemoveLine(connectors, line);
      RemoveKeepsLines(connectors, Holding(line), nodes, nextObj);
      connectors := Remove(connectors, Holding(line));
    }

    /**
     * Choosing "Delete" on a node: a node wired to the canvas drops every
     * connector at either end of its id; the dict is left as it was. The node
     * leaves the scene without being destroyed; when it is the first click's
     * node, the first click stays and records that.
     */
    method DeleteNode(node: NodeItem)
      requires Valid()
      modifies this
      ensures Valid()
      ensures old(Joined()) ==> Joined()
      ensures node.wired ==> connectors == Remove(old(connectors), Touching(node.id))
      ensures !node.wired ==> connectors == old(connectors)
      ensures old(pending).Some? && old(pending).value.obj == node.obj ==>
        pending == Some(old(pending).value.(removed := true))
      ensures !(old(pending).Some? && old(pending).value.obj == node.obj) ==> pending == old(pending)
      ensures order == old(order) && nodes == old(nodes) && cleared == old(cleared)
      ensures colorIdx == old(colorIdx) && nextObj == old(nextObj)
    {
      if node.wired {
        RemoveKeepsLines(connectors, Touching(node.id), nodes, nextObj);
        connectors := Remove(connectors, Touching(node.id));
      }
      if pending.Some? && pending.value.obj == node.obj {
        pending := Some(pending.value.(removed := true));
      }
    }

    /**
     * Double-clicking the empty canvas at `pos`: a wired node with the default
     * text, id `node_<count + 1>` (replacing any node of that id), and the colour
     * at the old colour index.
     */
    method DoubleClickCanvas(pos: Json) returns (id: string)
      requires Valid()
      modifies this
      ensures Valid()
      ensures old(Joined()) ==> Joined()
      ensures id == NodeId(|old(nodes)| + 1)
      ensures nodes == old(nodes)[id := NewItem(old(nextObj), id, "", NewNodeText, pos, Palette[old(colorIdx) % 3], true)]
      ensures id in old(nodes) ==> order == old(order)
      ensures id !in old(nodes) ==> order == old(order) + [id]
      ensures colorIdx == old(colorIdx) + 1 && nextObj == old(nextObj) + 1
      ensures connectors == old(connectors) && pending == old(pending) && cleared == old(cleared)
    {
      id := NodeId(|nodes| + 1);
      var color := Palette[colorIdx % |Palette|];
      colorIdx := colorIdx + 1;
      var item := NewItem(nextObj, id, "", NewNodeText, pos, color, true);
      nextObj := nextObj + 1;
      AssignKeepsShape(order, nodes, item, nextObj);
      var r := Assign(order, nodes, id, item);
      order, nodes := r.0, r.1;
    }

    /**
     * The effective `mouseDoubleClickEventFake(text)`: like a double click, at
     * `[0, 0]` with the given text, but the node is not wired to the canvas.
     */
    method AddTextNode(text: string) returns (id: string)
      requires Valid()
      modifies this
      ensures Valid()
      ensures old(Joined()) ==> Joined()
      ensures id == NodeId(|old(nodes)| + 1)
      ensures nodes == old(nodes)[id := NewItem(old(nextObj), id, "", text, Origin, Palette[old(colorIdx) % 3], false)]
      ensures id in old(nodes) ==> order == old(order)
      ensures id !in old(nodes) ==> order == old(order) + [id]
      ensures colorIdx == old(colorIdx) + 1 && nextObj == old(nextObj) + 1
      ensures connectors == old(connectors) && pending == old(pending) && cleared == old(cleared)
    {
      id := NodeId(|nodes| + 1);
      var color := Palette[colorIdx % |Palette|];
      colorIdx := colorIdx + 1;
      var item := NewItem(nextObj, id, "", text, Origin, color, false);
      nextObj := nextObj + 1;
      AssignKeepsShape(order, nodes, item, nextObj);
      var r := Assign(order, nodes, id, item);
      order, nodes := r.0, r.1;
    }

    /**
     * Accepting the edit dialog of the node stored under `key`: the subject is
     * replaced, the stored text is kept, and the node shows the new subject or
     * its old text.
     */
    method EditNode(key: string, subject: string, text: string)
      requires Valid() && key in nodes
      modifies this
      ensures Valid()
      ensures old(Joined()) ==> Joined()
      ensures nodes == old(nodes)[key := SetText(SetSubject(old(nodes)[key], subject), text)]
      ensures nodes[key].subject == subject && nodes[key].text == old(nodes)[key].text
      ensures GetText(nodes[key]) == PlainText(Display(subject, old(nodes)[key].text))
      ensures order == old(order) && connectors == old(connectors) && pending == old(pending) && cleared == old(cleared)
      ensures colorIdx == old(colorIdx) && nextObj == old(nextObj)
    {
      var n := SetSubject(nodes[key], subject);
      n := SetText(n, text);
      AssignKeepsShape(order, nodes, n, nextObj);
      nodes := nodes[key := n];
    }
    /**
     * One pass of the first loop: a new wired node for entry `x`, stored under
     * its id, extending the dict the entries `recs` before it left.
     */
    method AddImported(x: Entry, ghost recs: seq<Entry>, ghost base: nat)
      requires order == Place(recs, base).0 && nodes == Place(recs, base).1 && nextObj == base + |recs|
      modifies this
      ensures order == Place(recs + [x], base).0 && nodes == Place(recs + [x], base).1
      ensures nextObj == old(nextObj) + 1
      ensures connectors == old(connectors) && pending == old(pending) && colorIdx == old(colorIdx) && cleared == old(cleared)
    {
      PlaceOneMore(recs, x, base);
      var node := ImportedItem(x, nextObj);
      nextObj := nextObj + 1;
      var placed := Assign(order, nodes, x.id, node);
      order, nodes := placed.0, placed.1;
    }

    /**
     * The first loop of `import_from_model` on a cleared dict: each element is
     * read and stored as a new wired node under its id, until one fails to read.
     */
    method PlaceEntries(vs: seq<Json>) returns (recs: seq<Entry>, failure: Option<ImportError>)
      requires order == [] && nodes == map[]
      modifies this
      ensures ReadEntries(vs) == (recs, failure)
      ensures order == Place(recs, old(nextObj)).0 && nodes == Place(recs, old(nextObj)).1
      ensures nextObj == old(nextObj) + |recs|
      ensures connectors == old(connectors) && pending == old(pending) && colorIdx == old(colorIdx) && cleared == old(cleared)
    {
      ghost var base := nextObj;
      recs, failure := [], None;
      while |recs| < |vs| && failure.None?
        invariant |recs| <= |vs| && (failure.None? ==> ReadEntries(vs[..|recs|]) == (recs, None))
        invariant failure.Some? ==> ReadEntries(vs) == (recs, failure)
        invariant order == Place(recs, base).0 && nodes == Place(recs, base).1 && nextObj == base + |recs|
        invariant connectors == old(connectors) && pending == old(pending) && colorIdx == old(colorIdx) && cleared == old(cleared)
        decreases |vs| - |recs|, failure.None?
      {
        var read := TakeEntry(vs, |recs|, recs, base);
        match read
        case Err(e) => failure := Some(e);
        case Ok(x) => recs := recs + [x];
      }
      if failure.None? {
        assert vs[..|recs|] == vs;
      }
    }

    /**
     * One pass of the first loop over element `i` of `vs`: an element that
     * reads stores its node; one that fails leaves the canvas as it was.
     */
    method TakeEntry(vs: seq<Json>, i: nat, ghost recs: seq<Entry>, ghost base: nat) returns (read: Result<Entry, ImportError>)
      requires i < |vs| && ReadEntries(vs[..i]) == (recs, None)
      requires order == Place(recs, base).0 && nodes == Place(recs, base).1 && nextObj == base + |recs|
      modifies this
      ensures read.Err? ==> ReadEntries(vs) == (recs, Some(read.error))
      ensures read.Err? ==> order == old(order) && nodes == old(nodes) && nextObj == old(nextObj)
      ensures read.Ok? ==> ReadEntries(vs[..i + 1]) == (recs + [read.value], None)
      ensures read.Ok? ==> order == Place(recs + [read.value], base).0 && nodes == Place(recs + [read.value], base).1
      ensures read.Ok? ==> nextObj == old(nextObj) + 1
      ensures connectors == old(connectors) && pending == old(pending) && colorIdx == old(colorIdx) && cleared == old(cleared)
    {
      read := ReadEntry(vs[i]);
      if read.Err? {
        ReadFailsAt(vs, i);
      } else {
        ReadOneMore(vs, i);
        AddImported(read.value, recs, base);
      }
    }

    /** A new line item from `from` to `to`, appended to the connectors list. */
    method AddConnector(from: string, to: string)
      modifies this
      ensures connectors == old(connectors) + [Connector(from, to, old(nextObj))] && nextObj == old(nextObj) + 1
      ensures Edges(connectors) == Edges(old(connectors)) + [(from, to)]
      ensures order == old(order) && nodes == old(nodes) && pending == old(pending) && colorIdx == old(colorIdx) && cleared == old(cleared)
    {
      connectors := connectors + [Connector(from, to, nextObj)];
      nextObj := nextObj + 1;
    }

    /** The line items are numbered consecutively from `base`, and `nextObj` follows them. */
    ghost predicate LinesFrom(base: nat)
      reads this
    {
      NumberedFrom(connectors, base) && nextObj == base + |connectors|
    }

    /**
     * The inner loop of the second loop of `import_from_model` over the targets
     * `ts` of node `from`: a new connector to every target naming a stored
     * node, until a target cannot be looked up in the dict.
     */
    method LinkTargets(from: string, ts: seq<Json>, ghost base: nat) returns (failure: Option<ImportError>)
      requires LinesFrom(base)
      modifies this
      ensures LinesFrom(base)
      ensures Edges(connectors) == Edges(old(connectors)) + LinksFrom(from, ts, nodes.Keys).0
      ensures failure == LinksFrom(from, ts, nodes.Keys).1
      ensures order == old(order) && nodes == old(nodes) && pending == old(pending) && colorIdx == old(colorIdx) && cleared == old(cleared)
    {
      var p := 0;
      while p < |ts|
        invariant p <= |ts| && LinesFrom(base)
        invariant LinksFrom(from, ts[..p], nodes.Keys).1 == None
        invariant Edges(connectors) == Edges(old(connectors)) + LinksFrom(from, ts[..p], nodes.Keys).0
        invariant order == old(order) && nodes == old(nodes) && pending == old(pending) && colorIdx == old(colorIdx) && cleared == old(cleared)
      {
        var t := ts[p];
        assert ts[..p + 1][..p] == ts[..p];
        if t.Arr? || t.Obj? {
          LinksFromSticky(from, ts, p + 1, nodes.Keys);
          return Some(WrongType);
        }
        if t.Str? && t.s in nodes {
          AddConnector(from, t.s);
        }
        p := p + 1;
      }
      assert ts[..p] == ts;
      failure := None;
    }

    /**
     * The second loop of `import_from_model`: for each entry in turn, a new
     * connector to every target naming a stored node, until a `connectsTo`
     * value cannot be iterated or a target cannot be looked up.
     */
    method LinkEntries(recs: seq<Entry>) returns (failure: Option<ImportError>)
      requires connectors == []
      modifies this
      ensures AllLinks(recs, nodes.Keys) == (Edges(connectors), failure)
      ensures LinesFrom(old(nextObj))
      ensures order == old(order) && nodes == old(nodes) && pending == old(pending) && colorIdx == old(colorIdx) && cleared == old(cleared)
    {
      ghost var base := nextObj;
      var j := 0;
      while j < |recs|
        invariant j <= |recs| && LinesFrom(base)
        invariant AllLinks(recs[..j], nodes.Keys) == (Edges(connectors), None)
        invariant order == old(order) && nodes == old(nodes) && pending == old(pending) && colorIdx == old(colorIdx) && cleared == old(cleared)
      {
        var x := recs[j];
        assert recs[..j + 1][..j] == recs[..j];
        var targets := Targets(x.connectsTo);
        if targets.Err? {
          AllLinksSticky(recs, j + 1, nodes.Keys);
          return Some(targets.error);
        }
        failure := LinkTargets(x.id, targets.value, base);
        if failure.Some? {
          AllLinksSticky(recs, j + 1, nodes.Keys);
          return;
        }
        j := j + 1;
      }
      assert recs[..j] == recs;
      failure := None;
    }

    /**
     * `import_from_model(model)`: both collections are cleared, then filled as
     * `ImportModel` describes; a failure part way leaves what was built before
     * it, and its connectors join keys. The new nodes and line items are fresh
     * objects; every object made before and still in the scene is destroyed by
     * the clear; the first click and the colour index are untouched.
     */
    method ImportFromModel(model: Json) returns (failure: Option<ImportError>)
      requires Valid()
      modifies this
      ensures Valid() && Joined()
      ensures order == ImportModel(model, old(nextObj)).order && nodes == ImportModel(model, old(nextObj)).nodes
      ensures Edges(connectors) == ImportModel(model, old(nextObj)).edges
      ensures failure == ImportModel(model, old(nextObj)).failure
      ensures forall c :: c in connectors ==> old(nextObj) <= c.line
      ensures cleared == old(nextObj) && old(nextObj) <= nextObj
      ensures pending == old(pending) && colorIdx == old(colorIdx)
    {
      order, nodes, connectors := [], map[], [];
      cleared := nextObj;
      if !model.Obj? {
        return Some(WrongType);
      }
      var items := Iterate(Get(model.fields, "nodes", Arr([])));
      if items.None? {
        return Some(WrongType);
      }
      failure := ImportEntries(model, items.value);
    }

    /**
     * The two loops of `import_from_model` over the elements `vs` of the model's
     * `nodes`, on a canvas just cleared.
     */
    method ImportEntries(model: Json, vs: seq<Json>) returns (failure: Option<ImportError>)
      requires model.Obj? && Iterate(Get(model.fields, "nodes", Arr([]))) == Some(vs)
      requires order == [] && nodes == map[] && connectors == [] && cleared == nextObj
      requires pending.Some? ==> pending.value.obj < nextObj
      modifies this
      ensures Valid() && Joined()
      ensures order == ImportModel(model, old(nextObj)).order && nodes == ImportModel(model, old(nextObj)).nodes
      ensures Edges(connectors) == ImportModel(model, old(nextObj)).edges
      ensures failure == ImportModel(model, old(nextObj)).failure
      ensures forall c :: c in connectors ==> old(nextObj) <= c.line
      ensures old(nextObj) <= nextObj
      ensures pending == old(pending) && colorIdx == old(colorIdx) && cleared == old(cleared)
    {
      ghost var base := nextObj;
      var recs;
      recs, failure := PlaceEntries(vs);
      ImportModelPieces(model, base, vs, recs, failure);
      if failure.None? {
        failure := LinkEntries(recs);
      }
      ImportedWellFormed(recs, base, connectors);
      ImportedJoined(model, base, connectors);
    }
  }

  /** The model `{'nodes': [{'id': 'x'}]}`: one node `x`, no connectors. */
  const OneNodeModel: Json := Obj(map["nodes" := Arr([Obj(map["id" := Str("x")])])])

  /** Importing `OneNodeModel` succeeds with the single key `x` and no connectors. */
  lemma OneNodeImport(base: nat)
    ensures ImportModel(OneNodeModel, base).nodes.Keys == {"x"}
    ensures ImportModel(OneNodeModel, base).edges == []
  {
    var entry := Obj(map["id" := Str("x")]);
    assert Iterate(Get(OneNodeModel.fields, "nodes", Arr([]))) == Some([entry]);
    var x := Entry("x", "", "", Origin, Null);
    assert ReadEntry(entry) == Ok(x);
    ReadSingle(entry);
    var recs := [x];
    assert recs[..|recs| - 1] == [] && recs[|recs| - 1] == x;
    assert Ids(recs) == {"x"};
    assert Place(recs, base).1.Keys == {"x"};
    // the second loop: no earlier entry, and no target for `x`
    assert AllLinks(recs[..|recs| - 1], {"x"}) == ([], None);
    assert Targets(x.connectsTo) == Ok([]);
    assert LinksFrom(x.id, [], {"x"}) == ([], None);
    assert AllLinks(recs, {"x"}).0 == [] + [];
  }

  /**
   * A first click on `node_1`, "Delete" on that node, an import of one node
   * `x`, and a click on `x`: the node taken out of the scene survives the clear,
   * so the second click completes a connector from `node_1`, which the dict no
   * longer holds.
   */
  method FirstClickOnDeletedNode() returns (c: FlowchartCanvas)
    ensures c.Valid() && !c.Joined()
    ensures c.nodes.Keys == {"x"}
    ensures |c.connectors| == 1 && c.connectors[0].from == "node_1" && c.connectors[0].to == "x"
  {
    c := new FlowchartCanvas();
    var id := c.DoubleClickCanvas(Origin);
    assert id == "node_1" by {
      assert NatToString(1) == "1";
    }
    var first := c.nodes[id];
    var raised := c.Click(first, Top);
    c.DeleteNode(first);
    assert c.pending == Some(Pending(first.obj, "node_1", Top, true));
    ghost var base := c.nextObj;
    var failure := c.ImportFromModel(OneNodeModel);
    OneNodeImport(base);
    ImportShape(OneNodeModel, base);
    assert c.connectors == [];
    var x := c.nodes["x"];
    raised := c.Click(x, Top);
  }
}
