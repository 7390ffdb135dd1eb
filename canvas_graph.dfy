/**
 * The data behind `FlowchartCanvas` in promptperfector/ui/flowchart_canvas.py:
 * an insertion-ordered dict `nodes` from id to node, and the list `connectors`
 * of `(from_id, to_id, line)` triples. This module holds what is computed from
 * that data without changing it: `export_to_model`, and the outcome
 * `import_from_model` is specified to reach.
 */
module CanvasGraph {
  import opened Base
  import opened JsonValue
  import opened CanvasNode

  /** A connector: the ids it joins and its line item's identity. */
  datatype Connector = Connector(from: string, to: string, line: nat)

  /** A connector as the model text sees it: `(from_id, to_id)`. */
  type Edge = (string, string)

  function Edges(cs: seq<Connector>): (es: seq<Edge>)
    ensures |es| == |cs|
    ensures forall i :: 0 <= i < |cs| ==> es[i] == (cs[i].from, cs[i].to)
  {
    seq(|cs|, i requires 0 <= i < |cs| => (cs[i].from, cs[i].to))
  }

  /**
   * The keys of a Python dict in insertion order: `order` lists each key of
   * `nodes` exactly once.
   */
  ghost predicate Keyed(order: seq<string>, nodes: map<string, NodeItem>) {
    (forall i, j :: 0 <= i < j < |order| ==> order[i] != order[j])
    && (forall k :: k in nodes <==> k in order)
  }

  /**
   * `nodes[k] = v`: a new key goes to the end, an existing key keeps its place
   * and its value is replaced.
   */
  function Assign(order: seq<string>, nodes: map<string, NodeItem>, k: string, v: NodeItem)
    : (r: (seq<string>, map<string, NodeItem>))
    ensures r.1 == nodes[k := v]
    ensures |order| <= |r.0| <= |order| + 1 && r.0[..|order|] == order
    ensures k in nodes ==> r.0 == order
    ensures k !in nodes ==> r.0 == order + [k]
  {
    if k in nodes then (order, nodes[k := v]) else (order + [k], nodes[k := v])
  }

  /** Assigning keeps every key listed exactly once. */
  lemma AssignKeyed(order: seq<string>, nodes: map<string, NodeItem>, k: string, v: NodeItem)
    requires Keyed(order, nodes)
    ensures Keyed(Assign(order, nodes, k, v).0, Assign(order, nodes, k, v).1)
  {
  }

  // ---------------------------------------------------------------------------
  // Export
  // ---------------------------------------------------------------------------

  /** `[to_id for from_id, to_id, _ in connectors if from_id == k]` */
  function ConnectsTo(es: seq<Edge>, k: string): (r: seq<string>)
    ensures |r| <= |es|
  {
    if es == [] then [] else (if es[0].0 == k then [es[0].1] else []) + ConnectsTo(es[1..], k)
  }

  /** `[from_id for from_id, to_id, _ in connectors if to_id == k]` */
  function ConnectsFrom(es: seq<Edge>, k: string): (r: seq<string>)
    ensures |r| <= |es|
  {
    if es == [] then [] else (if es[0].1 == k then [es[0].0] else []) + ConnectsFrom(es[1..], k)
  }

  /** `t` is in `k`'s `connectsTo` exactly when some connector goes from `k` to `t`; likewise for `connectsFrom`. */
  lemma {:induction false} ConnectsMembers(es: seq<Edge>, k: string)
    ensures forall t :: t in ConnectsTo(es, k) <==> (k, t) in es
    ensures forall f :: f in ConnectsFrom(es, k) <==> (f, k) in es
  {
    if es != [] {
      ConnectsMembers(es[1..], k);
      assert es == [es[0]] + es[1..];
    }
  }

  /**
   * Both lists are read off the same connector list, so `b` is in `a`'s
   * `connectsTo` exactly as often as there are connectors from `a` to `b`, and
   * exactly as often as `a` is in `b`'s `connectsFrom`.
   */
  lemma ConnectsSymmetric(es: seq<Edge>, a: string, b: string)
    ensures multiset(ConnectsTo(es, a))[b] == multiset(es)[(a, b)]
    ensures multiset(ConnectsFrom(es, b))[a] == multiset(es)[(a, b)]
  {
    ConnectsToCount(es, a, b);
    ConnectsFromCount(es, a, b);
  }

  lemma {:induction false} ConnectsToCount(es: seq<Edge>, a: string, b: string)
    ensures multiset(ConnectsTo(es, a))[b] == multiset(es)[(a, b)]
  {
    if es != [] {
      var head := if es[0].0 == a then [es[0].1] else [];
      ConnectsToCount(es[1..], a, b);
      assert es == [es[0]] + es[1..];
      assert multiset(es) == multiset([es[0]]) + multiset(es[1..]);
      assert ConnectsTo(es, a) == head + ConnectsTo(es[1..], a);
      assert multiset(ConnectsTo(es, a)) == multiset(head) + multiset(ConnectsTo(es[1..], a));
    }
  }

  lemma {:induction false} ConnectsFromCount(es: seq<Edge>, a: string, b: string)
    ensures multiset(ConnectsFrom(es, b))[a] == multiset(es)[(a, b)]
  {
    if es != [] {
      var head := if es[0].1 == b then [es[0].0] else [];
      ConnectsFromCount(es[1..], a, b);
      assert es == [es[0]] + es[1..];
      assert multiset(es) == multiset([es[0]]) + multiset(es[1..]);
      assert ConnectsFrom(es, b) == head + ConnectsFrom(es[1..], b);
      assert multiset(ConnectsFrom(es, b)) == multiset(head) + multiset(ConnectsFrom(es[1..], b));
    }
  }

  /** `xs if xs else None` for a list of ids. */
  function ListOrNull(xs: seq<string>): (v: Json)
    ensures xs == [] <==> v == Null
    ensures StrList(v) == xs
    ensures Truthy(v) <==> xs != []
  {
    if xs == [] then Null else StrArray(xs)
  }

  /** The six-field dict of one exported node, from its field values. */
  function RecordFields(id: Json, subject: Json, text: Json, to: Json, from: Json, pos: Json): (v: Json)
    ensures v.Obj? && v.fields.Keys == {"id", "subject", "text", "connectsTo", "connectsFrom", "pos"}
    ensures v.fields["id"] == id && v.fields["subject"] == subject && v.fields["text"] == text
    ensures v.fields["connectsTo"] == to && v.fields["connectsFrom"] == from && v.fields["pos"] == pos
  {
    Obj(map["id" := id, "subject" := subject, "text" := text, "connectsTo" := to, "connectsFrom" := from, "pos" := pos])
  }

  /** The dict `export_to_model` writes for the node stored under `k`. */
  function Record(k: string, n: NodeItem, es: seq<Edge>): (v: Json)
    ensures v.Obj? && v.fields.Keys == {"id", "subject", "text", "connectsTo", "connectsFrom", "pos"}
    ensures v.fields["id"] == Str(k) && v.fields["subject"] == Str(n.subject)
    ensures v.fields["text"] == Str(GetText(n)) && v.fields["pos"] == n.pos
    ensures StrList(v.fields["connectsTo"]) == ConnectsTo(es, k)
    ensures StrList(v.fields["connectsFrom"]) == ConnectsFrom(es, k)
    ensures v.fields["connectsTo"] == Null <==> ConnectsTo(es, k) == []
    ensures v.fields["connectsFrom"] == Null <==> ConnectsFrom(es, k) == []
  {
    RecordFields(Str(k), Str(n.subject), Str(GetText(n)),
      ListOrNull(ConnectsTo(es, k)), ListOrNull(ConnectsFrom(es, k)), n.pos)
  }

  /** `export_to_model`: `{'nodes': [...]}` with one record per key, in dict order. */
  function Export(order: seq<string>, nodes: map<string, NodeItem>, es: seq<Edge>): (v: Json)
    requires forall k :: k in order ==> k in nodes
    ensures v.Obj? && v.fields.Keys == {"nodes"} && v.fields["nodes"].Arr?
    ensures |v.fields["nodes"].items| == |order|
    ensures forall i :: 0 <= i < |order| ==>
      v.fields["nodes"].items[i] == Record(order[i], nodes[order[i]], es)
  {
    Obj(map["nodes" := Arr(seq(|order|, i requires 0 <= i < |order| => Record(order[i], nodes[order[i]], es)))])
  }

  /**
   * Export symmetry: in the exported records of any two nodes A and B, B occurs in
   * A's `connectsTo` as often as A occurs in B's `connectsFrom`.
   */
  lemma ExportSymmetric(order: seq<string>, nodes: map<string, NodeItem>, es: seq<Edge>, i: nat, j: nat)
    requires forall k :: k in order ==> k in nodes
    requires i < |order| && j < |order|
    ensures
      var recs := Export(order, nodes, es).fields["nodes"].items;
      multiset(StrList(recs[i].fields["connectsTo"]))[order[j]]
        == multiset(StrList(recs[j].fields["connectsFrom"]))[order[i]]
  {
    ConnectsSymmetric(es, order[i], order[j]);
  }

  // ---------------------------------------------------------------------------
  // Import
  // ---------------------------------------------------------------------------

  /**
   * Why `import_from_model` stops: a value of the wrong type (a `.get` on a
   * non-dict, iterating a number, hashing a list) or a missing key (`n['id']`).
   */
  datatype ImportError = WrongType | MissingKey(key: string)

  /** What the first loop reads from one element of `nodes`. */
  datatype Entry = Entry(id: string, subject: string, text: string, pos: Json, connectsTo: Json)

  /** The default position `[0, 0]`. */
  const Origin: Json := Arr([Num(0), Num(0)])

  /**
   * One element of `nodes` as the first loop reads it: `pos`, `subject` and
   * `text` default to `[0, 0]`, `''` and `''`; a `None` subject becomes `''`;
   * `n['id']` must be present.
   */
  function ReadEntry(v: Json): (r: Result<Entry, ImportError>)
  {
    if !v.Obj? then Err(WrongType)
    else
      var f := v.fields;
      var subject := Get(f, "subject", Str(""));
      var text := Get(f, "text", Str(""));
      if "id" !in f then Err(MissingKey("id"))
      else if !f["id"].Str? || !(subject.Null? || subject.Str?) || !text.Str? then Err(WrongType)
      else Ok(Entry(f["id"].s, if subject.Null? then "" else subject.s, text.s, Get(f, "pos", Origin), Get(f, "connectsTo", Null)))
  }

  /**
   * What one element yields: a non-dict and a dict without `id` fail as `n.get`
   * and `n['id']` do; an entry read carries the element's id, position (default
   * `[0, 0]`), `connectsTo`, text (default `''`) and subject (`''` when missing
   * or `None`); every dict with a string id and string-or-missing text and
   * subject is read.
   */
  lemma ReadEntryCases(v: Json)
    ensures !v.Obj? ==> ReadEntry(v) == Err(WrongType)
    ensures v.Obj? && "id" !in v.fields ==> ReadEntry(v) == Err(MissingKey("id"))
    ensures ReadEntry(v).Ok? ==> v.Obj? && "id" in v.fields && v.fields["id"] == Str(ReadEntry(v).value.id)
    ensures ReadEntry(v).Ok? ==> ReadEntry(v).value.pos == Get(v.fields, "pos", Origin)
    ensures ReadEntry(v).Ok? ==> ReadEntry(v).value.connectsTo == Get(v.fields, "connectsTo", Null)
    ensures ReadEntry(v).Ok? ==> Get(v.fields, "text", Str("")) == Str(ReadEntry(v).value.text)
    ensures ReadEntry(v).Ok? ==> "subject" !in v.fields ==> ReadEntry(v).value.subject == ""
    ensures ReadEntry(v).Ok? ==> "subject" in v.fields ==> v.fields["subject"] in {Null, Str(ReadEntry(v).value.subject)}
    ensures (v.Obj? && "id" in v.fields && v.fields["id"].Str? && Get(v.fields, "text", Str("")).Str?
      && (Get(v.fields, "subject", Null).Null? || Get(v.fields, "subject", Null).Str?)) ==> ReadEntry(v).Ok?
  {
  }

  /**
   * The first loop over `nodes` reads elements until one fails: the entries read,
   * and the failure that stopped it if any.
   */
  function ReadEntries(vs: seq<Json>): (r: (seq<Entry>, Option<ImportError>))
    ensures |r.0| <= |vs|
    ensures r.1.None? ==> |r.0| == |vs|
    ensures r.1.Some? ==> |r.0| < |vs|
  {
    if vs == [] then ([], None)
    else match ReadEntry(vs[0])
      case Err(e) => ([], Some(e))
      case Ok(x) =>
        var rest := ReadEntries(vs[1..]);
        ([x] + rest.0, rest.1)
  }

  /** The node the first loop builds from an entry: colour `#ffc0cb`, wired to the canvas. */
  function ImportedItem(x: Entry, obj: nat): (n: NodeItem)
    ensures n.wired && n.color == Palette[0]
    ensures n.id == x.id && n.subject == x.subject && n.text == x.text && n.pos == x.pos && n.obj == obj
  {
    NewItem(obj, x.id, x.subject, x.text, x.pos, Palette[0], true)
  }

  function Ids(recs: seq<Entry>): set<string> {
    if recs == [] then {} else Ids(recs[..|recs| - 1]) + {recs[|recs| - 1].id}
  }

  /** A node the first loop built under key `k`, as object `lo` to `hi - 1`. */
  predicate Imported(n: NodeItem, k: string, lo: nat, hi: nat) {
    n.id == k && n.wired && n.color == Palette[0] && lo <= n.obj < hi
  }

  /**
   * The dict the first loop leaves after storing `recs` in turn, the i-th node
   * being object `base + i`.
   */
  function Place(recs: seq<Entry>, base: nat): (r: (seq<string>, map<string, NodeItem>))
    ensures r.1.Keys == Ids(recs)
  {
    if recs == [] then ([], map[])
    else
      var prev := Place(recs[..|recs| - 1], base);
      var x := recs[|recs| - 1];
      Assign(prev.0, prev.1, x.id, ImportedItem(x, base + |recs| - 1))
  }

  /**
   * The first loop leaves a dict whose order lists each key once, every node
   * stored under its own id, wired, coloured
   * `#ffc0cb`, and one of the objects it made.
   */
  lemma {:induction false} PlaceShape(recs: seq<Entry>, base: nat)
    ensures Keyed(Place(recs, base).0, Place(recs, base).1)
    ensures forall k :: k in Place(recs, base).1 ==> Imported(Place(recs, base).1[k], k, base, base + |recs|)
  {
    if recs != [] {
      var init := recs[..|recs| - 1];
      PlaceShape(init, base);
      var prev := Place(init, base);
      var x := recs[|recs| - 1];
      var item := ImportedItem(x, base + |recs| - 1);
      AssignKeyed(prev.0, prev.1, x.id, item);
      var r := Assign(prev.0, prev.1, x.id, item);
      assert Place(recs, base) == r;
      forall k | k in r.1
        ensures Imported(r.1[k], k, base, base + |recs|)
      {
        if k != x.id {
          assert r.1[k] == prev.1[k];
        }
      }
    }
  }

  /** `n.get('connectsTo') or []` as the second loop iterates it. */
  function Targets(v: Json): (r: Result<seq<Json>, ImportError>)
    ensures !Truthy(v) ==> r == Ok([])
    ensures v.Arr? ==> r == Ok(v.items)
    ensures (v.Num? || v.Bool?) && Truthy(v) ==> r == Err(WrongType)
  {
    if !Truthy(v) then Ok([])
    else match Iterate(v)
      case None => Err(WrongType)
      case Some(ts) => Ok(ts)
  }

  /**
   * One target `to_id` of node `from`: a connector when it names an imported
   * node; nothing for any other string, number, boolean or `None`; a list or
   * dict cannot be looked up in a dict.
   */
  function Link(from: string, t: Json, keys: set<string>): (r: Result<seq<Edge>, ImportError>)
    ensures (t.Arr? || t.Obj?) <==> r.Err?
    ensures r.Ok? ==> (r.value == [] <==> !(t.Str? && t.s in keys))
    ensures r.Ok? && r.value != [] ==> r.value == [(from, t.s)]
  {
    match t
    case Str(s) => Ok(if s in keys then [(from, s)] else [])
    case Arr(_) => Err(WrongType)
    case Obj(_) => Err(WrongType)
    case _ => Ok([])
  }

  /** The inner loop over the targets of node `from`, stopping at the first failure. */
  function LinksFrom(from: string, ts: seq<Json>, keys: set<string>): (r: (seq<Edge>, Option<ImportError>))
    ensures forall e :: e in r.0 ==> e.0 == from && e.1 in keys
  {
    if ts == [] then ([], None)
    else
      var prev := LinksFrom(from, ts[..|ts| - 1], keys);
      if prev.1.Some? then prev
      else match Link(from, ts[|ts| - 1], keys)
        case Err(e) => (prev.0, Some(e))
        case Ok(more) => (prev.0 + more, None)
  }

  /**
   * Without failure there is one connector per target naming an imported node,
   * and none to anything else.
   */
  lemma {:induction false} LinksFromCounts(from: string, ts: seq<Json>, keys: set<string>, s: string)
    requires LinksFrom(from, ts, keys).1.None?
    ensures multiset(LinksFrom(from, ts, keys).0)[(from, s)] == if s in keys then multiset(ts)[Str(s)] else 0
  {
    if ts != [] {
      var init := ts[..|ts| - 1];
      LinksFromCounts(from, init, keys, s);
      assert ts == init + [ts[|ts| - 1]];
    }
  }

  /** The second loop, over every entry in turn, stopping at the first failure. */
  function AllLinks(recs: seq<Entry>, keys: set<string>): (r: (seq<Edge>, Option<ImportError>))
    ensures forall e :: e in r.0 ==> e.0 in Ids(recs) && e.1 in keys
  {
    if recs == [] then ([], None)
    else
      var prev := AllLinks(recs[..|recs| - 1], keys);
      var x := recs[|recs| - 1];
      assert recs == recs[..|recs| - 1] + [x];
      if prev.1.Some? then prev
      else match Targets(x.connectsTo)
        case Err(e) => (prev.0, Some(e))
        case Ok(ts) =>
          var more := LinksFrom(x.id, ts, keys);
          (prev.0 + more.0, more.1)
  }

  /**
   * Reading stops exactly where an element first fails: elements read into
   * `recs`, followed by the end of the list or an element that does not read.
   */
  lemma {:induction false} ReadEntriesStops(vs: seq<Json>, recs: seq<Entry>)
    requires |recs| <= |vs|
    requires forall j :: 0 <= j < |recs| ==> ReadEntry(vs[j]) == Ok(recs[j])
    requires |recs| < |vs| ==> ReadEntry(vs[|recs|]).Err?
    ensures |recs| == |vs| ==> ReadEntries(vs) == (recs, None)
    ensures |recs| < |vs| ==> ReadEntries(vs) == (recs, Some(ReadEntry(vs[|recs|]).error))
  {
    if recs != [] {
      assert forall j :: 0 <= j < |recs| - 1 ==> vs[1..][j] == vs[j + 1];
      ReadEntriesStops(vs[1..], recs[1..]);
      assert recs == [recs[0]] + recs[1..];
    }
  }

  /** Reading `a + b` reads `a`, then, unless `a` failed, carries on into `b`. */
  lemma {:induction false} ReadEntriesAppend(a: seq<Json>, b: seq<Json>)
    ensures ReadEntries(a + b)
      == if ReadEntries(a).1.Some? then ReadEntries(a) else (ReadEntries(a).0 + ReadEntries(b).0, ReadEntries(b).1)
  {
    if a == [] {
      assert a + b == b;
      assert ReadEntries(a) == ([], None);
      assert [] + ReadEntries(b).0 == ReadEntries(b).0;
    } else {
      assert (a + b)[0] == a[0] && (a + b)[1..] == a[1..] + b;
      ReadEntriesAppend(a[1..], b);
      match ReadEntry(a[0])
      case Err(e) =>
        assert ReadEntries(a + b) == ([], Some(e)) == ReadEntries(a);
      case Ok(x) =>
        assert ReadEntries(a) == ([x] + ReadEntries(a[1..]).0, ReadEntries(a[1..]).1);
        assert ReadEntries(a + b) == ([x] + ReadEntries(a[1..] + b).0, ReadEntries(a[1..] + b).1);
        if ReadEntries(a[1..]).1.None? {
          assert [x] + (ReadEntries(a[1..]).0 + ReadEntries(b).0) == ([x] + ReadEntries(a[1..]).0) + ReadEntries(b).0;
        }
    }
  }

  /** Reading a single element yields its entry, or its error. */
  lemma ReadSingle(v: Json)
    ensures ReadEntries([v]) == match ReadEntry(v) case Ok(x) => ([x], None) case Err(e) => ([], Some(e))
  {
    assert [v][0] == v && [v][1..] == [];
    if ReadEntry(v).Ok? {
      assert [ReadEntry(v).value] + [] == [ReadEntry(v).value];
    }
  }

  /** Reading one more element of `vs` after its first `i` were read without failure. */
  lemma ReadOneMore(vs: seq<Json>, i: nat)
    requires i < |vs| && ReadEntries(vs[..i]).1.None?
    requires ReadEntry(vs[i]).Ok?
    ensures ReadEntries(vs[..i + 1]) == (ReadEntries(vs[..i]).0 + [ReadEntry(vs[i]).value], None)
  {
    assert vs[..i + 1] == vs[..i] + [vs[i]];
    ReadEntriesAppend(vs[..i], [vs[i]]);
    ReadSingle(vs[i]);
  }

  /** An element of `vs` that fails to read, after its first `i` were read, ends the reading of `vs`. */
  lemma ReadFailsAt(vs: seq<Json>, i: nat)
    requires i < |vs| && ReadEntries(vs[..i]).1.None?
    requires ReadEntry(vs[i]).Err?
    ensures ReadEntries(vs) == (ReadEntries(vs[..i]).0, Some(ReadEntry(vs[i]).error))
  {
    assert vs == vs[..i] + vs[i..];
    ReadEntriesAppend(vs[..i], vs[i..]);
    var rest := vs[i..];
    assert rest[0] == vs[i];
    assert ReadEntries(rest) == ([], Some(ReadEntry(vs[i]).error));
    assert ReadEntries(vs[..i]).0 + [] == ReadEntries(vs[..i]).0;
  }

  /** Storing one more entry: the dict as `Assign` leaves it. */
  lemma PlaceOneMore(recs: seq<Entry>, x: Entry, base: nat)
    ensures Place(recs + [x], base)
      == Assign(Place(recs, base).0, Place(recs, base).1, x.id, ImportedItem(x, base + |recs|))
  {
    assert (recs + [x])[..|recs|] == recs;
  }

  /** Once the inner loop has failed, later targets change nothing. */
  lemma {:induction false} LinksFromSticky(from: string, ts: seq<Json>, p: nat, keys: set<string>)
    requires p <= |ts| && LinksFrom(from, ts[..p], keys).1.Some?
    ensures LinksFrom(from, ts, keys) == LinksFrom(from, ts[..p], keys)
  {
    if p < |ts| {
      var init := ts[..|ts| - 1];
      assert init[..p] == ts[..p];
      LinksFromSticky(from, init, p, keys);
    } else {
      assert ts[..p] == ts;
    }
  }

  /** Once the outer loop has failed, later entries change nothing. */
  lemma {:induction false} AllLinksSticky(recs: seq<Entry>, m: nat, keys: set<string>)
    requires m <= |recs| && AllLinks(recs[..m], keys).1.Some?
    ensures AllLinks(recs, keys) == AllLinks(recs[..m], keys)
  {
    if m < |recs| {
      var init := recs[..|recs| - 1];
      assert init[..m] == recs[..m];
      AllLinksSticky(init, m, keys);
    } else {
      assert recs[..m] == recs;
    }
  }

  /** What `import_from_model` leaves behind, and the failure that stopped it. */
  datatype Outcome = Outcome(order: seq<string>, nodes: map<string, NodeItem>, edges: seq<Edge>, failure: Option<ImportError>)

  /**
   * `import_from_model(model)`, starting to number new objects at `base`: both
   * collections are cleared first, so a failure leaves what was built before it.
   */
  function ImportModel(model: Json, base: nat): (r: Outcome)
    ensures !model.Obj? ==> r == Outcome([], map[], [], Some(WrongType))
    ensures model.Obj? && Iterate(Get(model.fields, "nodes", Arr([]))).None? ==> r == Outcome([], map[], [], Some(WrongType))
    ensures model.Obj? && "nodes" !in model.fields ==> r == Outcome([], map[], [], None)
  {
    if !model.Obj? then Outcome([], map[], [], Some(WrongType))
    else match Iterate(Get(model.fields, "nodes", Arr([])))
      case None => Outcome([], map[], [], Some(WrongType))
      case Some(vs) =>
        var read := ReadEntries(vs);
        var placed := Place(read.0, base);
        if read.1.Some? then Outcome(placed.0, placed.1, [], read.1)
        else
          var links := AllLinks(read.0, placed.1.Keys);
          Outcome(placed.0, placed.1, links.0, links.1)
  }

  /** The outcome of an import whose `nodes` value iterates as `vs`, piece by piece. */
  lemma ImportModelPieces(model: Json, base: nat, vs: seq<Json>, recs: seq<Entry>, failure: Option<ImportError>)
    requires model.Obj? && Iterate(Get(model.fields, "nodes", Arr([]))) == Some(vs)
    requires ReadEntries(vs) == (recs, failure)
    ensures ImportModel(model, base).order == Place(recs, base).0
    ensures ImportModel(model, base).nodes == Place(recs, base).1
    ensures failure.Some? ==> ImportModel(model, base).edges == [] && ImportModel(model, base).failure == failure
    ensures failure.None? ==>
      ImportModel(model, base).edges == AllLinks(recs, Place(recs, base).1.Keys).0
      && ImportModel(model, base).failure == AllLinks(recs, Place(recs, base).1.Keys).1
  {
  }

  /**
   * Whatever the input, and whether or not the import fails part way, the dict
   * lists each key once and holds freshly made, wired nodes under their own ids,
   * and every connector joins two of them: a target that was not imported is
   * dropped.
   */
  lemma ImportShape(model: Json, base: nat)
    ensures var r := ImportModel(model, base);
      Keyed(r.order, r.nodes)
      && (forall k :: k in r.nodes ==> r.nodes[k].id == k && r.nodes[k].wired)
      && (forall k :: k in r.nodes ==> r.nodes[k].color == Palette[0] && base <= r.nodes[k].obj)
      && (forall e :: e in r.edges ==> e.0 in r.nodes && e.1 in r.nodes)
  {
    if model.Obj? && Iterate(Get(model.fields, "nodes", Arr([]))).Some? {
      var vs := Iterate(Get(model.fields, "nodes", Arr([]))).value;
      PlaceShape(ReadEntries(vs).0, base);
    }
  }

  /** Node ids occurring in `recs`. */
  lemma {:induction false} IdsMembers(recs: seq<Entry>, k: string)
    ensures k in Ids(recs) <==> exists i :: 0 <= i < |recs| && recs[i].id == k
  {
    if recs != [] {
      var init := recs[..|recs| - 1];
      IdsMembers(init, k);
      if exists i :: 0 <= i < |recs| && recs[i].id == k {
        var i :| 0 <= i < |recs| && recs[i].id == k;
        if i < |init| {
          assert init[i].id == k;
        }
      }
    }
  }

  /** With distinct ids, position `i` of the dict's order and the node under its id come from entry `i`. */
  lemma {:induction false} PlaceDistinctAt(recs: seq<Entry>, base: nat, i: nat)
    requires forall i, j :: 0 <= i < j < |recs| ==> recs[i].id != recs[j].id
    requires i < |recs|
    ensures |Place(recs, base).0| == |recs| && Place(recs, base).0[i] == recs[i].id
    ensures recs[i].id in Place(recs, base).1 && Place(recs, base).1[recs[i].id] == ImportedItem(recs[i], base + i)
  {
    var init := recs[..|recs| - 1];
    var x := recs[|recs| - 1];
    var prev := Place(init, base);
    assert forall i, j :: 0 <= i < j < |init| ==> init[i].id != init[j].id;
    IdsMembers(init, x.id);
    assert x.id !in prev.1;
    var item := ImportedItem(x, base + |recs| - 1);
    var r := Place(recs, base);
    assert r == (prev.0 + [x.id], prev.1[x.id := item]);
    if init != [] {
      PlaceDistinctAt(init, base, 0);
    }
    assert |prev.0| == |init|;
    if i < |init| {
      PlaceDistinctAt(init, base, i);
      assert init[i] == recs[i];
      assert r.0[i] == prev.0[i];
      assert r.1[recs[i].id] == prev.1[init[i].id];
    } else {
      assert r.0[i] == x.id;
    }
  }

  /** With distinct ids, the dict keeps the entries' order and each id's own node. */
  lemma PlaceDistinct(recs: seq<Entry>, base: nat)
    requires forall i, j :: 0 <= i < j < |recs| ==> recs[i].id != recs[j].id
    ensures |Place(recs, base).0| == |recs|
    ensures forall i :: 0 <= i < |recs| ==> Place(recs, base).0[i] == recs[i].id
    ensures forall i :: 0 <= i < |recs| ==>
      recs[i].id in Place(recs, base).1 && Place(recs, base).1[recs[i].id] == ImportedItem(recs[i], base + i)
  {
    if recs != [] {
      PlaceDistinctAt(recs, base, 0);
    }
    forall i | 0 <= i < |recs|
      ensures Place(recs, base).0[i] == recs[i].id
      ensures recs[i].id in Place(recs, base).1 && Place(recs, base).1[recs[i].id] == ImportedItem(recs[i], base + i)
    {
      PlaceDistinctAt(recs, base, i);
    }
  }

  /** Two lists whose elements read the same are read the same. */
  lemma {:induction false} ReadEntriesDetermined(vs: seq<Json>, ws: seq<Json>)
    requires |vs| == |ws|
    requires forall i :: 0 <= i < |vs| ==> ReadEntry(vs[i]) == ReadEntry(ws[i])
    ensures ReadEntries(vs) == ReadEntries(ws)
  {
    if vs != [] {
      ReadEntriesDetermined(vs[1..], ws[1..]);
    }
  }

  /** An element of `nodes` with its `connectsFrom` key removed. */
  function WithoutConnectsFrom(v: Json): (w: Json)
    ensures w.Obj? ==> "connectsFrom" !in w.fields
  {
    if v.Obj? then Obj(v.fields - {"connectsFrom"}) else v
  }

  /**
   * Import never reads `connectsFrom`: removing it from every element of
   * `nodes` leaves the outcome as it was.
   */
  lemma ImportIgnoresConnectsFrom(f: map<string, Json>, vs: seq<Json>, base: nat)
    ensures
      var ws := seq(|vs|, i requires 0 <= i < |vs| => WithoutConnectsFrom(vs[i]));
      ImportModel(Obj(f["nodes" := Arr(ws)]), base) == ImportModel(Obj(f["nodes" := Arr(vs)]), base)
  {
    var ws := seq(|vs|, i requires 0 <= i < |vs| => WithoutConnectsFrom(vs[i]));
    ReadEntriesDetermined(vs, ws);
  }

  // ---------------------------------------------------------------------------
  // Export followed by import
  // ---------------------------------------------------------------------------

  /** The entry the first loop reads from the record exported for `k`. */
  function ExportedEntry(k: string, n: NodeItem, es: seq<Edge>): Entry {
    Entry(k, n.subject, GetText(n), n.pos, ListOrNull(ConnectsTo(es, k)))
  }

  function ExportedEntries(os: seq<string>, nodes: map<string, NodeItem>, es: seq<Edge>): (r: seq<Entry>)
    requires forall k :: k in os ==> k in nodes
    ensures |r| == |os|
    ensures forall i :: 0 <= i < |os| ==> r[i] == ExportedEntry(os[i], nodes[os[i]], es)
  {
    seq(|os|, i requires 0 <= i < |os| => ExportedEntry(os[i], nodes[os[i]], es))
  }

  /** Connectors from `from` to each id of `xs`, in order. */
  function Fan(from: string, xs: seq<string>): (r: seq<Edge>)
    ensures |r| == |xs|
    ensures forall i :: 0 <= i < |xs| ==> r[i] == (from, xs[i])
  {
    seq(|xs|, i requires 0 <= i < |xs| => (from, xs[i]))
  }

  /** Targets that all name imported nodes give one connector each, in order. */
  lemma {:induction false} LinksFromKnown(from: string, xs: seq<string>, keys: set<string>)
    requires forall t :: t in xs ==> t in keys
    ensures LinksFrom(from, StrArray(xs).items, keys) == (Fan(from, xs), None)
  {
    if xs != [] {
      var init := xs[..|xs| - 1];
      var ts := StrArray(xs).items;
      LinksFromKnown(from, init, keys);
      assert ts[..|ts| - 1] == StrArray(init).items;
      assert Link(from, ts[|ts| - 1], keys) == Ok([(from, xs[|xs| - 1])]);
      assert Fan(from, xs) == Fan(from, init) + [(from, xs[|xs| - 1])];
    }
  }

  /** The connectors rebuilt from the records exported for `os`: each node's `connectsTo` in turn. */
  function Regroup(os: seq<string>, es: seq<Edge>): seq<Edge> {
    if os == [] then [] else Regroup(os[..|os| - 1], es) + Fan(os[|os| - 1], ConnectsTo(es, os[|os| - 1]))
  }

  /** An exported record reads back as the entry it was made from. */
  lemma ReadRecord(k: string, n: NodeItem, es: seq<Edge>)
    ensures ReadEntry(Record(k, n, es)) == Ok(ExportedEntry(k, n, es))
  {
    var v := Record(k, n, es);
    assert Get(v.fields, "subject", Str("")) == Str(n.subject);
    assert Get(v.fields, "text", Str("")) == Str(GetText(n));
  }

  /** The first loop reads every exported record back, without failure. */
  lemma ReadExport(order: seq<string>, nodes: map<string, NodeItem>, es: seq<Edge>)
    requires forall k :: k in order ==> k in nodes
    ensures ReadEntries(Export(order, nodes, es).fields["nodes"].items) == (ExportedEntries(order, nodes, es), None)
  {
    var vs := Export(order, nodes, es).fields["nodes"].items;
    var recs := ExportedEntries(order, nodes, es);
    forall i | 0 <= i < |vs|
      ensures ReadEntry(vs[i]) == Ok(recs[i])
    {
      ReadRecord(order[i], nodes[order[i]], es);
    }
    ReadEntriesStops(vs, recs);
  }

  lemma {:induction false} AllLinksOfExport(os: seq<string>, nodes: map<string, NodeItem>, es: seq<Edge>, keys: set<string>)
    requires forall k :: k in os ==> k in nodes
    requires forall e :: e in es ==> e.1 in keys
    ensures AllLinks(ExportedEntries(os, nodes, es), keys) == (Regroup(os, es), None)
  {
    if os != [] {
      var init := os[..|os| - 1];
      var k := os[|os| - 1];
      AllLinksOfExport(init, nodes, es, keys);
      var recs := ExportedEntries(os, nodes, es);
      assert recs[..|recs| - 1] == ExportedEntries(init, nodes, es);
      var xs := ConnectsTo(es, k);
      ConnectsMembers(es, k);
      if xs == [] {
        assert Targets(ListOrNull(xs)) == Ok([]);
        assert Fan(k, xs) == [];
      } else {
        assert Targets(ListOrNull(xs)) == Ok(StrArray(xs).items);
        LinksFromKnown(k, xs, keys);
      }
    }
  }

  lemma {:induction false} ConnectsToAppend(a: seq<Edge>, b: seq<Edge>, k: string)
    ensures ConnectsTo(a + b, k) == ConnectsTo(a, k) + ConnectsTo(b, k)
  {
    if a == [] {
      assert a + b == b;
    } else {
      var head := if a[0].0 == k then [a[0].1] else [];
      assert (a + b)[0] == a[0] && (a + b)[1..] == a[1..] + b;
      assert ConnectsTo(a + b, k) == head + ConnectsTo(a[1..] + b, k);
      ConnectsToAppend(a[1..], b, k);
      assert ConnectsTo(a, k) == head + ConnectsTo(a[1..], k);
    }
  }

  lemma {:induction false} ConnectsToFan(from: string, xs: seq<string>, k: string)
    ensures ConnectsTo(Fan(from, xs), k) == if from == k then xs else []
  {
    if xs != [] {
      ConnectsToFan(from, xs[1..], k);
      assert Fan(from, xs)[1..] == Fan(from, xs[1..]);
    }
  }

  /** The records of `os` regrouped: those of all but the last, then the last one's fan. */
  lemma RegroupLast(os: seq<string>, es: seq<Edge>, k: string)
    requires os != []
    ensures ConnectsTo(Regroup(os, es), k)
      == ConnectsTo(Regroup(os[..|os| - 1], es), k) + (if os[|os| - 1] == k then ConnectsTo(es, k) else [])
  {
    var last := os[|os| - 1];
    var fan := Fan(last, ConnectsTo(es, last));
    ConnectsToAppend(Regroup(os[..|os| - 1], es), fan, k);
    ConnectsToFan(last, ConnectsTo(es, last), k);
  }

  lemma {:induction false} ConnectsToRegroup(os: seq<string>, es: seq<Edge>, k: string)
    requires forall i, j :: 0 <= i < j < |os| ==> os[i] != os[j]
    ensures ConnectsTo(Regroup(os, es), k) == if k in os then ConnectsTo(es, k) else []
  {
    if os != [] {
      var init := os[..|os| - 1];
      var last := os[|os| - 1];
      assert forall i, j :: 0 <= i < j < |init| ==> init[i] != init[j];
      ConnectsToRegroup(init, es, k);
      RegroupLast(os, es, k);
      assert k in os <==> k in init || k == last by {
        assert os == init + [last];
      }
      if k == last {
        assert k !in init;
      }
    }
  }

  /** A node that no connector leaves has an empty `connectsTo` list. */
  lemma {:induction false} ConnectsToAbsent(es: seq<Edge>, k: string)
    requires forall e :: e in es ==> e.0 != k
    ensures ConnectsTo(es, k) == []
  {
    if es != [] {
      ConnectsToAbsent(es[1..], k);
    }
  }

  /**
   * Regrouping the connectors by source node, with every source listed once in
   * `os`, keeps every node's `connectsTo` list and the connectors up to order.
   */
  lemma RegroupSameConnectors(os: seq<string>, es: seq<Edge>)
    requires forall i, j :: 0 <= i < j < |os| ==> os[i] != os[j]
    requires forall e :: e in es ==> e.0 in os
    ensures forall k :: ConnectsTo(Regroup(os, es), k) == ConnectsTo(es, k)
    ensures multiset(Regroup(os, es)) == multiset(es)
  {
    var rs := Regroup(os, es);
    forall k
      ensures ConnectsTo(rs, k) == ConnectsTo(es, k)
    {
      ConnectsToRegroup(os, es, k);
      if k !in os {
        ConnectsToAbsent(es, k);
      }
    }
    forall e
      ensures multiset(rs)[e] == multiset(es)[e]
    {
      ConnectsSymmetric(rs, e.0, e.1);
      ConnectsSymmetric(es, e.0, e.1);
    }
    assert multiset(rs) == multiset(es);
  }

  /** Entries whose ids are the keys of a dict, in order, rebuild those keys in that order. */
  lemma PlaceKeys(recs: seq<Entry>, base: nat, order: seq<string>, nodes: map<string, NodeItem>)
    requires Keyed(order, nodes)
    requires |recs| == |order| && forall i :: 0 <= i < |recs| ==> recs[i].id == order[i]
    ensures Place(recs, base).0 == order && Place(recs, base).1.Keys == nodes.Keys
  {
    PlaceDistinct(recs, base);
    PlaceShape(recs, base);
    assert Place(recs, base).0 == order;
    assert forall k :: k in Place(recs, base).1 <==> k in nodes;
  }

  /** The first loop over exported records rebuilds the dict's keys, in order. */
  lemma PlaceExportKeys(order: seq<string>, nodes: map<string, NodeItem>, es: seq<Edge>, base: nat)
    requires Keyed(order, nodes)
    ensures Place(ExportedEntries(order, nodes, es), base).0 == order
    ensures Place(ExportedEntries(order, nodes, es), base).1.Keys == nodes.Keys
  {
    PlaceKeys(ExportedEntries(order, nodes, es), base, order, nodes);
  }

  /** ... and each node's subject, display string and position. */
  lemma PlaceExportNodes(order: seq<string>, nodes: map<string, NodeItem>, es: seq<Edge>, base: nat)
    requires Keyed(order, nodes)
    ensures
      var placed := Place(ExportedEntries(order, nodes, es), base);
      forall k :: k in nodes ==>
        k in placed.1 && placed.1[k].subject == nodes[k].subject
        && GetText(placed.1[k]) == GetText(nodes[k]) && placed.1[k].pos == nodes[k].pos
  {
    var recs := ExportedEntries(order, nodes, es);
    PlaceDistinct(recs, base);
    var placed := Place(recs, base);
    forall k | k in nodes
      ensures k in placed.1 && placed.1[k].subject == nodes[k].subject
      ensures GetText(placed.1[k]) == GetText(nodes[k]) && placed.1[k].pos == nodes[k].pos
    {
      var i :| 0 <= i < |order| && order[i] == k;
      assert recs[i].id == k;
      ReadBackStable(nodes[k].subject, nodes[k].text);
    }
  }

  /** The pieces of an import of an export, before the connectors are compared. */
  lemma ImportOfExportParts(order: seq<string>, nodes: map<string, NodeItem>, es: seq<Edge>, base: nat)
    requires Keyed(order, nodes)
    requires forall e :: e in es ==> e.1 in nodes
    ensures
      var r := ImportModel(Export(order, nodes, es), base);
      r.failure == None && r.order == order && r.nodes.Keys == nodes.Keys && r.edges == Regroup(order, es)
      && (forall k :: k in nodes ==> r.nodes[k].subject == nodes[k].subject)
      && (forall k :: k in nodes ==> GetText(r.nodes[k]) == GetText(nodes[k]) && r.nodes[k].pos == nodes[k].pos)
  {
    var v := Export(order, nodes, es);
    var vs := v.fields["nodes"].items;
    assert Iterate(Get(v.fields, "nodes", Arr([]))) == Some(vs);
    var recs := ExportedEntries(order, nodes, es);
    ReadExport(order, nodes, es);
    PlaceExportKeys(order, nodes, es, base);
    PlaceExportNodes(order, nodes, es, base);
    AllLinksOfExport(order, nodes, es, Place(recs, base).1.Keys);
  }

  /**
   * Importing an export of a canvas whose connectors join known nodes succeeds
   * and rebuilds the same keys in the same order, the same subject, display
   * string and position for every node, the same `connectsTo` list for every id,
   * and the same connectors up to order.
   */
  lemma ImportOfExport(order: seq<string>, nodes: map<string, NodeItem>, es: seq<Edge>, base: nat)
    requires Keyed(order, nodes)
    requires forall e :: e in es ==> e.0 in nodes && e.1 in nodes
    ensures
      var r := ImportModel(Export(order, nodes, es), base);
      r.failure == None && r.order == order && r.nodes.Keys == nodes.Keys
      && (forall k :: k in nodes ==> r.nodes[k].subject == nodes[k].subject)
      && (forall k :: k in nodes ==> GetText(r.nodes[k]) == GetText(nodes[k]) && r.nodes[k].pos == nodes[k].pos)
      && (forall k :: ConnectsTo(r.edges, k) == ConnectsTo(es, k))
      && multiset(r.edges) == multiset(es)
  {
    ImportOfExportParts(order, nodes, es, base);
    RegroupSameConnectors(order, es);
  }
}
