# Prompt-Perfector flowchart core in Dafny

A model of the flowchart core of Prompt-Perfector, a desktop tool whose users
draw prompt flowcharts on a canvas and save versioned snapshots of them per
project. Four parts of the program are modelled:

- **The flowchart graph** (`logic/flowchart.py`): nodes with an id, a text and
  two connection lists, `from_json`, `add_node` and `to_json`. In the JSON
  form an empty connection list is written as `null` and read back as `[]`.
  Proved: every node the constructor builds is well formed, and parsing the
  JSON of a model gives back its nodes.
- **The store** (`logic/db.py`): the `projects` and `flowcharts` tables,
  held as sequences of rows in storage order, and the five queries.
  - Proved: every save numbers a project's snapshots 1, 2, 3, … in the order
    they were saved.
  - Proved: the latest-version query returns what was saved last, and `None`
    (JSON `null`) for a project without snapshots.
  - Proved: the version list comes newest first and holds exactly the
    project's rows.
- **The project screen** (`ui/project_screen.py`): the list labels
  `"{name} ({pid})"`, the blank-name check and the id read back from a
  double-clicked label. Proved: every label selects the project it was
  made for.
- **The canvas** (`ui/flowchart_canvas.py`): the `nodes` dict, the
  `connectors` list, the pending first click and the colour counter of
  `FlowchartCanvas`, modelled as a class whose methods update them in place.
  It covers connector creation, both deletions, node creation, the edit
  dialog, `export_to_model` and `import_from_model`. For the import there is
  a method with its three loops and a function describing its outcome.
  - Proved: the canvas invariant holds after every operation. Each key is
    listed once and holds a node with that id. No line item appears twice.
    A pending first click is on a node whose id is a key, unless an import's
    `scene().clear()` came after it.
  - Proved: both ends of every connector are keys of the dict, and every
    operation keeps this, with one exception. A first click on a node,
    "Delete" on that node, and an import leave the node alive outside the
    scene, because the clear deletes only what the scene still holds. A
    second click then adds a connector from that node's id, which the
    imported dict need not hold; `FirstClickOnDeletedNode` builds such a
    canvas.
  - Proved: a second click whose first node was deleted by the clear raises
    and changes nothing.
  - Proved: a deletion removes exactly the connectors it hits and keeps the
    others in order.
  - Proved: `export_to_model` lists every connector once from each end.
  - Proved: an import, even one that fails, leaves only wired nodes and
    connectors between imported nodes.
  - Proved: importing the export of any canvas state the operations reach,
    as long as its connectors join keys, rebuilds the keys in order, each node's subject, read-back text and
    position, each node's `connectsTo` list, and the connectors up to order.

Python object identity, which `is` compares, is modelled as a number
handed out by the counter `nextObj`. JSON values are a datatype; `json.loads`
and `json.dumps` are the identity on them. Python truthiness, `dict.get`,
iteration in a `for` loop and `str.strip()` are written out. `uuid4()` and
the SQL clock are parameters.

The canvas file defines some methods twice. The later definition is the one
Python keeps, and the model follows it:

- `FlowchartNode.get_text` (line 265) returns the displayed string as
  `toPlainText()` reads it back after `setPlainText`. A no-break space reads
  back as a space. A carriage return, a CR LF pair, a line or paragraph
  separator, and the two block markers U+FDD0 and U+FDD1 each read back as
  one line feed.
- `FlowchartNode.set_text` (line 268) redisplays without storing the new
  text.
- `FlowchartCanvas.__init__` is the one at line 415.
- Deleting a connector follows the `contextMenuEvent` at line 456.
- `mouseDoubleClickEventFake` (line 489) adds a node that is neither wired to
  the canvas nor given button filters. Deleting such a node therefore
  removes no connectors.

The colour of a new node is taken at the old `_color_idx`, and only then is
the index increased.

## Model

| member | source | states |
|---|---|---|
| JsonValue.Or | promptperfector/logic/flowchart.py:8-9 | `v or default`: a truthy value is kept, a falsy one (`None`, `[]`, `''`, `0`, `{}`) replaced by the default |
| JsonValue.Get | promptperfector/ui/flowchart_canvas.py:381-387 | `dict.get(key, default)`: the stored value when the key is present, the default otherwise |
| JsonValue.Iterate | promptperfector/ui/flowchart_canvas.py:384 | what a `for` loop visits: a list's items, a string's one-character strings, nothing for a falsy value; `None`, booleans and numbers cannot be iterated |
| Text.Strip | promptperfector/ui/project_screen.py:28 | `str.strip()`: the result is empty exactly when the input is all whitespace, and otherwise neither starts nor ends with whitespace |
| Text.StripIsInfix | promptperfector/ui/project_screen.py:28 | the stripped string is a contiguous part of the input with only whitespace cut on either side |
| Text.StripIdempotent | promptperfector/ui/project_screen.py:28 | stripping twice is stripping once |
| Text.NatToString | promptperfector/ui/flowchart_canvas.py:433 | `str(n)`: a non-empty string of decimal digits with no leading zero except for 0 itself |
| Text.ParseNatToString | promptperfector/ui/flowchart_canvas.py:433 | reading the digits of `str(n)` back gives `n` |
| Text.NatToStringInjective | promptperfector/ui/flowchart_canvas.py:433 | different numbers have different decimal strings |
| Text.UuidShape | promptperfector/logic/db.py:30 | a `str(uuid4())` is non-empty and holds no parenthesis, so it can sit inside a project label |
| Flowchart.NewNode | promptperfector/logic/flowchart.py:5-9 | `Node.__init__`: a falsy id becomes the fresh uuid, falsy connection values become `[]`, everything else is kept; the node is well formed |
| Flowchart.ToDict | promptperfector/logic/flowchart.py:11-17 | `to_dict`: exactly the four keys; id and text copied; an empty connection list written as `None`, a non-empty one verbatim |
| Flowchart.ParseNode | promptperfector/logic/flowchart.py:26-30 | one element of `from_json`: a non-dict fails, a missing `text` and then a missing `id` raise `KeyError`, otherwise a well-formed node with that text, id and connection values |
| Flowchart.ParseNodes | promptperfector/logic/flowchart.py:26-31 | the list comprehension: succeeds with one node per element exactly when no element fails |
| Flowchart.ParseModel | promptperfector/logic/flowchart.py:24-32 | `from_json` on decoded data: a non-dict fails, a missing `nodes` gives no nodes, every parsed node is well formed |
| Flowchart.FlowchartModel.constructor | promptperfector/logic/flowchart.py:20-21 | `FlowchartModel(nodes)` holds the given well-formed nodes |
| Flowchart.FlowchartModel.FromJson | promptperfector/logic/flowchart.py:23-32 | the class method returns a new model holding the parsed nodes, or the error the parse raises |
| Flowchart.FlowchartModel.AddNode | promptperfector/logic/flowchart.py:34-37 | `add_node`: appends and returns a node with a fresh id, the given text and no connections; the model stays well formed |
| Flowchart.FlowchartModel.ToJson | promptperfector/logic/flowchart.py:39-40 | `to_json`: a dict whose only key `nodes` lists every node's dict, in order |
| Flowchart.ParseNodeOfDict | promptperfector/logic/flowchart.py:11-30 | parsing the dict of a well-formed node gives that node back |
| Flowchart.ParseNodesOfDicts | promptperfector/logic/flowchart.py:11-31 | parsing the dicts of well-formed nodes gives back the whole list |
| Flowchart.RoundTrip | promptperfector/logic/flowchart.py:23-40 | `from_json(m.to_json())` succeeds with exactly the nodes of `m` |
| Store.RowsOf | promptperfector/logic/db.py:43 | `WHERE project_id = ?` keeps a sub-list of the rows |
| Store.RowsOfMembers | promptperfector/logic/db.py:43 | a row is selected exactly when it is stored and belongs to the project |
| Store.RowsOfAppend | promptperfector/logic/db.py:54-55 | inserting a row extends only its own project's selection, by that row |
| Store.MaxVersion | promptperfector/logic/db.py:50-51 | `MAX(version)`: NULL exactly on no rows, otherwise a version some row has and no row exceeds |
| Store.Latest | promptperfector/logic/db.py:43 | `ORDER BY version DESC LIMIT 1`: none exactly on no rows, otherwise a stored row of highest version |
| Store.LatestOfAppended | promptperfector/logic/db.py:43 | a row whose version beats all earlier rows is the one the latest-version query returns |
| Store.ConsecutiveAppend | promptperfector/logic/db.py:50-55 | appending a row numbered one past its project's row count keeps every row numbered after its project's earlier rows |
| Store.VersionsAreOneToN | promptperfector/logic/db.py:47-58 | under that invariant each project's rows carry the versions 1, 2, …, n in storage order |
| Store.MaxVersionIsCount | promptperfector/logic/db.py:50-51 | the highest of the versions 1..n is n, NULL for no rows |
| Store.NextVersionIsCount | promptperfector/logic/db.py:50-52 | `(MAX(version) or 0) + 1` is the project's row count plus one |
| Store.SaveKeepsHistory | promptperfector/logic/db.py:47-58 | a save keeps the invariant, extends only its project's history, beats every earlier version and becomes the latest |
| Store.NewestFirst | promptperfector/logic/db.py:62 | the rows reversed, as `(version, created_at)` pairs |
| Store.Database.constructor | promptperfector/logic/db.py:12-27 | `init_db` on a new file: both tables exist and are empty |
| Store.Database.CreateProject | promptperfector/logic/db.py:29-35 | `create_project`: inserts `(pid, name)` under the fresh id, returns that id and leaves the snapshots alone; the pair is then listed |
| Store.Database.ListProjects | promptperfector/logic/db.py:37-39 | `list_projects`: one `(id, name)` pair per project, in storage order |
| Store.Database.LatestFlowchart | promptperfector/logic/db.py:41-45 | `get_latest_flowchart`: `None` (JSON `null`) when the project has no snapshot, otherwise the snapshot of its highest version, which is `None` too when that snapshot is `null` |
| Store.Database.SaveFlowchartVersion | promptperfector/logic/db.py:47-58 | `save_flowchart_version`: returns one more than the project's highest version (or 1), which is its row count plus one, above every earlier version; appends that row, leaves other projects alone, and the saved snapshot is now the latest |
| Store.Database.InsertFlowchart | promptperfector/logic/db.py:54-55 | the `INSERT` of a properly numbered row keeps the store valid |
| Store.Database.ListFlowchartVersions | promptperfector/logic/db.py:60-64 | `list_flowchart_versions`: one entry per saved snapshot, versions n, n-1, …, 1 strictly descending, each entry a row of the project and every row listed |
| Store.ConsecutiveSaves | promptperfector/logic/db.py:47-58 | three saves into a new project of a new database return the versions 1, 2 and 3 |
| ProjectScreen.AfterLast | promptperfector/ui/project_screen.py:38 | `s.split(c)[-1]`: the suffix after the last `c`, which holds no `c` |
| ProjectScreen.DropLast | promptperfector/ui/project_screen.py:38 | `s[:-1]`: all but the last character |
| ProjectScreen.AfterLastOfJoin | promptperfector/ui/project_screen.py:38 | splitting at the last `c` recovers exactly the `c`-free text behind it |
| ProjectScreen.SelectedPidOfLabel | promptperfector/ui/project_screen.py:25-38 | reading a label back gives the project id it was made from, whatever the name (even one holding parentheses) |
| ProjectScreen.Labels | promptperfector/ui/project_screen.py:22-25 | one `"{name} ({pid})"` label per listed project, in order |
| ProjectScreen.LabelsSelectTheirProject | promptperfector/ui/project_screen.py:22-39 | every label in the list selects its own project |
| ProjectScreen.Screen.constructor | promptperfector/ui/project_screen.py:5-20 | `__init__`: empty input, no warnings, the list filled from the store |
| ProjectScreen.Screen.RefreshProjects | promptperfector/ui/project_screen.py:22-25 | `refresh_projects`: the list shows exactly the labels of the current projects |
| ProjectScreen.Screen.CreateProject | promptperfector/ui/project_screen.py:27-34 | `create_project`: a blank name only adds the warning and changes nothing else; otherwise the stripped name is stored, the list refreshed and the input cleared |
| ProjectScreen.Screen.StoreProject | promptperfector/ui/project_screen.py:32-34 | the accepted branch: one new project row, the refreshed list, an empty input |
| ProjectScreen.Screen.SelectProject | promptperfector/ui/project_screen.py:36-39 | `select_project`: a label shown in the list yields the id of its project |
| CanvasNode.DisplayRule | promptperfector/ui/flowchart_canvas.py:45-49 | the shown string is the stripped subject when the subject is not blank (then it is non-empty and not padded), otherwise the text |
| CanvasNode.DisplayOfDisplay | promptperfector/ui/flowchart_canvas.py:45-49 | redisplaying the shown string shows the same string |
| CanvasNode.NewItem | promptperfector/ui/flowchart_canvas.py:149-197 | `FlowchartNode.__init__`: the node holds the given id, subject, text, position and colour |
| CanvasNode.SetSubject | promptperfector/ui/flowchart_canvas.py:66-71 | `set_subject`: stores the subject and changes nothing else |
| CanvasNode.SetText | promptperfector/ui/flowchart_canvas.py:268-274 | the effective `set_text` leaves the node as it was: the new text is not stored |
| CanvasNode.PlainTextNormal | promptperfector/ui/flowchart_canvas.py:265-266 | `toPlainText()` after `setPlainText` is never longer than the text, keeps its length when there is no carriage return, and leaves no carriage return, no-break space, separator or block marker |
| CanvasNode.PlainTextOfClean | promptperfector/ui/flowchart_canvas.py:49 | a text with none of those characters reads back unchanged |
| CanvasNode.PlainTextIdempotent | promptperfector/ui/flowchart_canvas.py:49 | reading back a read-back text gives it unchanged |
| CanvasNode.ReadBackStable | promptperfector/ui/flowchart_canvas.py:265-266 | a node shown with the read-back text of another node with the same subject reads back the same text |
| CanvasNode.EditKeepsStoredText | promptperfector/ui/flowchart_canvas.py:73-89 | the edit dialog keeps the old stored text; `get_text` then reads back the new subject, or the old text when the new subject is blank |
| CanvasNode.ClipText | promptperfector/ui/flowchart_canvas.py:285-288 | `clip_text`: at most 30 characters; short text unchanged, long text cut to its first 27 characters plus `...` |
| CanvasGraph.Assign | promptperfector/ui/flowchart_canvas.py:395 | `d[k] = v` on an insertion-ordered dict: the map updated, a new key appended to the order, an existing key left in place |
| CanvasGraph.AssignKeyed | promptperfector/ui/flowchart_canvas.py:395 | assignment keeps every key listed exactly once |
| CanvasGraph.ConnectsMembers | promptperfector/ui/flowchart_canvas.py:363-364 | `t` is in `k`'s `connectsTo` exactly when a connector goes from `k` to `t`, and likewise for `connectsFrom` |
| CanvasGraph.ConnectsSymmetric | promptperfector/ui/flowchart_canvas.py:359-374 | a connector `a → b` is listed once in `a`'s `connectsTo` and once in `b`'s `connectsFrom`, as often as it occurs |
| CanvasGraph.ListOrNull | promptperfector/ui/flowchart_canvas.py:370-371 | `xs if xs else None`: `None` exactly for an empty list, which reads back as `[]` |
| CanvasGraph.Record | promptperfector/ui/flowchart_canvas.py:366-373 | one exported dict: exactly the six keys, the id, subject, read-back text (`get_text`) and position, and both connection lists as `ConnectsTo`/`ConnectsFrom`, `None` when empty |
| CanvasGraph.Export | promptperfector/ui/flowchart_canvas.py:356-374 | `export_to_model`: `{'nodes': [...]}` with one record per key, in dict order |
| CanvasGraph.ExportSymmetric | promptperfector/ui/flowchart_canvas.py:356-374 | in an export, `b` occurs in `a`'s `connectsTo` as often as `a` occurs in `b`'s `connectsFrom` |
| CanvasGraph.ReadEntryCases | promptperfector/ui/flowchart_canvas.py:384-390 | one element of the first loop: a non-dict fails, a missing `id` raises `KeyError`; an element that reads carries its id, `pos` (default `[0, 0]`), `connectsTo`, text (default `''`) and subject (`''` when missing or `None`); every dict with string id, text and subject reads |
| CanvasGraph.ReadEntries | promptperfector/ui/flowchart_canvas.py:384-395 | the first loop reads every element, or a strict prefix followed by the failure |
| CanvasGraph.ImportedItem | promptperfector/ui/flowchart_canvas.py:389-394 | an imported node is wired, coloured `#ffc0cb` and carries the entry's id, subject, text and position |
| CanvasGraph.PlaceShape | promptperfector/ui/flowchart_canvas.py:384-395 | after the first loop each key is listed once and holds a fresh, wired node with that id |
| CanvasGraph.PlaceDistinct | promptperfector/ui/flowchart_canvas.py:384-395 | with distinct ids, the dict lists the ids in element order and holds each element's own node |
| CanvasGraph.Targets | promptperfector/ui/flowchart_canvas.py:399 | `n.get('connectsTo') or []`: a falsy value gives no targets, a list its items, a truthy number or boolean cannot be iterated |
| CanvasGraph.Link | promptperfector/ui/flowchart_canvas.py:400-409 | one target: a list or dict cannot be looked up, a string naming a stored node gives one connector, anything else none |
| CanvasGraph.LinksFrom | promptperfector/ui/flowchart_canvas.py:399-410 | the inner loop only adds connectors from the node to stored nodes |
| CanvasGraph.LinksFromCounts | promptperfector/ui/flowchart_canvas.py:399-410 | after the inner loop, a connector to `s` exists as often as `s` occurs among the targets, when `s` is stored, and not at all otherwise |
| CanvasGraph.AllLinks | promptperfector/ui/flowchart_canvas.py:397-410 | the second loop only adds connectors from imported ids to stored nodes |
| CanvasGraph.ImportModel | promptperfector/ui/flowchart_canvas.py:376-410 | `import_from_model`: both collections are cleared first; a non-dict model or a non-iterable `nodes` fails with nothing built, a missing `nodes` succeeds with nothing built |
| CanvasGraph.ImportShape | promptperfector/ui/flowchart_canvas.py:376-410 | whatever the input, and even when it fails part way, the dict lists each key once and holds fresh, wired, `#ffc0cb` nodes under their own ids, and every connector joins two stored nodes |
| CanvasGraph.ImportIgnoresConnectsFrom | promptperfector/ui/flowchart_canvas.py:376-410 | removing every `connectsFrom` key from the input does not change the outcome |
| CanvasGraph.ReadRecord | promptperfector/ui/flowchart_canvas.py:366-390 | an exported record reads back as the entry it was made from |
| CanvasGraph.ReadExport | promptperfector/ui/flowchart_canvas.py:356-395 | the first loop reads every exported record, without failure |
| CanvasGraph.AllLinksOfExport | promptperfector/ui/flowchart_canvas.py:363-410 | the second loop over exported records rebuilds each node's `connectsTo` in turn, without failure |
| CanvasGraph.ConnectsToRegroup | promptperfector/ui/flowchart_canvas.py:363-410 | regrouping the connectors by their first id, over distinct keys, keeps every key's `connectsTo` list |
| CanvasGraph.RegroupSameConnectors | promptperfector/ui/flowchart_canvas.py:363-410 | the rebuilt connectors have the same `connectsTo` lists and the same multiset of connectors |
| CanvasGraph.PlaceKeys | promptperfector/ui/flowchart_canvas.py:384-395 | entries carrying a dict's keys in order rebuild those keys in that order |
| CanvasGraph.PlaceExportKeys | promptperfector/ui/flowchart_canvas.py:356-395 | importing an export rebuilds the keys, in order |
| CanvasGraph.PlaceExportNodes | promptperfector/ui/flowchart_canvas.py:356-395 | importing an export rebuilds each node's subject, read-back text and position |
| CanvasGraph.ImportOfExportParts | promptperfector/ui/flowchart_canvas.py:356-410 | importing an export succeeds and rebuilds keys, nodes and the regrouped connectors |
| CanvasGraph.ImportOfExport | promptperfector/ui/flowchart_canvas.py:356-410 | importing an export of a canvas whose connectors join stored nodes succeeds and rebuilds the keys in order, each node's subject, read-back text and position, each id's `connectsTo` list and the connectors as a multiset |
| Canvas.NodeId | promptperfector/ui/flowchart_canvas.py:433 | `f"node_{n}"` starts with `node_` followed by the digits of `n` |
| Canvas.NodeIdInjective | promptperfector/ui/flowchart_canvas.py:433 | different counts give different ids |
| Canvas.NodeIdCollides | promptperfector/ui/flowchart_canvas.py:433-441 | for every size n >= 1 some dict of n nodes (keys `node_2` .. `node_<n+1>`) already holds `node_{len+1}`; storing the new node under it keeps the key order and the size n, so the old node is replaced |
| Canvas.RemoveMembers | promptperfector/ui/flowchart_canvas.py:130 | the list comprehension of a deletion keeps only connectors it does not hit, all from the old list |
| Canvas.RemoveCounts | promptperfector/ui/flowchart_canvas.py:130 | every connector not hit stays as often as it was there |
| Canvas.RemoveAppend | promptperfector/ui/flowchart_canvas.py:130 | the comprehension keeps the survivors in their order |
| Canvas.RemoveNothing | promptperfector/ui/flowchart_canvas.py:468 | when nothing is hit the list is unchanged |
| Canvas.RemoveDistinct | promptperfector/ui/flowchart_canvas.py:130 | removing never repeats a line item |
| Canvas.RemoveHolding | promptperfector/ui/flowchart_canvas.py:468 | deleting the line item at position `i` of a list of distinct items removes exactly that entry |
| Canvas.RemoveLine | promptperfector/ui/flowchart_canvas.py:468 | with distinct line items, deleting one removes the entry holding it, or nothing when none does |
| Canvas.RemoveKeepsLines | promptperfector/ui/flowchart_canvas.py:130 | either deletion keeps every line item made before the bound, joining keys, and distinct |
| Canvas.AssignKeepsShape | promptperfector/ui/flowchart_canvas.py:441 | storing a node under its own id keeps the dict's invariant |
| Canvas.ImportedWellFormed | promptperfector/ui/flowchart_canvas.py:384-409 | the imported nodes and the consecutively numbered new line items satisfy the canvas invariant |
| Canvas.ImportedJoined | promptperfector/ui/flowchart_canvas.py:397-409 | every imported connector joins two keys of the imported dict |
| Canvas.FlowchartCanvas.constructor | promptperfector/ui/flowchart_canvas.py:415-426 | the effective `__init__`: no nodes, no connectors, no pending click, colour index 0 |
| Canvas.FlowchartCanvas.ExportToModel | promptperfector/ui/flowchart_canvas.py:356-374 | `export_to_model` on the current dict and connectors |
| Canvas.FlowchartCanvas.ReimportRebuilds | promptperfector/ui/flowchart_canvas.py:356-414 | for a canvas whose connectors join keys, importing its export succeeds and rebuilds its keys in order, each node's subject, read-back text and position, each id's `connectsTo` list and the connectors as a multiset |
| Canvas.FlowchartCanvas.Click | promptperfector/ui/flowchart_canvas.py:295-320 | `handle_connector_button_click` on a node of the scene: the first click remembers the node; the second adds one connector from the remembered node when it is a different object and forgets the first; it raises, changing nothing, exactly when the remembered node was still in the scene at an import's clear; a remembered node Delete took out survives, and the connector from it keeps connectors joining keys exactly when its id is still a key |
| Canvas.FlowchartCanvas.DeleteConnector | promptperfector/ui/flowchart_canvas.py:465-468 | "Delete Connector": removes exactly the entry holding that line item, keeps the rest in order, changes nothing when no entry holds it |
| Canvas.FlowchartCanvas.DeleteNode | promptperfector/ui/flowchart_canvas.py:118-133 | "Delete" on a node: a wired node's connectors at either end go, the others stay in order; an unwired node's deletion leaves the list alone; the dict is not changed; a pending click on the node is marked as out of the scene; connectors that joined keys still do |
| Canvas.FlowchartCanvas.DoubleClickCanvas | promptperfector/ui/flowchart_canvas.py:428-443 | a double click on empty canvas stores a wired `Editable text box` node under `node_{len+1}`, coloured by the old colour index, and advances the index |
| Canvas.FlowchartCanvas.AddTextNode | promptperfector/ui/flowchart_canvas.py:489-497 | `mouseDoubleClickEventFake(text)`: the same at position `(0, 0)` with the given text, but the node is not wired |
| Canvas.FlowchartCanvas.EditNode | promptperfector/ui/flowchart_canvas.py:73-89 | accepting the edit dialog sets the subject, keeps the stored text and shows the new display string; nothing else changes |
| Canvas.FlowchartCanvas.AddImported | promptperfector/ui/flowchart_canvas.py:389-395 | one pass of the first loop stores the next entry's node as `Place` describes |
| Canvas.FlowchartCanvas.TakeEntry | promptperfector/ui/flowchart_canvas.py:384-395 | one pass of the first loop: an element that reads extends the read prefix and the dict; one that fails ends the loop with that failure and changes nothing |
| Canvas.FlowchartCanvas.PlaceEntries | promptperfector/ui/flowchart_canvas.py:384-395 | the first loop stores exactly the entries `ReadEntries` reads, in order, and stops at the failure it reports |
| Canvas.FlowchartCanvas.AddConnector | promptperfector/ui/flowchart_canvas.py:404-409 | a new line item appended to the connectors list |
| Canvas.FlowchartCanvas.LinkTargets | promptperfector/ui/flowchart_canvas.py:399-410 | the inner loop appends exactly the connectors `LinksFrom` describes and reports its failure |
| Canvas.FlowchartCanvas.LinkEntries | promptperfector/ui/flowchart_canvas.py:397-410 | the second loop builds exactly the connectors `AllLinks` describes and reports its failure |
| Canvas.FlowchartCanvas.ImportFromModel | promptperfector/ui/flowchart_canvas.py:376-414 | `import_from_model` clears the scene, deleting every earlier object still in it, then leaves the dict, connectors and failure `ImportModel` describes, with only new objects and connectors joining keys; keeps the canvas invariant and leaves the pending click and colour index alone |
| Canvas.OneNodeImport | promptperfector/ui/flowchart_canvas.py:376-410 | importing `{"nodes": [{"id": "x"}]}` stores the one key `x` and no connector |
| Canvas.FirstClickOnDeletedNode | promptperfector/ui/flowchart_canvas.py:118-133 | a double click, a first click on `node_1`, "Delete" on it, that import and a click on `x` leave a valid canvas with the one key `x` and one connector from `node_1` to `x`, whose start is no key |
| Canvas.FlowchartCanvas.ImportEntries | promptperfector/ui/flowchart_canvas.py:384-410 | the two loops on a cleared canvas build the dict, connectors and failure `ImportModel` describes and keep the canvas invariant |

## Left out

- Rendering and geometry are not modelled: painting, arrowheads, text-box sizing, connector-button placement and visibility, hover handling, `fitInView`, and moving a node and its connectors. Only positions are kept, as opaque JSON values.
- The Qt scene's own item list is not modelled: `addItem` and `removeItem`. The model keeps only the canvas's `nodes` and `connectors`, so a deleted node's entry in `nodes` stays, as in the source. Of `scene().clear()` the model keeps only that every object made before it and still in the scene is deleted (the field `cleared`); of the objects Delete took out, only the one a pending click remembers matters afterwards, and its survival is the flag `Pending.removed`.
- `Canvas.FlowchartCanvas.Click` requires the clicked node to be one the scene still shows: made after the last clear, and with an id that is a key of `nodes`. Only such a node's buttons can be pressed, since no operation removes a key except the import, which also clears the scene. A node that Delete removed from the scene shows no buttons, so it is never clicked as the second node; it can still be the remembered first node, which the model covers.
- `Canvas.FlowchartCanvas.Click`: the exception raised by a dead first click is only a flag (`raised`); the traceback PySide prints is not modelled.
- Context-menu and dialog choices (which action, Accept or Cancel) are inputs. Each outcome is its own method: `DeleteConnector`, `DeleteNode` and `EditNode`.
- The `on_update` autosave callback is not modelled. The effective `__init__` never sets it, so the source reaches it only when a caller attaches one.
- Logging is not modelled.
- `Canvas.FlowchartCanvas.ImportFromModel` and `CanvasGraph.ImportModel` treat three inputs as failures (`WrongType`) that Python accepts:
  - a node id that is not a string, where Python allows any hashable value;
  - a text that is not a string, which Python accepts when the subject is not blank;
  - a non-empty dict as `connectsTo`, whose keys Python would iterate.
- `Canvas.FlowchartCanvas.ImportFromModel`: a malformed `pos` (one `QPointF(*pos)` rejects) is not a failure in the model.
- `Flowchart.ParseModel`: `from_json` given JSON text (a string) decodes it first; the model takes decoded values only, so a string input is a failure.
- Numbers in JSON are integers; floating-point positions and values are not modelled.
- `json.dumps`/`json.loads` text encoding is left out: a snapshot is stored and returned as a JSON value.
- SQLite's foreign key on `project_id` is not modelled; as in the source, a snapshot can be saved for an unknown project. SQL connections and commits are not modelled either.
- The `created_at` clock and `uuid4()` are parameters. The caller supplies fresh ids; the model does not check their randomness or uniqueness.
- `Store.Database.SaveFlowchartVersion` is atomic in the model. In SQLite, two application instances saving for the same project can both read the same `MAX(version)` before either inserts, and no `UNIQUE(project_id, version)` constraint stops the duplicate. The model's invariant (versions 1..n per project) holds only for saves from one process.
- `Canvas.FlowchartCanvas.EditNode` requires the node's key to be in `nodes`. Editing a node that is no longer in the dict is not modelled.
- `main_window.py`, `flowchart_widget.py`, `final_prompt_widget.py` and the LLM runner are not part of this model.
