/**
 * The SQLite store of promptperfector/logic/db.py, with its two tables held as
 * sequences of rows in storage order: `projects (id, name)` and
 * `flowcharts (id, project_id, version, flowchart_json, created_at)`.
 *
 * Versions are allocated per project as `MAX(version)` (or 0) plus 1, so each
 * project's history reads 1, 2, 3, ... in the order it was saved. `uuid4` is a
 * fresh-identifier oracle, the `CURRENT_TIMESTAMP` clock a parameter, and
 * `json.dumps`/`json.loads` the identity on snapshots.
 */
module Store {
  import opened Base
  import opened JsonValue
  import opened Text

  datatype ProjectRow = ProjectRow(id: Uuid, name: string)

  datatype FlowchartRow =
    FlowchartRow(id: Uuid, projectId: string, version: int, snapshot: Json, createdAt: string)

  /** `WHERE project_id = pid`, in storage order. */
  function RowsOf(rows: seq<FlowchartRow>, pid: string): (r: seq<FlowchartRow>)
    ensures |r| <= |rows|
  {
    if rows == [] then []
    else
      var last := rows[|rows| - 1];
      RowsOf(rows[..|rows| - 1], pid) + (if last.projectId == pid then [last] else [])
  }

  /** Appending a row extends its own project's rows by it and leaves the others alone. */
  lemma RowsOfAppend(rows: seq<FlowchartRow>, row: FlowchartRow, q: string)
    ensures RowsOf(rows + [row], q) == RowsOf(rows, q) + (if row.projectId == q then [row] else [])
  {
    assert (rows + [row])[..|rows|] == rows;
  }

  /** Appending a row numbered one past its project's row count keeps the invariant. */
  lemma ConsecutiveAppend(rows: seq<FlowchartRow>, row: FlowchartRow)
    requires Consecutive(rows)
    requires row.version == |RowsOf(rows, row.projectId)| + 1
    ensures Consecutive(rows + [row])
  {
    var all := rows + [row];
    forall i | 0 <= i < |all| ensures NumberedAfterEarlier(all, i) {
      if i < |rows| {
        assert NumberedAfterEarlier(rows, i);
        assert all[..i] == rows[..i];
        assert all[i] == rows[i];
      } else {
        assert all[..i] == rows;
      }
    }
  }

  /** `RowsOf` keeps exactly the rows of the project. */
  lemma {:induction false} RowsOfMembers(rows: seq<FlowchartRow>, pid: string)
    ensures forall x :: x in RowsOf(rows, pid) <==> x in rows && x.projectId == pid
  {
    if rows != [] {
      var init := rows[..|rows| - 1];
      RowsOfMembers(init, pid);
      assert rows == init + [rows[|rows| - 1]];
    }
  }

  /** `MAX(version)` over `rows`: `None` (SQL NULL) when there are none. */
  function MaxVersion(rows: seq<FlowchartRow>): (m: Option<int>)
    ensures m.None? <==> rows == []
    ensures m.Some? ==> exists x :: x in rows && x.version == m.value
    ensures m.Some? ==> forall x :: x in rows ==> x.version <= m.value
  {
    if rows == [] then None
    else
      var last := rows[|rows| - 1];
      var m := MaxVersion(rows[..|rows| - 1]);
      if m.None? || last.version > m.value then Some(last.version) else m
  }

  /** `ORDER BY version DESC LIMIT 1`: a row of highest version (the later one on a tie). */
  function Latest(rows: seq<FlowchartRow>): (r: Option<FlowchartRow>)
    ensures r.None? <==> rows == []
    ensures r.Some? ==> r.value in rows
    ensures r.Some? ==> forall x :: x in rows ==> x.version <= r.value.version
  {
    if rows == [] then None
    else
      var last := rows[|rows| - 1];
      var p := Latest(rows[..|rows| - 1]);
      if p.None? || last.version >= p.value.version then Some(last) else p
  }

  /** A row whose version exceeds every other row's is what the latest-version query returns. */
  lemma {:induction false} LatestOfAppended(rows: seq<FlowchartRow>, r: FlowchartRow)
    requires forall x :: x in rows ==> x.version < r.version
    ensures Latest(rows + [r]) == Some(r)
  {
    assert (rows + [r])[..|rows|] == rows;
  }

  /**
   * The store's invariant: every row's version is one more than the number of earlier
   * rows of the same project, which is what `save_flowchart_version` produces.
   */
  ghost predicate Consecutive(rows: seq<FlowchartRow>) {
    forall i :: 0 <= i < |rows| ==> NumberedAfterEarlier(rows, i)
  }

  /** Row `i` is numbered one past the rows of its project stored before it. */
  ghost predicate NumberedAfterEarlier(rows: seq<FlowchartRow>, i: nat)
    requires i < |rows|
  {
    rows[i].version == |RowsOf(rows[..i], rows[i].projectId)| + 1
  }

  /** Under the invariant a project's rows carry the versions 1, 2, ..., n in storage order. */
  lemma {:induction false} VersionsAreOneToN(rows: seq<FlowchartRow>, pid: string)
    requires Consecutive(rows)
    ensures forall k :: 0 <= k < |RowsOf(rows, pid)| ==> RowsOf(rows, pid)[k].version == k + 1
  {
    if rows != [] {
      var n := |rows| - 1;
      var init := rows[..n];
      assert Consecutive(init) by {
        forall i | 0 <= i < |init| ensures NumberedAfterEarlier(init, i) {
          assert NumberedAfterEarlier(rows, i);
          assert init[..i] == rows[..i];
          assert init[i] == rows[i];
        }
      }
      VersionsAreOneToN(init, pid);
      assert NumberedAfterEarlier(rows, n);
    }
  }

  /** The highest version of a project with n rows is n (`None` when n is 0). */
  lemma {:induction false} MaxVersionIsCount(s: seq<FlowchartRow>)
    requires forall k :: 0 <= k < |s| ==> s[k].version == k + 1
    ensures MaxVersion(s) == if s == [] then None else Some(|s|)
  {
    if s != [] {
      MaxVersionIsCount(s[..|s| - 1]);
    }
  }

  /** `max_version or 0`, plus one. */
  function NextVersion(max: Option<int>): int
  {
    (if max.Some? then max.value else 0) + 1
  }

  /** Under the invariant, `MAX(version) or 0` plus one is the project's row count plus one. */
  lemma NextVersionIsCount(rows: seq<FlowchartRow>, pid: string)
    requires Consecutive(rows)
    ensures NextVersion(MaxVersion(RowsOf(rows, pid))) == |RowsOf(rows, pid)| + 1
  {
    VersionsAreOneToN(rows, pid);
    MaxVersionIsCount(RowsOf(rows, pid));
  }

  /**
   * Appending the next version of a project keeps the invariant, adds the row to that
   * project's history only, numbers it above all earlier versions of the project,
   * and makes it the latest.
   */
  lemma SaveKeepsHistory(rows: seq<FlowchartRow>, row: FlowchartRow)
    requires Consecutive(rows)
    requires row.version == |RowsOf(rows, row.projectId)| + 1
    ensures Consecutive(rows + [row])
    ensures RowsOf(rows + [row], row.projectId) == RowsOf(rows, row.projectId) + [row]
    ensures forall q :: q != row.projectId ==> RowsOf(rows + [row], q) == RowsOf(rows, q)
    ensures forall x :: x in rows && x.projectId == row.projectId ==> x.version < row.version
    ensures Latest(RowsOf(rows + [row], row.projectId)) == Some(row)
  {
    var pid := row.projectId;
    var mine := RowsOf(rows, pid);
    ConsecutiveAppend(rows, row);
    forall q | q != pid ensures RowsOf(rows + [row], q) == RowsOf(rows, q) {
      RowsOfAppend(rows, row, q);
    }
    RowsOfAppend(rows, row, pid);
    RowsOfMembers(rows, pid);
    VersionsAreOneToN(rows, pid);
    forall x | x in rows && x.projectId == pid ensures x.version < row.version {
      assert x in mine;
      var k :| 0 <= k < |mine| && mine[k] == x;
    }
    LatestOfAppended(mine, row);
  }

  /** A (version, created_at) entry of the version list. */
  function Entry(r: FlowchartRow): (int, string)
  {
    (r.version, r.createdAt)
  }

  /** The rows in reverse storage order, as version entries. */
  function NewestFirst(s: seq<FlowchartRow>): (r: seq<(int, string)>)
    ensures |r| == |s|
    ensures forall i :: 0 <= i < |s| ==> r[i] == Entry(s[|s| - 1 - i])
  {
    seq(|s|, i requires 0 <= i < |s| => Entry(s[|s| - 1 - i]))
  }

  /** The database file: both tables, in storage order. */
  class Database {
    var projects: seq<ProjectRow>
    var flowcharts: seq<FlowchartRow>

    ghost predicate Valid()
      reads this
    {
      && (forall i, j :: 0 <= i < j < |projects| ==> projects[i].id != projects[j].id)
      && (forall i, j :: 0 <= i < j < |flowcharts| ==> flowcharts[i].id != flowcharts[j].id)
      && Consecutive(flowcharts)
    }

    /** `init_db()` on a new database file: both tables exist and are empty. */
    constructor ()
      ensures Valid() && projects == [] && flowcharts == []
    {
      projects := [];
      flowcharts := [];
    }

    /** `create_project(name)`: inserts `(pid, name)` under a fresh `pid` and returns it. */
    method CreateProject(name: string, pid: Uuid) returns (id: Uuid)
      requires Valid()
      requires forall i :: 0 <= i < |projects| ==> projects[i].id != pid
      modifies this
      ensures Valid()
      ensures id == pid
      ensures projects == old(projects) + [ProjectRow(pid, name)]
      ensures flowcharts == old(flowcharts)
      ensures (pid, name) in ListProjects()
    {
      projects := projects + [ProjectRow(pid, name)];
      id := pid;
      assert ListProjects()[|projects| - 1] == (pid, name);
    }

    /** `list_projects()`: every `(id, name)` row, in storage order. */
    function ListProjects(): (r: seq<(Uuid, string)>)
      reads this
      ensures |r| == |projects|
      ensures forall i :: 0 <= i < |projects| ==> r[i] == (projects[i].id, projects[i].name)
    {
      seq(|projects|, i reads this requires 0 <= i < |projects| => (projects[i].id, projects[i].name))
    }

    /**
     * `get_latest_flowchart(pid)`: the decoded snapshot of the highest version, and
     * JSON `null` (Python's `None`) when the project has none. A stored `null`
     * snapshot reads back the same way, so the two cases are not told apart.
     */
    function LatestFlowchart(pid: string): (r: Json)
      reads this
      ensures RowsOf(flowcharts, pid) == [] ==> r == Null
      ensures RowsOf(flowcharts, pid) != [] ==>
                exists x :: x in flowcharts && x.projectId == pid && x.snapshot == r
                          && forall y :: y in flowcharts && y.projectId == pid ==> y.version <= x.version
    {
      var p := Latest(RowsOf(flowcharts, pid));
      RowsOfMembers(flowcharts, pid);
      if p.None? then Null else p.value.snapshot
    }

    /**
     * `save_flowchart_version(pid, snapshot)`: reads the project's highest version, then
     * appends one row with the next one and returns it. Other rows are untouched.
     */
    method SaveFlowchartVersion(pid: string, snapshot: Json, fid: Uuid, now: string) returns (version: int)
      requires Valid()
      requires forall i :: 0 <= i < |flowcharts| ==> flowcharts[i].id != fid
      modifies this
      ensures Valid()
      ensures version == NextVersion(MaxVersion(RowsOf(old(flowcharts), pid)))
      ensures version == |RowsOf(old(flowcharts), pid)| + 1
      ensures forall x :: x in old(flowcharts) && x.projectId == pid ==> x.version < version
      ensures flowcharts == old(flowcharts) + [FlowchartRow(fid, pid, version, snapshot, now)]
      ensures projects == old(projects)
      ensures forall q :: q != pid ==> RowsOf(flowcharts, q) == RowsOf(old(flowcharts), q)
      ensures RowsOf(flowcharts, pid) == RowsOf(old(flowcharts), pid) + [FlowchartRow(fid, pid, version, snapshot, now)]
      ensures LatestFlowchart(pid) == snapshot
    {
      var max := MaxVersion(RowsOf(flowcharts, pid));
      NextVersionIsCount(flowcharts, pid);
      version := NextVersion(max);
      var row := FlowchartRow(fid, pid, version, snapshot, now);
      SaveKeepsHistory(flowcharts, row);
      InsertFlowchart(row);
      assert Latest(RowsOf(flowcharts, pid)) == Some(row);
    }

    /** The `INSERT INTO flowcharts` of a row numbered after the project's rows. */
    method InsertFlowchart(row: FlowchartRow)
      requires Valid()
      requires forall i :: 0 <= i < |flowcharts| ==> flowcharts[i].id != row.id
      requires Consecutive(flowcharts + [row])
      modifies this
      ensures Valid()
      ensures flowcharts == old(flowcharts) + [row] && projects == old(projects)
    {
      flowcharts := flowcharts + [row];
    }

    /**
     * `list_flowchart_versions(pid)`: `(version, created_at)` for every row of the
     * project, newest first; the versions read n, n - 1, ..., 1.
     */
    function ListFlowchartVersions(pid: string): (r: seq<(int, string)>)
      reads this
      requires Valid()
      ensures |r| == |RowsOf(flowcharts, pid)|
      ensures forall i :: 0 <= i < |r| ==> r[i].0 == |r| - i
      ensures forall i, j :: 0 <= i < j < |r| ==> r[i].0 > r[j].0
      ensures forall x :: x in RowsOf(flowcharts, pid) ==> Entry(x) in r
      ensures forall e :: e in r ==> exists x :: x in RowsOf(flowcharts, pid) && e == Entry(x)
    {
      var s := RowsOf(flowcharts, pid);
      VersionsAreOneToN(flowcharts, pid);
      var r := NewestFirst(s);
      assert forall x :: x in s ==> Entry(x) in r by {
        forall x | x in s ensures Entry(x) in r {
          var k :| 0 <= k < |s| && s[k] == x;
          assert r[|s| - 1 - k] == Entry(x);
        }
      }
      r
    }
  }

  /**
   * Three saves into a new project of a new database return 1, 2 and 3, and after
   * each one the latest snapshot is the one just saved.
   */
  method ConsecutiveSaves(name: string, pid: Uuid, f1: Uuid, f2: Uuid, f3: Uuid,
                          s1: Json, s2: Json, s3: Json, now: string)
    returns (v1: int, v2: int, v3: int)
    requires f1 != f2 && f1 != f3 && f2 != f3
    ensures v1 == 1 && v2 == 2 && v3 == 3
  {
    var db := new Database();
    var id := db.CreateProject(name, pid);
    assert RowsOf(db.flowcharts, id) == [];
    v1 := db.SaveFlowchartVersion(id, s1, f1, now);
    assert |RowsOf(db.flowcharts, id)| == 1 && db.LatestFlowchart(id) == s1;
    assert db.flowcharts[0].id == f1 && |db.flowcharts| == 1;
    v2 := db.SaveFlowchartVersion(id, s2, f2, now);
    assert |RowsOf(db.flowcharts, id)| == 2 && db.LatestFlowchart(id) == s2;
    assert db.flowcharts[0].id == f1 && db.flowcharts[1].id == f2 && |db.flowcharts| == 2;
    v3 := db.SaveFlowchartVersion(id, s3, f3, now);
    assert db.LatestFlowchart(id) == s3;
  }
}
