/**
 * The project list of promptperfector/ui/project_screen.py with the Qt widgets
 * taken away: the list shows one label `"{name} ({pid})"` per project, a
 * double-clicked label is turned back into its project id with
 * `text.split('(')[-1][:-1]`, and a new project needs a name that is not blank.
 */
module ProjectScreen {
  import opened Text
  import opened Store

  const EmptyNameWarning := "Project name cannot be empty."

  /** The text of a list entry: `f"{name} ({pid})"`. */
  function Label(name: string, pid: string): string
  {
    name + " (" + pid + ")"
  }

  /** `s.split(c)[-1]`: what follows the last `c`, or all of `s` when there is none. */
  function AfterLast(s: string, c: char): (r: string)
    ensures |r| <= |s| && r == s[|s| - |r|..]
    ensures c !in r
    ensures |r| < |s| ==> s[|s| - |r| - 1] == c
  {
    if s == [] then []
    else if s[|s| - 1] == c then []
    else AfterLast(s[..|s| - 1], c) + [s[|s| - 1]]
  }

  /** `s[:-1]`: all but the last character (nothing of the empty string). */
  function DropLast(s: string): (r: string)
    ensures |s| > 0 ==> r + [s[|s| - 1]] == s
    ensures |s| == 0 ==> r == []
  {
    if s == [] then [] else s[..|s| - 1]
  }

  /** `select_project`: the project id read back from a list entry. */
  function SelectedPid(entry: string): string
  {
    DropLast(AfterLast(entry, '('))
  }

  /** The text after a last `c` is exactly the part behind it. */
  lemma {:induction false} AfterLastOfJoin(s: string, c: char, t: string)
    requires c !in t
    ensures AfterLast(s + [c] + t, c) == t
    decreases |t|
  {
    if t != [] {
      var init := t[..|t| - 1];
      AfterLastOfJoin(s, c, init);
      assert (s + [c] + t)[..|s + [c] + t| - 1] == s + [c] + init;
      assert init + [t[|t| - 1]] == t;
    }
  }

  /**
   * A label reads back as its project id, whatever the name (even one holding
   * parentheses), as long as the id itself holds no `(`.
   */
  lemma SelectedPidOfLabel(name: string, pid: string)
    requires '(' !in pid
    ensures SelectedPid(Label(name, pid)) == pid
  {
    assert Label(name, pid) == (name + " ") + ['('] + (pid + ")");
    AfterLastOfJoin(name + " ", '(', pid + ")");
    assert DropLast(pid + ")") == pid;
  }

  /** The list entries for the rows of `list_projects()`, in that order. */
  function Labels(rows: seq<(Uuid, string)>): (r: seq<string>)
    ensures |r| == |rows|
    ensures forall i :: 0 <= i < |rows| ==> r[i] == Label(rows[i].1, rows[i].0)
  {
    seq(|rows|, i requires 0 <= i < |rows| => Label(rows[i].1, rows[i].0))
  }

  /** Every entry of the list selects the project it was made from. */
  lemma LabelsSelectTheirProject(rows: seq<(Uuid, string)>)
    ensures forall i :: 0 <= i < |rows| ==> SelectedPid(Labels(rows)[i]) == rows[i].0
  {
    forall i | 0 <= i < |rows| ensures SelectedPid(Labels(rows)[i]) == rows[i].0 {
      UuidShape(rows[i].0);
      SelectedPidOfLabel(rows[i].1, rows[i].0);
    }
  }

  /** The `ProjectScreen` widget: its list entries, its name input and the warnings it showed. */
  class Screen {
    const db: Database
    var entries: seq<string>
    var input: string
    var warnings: seq<string>

    /** `__init__`: an empty name input and the list filled by `refresh_projects`. */
    constructor (db: Database)
      ensures this.db == db
      ensures entries == Labels(db.ListProjects())
      ensures input == [] && warnings == []
    {
      this.db := db;
      input := [];
      warnings := [];
      new;
      RefreshProjects();
    }

    /** `refresh_projects`: clears the list, then adds one entry per project in listing order. */
    method RefreshProjects()
      modifies this
      ensures entries == Labels(db.ListProjects())
      ensures input == old(input) && warnings == old(warnings)
    {
      var rows := db.ListProjects();
      entries := [];
      var i := 0;
      while i < |rows|
        invariant 0 <= i <= |rows|
        invariant entries == Labels(rows[..i])
        invariant input == old(input) && warnings == old(warnings)
      {
        entries := entries + [Label(rows[i].1, rows[i].0)];
        i := i + 1;
      }
      assert rows[..i] == rows;
    }

    /**
     * `create_project`: a name that is blank after stripping only shows a warning;
     * otherwise the stripped name is stored under a fresh id, the list is refreshed
     * and the input cleared.
     */
    method CreateProject(pid: Uuid)
      requires db.Valid()
      requires forall i :: 0 <= i < |db.projects| ==> db.projects[i].id != pid
      modifies this, db
      ensures db.Valid()
      ensures Strip(old(input)) == [] ==>
                && warnings == old(warnings) + [EmptyNameWarning]
                && db.projects == old(db.projects) && db.flowcharts == old(db.flowcharts)
                && entries == old(entries) && input == old(input)
      ensures Strip(old(input)) != [] ==>
                && db.projects == old(db.projects) + [ProjectRow(pid, Strip(old(input)))]
                && db.flowcharts == old(db.flowcharts)
                && entries == Labels(db.ListProjects())
                && input == [] && warnings == old(warnings)
    {
      var name := Strip(input);
      if name == [] {
        warnings := warnings + [EmptyNameWarning];
        return;
      }
      StoreProject(name, pid);
    }

    /** The accepted branch of `create_project`: store, refresh the list, clear the input. */
    method StoreProject(name: string, pid: Uuid)
      requires db.Valid()
      requires forall i :: 0 <= i < |db.projects| ==> db.projects[i].id != pid
      modifies this, db
      ensures db.Valid()
      ensures db.projects == old(db.projects) + [ProjectRow(pid, name)] && db.flowcharts == old(db.flowcharts)
      ensures entries == Labels(db.ListProjects()) && input == [] && warnings == old(warnings)
    {
      var id := db.CreateProject(name, pid);
      RefreshProjects();
      input := [];
    }

    /** `select_project(item)`: the id handed to the project-selected callback. */
    function SelectProject(entry: string): (pid: string)
      ensures forall i :: 0 <= i < |entries| && entry == entries[i] && entries == Labels(db.ListProjects())
                ==> pid == db.projects[i].id
      reads this, db
    {
      LabelsSelectTheirProject(db.ListProjects());
      SelectedPid(entry)
    }
  }
}
