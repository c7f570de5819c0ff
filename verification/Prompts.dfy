/**
 * Prompt versioning (`core/prompts/manager.py`). `create_version` reads the highest version in one statement and
 * inserts the next one later; only the unique constraint on (prompt, version) arbitrates between racing callers.
 */
module Prompts {
  import opened Basics
  import opened Sorting

  datatype Environment = Draft | Staging | Production

  /** The rows of `prompt_versions`, in insertion order. A prompt is known by its unique name. */
  datatype Row = Row(prompt: string, version: int, template: string, environment: Environment)

  datatype Tables = Tables(names: set<string>, rows: seq<Row>)

  // ---------------------------------------------------------------- queries

  /** `select(func.max(version)).where(prompt)`, or 0 without rows. */
  function MaxVersion(rows: seq<Row>, name: string): int {
    if rows == [] then 0
    else
      var m, r := MaxVersion(rows[..|rows| - 1], name), rows[|rows| - 1];
      if r.prompt == name && r.version > m then r.version else m
  }

  predicate HasVersion(rows: seq<Row>, name: string, version: int) {
    exists i :: 0 <= i < |rows| && rows[i].prompt == name && rows[i].version == version
  }

  function VersionKey(): Row -> real {
    (r: Row) => r.version as real
  }

  function Where(rows: seq<Row>, keep: Row -> bool): seq<Row> {
    if rows == [] then []
    else Where(rows[..|rows| - 1], keep) + (if keep(rows[|rows| - 1]) then [rows[|rows| - 1]] else [])
  }

  function OfPrompt(name: string): Row -> bool {
    (r: Row) => r.prompt == name
  }

  function OfVersion(name: string, version: int): Row -> bool {
    (r: Row) => r.prompt == name && r.version == version
  }

  function InEnvironment(name: string, env: Environment): Row -> bool {
    (r: Row) => r.prompt == name && r.environment == env
  }

  /** `.order_by(version.desc()).limit(1)` */
  function Latest(rows: seq<Row>, keep: Row -> bool): Option<Row> {
    var sorted := SortDescending(Where(rows, keep), VersionKey());
    if sorted == [] then None else Some(sorted[0])
  }

  /** `list_versions` */
  function ListVersions(t: Tables, name: string): Result<seq<Row>> {
    if name !in t.names then Raised
    else Ok(SortDescending(Where(t.rows, OfPrompt(name)), VersionKey()))
  }

  /** An environment label as passed in: a known one, or a string that is none. `get` takes "" as no label at all. */
  datatype Label = Known(env: Environment) | Unknown

  function Found(row: Option<Row>): Result<Row> {
    if row.Some? then Ok(row.value) else Raised
  }

  /** `get`: by version number, else by environment, else the latest. */
  function Get(t: Tables, name: string, version: Option<int>, environment: Option<Label>): Result<Row> {
    if name !in t.names then Raised
    else if version.Some? then
      Found(Latest(t.rows, OfVersion(name, version.value)))
    else if environment.Some? then
      match environment.value
      case Unknown => Raised
      case Known(env) => Found(Latest(t.rows, InEnvironment(name, env)))
    else Found(Latest(t.rows, OfPrompt(name)))
  }

  // ---------------------------------------------------------------- transactions

  /** Insert under the unique constraint. */
  function Insert(rows: seq<Row>, r: Row): Result<seq<Row>> {
    if HasVersion(rows, r.prompt, r.version) then Raised else Ok(rows + [r])
  }

  function SetEnvironment(rows: seq<Row>, name: string, version: int, env: Environment): (r: seq<Row>)
    ensures |r| == |rows|
  {
    seq(|rows|, i requires 0 <= i < |rows| =>
      if rows[i].prompt == name && rows[i].version == version then rows[i].(environment := env) else rows[i])
  }

  /** A caller of `create_version` between its read and its insert. */
  datatype Session = Idle | HasRead(name: string, highest: int, template: string)

  datatype State = State(tables: Tables, sessions: seq<Session>)

  datatype Step =
    | Create(name: string, template: string)
    | Begin(caller: nat, name: string, template: string)
    | Finish(caller: nat)
    | Promote(name: string, version: int, target: Label)

  /** `create`: the prompt and its version 1, in one transaction; a taken name raises. */
  function CreateIn(t: Tables, name: string, template: string): Tables {
    if name in t.names || HasVersion(t.rows, name, 1) then t
    else Tables(t.names + {name}, t.rows + [Row(name, 1, template, Draft)])
  }

  function PromoteIn(t: Tables, name: string, version: int, target: Label): Tables {
    if name in t.names && target.Known? && HasVersion(t.rows, name, version)
    then t.(rows := SetEnvironment(t.rows, name, version, target.env))
    else t
  }

  /** One atomic database step; a step that raises leaves the tables alone. */
  function Next(s: State, step: Step): State {
    match step
    case Create(name, template) => s.(tables := CreateIn(s.tables, name, template))
    case Begin(c, name, template) =>
      if c < |s.sessions| && name in s.tables.names then
        s.(sessions := s.sessions[c := HasRead(name, MaxVersion(s.tables.rows, name), template)])
      else s
    case Finish(c) =>
      if c < |s.sessions| && s.sessions[c].HasRead? then
        var h := s.sessions[c];
        var inserted := Insert(s.tables.rows, Row(h.name, h.highest + 1, h.template, Draft));
        var rows := if inserted.Ok? then inserted.value else s.tables.rows;
        State(s.tables.(rows := rows), s.sessions[c := Idle])
      else s
    case Promote(name, version, target) => s.(tables := PromoteIn(s.tables, name, version, target))
  }

  function Run(s: State, steps: seq<Step>): State
    decreases |steps|
  {
    if steps == [] then s else Run(Next(s, steps[0]), steps[1..])
  }

  function Initial(callers: nat): State {
    State(Tables({}, []), seq(callers, _ => Idle))
  }

  // ---------------------------------------------------------------- the manager

  class PromptManager {
    var names: set<string>
    var rows: seq<Row>

    function View(): Tables
      reads this
    {
      Tables(names, rows)
    }

    constructor ()
      ensures View() == Tables({}, [])
    {
      names, rows := {}, [];
    }

    method CreatePrompt(name: string, template: string) returns (r: Result<Row>)
      modifies this
      ensures View() == CreateIn(old(View()), name, template)
      ensures r.Ok? <==> name !in old(names) && !HasVersion(old(rows), name, 1)
      ensures r.Ok? ==> r.value == Row(name, 1, template, Draft) && rows == old(rows) + [r.value]
    {
      if name in names || HasVersion(rows, name, 1) {
        return Raised;
      }
      var row := Row(name, 1, template, Draft);
      names := names + {name};
      rows := rows + [row];
      r := Ok(row);
    }

    /** The first half of `create_version`: find the prompt, read its highest version. */
    method ReadHighest(name: string) returns (r: Result<int>)
      ensures r == if name in names then Ok(MaxVersion(rows, name)) else Raised
    {
      if name !in names {
        return Raised;
      }
      var highest := 0;
      for i := 0 to |rows|
        invariant highest == MaxVersion(rows[..i], name)
      {
        assert rows[..i + 1][..i] == rows[..i];
        if rows[i].prompt == name && rows[i].version > highest {
          highest := rows[i].version;
        }
      }
      assert rows[..|rows|] == rows;
      r := Ok(highest);
    }

    /** The second half: insert the next version, or raise when another caller has taken the number. */
    method InsertNext(name: string, highest: int, template: string) returns (r: Result<Row>)
      modifies this`rows
      ensures r.Ok? <==> !HasVersion(old(rows), name, highest + 1)
      ensures r.Ok? ==> r.value == Row(name, highest + 1, template, Draft) && rows == old(rows) + [r.value]
      ensures r == Raised ==> rows == old(rows)
    {
      var row := Row(name, highest + 1, template, Draft);
      if HasVersion(rows, row.prompt, row.version) {
        return Raised;
      }
      rows := rows + [row];
      r := Ok(row);
    }

    method PromoteVersion(name: string, version: int, target: Label) returns (r: Result<()>)
      modifies this`rows
      ensures View() == PromoteIn(old(View()), name, version, target)
      ensures r.Ok? <==> name in names && target.Known? && HasVersion(old(rows), name, version)
      ensures |rows| == |old(rows)|
      ensures forall i :: 0 <= i < |rows| && (rows[i].prompt != name || rows[i].version != version) ==>
                rows[i] == old(rows)[i]
      ensures r.Ok? ==> forall i :: 0 <= i < |rows| && rows[i].prompt == name && rows[i].version == version ==>
                rows[i] == old(rows)[i].(environment := target.env)
      ensures r == Raised ==> rows == old(rows)
    {
      if name !in names || target.Unknown? || !HasVersion(rows, name, version) {
        return Raised;
      }
      rows := SetEnvironment(rows, name, version, target.env);
      r := Ok(());
    }
  }
}
