/**
 * The list of shell commands the terminal UI shows: rows are added with fresh ids and
 * updated by id when a command finishes.
 */
module ShellContext {
  import opened Wrappers

  datatype Command = Command(id: int, command: string, args: string, running: bool, exitCode: Option<int>)

  /** The rows, and the module-level counter that numbers them. */
  datatype Shell = Shell(commands: seq<Command>, nextId: int)

  const Empty := Shell([], 0)

  /** The ids rise strictly down the list and all lie below the counter. */
  predicate IdsIncreasing(s: Shell) {
    (forall i, j :: 0 <= i < j < |s.commands| ==> s.commands[i].id < s.commands[j].id)
    && (forall i :: 0 <= i < |s.commands| ==> s.commands[i].id < s.nextId)
  }

  /** `AddShellCommand`: a new row at the end with the next id. */
  function Add(s: Shell, command: string, args: string, running: bool): (r: Shell)
    ensures |r.commands| == |s.commands| + 1 && r.commands[..|s.commands|] == s.commands
    ensures r.nextId == s.nextId + 1
    ensures IdsIncreasing(s) ==> IdsIncreasing(r)
  {
    var row := Command(s.nextId, command, args, running, None);
    assert (s.commands + [row])[..|s.commands|] == s.commands;
    Shell(s.commands + [row], s.nextId + 1)
  }

  /** The update the agent side sends: the row's id, whether it still runs, and its exit code. */
  function Merge(c: Command, id: int, running: bool, exitCode: int): Command {
    c.(id := id, running := running, exitCode := Some(exitCode))
  }

  function UpdateRows(commands: seq<Command>, id: int, running: bool, exitCode: int): (r: seq<Command>)
    ensures |r| == |commands|
    ensures forall i :: 0 <= i < |r| ==>
      r[i] == (if commands[i].id == id then Merge(commands[i], id, running, exitCode) else commands[i])
    decreases |commands|
  {
    if |commands| == 0 then []
    else
      var c := commands[0];
      [if c.id == id then Merge(c, id, running, exitCode) else c] + UpdateRows(commands[1..], id, running, exitCode)
  }

  /** `UpdateShellCommand`: the fields are merged into every row with the matching id. */
  function Update(s: Shell, id: int, running: bool, exitCode: int): (r: Shell)
    ensures |r.commands| == |s.commands| && r.nextId == s.nextId
    ensures forall i :: 0 <= i < |s.commands| ==> r.commands[i].id == s.commands[i].id
    ensures forall i :: 0 <= i < |s.commands| && s.commands[i].id != id ==> r.commands[i] == s.commands[i]
    ensures IdsIncreasing(s) ==> IdsIncreasing(r)
  {
    s.(commands := UpdateRows(s.commands, id, running, exitCode))
  }

  // ---- properties ----

  /** An update for an id no row has changes nothing. */
  lemma {:induction false} UnknownIdIsNoOp(commands: seq<Command>, id: int, running: bool, exitCode: int)
    requires forall i :: 0 <= i < |commands| ==> commands[i].id != id
    ensures UpdateRows(commands, id, running, exitCode) == commands
    decreases |commands|
  {
    if |commands| > 0 {
      UnknownIdIsNoOp(commands[1..], id, running, exitCode);
      assert [commands[0]] + commands[1..] == commands;
    }
  }

  /**
   * With ids unique, an update touches one row: it now holds the new state and exit code,
   * keeps its command text and arguments, and every other row stays as it was.
   */
  lemma UpdateTouchesOneRow(s: Shell, k: nat, running: bool, exitCode: int)
    requires IdsIncreasing(s) && k < |s.commands|
    ensures var r := Update(s, s.commands[k].id, running, exitCode);
      r.commands[k] == s.commands[k].(running := running, exitCode := Some(exitCode))
      && forall i :: 0 <= i < |s.commands| && i != k ==> r.commands[i] == s.commands[i]
  {
    var id := s.commands[k].id;
    forall i | 0 <= i < |s.commands| && i != k ensures s.commands[i].id != id {
      if i < k {
        assert s.commands[i].id < s.commands[k].id;
      } else {
        assert s.commands[k].id < s.commands[i].id;
      }
    }
  }

  /** Repeating an update changes nothing more. */
  lemma UpdateIdempotent(s: Shell, id: int, running: bool, exitCode: int)
    ensures Update(Update(s, id, running, exitCode), id, running, exitCode) == Update(s, id, running, exitCode)
  {
    var once := Update(s, id, running, exitCode);
    var twice := Update(once, id, running, exitCode);
    assert twice.commands == once.commands;
  }

  /** An added row can be found again by its id, and updating it leaves the others alone. */
  lemma AddedRowUpdatable(s: Shell, command: string, args: string, running: bool, exitCode: int)
    requires IdsIncreasing(s)
    ensures var a := Add(s, command, args, true);
      var r := Update(a, s.nextId, running, exitCode);
      r.commands[|s.commands|] == Command(s.nextId, command, args, running, Some(exitCode))
      && r.commands[..|s.commands|] == s.commands
  {
    var a := Add(s, command, args, true);
    UpdateTouchesOneRow(a, |s.commands|, running, exitCode);
    var r := Update(a, s.nextId, running, exitCode);
    assert r.commands[..|s.commands|] == s.commands;
  }
}
