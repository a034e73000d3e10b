/**
 * The two commands the shell runs in its own process: is_inbuilt, the cd
 * branch of main, and modify_path over the NULL-terminated path array.
 */
module Builtins {
  import opened Wrappers
  import opened Tokenizer

  /** inbuilt_list, without its NULL terminator. */
  const InbuiltNames: seq<string> := ["cd", "path"]

  /** main's path array: char *path[10]. */
  const PathSlots := 10

  /**
   * chdir and getcwd together: from the current directory and a target, the
   * new working directory, or None when chdir fails.
   */
  type ChdirOracle = (string, string) -> Option<string>

  /**
   * is_inbuilt: compare the first argument against each name of inbuilt_list.
   * strcmp is handed arg_list[0], so the command must have a first argument.
   */
  method IsInbuilt(input: string) returns (inbuilt: bool)
    requires 0 < |Tokens(input)| <= MaxArgs
    ensures inbuilt <==> Tokens(input)[0] in InbuiltNames
    ensures inbuilt <==> Tokens(input)[0] == "cd" || Tokens(input)[0] == "path"
  {
    var argList := SliceCommand(input);
    var i := 0;
    while i < |InbuiltNames|
      invariant 0 <= i <= |InbuiltNames|
      invariant forall j :: 0 <= j < i ==> InbuiltNames[j] != argList[0]
    {
      if InbuiltNames[i] == argList[0] {
        return true;
      }
      i := i + 1;
    }
    return false;
  }

  /** The strings of a NULL-terminated array, up to the first NULL. */
  function Terminated(slots: seq<Option<string>>): (entries: seq<string>)
    ensures |entries| <= |slots|
  {
    if slots == [] || slots[0].None? then [] else [slots[0].value] + Terminated(slots[1..])
  }

  /** Slots holding the entries and then a NULL read back as exactly those entries. */
  lemma {:induction false} TerminatedAt(slots: seq<Option<string>>, entries: seq<string>)
    requires |entries| < |slots| && slots[|entries|] == None
    requires forall k :: 0 <= k < |entries| ==> slots[k] == Some(entries[k])
    ensures Terminated(slots) == entries
  {
    if entries != [] {
      TerminatedAt(slots[1..], entries[1..]);
      assert entries == [entries[0]] + entries[1..];
    }
  }

  /**
   * modify_path: path[i-1] = arg_list[i] for every argument after "path",
   * then a NULL right after the last one. Slots past that NULL keep their old,
   * now unreachable, strings. The array must have a slot for that NULL.
   */
  method ModifyPath(argList: seq<string>, path: array<Option<string>>)
    requires 1 <= |argList| <= path.Length
    modifies path
    ensures Terminated(path[..]) == argList[1..]
    ensures path[|argList| - 1] == None
    ensures forall k :: 0 <= k < |argList| - 1 ==> path[k] == Some(argList[k + 1])
    ensures forall k :: |argList| <= k < path.Length ==> path[k] == old(path[k])
  {
    var i := 1;
    while i < |argList|
      invariant 1 <= i <= |argList|
      invariant forall k :: 0 <= k < i - 1 ==> path[k] == Some(argList[k + 1])
      invariant forall k :: i - 1 <= k < path.Length ==> path[k] == old(path[k])
    {
      path[i - 1] := Some(argList[i]);
      i := i + 1;
    }
    path[i - 1] := None;
    TerminatedAt(path[..], argList[1..]);
  }

  /**
   * The cd branch of main: chdir(arg_list[1]). With no argument chdir is
   * handed NULL and fails; arguments after the first are ignored. On failure
   * the working directory stays where it was.
   */
  function ChangeDirectory(cwd: string, argList: seq<string>, chdir: ChdirOracle): (dir: string)
    ensures |argList| < 2 ==> dir == cwd
    ensures |argList| >= 2 && chdir(cwd, argList[1]).None? ==> dir == cwd
    ensures |argList| >= 2 && chdir(cwd, argList[1]).Some? ==> dir == chdir(cwd, argList[1]).value
  {
    if |argList| < 2 then cwd
    else match chdir(cwd, argList[1])
      case Some(d) => d
      case None => cwd
  }
}
