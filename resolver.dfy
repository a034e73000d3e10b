/**
 * The search loop of parse_command: try dir + "/" + program for each
 * directory of the search path in order, stop at the first one the process
 * may execute. Execute permission (access(..., X_OK)) is the set of paths
 * that pass the check.
 */
module Resolver {
  import opened Tokenizer

  /** parse_command builds each candidate in a 1024-byte stack buffer. */
  const CandidateBufferSize := 1024

  datatype Resolution =
    | Found(file: string)   // execvp(file, argv) follows
    | NotFound              // "Command not found in PATH", nothing executed
    | Overflow              // a candidate (with its NUL) did not fit the buffer

  /**
   * access(candidate, X_OK) as seen from a working directory: the candidates
   * that pass there. A relative candidate such as "./x" is looked up from
   * that directory, so the answer depends on it.
   */
  type AccessOracle = string -> set<string>

  /** The path access is asked about for one directory. */
  function Candidate(dir: string, program: string): string {
    dir + "/" + program
  }

  /** The candidate and its terminating NUL fit the buffer. */
  predicate Fits(candidate: string) {
    |candidate| < CandidateBufferSize
  }

  /** The directories in order; the first executable candidate wins. */
  function Resolve(program: string, path: seq<string>, executable: set<string>): Resolution {
    if path == [] then NotFound
    else
      var candidate := Candidate(path[0], program);
      if !Fits(candidate) then Overflow
      else if candidate in executable then Found(candidate)
      else Resolve(program, path[1..], executable)
  }

  /** Directory k is tried and passes: every earlier one was tried and failed. */
  predicate FirstHit(program: string, path: seq<string>, executable: set<string>, k: nat) {
    k < |path|
    && Fits(Candidate(path[k], program)) && Candidate(path[k], program) in executable
    && forall j :: 0 <= j < k ==> Fits(Candidate(path[j], program)) && Candidate(path[j], program) !in executable
  }

  /**
   * parse_command in the child: slice the command, then the search loop over
   * the NULL-terminated path. A NULL program name is only read when the path
   * is not empty.
   */
  method ParseCommand(input: string, path: seq<string>, executable: set<string>) returns (r: Resolution)
    requires |Tokens(input)| <= MaxArgs
    requires path != [] ==> Tokens(input) != []
    ensures path == [] ==> r == NotFound
    ensures path != [] ==> r == Resolve(Tokens(input)[0], path, executable)
  {
    var argList := SliceCommand(input);
    var i := 0;
    var found := false;
    var buffer := "";
    while i < |path| && !found
      invariant 0 <= i <= |path|
      invariant !found && path != [] ==> Resolve(argList[0], path, executable) == Resolve(argList[0], path[i..], executable)
      invariant found ==> path != [] && Resolve(argList[0], path, executable) == Found(buffer)
    {
      assert path[i..][1..] == path[i + 1..];
      buffer := Candidate(path[i], argList[0]);
      if !Fits(buffer) {
        return Overflow;
      }
      found := buffer in executable;
      i := i + 1;
    }
    if !found {
      return NotFound;
    }
    return Found(buffer);
  }

  /** Resolution finds a file exactly at the first hit, and that file is its candidate. */
  lemma {:induction false} FoundIsFirstHit(program: string, path: seq<string>, executable: set<string>, file: string)
    ensures Resolve(program, path, executable) == Found(file)
      <==> exists k: nat :: FirstHit(program, path, executable, k) && file == Candidate(path[k], program)
    decreases |path|
  {
    if path != [] {
      var c := Candidate(path[0], program);
      FoundIsFirstHit(program, path[1..], executable, file);
      if Resolve(program, path, executable) == Found(file) {
        if Fits(c) && c in executable {
          assert FirstHit(program, path, executable, 0);
        } else {
          var k: nat :| FirstHit(program, path[1..], executable, k) && file == Candidate(path[1..][k], program);
          assert FirstHit(program, path, executable, k + 1);
        }
      }
      if exists k: nat :: FirstHit(program, path, executable, k) && file == Candidate(path[k], program) {
        var k: nat :| FirstHit(program, path, executable, k) && file == Candidate(path[k], program);
        if k > 0 {
          assert FirstHit(program, path[1..], executable, k - 1);
        }
      }
    }
  }

  /** "Not found" exactly when every candidate fits and none is executable. */
  lemma {:induction false} NotFoundWhenNoneExecutable(program: string, path: seq<string>, executable: set<string>)
    ensures Resolve(program, path, executable) == NotFound
      <==> forall k :: 0 <= k < |path| ==> Fits(Candidate(path[k], program)) && Candidate(path[k], program) !in executable
    decreases |path|
  {
    if path != [] {
      NotFoundWhenNoneExecutable(program, path[1..], executable);
      assert forall k :: 1 <= k < |path| ==> path[k] == path[1..][k - 1];
    }
  }

  /** Once a directory matched, directories after it are never looked at. */
  lemma {:induction false} LaterDirectoriesIgnored(program: string, path: seq<string>, more: seq<string>, executable: set<string>)
    requires !Resolve(program, path, executable).NotFound?
    ensures Resolve(program, path + more, executable) == Resolve(program, path, executable)
    decreases |path|
  {
    assert (path + more)[0] == path[0];
    var c := Candidate(path[0], program);
    if Fits(c) && c !in executable {
      assert (path + more)[1..] == path[1..] + more;
      LaterDirectoriesIgnored(program, path[1..], more, executable);
    }
  }

  /** Earlier directories win: /a and /b both hold an executable x, /a/x is run. */
  lemma FirstDirectoryWins()
    ensures Resolve("x", ["/a", "/b"], {"/a/x", "/b/x"}) == Found("/a/x")
  {
    assert Candidate("/a", "x") == "/a/x";
  }
}
