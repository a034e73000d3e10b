/**
 * multi_command: a line cut on '&' into sub-commands, each trimmed of the
 * isspace characters at both ends. Empty pieces are kept.
 */
module Splitter {
  import opened Wrappers
  import opened Strings

  /** command_list holds 12 pointers, one of which is the terminating NULL. */
  const CommandSlots := 12
  const MaxCommands := CommandSlots - 1

  /** s without its leading isspace characters. */
  function TrimLeft(s: string): string {
    if s != [] && IsSpace(s[0]) then TrimLeft(s[1..]) else s
  }

  /** s without its trailing isspace characters. */
  function TrimRight(s: string): string {
    if s != [] && IsSpace(s[|s| - 1]) then TrimRight(s[..|s| - 1]) else s
  }

  /** TrimLeft removes a prefix made of isspace characters, and all of it. */
  lemma {:induction false} TrimLeftShape(s: string)
    ensures |TrimLeft(s)| <= |s| && TrimLeft(s) == s[|s| - |TrimLeft(s)|..]
    ensures forall i :: 0 <= i < |s| - |TrimLeft(s)| ==> IsSpace(s[i])
    ensures TrimLeft(s) == [] || !IsSpace(TrimLeft(s)[0])
  {
    if s != [] && IsSpace(s[0]) {
      TrimLeftShape(s[1..]);
      var t := TrimLeft(s[1..]);
      assert TrimLeft(s) == t;
      assert s[1..][|s| - 1 - |t|..] == s[|s| - |t|..];
      forall i | 0 <= i < |s| - |t|
        ensures IsSpace(s[i])
      {
        if i > 0 {
          assert s[i] == s[1..][i - 1];
        }
      }
    }
  }

  /** TrimRight removes a suffix made of isspace characters, and all of it. */
  lemma {:induction false} TrimRightShape(s: string)
    ensures |TrimRight(s)| <= |s| && TrimRight(s) == s[..|TrimRight(s)|]
    ensures forall i :: |TrimRight(s)| <= i < |s| ==> IsSpace(s[i])
    ensures TrimRight(s) == [] || !IsSpace(TrimRight(s)[|TrimRight(s)| - 1])
  {
    if s != [] && IsSpace(s[|s| - 1]) {
      TrimRightShape(s[..|s| - 1]);
    }
  }

  function Trim(s: string): string {
    TrimRight(TrimLeft(s))
  }

  /** Each part trimmed, in order. */
  function TrimAll(parts: seq<string>): (r: seq<string>)
    ensures |r| == |parts|
  {
    if parts == [] then [] else [Trim(parts[0])] + TrimAll(parts[1..])
  }

  /** The command list multi_command builds (without its NULL terminator). */
  function SplitCommands(line: string): seq<string> {
    TrimAll(Chunks(line, '&'))
  }

  /**
   * The first trimming loop of multi_command: the start pointer advances
   * while it points at an isspace character (the NUL at the end stops it).
   */
  method SkipLeadingSpaces(piece: string) returns (start: nat)
    ensures start <= |piece| && piece[start..] == TrimLeft(piece)
  {
    start := 0;
    while start < |piece| && IsSpace(piece[start])
      invariant start <= |piece|
      invariant TrimLeft(piece[start..]) == TrimLeft(piece)
    {
      assert piece[start..][1..] == piece[start + 1..];
      start := start + 1;
    }
  }

  /**
   * The second trimming loop: a pointer starts at the last character and,
   * while it is past the first character and points at an isspace character,
   * steps back and cuts the string right after itself. It never looks at the
   * first character, which after the first loop is not isspace.
   */
  method CutTrailingSpaces(text: string) returns (command: string)
    requires text == [] || !IsSpace(text[0])
    ensures command == TrimRight(text)
  {
    command := text;
    var end := |command| - 1;
    while end > 0 && IsSpace(command[end])
      invariant -1 <= end < |command| && |command| == end + 1
      invariant TrimRight(command) == TrimRight(text)
      invariant command == text[..|command|]
    {
      end := end - 1;
      command := command[..end + 1];
    }
    if end == 0 {
      assert command == [text[0]];
    }
  }

  /** The trimming multi_command applies to each piece. */
  method TrimPiece(piece: string) returns (command: string)
    ensures command == Trim(piece)
  {
    var start := SkipLeadingSpaces(piece);
    TrimLeftShape(piece);
    command := CutTrailingSpaces(piece[start..]);
  }

  /**
   * The strsep loop of multi_command: one trimmed command per '&'-separated
   * piece, empty ones included. The 12-slot command_list has room for at most
   * MaxCommands of them.
   */
  method MultiCommand(line: string) returns (commandList: seq<string>)
    requires |Chunks(line, '&')| <= MaxCommands
    ensures commandList == SplitCommands(line)
  {
    commandList := [];
    var inputCopy: Option<string> := Some(line);
    while inputCopy.Some?
      invariant commandList + (if inputCopy.Some? then SplitCommands(inputCopy.value) else []) == SplitCommands(line)
      decreases if inputCopy.Some? then |inputCopy.value| + 1 else 0
    {
      var (chunk, rest) := Strsep(inputCopy.value, '&');
      SplitStep(inputCopy.value);
      inputCopy := rest;
      var command := TrimPiece(chunk);
      commandList := commandList + [command];
    }
  }

  /** SplitCommands unfolded by one strsep call. */
  lemma SplitStep(s: string)
    ensures var (chunk, rest) := Strsep(s, '&');
      SplitCommands(s) == [Trim(chunk)] + (if rest.Some? then SplitCommands(rest.value) else [])
  {
    var (chunk, rest) := Strsep(s, '&');
    if rest.Some? {
      var tail := Chunks(rest.value, '&');
      assert Chunks(s, '&') == [chunk] + tail;
      assert ([chunk] + tail)[1..] == tail;
    }
  }

  /**
   * The trimmed piece is a slice s[a..b] of the piece, everything before a
   * and from b on is isspace, and the slice neither starts nor ends with one.
   */
  lemma TrimIsSlice(s: string)
    ensures exists a, b ::
      (0 <= a <= b <= |s| && Trim(s) == s[a..b]
      && (forall i :: 0 <= i < a ==> IsSpace(s[i]))
      && (forall i :: b <= i < |s| ==> IsSpace(s[i]))
      && (a < b ==> !IsSpace(s[a]) && !IsSpace(s[b - 1])))
  {
    var l := TrimLeft(s);
    TrimLeftShape(s);
    TrimRightShape(l);
    var a := |s| - |l|;
    var b := a + |Trim(s)|;
    assert Trim(s) == s[a..b];
    if a < b {
      assert s[a] == l[0] == Trim(s)[0];
    }
  }

  /** A piece trims to the empty string exactly when it is all isspace. */
  lemma TrimEmpty(s: string)
    ensures Trim(s) == [] <==> forall i :: 0 <= i < |s| ==> IsSpace(s[i])
  {
    var l := TrimLeft(s);
    TrimLeftShape(s);
    TrimRightShape(l);
    if Trim(s) == [] {
      assert l == [];
    } else {
      assert !IsSpace(Trim(s)[0]);
      assert Trim(s)[0] == l[0] == s[|s| - |l|];
    }
  }

  /** Trimming twice trims no more than trimming once. */
  lemma TrimIdempotent(s: string)
    ensures Trim(Trim(s)) == Trim(s)
  {
    var t := Trim(s);
    var l := TrimLeft(s);
    TrimLeftShape(s);
    TrimRightShape(l);
    TrimRightShape(t);
    if t != [] {
      assert t[0] == l[0];
      assert TrimLeft(t) == t;
    }
  }

  /** One command per '&' in the line, plus one. */
  lemma SplitCount(line: string)
    ensures |SplitCommands(line)| == Occurrences(line, '&') + 1
  {
    ChunksCount(line, '&');
  }

  /** A line without '&' is a single command: the line trimmed. */
  lemma SplitWithoutAmpersand(line: string)
    requires '&' !in line
    ensures SplitCommands(line) == [Trim(line)]
  {
    SplitStep(line);
  }

  /** "ls & & pwd": three commands, the middle one empty. */
  lemma DoubledAmpersand()
    ensures SplitCommands("ls & & pwd") == ["ls", "", "pwd"]
  {
    DoubledAmpersandPieces();
    TrimAllOfThree("ls ", " ", " pwd");
    TrimSamples();
  }

  lemma DoubledAmpersandPieces()
    ensures Chunks("ls & & pwd", '&') == ["ls ", " ", " pwd"]
  {
    var parts := ["ls ", " ", " pwd"];
    JoinOfThree(parts[0], parts[1], parts[2], '&');
    assert parts[0] + "&" + parts[1] + "&" + parts[2] == "ls & & pwd";
    ChunksOfJoin(parts, '&');
  }

  lemma TrimAllOfThree(a: string, b: string, c: string)
    ensures TrimAll([a, b, c]) == [Trim(a), Trim(b), Trim(c)]
  {
    assert [a, b, c][1..] == [b, c] && [b, c][1..] == [c];
    assert TrimAll([c]) == [Trim(c)] + TrimAll([]);
    assert TrimAll([b, c]) == [Trim(b)] + [Trim(c)];
  }

  lemma JoinOfThree(a: string, b: string, c: string, delim: char)
    ensures Join([a, b, c], delim) == a + [delim] + b + [delim] + c
  {
    assert [a, b, c][1..] == [b, c];
    assert [b, c][1..] == [c];
    assert Join([b, c], delim) == b + [delim] + c;
    assert a + [delim] + (b + [delim] + c) == a + [delim] + b + [delim] + c;
  }

  lemma TrimSamples()
    ensures Trim("ls ") == "ls" && Trim(" ") == "" && Trim(" pwd") == "pwd"
  {
    assert TrimRight("ls ") == TrimRight("ls");
    assert TrimLeft(" ") == TrimLeft("");
    assert TrimLeft(" pwd") == TrimLeft("pwd");
  }
}
