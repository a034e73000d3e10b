/**
 * slice_command: a sub-command cut into its argument vector on the space
 * character alone, empty chunks (from runs of spaces) dropped.
 */
module Tokenizer {
  import opened Wrappers
  import opened Strings

  /** arg_list holds 32 pointers, one of which is the terminating NULL. */
  const ArgSlots := 32
  const MaxArgs := ArgSlots - 1

  /** The non-empty parts, in order. */
  function NonEmpty(parts: seq<string>): (r: seq<string>)
    ensures |r| <= |parts|
  {
    if parts == [] then []
    else (if parts[0] == [] then [] else [parts[0]]) + NonEmpty(parts[1..])
  }

  /** The argument vector slice_command builds (without its NULL terminator). */
  function Tokens(s: string): seq<string> {
    NonEmpty(Chunks(s, ' '))
  }

  /** All parts written one after another. */
  function Concat(parts: seq<string>): string {
    if parts == [] then [] else parts[0] + Concat(parts[1..])
  }

  /** s with every occurrence of c removed. */
  function Without(s: string, c: char): string {
    if s == [] then [] else (if s[0] == c then [] else [s[0]]) + Without(s[1..], c)
  }

  /**
   * Number of maximal runs of non-space characters, counted by their last
   * character: one that is not a space and is followed by a space or by the end.
   */
  function Runs(s: string): nat {
    if s == [] then 0
    else (if s[0] != ' ' && (|s| == 1 || s[1] == ' ') then 1 else 0) + Runs(s[1..])
  }

  /**
   * The strsep loop of slice_command: every chunk up to the NULL pointer,
   * empty chunks skipped, the others appended in order. The 32-slot arg_list
   * has room for at most MaxArgs of them.
   */
  method SliceCommand(input: string) returns (argList: seq<string>)
    requires |Tokens(input)| <= MaxArgs
    ensures argList == Tokens(input)
  {
    argList := [];
    var inputCopy: Option<string> := Some(input);
    while inputCopy.Some?
      invariant argList + Pending(inputCopy) == Tokens(input)
      decreases if inputCopy.Some? then |inputCopy.value| + 1 else 0
    {
      var (chunk, rest) := Strsep(inputCopy.value, ' ');
      PendingStep(argList, inputCopy.value);
      inputCopy := rest;
      if chunk == [] {
        continue;
      }
      argList := argList + [chunk];
    }
  }

  /** The tokens still to come from where the strsep pointer stands. */
  ghost function Pending(inputCopy: Option<string>): seq<string> {
    if inputCopy.Some? then Tokens(inputCopy.value) else []
  }

  /** One round of the slice_command loop keeps argList + Pending unchanged. */
  lemma PendingStep(argList: seq<string>, s: string)
    ensures var (chunk, rest) := Strsep(s, ' ');
      argList + Tokens(s) == (if chunk == [] then argList else argList + [chunk]) + Pending(rest)
  {
    var (chunk, rest) := Strsep(s, ' ');
    TokensStep(s);
    var tail := Pending(rest);
    if chunk == [] {
      assert [] + tail == tail;
    } else {
      assert argList + ([chunk] + tail) == (argList + [chunk]) + tail;
    }
  }

  /** Tokens unfolded by one strsep call. */
  lemma TokensStep(s: string)
    ensures var (chunk, rest) := Strsep(s, ' ');
      Tokens(s) == (if chunk == [] then [] else [chunk]) + (if rest.Some? then Tokens(rest.value) else [])
  {
    var (chunk, rest) := Strsep(s, ' ');
    if rest.Some? {
      var tail := Chunks(rest.value, ' ');
      assert Chunks(s, ' ') == [chunk] + tail;
      assert ([chunk] + tail)[1..] == tail;
    }
  }

  /** NonEmpty keeps only non-empty members of its input. */
  lemma {:induction false} NonEmptyMembers(parts: seq<string>)
    ensures forall t :: t in NonEmpty(parts) ==> t != [] && t in parts
  {
    if parts != [] {
      NonEmptyMembers(parts[1..]);
    }
  }

  /** No token is empty and no token holds a space. */
  lemma TokensWellFormed(s: string)
    ensures forall i :: 0 <= i < |Tokens(s)| ==> Tokens(s)[i] != [] && ' ' !in Tokens(s)[i]
  {
    ChunksFree(s, ' ');
    NonEmptyMembers(Chunks(s, ' '));
    forall i | 0 <= i < |Tokens(s)|
      ensures Tokens(s)[i] != [] && ' ' !in Tokens(s)[i]
    {
      assert Tokens(s)[i] in Chunks(s, ' ');
    }
  }

  lemma {:induction false} WithoutAppend(a: string, b: string, c: char)
    ensures Without(a + b, c) == Without(a, c) + Without(b, c)
  {
    if a == [] {
      assert a + b == b;
    } else {
      assert (a + b)[1..] == a[1..] + b;
      WithoutAppend(a[1..], b, c);
    }
  }

  lemma {:induction false} WithoutAbsent(a: string, c: char)
    requires c !in a
    ensures Without(a, c) == a
  {
    if a != [] {
      WithoutAbsent(a[1..], c);
    }
  }

  /** Concat of one (possibly dropped) chunk followed by more parts. */
  lemma ConcatAfterChunk(chunk: string, tail: seq<string>)
    ensures Concat((if chunk == [] then [] else [chunk]) + tail) == chunk + Concat(tail)
  {
    if chunk == [] {
      assert [] + tail == tail;
    } else {
      assert ([chunk] + tail)[1..] == tail;
    }
  }

  /** Removing the spaces around a space-free chunk leaves the chunk. */
  lemma WithoutAfterChunk(chunk: string, rest: string)
    requires ' ' !in chunk
    ensures Without(chunk + [' '] + rest, ' ') == chunk + Without(rest, ' ')
  {
    var tail := [' '] + rest;
    assert chunk + [' '] + rest == chunk + tail;
    WithoutAppend(chunk, tail, ' ');
    WithoutAbsent(chunk, ' ');
    assert tail[0] == ' ' && tail[1..] == rest;
    assert Without(tail, ' ') == Without(rest, ' ');
  }

  /**
   * The tokens, written one after another, are exactly the characters of the
   * input other than the space, in their original order: every tab, newline
   * or other non-space character lands inside a token.
   */

  lemma {:induction false} TokensKeepNonSpaces(s: string)
    ensures Concat(Tokens(s)) == Without(s, ' ')
    decreases |s|
  {
    var r := Strsep(s, ' ');
    TokensStep(s);
    if r.1.Some? {
      TokensKeepNonSpaces(r.1.value);
      ConcatAfterChunk(r.0, Tokens(r.1.value));
      WithoutAfterChunk(r.0, r.1.value);
    } else {
      ConcatAfterChunk(r.0, []);
      WithoutAbsent(r.0, ' ');
      assert (if r.0 == [] then [] else [r.0]) + [] == Tokens(s);
    }
  }

  lemma {:induction false} RunsAfterWord(a: string, b: string)
    requires ' ' !in a
    ensures Runs(a + [' '] + b) == (if a == [] then 0 else 1) + Runs(b)
  {
    if a != [] {
      assert (a + [' '] + b)[1..] == a[1..] + [' '] + b;
      RunsAfterWord(a[1..], b);
    } else {
      assert ([' '] + b)[1..] == b;
    }
  }

  lemma {:induction false} RunsOfWord(a: string)
    requires ' ' !in a
    ensures Runs(a) == if a == [] then 0 else 1
  {
    if |a| > 1 {
      RunsOfWord(a[1..]);
    }
  }

  /** There are exactly as many tokens as maximal runs of non-space characters. */
  lemma {:induction false} TokensCountRuns(s: string)
    ensures |Tokens(s)| == Runs(s)
    decreases |s|
  {
    var (chunk, rest) := Strsep(s, ' ');
    TokensStep(s);
    if rest.Some? {
      TokensCountRuns(rest.value);
      RunsAfterWord(chunk, rest.value);
    } else {
      RunsOfWord(chunk);
    }
  }

  lemma {:induction false} NonEmptyKeeps(parts: seq<string>)
    requires forall i :: 0 <= i < |parts| ==> parts[i] != []
    ensures NonEmpty(parts) == parts
  {
    if parts != [] {
      NonEmptyKeeps(parts[1..]);
    }
  }

  /**
   * Words holding no space, joined by single spaces, come back out of the
   * tokenizer as exactly those words.
   */
  lemma TokensOfWords(words: seq<string>)
    requires |words| >= 1
    requires forall i :: 0 <= i < |words| ==> words[i] != [] && ' ' !in words[i]
    ensures Tokens(Join(words, ' ')) == words
  {
    ChunksOfJoin(words, ' ');
    NonEmptyKeeps(words);
  }

  /**
   * The arguments are exactly the maximal runs of non-space characters: cut
   * the input at every space in any way, and the non-empty pieces, in order,
   * are the arguments.
   */
  lemma TokensAreRuns(s: string, parts: seq<string>)
    requires |parts| >= 1 && Join(parts, ' ') == s
    requires forall i :: 0 <= i < |parts| ==> ' ' !in parts[i]
    ensures Tokens(s) == NonEmpty(parts)
  {
    ChunksOfJoin(parts, ' ');
  }

  /** A tab does not split: "ls\t-l" is one argument. */
  lemma TabIsNotASeparator()
    ensures Tokens("ls\t-l") == ["ls\t-l"]
  {
    TokensOfWords(["ls\t-l"]);
  }
}
