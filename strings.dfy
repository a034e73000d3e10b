/**
 * Character-level helpers shared by the tokenizer and the command splitter:
 * C's isspace, and strsep with the sequence of chunks it hands out.
 */
module Strings {
  import opened Wrappers

  /** isspace in the "C" locale: ' ', '\t', '\n', '\v', '\f' and '\r'. */
  predicate IsSpace(c: char) {
    c == ' ' || 9 <= c as int <= 13
  }

  /** Number of occurrences of c in s. */
  function Occurrences(s: string, c: char): (n: nat)
    ensures n <= |s|
    ensures n == 0 <==> c !in s
  {
    if s == [] then 0 else (if s[0] == c then 1 else 0) + Occurrences(s[1..], c)
  }

  /** Index of the first occurrence of c in s. */
  function IndexOf(s: string, c: char): (k: nat)
    requires c in s
    ensures k < |s| && s[k] == c && c !in s[..k]
  {
    if s[0] == c then 0 else 1 + IndexOf(s[1..], c)
  }

  /**
   * One call of strsep(&s, delim): the text before the first delim, and what
   * the string pointer is left at -- the text after that delim, or NULL when s
   * holds no delim.
   */
  function Strsep(s: string, delim: char): (r: (string, Option<string>))
    ensures delim !in r.0
    ensures r.1.None? <==> delim !in s
    ensures r.1.None? ==> r.0 == s
    ensures r.1.Some? ==> s == r.0 + [delim] + r.1.value
  {
    if delim in s then
      var k := IndexOf(s, delim);
      assert s == s[..k] + [delim] + s[k + 1..];
      (s[..k], Some(s[k + 1..]))
    else
      (s, None)
  }

  /** The chunks that repeated strsep calls hand out, until the pointer is NULL. */
  function Chunks(s: string, delim: char): (parts: seq<string>)
    ensures |parts| >= 1
    decreases |s|
  {
    var (chunk, rest) := Strsep(s, delim);
    if rest.None? then [chunk] else [chunk] + Chunks(rest.value, delim)
  }

  /** The parts written one after another with delim between each two. */
  function Join(parts: seq<string>, delim: char): string
    requires |parts| >= 1
  {
    if |parts| == 1 then parts[0] else parts[0] + [delim] + Join(parts[1..], delim)
  }

  lemma {:induction false} OccurrencesAppend(a: string, b: string, c: char)
    ensures Occurrences(a + b, c) == Occurrences(a, c) + Occurrences(b, c)
  {
    if a != [] {
      assert (a + b)[1..] == a[1..] + b;
      OccurrencesAppend(a[1..], b, c);
    } else {
      assert a + b == b;
    }
  }

  /** The first delimiter after a delimiter-free prefix is the one right after it. */
  lemma {:induction false} IndexAfter(a: string, delim: char, b: string)
    requires delim !in a
    ensures IndexOf(a + [delim] + b, delim) == |a|
  {
    if a != [] {
      assert (a + [delim] + b)[1..] == a[1..] + [delim] + b;
      IndexAfter(a[1..], delim, b);
    }
  }

  /** strsep stops at the delimiter that ends a delimiter-free prefix. */
  lemma StrsepAfter(a: string, delim: char, b: string)
    requires delim !in a
    ensures Strsep(a + [delim] + b, delim) == (a, Some(b))
  {
    var s := a + [delim] + b;
    IndexAfter(a, delim, b);
    assert s[..|a|] == a && s[|a| + 1..] == b;
  }

  /** One chunk per delimiter, plus one. */
  lemma {:induction false} ChunksCount(s: string, delim: char)
    ensures |Chunks(s, delim)| == Occurrences(s, delim) + 1
    decreases |s|
  {
    var (chunk, rest) := Strsep(s, delim);
    if rest.Some? {
      var r := rest.value;
      assert |Chunks(s, delim)| == 1 + |Chunks(r, delim)|;
      ChunksCount(r, delim);
      assert s == chunk + ([delim] + r);
      OccurrencesAppend(chunk, [delim] + r, delim);
      OccurrencesAppend([delim], r, delim);
      assert Occurrences(chunk, delim) == 0 && Occurrences([delim], delim) == 1;
    }
  }

  /** No chunk holds the delimiter. */
  lemma {:induction false} ChunksFree(s: string, delim: char)
    ensures forall i :: 0 <= i < |Chunks(s, delim)| ==> delim !in Chunks(s, delim)[i]
    decreases |s|
  {
    var (chunk, rest) := Strsep(s, delim);
    if rest.Some? {
      ChunksFree(rest.value, delim);
    }
  }

  /** Putting the delimiters back between the chunks gives the input again. */
  lemma {:induction false} JoinChunks(s: string, delim: char)
    ensures Join(Chunks(s, delim), delim) == s
    decreases |s|
  {
    var (chunk, rest) := Strsep(s, delim);
    if rest.Some? {
      JoinChunks(rest.value, delim);
      var tail := Chunks(rest.value, delim);
      assert Chunks(s, delim) == [chunk] + tail;
      assert ([chunk] + tail)[1..] == tail;
    }
  }

  /** Splitting a join of delimiter-free parts gives back exactly those parts. */
  lemma {:induction false} ChunksOfJoin(parts: seq<string>, delim: char)
    requires |parts| >= 1
    requires forall i :: 0 <= i < |parts| ==> delim !in parts[i]
    ensures Chunks(Join(parts, delim), delim) == parts
    decreases |parts|
  {
    if |parts| > 1 {
      var tail := Join(parts[1..], delim);
      StrsepAfter(parts[0], delim, tail);
      ChunksOfJoin(parts[1..], delim);
      assert parts == [parts[0]] + parts[1..];
    }
  }
}
