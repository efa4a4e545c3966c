/** The backwards block scan of `tail` (src/cowrie/core/utils.py). */
module Tail {
  import opened Common

  const NEWLINE: byte := 10
  const BLOCK: nat := 1024

  function CountNewlines(s: seq<byte>): nat {
    if s == [] then 0
    else (if s[0] == NEWLINE then 1 else 0) + CountNewlines(s[1..])
  }

  // What `readlines()` yields from the start of `s`: every line keeps its
  // newline, and bytes after the last newline form one more line.
  function Lines(s: seq<byte>): seq<seq<byte>> {
    if s == [] then []
    else
      var rest := Lines(s[1..]);
      if s[0] == NEWLINE || rest == [] then [[s[0]]] + rest
      else [[s[0]] + rest[0]] + rest[1..]
  }

  function Flatten(lines: seq<seq<byte>>): seq<byte> {
    if lines == [] then [] else lines[0] + Flatten(lines[1..])
  }

  // Python's `s[-n:]`: for n = 0 this is all of `s`, and for n < 0 it drops -n elements.
  function SliceFromMinus<T>(s: seq<T>, n: int): seq<T> {
    if n > 0 then s[Max(0, |s| - n)..] else s[Min(|s|, -n)..]
  }

  // `seek(at)` followed by `read(size)`, which stops at the end of the file.
  function ReadAt(file: seq<byte>, at: nat, size: nat): seq<byte>
    requires at <= |file|
  {
    file[at..Min(|file|, at + size)]
  }

  ghost predicate EndsLine(s: seq<byte>) {
    s != [] && s[|s| - 1] == NEWLINE
  }

  ghost predicate IsLine(l: seq<byte>) {
    l != [] && forall i :: 0 <= i < |l| - 1 ==> l[i] != NEWLINE
  }

  lemma FlattenCons(line: seq<byte>, lines: seq<seq<byte>>)
    ensures Flatten([line] + lines) == line + Flatten(lines)
  {
    assert ([line] + lines)[1..] == lines;
  }

  // Reading line by line loses, adds and reorders no byte.
  lemma {:induction false} LinesConcatenate(s: seq<byte>)
    ensures Flatten(Lines(s)) == s
  {
    if s != [] {
      var head, tail := s[0], s[1..];
      var rest := Lines(tail);
      LinesConcatenate(tail);
      assert s == [head] + tail;
      if head == NEWLINE || rest == [] {
        assert Lines(s) == [[head]] + rest;
        hide Lines, Flatten;
        FlattenCons([head], rest);
      } else {
        assert Lines(s) == [[head] + rest[0]] + rest[1..];
        assert rest == [rest[0]] + rest[1..];
        hide Lines, Flatten;
        FlattenCons([head] + rest[0], rest[1..]);
        FlattenCons(rest[0], rest[1..]);
        ConcatAssociates([head], rest[0], Flatten(rest[1..]));
      }
    }
  }

  // A line holds a newline at its end and nowhere else; only the last line may lack it.
  lemma {:induction false} LinesAreLines(s: seq<byte>, j: nat)
    requires j < |Lines(s)|
    ensures IsLine(Lines(s)[j])
    ensures j < |Lines(s)| - 1 ==> EndsLine(Lines(s)[j])
  {
    var rest := Lines(s[1..]);
    if s[0] == NEWLINE || rest == [] {
      if j > 0 {
        LinesAreLines(s[1..], j - 1);
      }
    } else {
      LinesAreLines(s[1..], j);
    }
  }

  lemma {:induction false} CountSplits(a: seq<byte>, b: seq<byte>)
    ensures CountNewlines(a + b) == CountNewlines(a) + CountNewlines(b)
  {
    if a == [] {
      assert a + b == b;
    } else {
      CountSplits(a[1..], b);
      assert (a + b)[1..] == a[1..] + b;
    }
  }

  lemma LinesCons(head: byte, tail: seq<byte>)
    ensures
      var rest := Lines(tail);
      Lines([head] + tail) ==
        if head == NEWLINE || rest == [] then [[head]] + rest else [[head] + rest[0]] + rest[1..]
    ensures tail != [] ==> Lines(tail) != []
  {
    assert ([head] + tail)[1..] == tail;
  }

  lemma LinesSplitStep(head: byte, tail: seq<byte>, b: seq<byte>)
    requires tail != [] && Lines(tail + b) == Lines(tail) + Lines(b)
    ensures Lines([head] + tail + b) == Lines([head] + tail) + Lines(b)
  {
    LinesCons(head, tail);
    LinesCons(head, tail + b);
    ConcatAssociates([head], tail, b);
    hide Lines;
    var l, m := Lines(tail), Lines(b);
    if head == NEWLINE {
      ConcatAssociates([[head]], l, m);
    } else {
      assert (l + m)[1..] == l[1..] + m;
      ConcatAssociates([[head] + l[0]], l[1..], m);
    }
  }

  // A file cut right after a newline reads as the lines of its two parts.
  lemma {:induction false} LinesSplitAfterNewline(a: seq<byte>, b: seq<byte>)
    requires EndsLine(a)
    ensures Lines(a + b) == Lines(a) + Lines(b)
  {
    var head, tail := a[0], a[1..];
    assert a == [head] + tail && (tail != [] ==> EndsLine(tail)) && (tail == [] ==> head == NEWLINE);
    hide Lines, EndsLine;
    if tail == [] {
      LinesCons(head, []);
      LinesCons(head, b);
      NoLines();
    } else {
      LinesSplitAfterNewline(tail, b);
      LinesSplitStep(head, tail, b);
    }
  }

  lemma NoLines()
    ensures Lines([]) == []
  {
  }

  lemma {:induction false} NewlinesBoundLines(s: seq<byte>)
    ensures CountNewlines(s) <= |Lines(s)|
  {
    if s != [] {
      NewlinesBoundLines(s[1..]);
    }
  }

  lemma LastNOfSuffix<T>(a: seq<T>, b: seq<T>, n: nat)
    requires n <= |b|
    ensures LastN(a + b, n) == LastN(b, n)
  {
  }

  // Two files that share a rest with at least n newlines have the same last n lines.
  lemma SharedRest(a: seq<byte>, b: seq<byte>, rest: seq<byte>, n: nat)
    requires EndsLine(a) && EndsLine(b)
    requires n <= CountNewlines(rest)
    ensures LastN(Lines(a + rest), n) == LastN(Lines(b + rest), n)
  {
    NewlinesBoundLines(rest);
    LinesSplitAfterNewline(a, rest);
    LinesSplitAfterNewline(b, rest);
    LastNOfSuffix(Lines(a), Lines(rest), n);
    LastNOfSuffix(Lines(b), Lines(rest), n);
  }

  lemma {:induction false} SplitAtFirstNewline(s: seq<byte>) returns (first: seq<byte>, rest: seq<byte>)
    requires CountNewlines(s) > 0
    ensures s == first + rest && EndsLine(first)
    ensures CountNewlines(rest) == CountNewlines(s) - 1
  {
    if s[0] == NEWLINE {
      first, rest := [s[0]], s[1..];
    } else {
      first, rest := SplitAtFirstNewline(s[1..]);
      first := [s[0]] + first;
    }
  }

  // The heart of `tail`: a suffix with more than n newlines may start in the
  // middle of a line, and still it ends in the same last n lines as the file.
  lemma SuffixHasLastLines(skipped: seq<byte>, region: seq<byte>, n: nat)
    requires CountNewlines(region) > n
    ensures LastN(Lines(region), n) == LastN(Lines(skipped + region), n)
  {
    hide *;
    var first, rest := SplitAtFirstNewline(region);
    SharedRest(first, skipped + first, rest, n);
    assert (skipped + first) + rest == skipped + region;
  }

  // The newlines counted so far: exact until the whole file has been scanned.
  ghost predicate Scanned(file: seq<byte>, scanned: nat, found: nat) {
    && scanned <= |file|
    && (scanned < |file| ==> found == CountNewlines(file[|file| - scanned..]))
  }

  lemma ScanBlock(file: seq<byte>, scanned: nat, found: nat)
    requires Scanned(file, scanned, found) && scanned < |file|
    ensures
      var block := Min(BLOCK, |file| - scanned);
      var chunk := ReadAt(file, |file| - (block + scanned), BLOCK);
      Scanned(file, scanned + block, found + CountNewlines(chunk))
  {
    var block := Min(BLOCK, |file| - scanned);
    if block == BLOCK {
      var at := |file| - (block + scanned);
      CountSplits(file[at..at + BLOCK], file[|file| - scanned..]);
      assert file[at..] == file[at..at + BLOCK] + file[|file| - scanned..];
    }
  }

  lemma ScanSuffices(file: seq<byte>, scanned: nat, found: nat, n: nat)
    requires Scanned(file, scanned, found)
    requires found > n || scanned == |file|
    ensures LastN(Lines(file[|file| - scanned..]), n) == LastN(Lines(file), n)
  {
    hide Lines, LastN, CountNewlines;
    var at := |file| - scanned;
    if at == 0 {
      assert file[at..] == file;
    } else {
      SuffixHasLastLines(file[..at], file[at..], n);
      assert file[..at] + file[at..] == file;
    }
  }

  /** The last `n` lines of the file, found by reading blocks from its end.
      They are the last n lines for every file unless n = 0 and the file is not empty. */
  method Tail(file: seq<byte>, n: int) returns (lines: seq<seq<byte>>)
    ensures lines == LastN(Lines(file), n) <==> n != 0 || file == []
  {
    var found, scanned := 0, 0;
    while n + 1 > found && |file| > scanned
      invariant 0 <= scanned && 0 <= found && Scanned(file, scanned, found)
      invariant if n < 0 then scanned == 0 else scanned == 0 ==> found == 0
    {
      ScanBlock(file, scanned, found);
      var block := Min(BLOCK, |file| - scanned);
      var at := |file| - (block + scanned);
      scanned := scanned + block;
      found := found + CountNewlines(ReadAt(file, at, BLOCK));
    }
    lines := SliceFromMinus(Lines(file[|file| - scanned..]), n);
    if n > 0 {
      ScanSuffices(file, scanned, found, n);
    }
  }
}
