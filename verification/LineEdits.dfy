/** The two line edits of client/app.go, for any kind of line. */
module LineEdits {

  /** extra after each line that matches. */
  function InsertAfter<T>(matches: T -> bool, extra: T, lines: seq<T>): seq<T> {
    if lines == [] then []
    else [lines[0]] + (if matches(lines[0]) then [extra] else []) + InsertAfter(matches, extra, lines[1..])
  }

  /** line in place of the first one that matches. */
  function ReplaceFirst<T>(matches: T -> bool, line: T, lines: seq<T>): seq<T> {
    if lines == [] then []
    else if matches(lines[0]) then [line] + lines[1..]
    else [lines[0]] + ReplaceFirst(matches, line, lines[1..])
  }

  lemma InsertNext<T>(matches: T -> bool, extra: T, lines: seq<T>, i: nat, out: seq<T>)
    requires i < |lines|
    ensures out + InsertAfter(matches, extra, lines[i..]) ==
            (if matches(lines[i]) then out + [lines[i]] + [extra] else out + [lines[i]])
              + InsertAfter(matches, extra, lines[i + 1..])
  {
    assert lines[i..][0] == lines[i] && lines[i..][1..] == lines[i + 1..];
  }

  method InsertLoop<T>(matches: T -> bool, extra: T, lines: seq<T>) returns (out: seq<T>)
    ensures out == InsertAfter(matches, extra, lines)
  {
    out := [];
    var i := 0;
    while i < |lines|
      invariant 0 <= i <= |lines|
      invariant out + InsertAfter(matches, extra, lines[i..]) == InsertAfter(matches, extra, lines)
    {
      InsertNext(matches, extra, lines, i, out);
      out := out + [lines[i]];
      if matches(lines[i]) {
        out := out + [extra];
      }
      i := i + 1;
    }
  }

  lemma ReplaceNext<T>(matches: T -> bool, line: T, lines: seq<T>, i: nat)
    requires i < |lines|
    ensures lines[..i] + ReplaceFirst(matches, line, lines[i..]) ==
            if matches(lines[i]) then lines[i := line] else lines[..i + 1] + ReplaceFirst(matches, line, lines[i + 1..])
  {
    assert lines[i..][0] == lines[i] && lines[i..][1..] == lines[i + 1..];
    assert lines[..i + 1] == lines[..i] + [lines[i]];
  }

  method ReplaceLoop<T>(matches: T -> bool, line: T, lines: seq<T>) returns (out: seq<T>)
    ensures out == ReplaceFirst(matches, line, lines)
  {
    var i := 0;
    while i < |lines|
      invariant 0 <= i <= |lines|
      invariant lines[..i] + ReplaceFirst(matches, line, lines[i..]) == ReplaceFirst(matches, line, lines)
    {
      ReplaceNext(matches, line, lines, i);
      if matches(lines[i]) {
        return lines[i := line];
      }
      i := i + 1;
    }
    out := lines;
    assert lines[..i] + [] == lines;
  }

  predicate NoMatch<T>(matches: T -> bool, lines: seq<T>) {
    forall i :: 0 <= i < |lines| ==> !matches(lines[i])
  }

  lemma NoMatchPair<T>(matches: T -> bool, a: T, b: T)
    requires !matches(a) && !matches(b)
    ensures NoMatch(matches, [a, b])
  {
  }

  lemma {:induction false} InsertNothing<T>(matches: T -> bool, extra: T, lines: seq<T>)
    requires NoMatch(matches, lines)
    ensures InsertAfter(matches, extra, lines) == lines
  {
    if lines != [] {
      InsertNothing(matches, extra, lines[1..]);
    }
  }

  /** A line that matches, before lines that do not. */
  lemma {:induction false} InsertOnce<T>(matches: T -> bool, extra: T, line: T, rest: seq<T>)
    requires matches(line) && NoMatch(matches, rest)
    ensures InsertAfter(matches, extra, [line] + rest) == [line, extra] + rest
  {
    assert ([line] + rest)[1..] == rest;
    InsertNothing(matches, extra, rest);
  }

  lemma {:induction false} ReplaceOnce<T>(matches: T -> bool, line: T, before: seq<T>, x: T, rest: seq<T>)
    requires NoMatch(matches, before) && matches(x)
    ensures ReplaceFirst(matches, line, before + [x] + rest) == before + [line] + rest
    decreases |before|
  {
    var all := before + [x] + rest;
    if before == [] {
      assert all == [x] + rest;
    } else {
      assert all[1..] == before[1..] + [x] + rest;
      ReplaceOnce(matches, line, before[1..], x, rest);
      assert [before[0]] + (before[1..] + [line] + rest) == before + [line] + rest;
    }
  }

  /** A text of the shape the server writes: top, before, x, after, last. */
  lemma {:induction false} InsertBelowTop<T>(matches: T -> bool, extra: T, top: T, before: seq<T>, x: T, after: seq<T>,
      last: T)
    requires matches(top) && NoMatch(matches, before) && !matches(x) && NoMatch(matches, after) && !matches(last)
    ensures InsertAfter(matches, extra, [top] + before + [x] + after + [last])
            == [top, extra] + before + [x] + after + [last]
  {
    var rest := before + [x] + after + [last];
    InsertOnce(matches, extra, top, rest);
    assert [top] + rest == [top] + before + [x] + after + [last];
    assert [top, extra] + rest == [top, extra] + before + [x] + after + [last];
  }

  lemma {:induction false} ReplaceBelowTop<T>(matches: T -> bool, line: T, top: T, next: T, before: seq<T>, x: T,
      after: seq<T>, last: T)
    requires !matches(top) && !matches(next) && NoMatch(matches, before) && matches(x)
    ensures ReplaceFirst(matches, line, [top, next] + before + [x] + after + [last]) ==
            [top, next] + before + [line] + after + [last]
  {
    ReplaceOnce(matches, line, [top, next] + before, x, after + [last]);
    assert [top, next] + before + [x] + (after + [last]) == [top, next] + before + [x] + after + [last];
    assert [top, next] + before + [line] + (after + [last]) == [top, next] + before + [line] + after + [last];
  }
}
