/** The simple view of an editor buffer: one text and one offset into it. */
module FlatText {

  /** Every line followed by a newline. */
  function Prefix(lines: seq<string>): string {
    if lines == [] then "" else lines[0] + "\n" + Prefix(lines[1..])
  }

  /** Every line preceded by a newline. */
  function Suffix(lines: seq<string>): string {
    if lines == [] then "" else "\n" + lines[0] + Suffix(lines[1..])
  }

  function Join(lines: seq<string>): string
    requires |lines| > 0
  {
    lines[0] + Suffix(lines[1..])
  }

  predicate InRange(lines: seq<string>, row: nat, column: nat) {
    row < |lines| && column <= |lines[row]|
  }

  function Offset(lines: seq<string>, row: nat, column: nat): nat
    requires InRange(lines, row, column)
  {
    |Prefix(lines[..row])| + column
  }

  /** No line holds a newline of its own. */
  predicate Clean(lines: seq<string>) {
    forall i :: 0 <= i < |lines| ==> '\n' !in lines[i]
  }

  /** `t` with the range [a, b) replaced by `mid`. */
  function Splice(t: string, a: nat, b: nat, mid: string): string
    requires a <= b <= |t|
  {
    t[..a] + mid + t[b..]
  }

  lemma {:induction false} PrefixAppend(a: seq<string>, b: seq<string>)
    ensures Prefix(a + b) == Prefix(a) + Prefix(b)
  {
    if a == [] {
      assert a + b == b;
    } else {
      assert (a + b)[1..] == a[1..] + b;
      PrefixAppend(a[1..], b);
    }
  }

  lemma {:induction false} SuffixAppend(a: seq<string>, b: seq<string>)
    ensures Suffix(a + b) == Suffix(a) + Suffix(b)
  {
    if a == [] {
      assert a + b == b;
    } else {
      assert (a + b)[1..] == a[1..] + b;
      SuffixAppend(a[1..], b);
    }
  }

  /** The text around one line: everything before it, the line, everything after it. */
  lemma {:induction false} JoinAround(before: seq<string>, line: string, after: seq<string>)
    ensures Join(before + [line] + after) == Prefix(before) + line + Suffix(after)
  {
    var all := before + [line] + after;
    if before == [] {
      assert all[0] == line && all[1..] == after;
    } else {
      var rest := before[1..];
      assert all[1..] == rest + [line] + after;
      JoinAround(rest, line, after);
      var tail := rest + [line] + after;
      assert Suffix(tail) == "\n" + Join(tail);
    }
  }

  lemma JoinAt(lines: seq<string>, row: nat)
    requires row < |lines|
    ensures Join(lines) == Prefix(lines[..row]) + lines[row] + Suffix(lines[row + 1..])
  {
    assert lines == lines[..row] + [lines[row]] + lines[row + 1..];
    JoinAround(lines[..row], lines[row], lines[row + 1..]);
  }

  lemma OffsetInText(lines: seq<string>, row: nat, column: nat)
    requires InRange(lines, row, column)
    ensures Offset(lines, row, column) <= |Join(lines)|
    ensures column < |lines[row]| ==>
              && Offset(lines, row, column) < |Join(lines)|
              && Join(lines)[Offset(lines, row, column)] == lines[row][column]
    ensures column > 0 ==>
              Offset(lines, row, column) > 0 && Join(lines)[Offset(lines, row, column) - 1] == lines[row][column - 1]
    ensures column == |lines[row]| && row + 1 < |lines| ==>
              Offset(lines, row, column) < |Join(lines)| && Join(lines)[Offset(lines, row, column)] == '\n'
    ensures column == |lines[row]| && row + 1 == |lines| ==> Offset(lines, row, column) == |Join(lines)|
    ensures column == 0 && row == 0 ==> Offset(lines, row, column) == 0
    ensures column == 0 && row > 0 ==>
              Offset(lines, row, column) > 0 && Join(lines)[Offset(lines, row, column) - 1] == '\n'
  {
    JoinAt(lines, row);
    if row > 0 {
      PrefixLast(lines[..row]);
    }
  }

  lemma PrefixLast(lines: seq<string>)
    requires |lines| > 0
    ensures |Prefix(lines)| > 0 && Prefix(lines)[|Prefix(lines)| - 1] == '\n'
    ensures |Prefix(lines)| == |Prefix(lines[..|lines| - 1])| + |lines[|lines| - 1]| + 1
  {
    var last := [lines[|lines| - 1]];
    assert lines == lines[..|lines| - 1] + last;
    PrefixAppend(lines[..|lines| - 1], last);
    assert Prefix(last) == last[0] + "\n";
  }

  /** The end of a line and the start of the next are one newline apart. */
  lemma NextLineOffset(lines: seq<string>, row: nat)
    requires row + 1 < |lines|
    ensures Offset(lines, row + 1, 0) == Offset(lines, row, |lines[row]|) + 1
  {
    PrefixLast(lines[..row + 1]);
    assert lines[..row + 1][..row] == lines[..row];
  }

  /** Replacing inside one line replaces the same range of the text. */
  lemma ReplaceWithin(lines: seq<string>, row: nat, a: nat, b: nat, mid: string)
    requires row < |lines| && a <= b <= |lines[row]|
    ensures Offset(lines, row, b) <= |Join(lines)|
    ensures var after := lines[row := lines[row][..a] + mid + lines[row][b..]];
            Join(after) == Splice(Join(lines), Offset(lines, row, a), Offset(lines, row, b), mid)
            && Offset(after, row, a + |mid|) == Offset(lines, row, a) + |mid|
  {
    var line := lines[row][..a] + mid + lines[row][b..];
    var after := lines[row := line];
    JoinAt(lines, row);
    JoinAt(after, row);
    assert after[..row] == lines[..row] && after[row + 1..] == lines[row + 1..];
    assert lines[row] == lines[row][..a] + lines[row][a..b] + lines[row][b..];
  }

  lemma NewlineBetween(before: string, head: string, tail: string, behind: string)
    ensures var o := |before| + |head|;
            Splice(before + (head + tail) + behind, o, o, "\n") == before + head + ("\n" + tail + behind)
  {
    var t, o := before + (head + tail) + behind, |before| + |head|;
    assert t == (before + head) + (tail + behind);
    assert t[..o] == before + head && t[o..] == tail + behind;
  }

  /** Splitting one line inserts a newline into the text. */
  lemma SplitLine(lines: seq<string>, row: nat, column: nat)
    requires InRange(lines, row, column)
    ensures Offset(lines, row, column) <= |Join(lines)|
    ensures var o := Offset(lines, row, column);
            var after := lines[..row] + [lines[row][..column], lines[row][column..]] + lines[row + 1..];
            Join(after) == Splice(Join(lines), o, o, "\n") && Offset(after, row + 1, 0) == o + 1
  {
    var head, tail := lines[row][..column], lines[row][column..];
    var after := lines[..row] + [head, tail] + lines[row + 1..];
    JoinAt(lines, row);
    JoinAt(after, row);
    assert after[..row] == lines[..row] && after[row] == head;
    assert after[row + 1..] == [tail] + lines[row + 1..];
    assert Suffix(after[row + 1..]) == "\n" + tail + Suffix(lines[row + 1..]);
    assert lines[row] == head + tail;
    NewlineBetween(Prefix(lines[..row]), head, tail, Suffix(lines[row + 1..]));
    NextLineOffset(after, row);
  }

  /** Joining a line with the next removes the newline between them. */
  lemma JoinLines(lines: seq<string>, row: nat)
    requires row + 1 < |lines|
    ensures Offset(lines, row, |lines[row]|) + 1 <= |Join(lines)|
    ensures var o := Offset(lines, row, |lines[row]|);
            var after := lines[..row] + [lines[row] + lines[row + 1]] + lines[row + 2..];
            Join(after) == Splice(Join(lines), o, o + 1, "") && Offset(after, row, |lines[row]|) == o
  {
    var joined := lines[row] + lines[row + 1];
    var after := lines[..row] + [joined] + lines[row + 2..];
    JoinAt(lines, row);
    JoinAt(after, row);
    assert after[..row] == lines[..row] && after[row + 1..] == lines[row + 2..];
    var next := lines[row + 1..];
    assert Suffix(next) == "\n" + next[0] + Suffix(next[1..]) && next[1..] == lines[row + 2..];
  }

  // ----- the flat view determines the buffer

  /** The lines of a text: one more than it has newlines. */
  function Split(t: string): (lines: seq<string>)
    ensures |lines| > 0
  {
    if t == "" then [""]
    else
      var rest := Split(t[1..]);
      if t[0] == '\n' then [""] + rest else [[t[0]] + rest[0]] + rest[1..]
  }

  lemma {:induction false} SplitSound(t: string)
    ensures Join(Split(t)) == t && Clean(Split(t))
  {
    if t != "" {
      var rest := Split(t[1..]);
      SplitSound(t[1..]);
      if t[0] == '\n' {
        assert ([""] + rest)[1..] == rest;
        assert Suffix(rest) == "\n" + Join(rest);
      } else {
        assert ([[t[0]] + rest[0]] + rest[1..])[1..] == rest[1..];
      }
    }
  }

  /** Split undoes Join exactly on lines that hold no newline. */
  lemma {:induction false} SplitJoin(lines: seq<string>)
    requires |lines| > 0
    ensures Clean(lines) <==> Split(Join(lines)) == lines
    decreases |lines|, |lines[0]|
  {
    SplitSound(Join(lines));
    if Clean(lines) {
      if lines[0] != "" {
        var shorter := [lines[0][1..]] + lines[1..];
        SplitJoin(shorter);
        assert shorter[1..] == lines[1..];
        assert Join(lines) == [lines[0][0]] + Join(shorter);
        assert Join(lines)[1..] == Join(shorter);
        assert [lines[0][0]] + shorter[0] == lines[0];
        assert lines == [lines[0]] + lines[1..];
      } else if |lines| > 1 {
        SplitJoin(lines[1..]);
        assert Join(lines) == "\n" + Join(lines[1..]);
        assert Join(lines)[1..] == Join(lines[1..]);
        assert lines == [""] + lines[1..];
      } else {
        assert lines == [""];
      }
    }
  }

  /** Two cursors into the same lines with the same offset are the same cursor. */
  lemma {:induction false} OffsetInjective(lines: seq<string>, r1: nat, c1: nat, r2: nat, c2: nat)
    requires InRange(lines, r1, c1) && InRange(lines, r2, c2)
    requires Offset(lines, r1, c1) == Offset(lines, r2, c2)
    ensures r1 == r2 && c1 == c2
  {
    if r1 < r2 {
      OffsetBelow(lines, r1, r2);
      assert false;
    } else if r2 < r1 {
      OffsetBelow(lines, r2, r1);
      assert false;
    }
  }

  lemma {:induction false} OffsetBelow(lines: seq<string>, r1: nat, r2: nat)
    requires r1 < r2 < |lines|
    ensures Offset(lines, r1, |lines[r1]|) < Offset(lines, r2, 0)
    decreases r2
  {
    NextLineOffset(lines, r2 - 1);
    if r1 < r2 - 1 {
      OffsetBelow(lines, r1, r2 - 1);
    }
  }

  /** Every offset of the text is the offset of some cursor. */
  lemma {:induction false} OffsetSurjective(lines: seq<string>, o: nat) returns (row: nat, column: nat)
    requires |lines| > 0 && o <= |Join(lines)|
    ensures InRange(lines, row, column) && Offset(lines, row, column) == o
  {
    row := 0;
    assert Offset(lines, 0, 0) == 0;
    while o > Offset(lines, row, |lines[row]|)
      invariant row < |lines| && Offset(lines, row, 0) <= o
      decreases |lines| - row
    {
      OffsetInText(lines, row, |lines[row]|);
      NextLineOffset(lines, row);
      row := row + 1;
    }
    column := o - Offset(lines, row, 0);
  }

  /** The text and the offset determine the clean lines, the row and the column. */
  lemma FlatViewDetermines(l1: seq<string>, r1: nat, c1: nat, l2: seq<string>, r2: nat, c2: nat)
    requires InRange(l1, r1, c1) && InRange(l2, r2, c2) && Clean(l1) && Clean(l2)
    requires Join(l1) == Join(l2) && Offset(l1, r1, c1) == Offset(l2, r2, c2)
    ensures l1 == l2 && r1 == r2 && c1 == c2
  {
    SplitJoin(l1);
    SplitJoin(l2);
    OffsetInjective(l1, r1, c1, r2, c2);
  }
}
