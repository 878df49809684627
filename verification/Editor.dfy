/** The prompt editor: lines, a row/column cursor and a wrapping revision, all edited in place. Every
    edit is proved against the flat view, one text and one offset, which determines the buffer. */
module Editor {
  import opened Characters
  import opened FlatText
  import opened Numbers
  import opened Options
  import opened Wrap

  const REVISIONS: nat := 0x1_0000_0000_0000_0000

  type Revision = r: nat | r < REVISIONS

  /** The revision wraps around. */
  function Bumped(revision: nat, count: nat): Revision
  {
    (revision + count) % REVISIONS
  }

  lemma BumpedTwice(revision: nat, count: nat)
    ensures Bumped(Bumped(revision, count), 1) == Bumped(revision, count + 1)
  {
  }

  // ----- what pasted text becomes

  /** CRLF and lone CR become LF. */
  function NormaliseBreaks(s: string): string {
    if s == "" then ""
    else if s[0] != '\r' then [s[0]] + NormaliseBreaks(s[1..])
    else "\n" + NormaliseBreaks(if |s| > 1 && s[1] == '\n' then s[2..] else s[1..])
  }

  /** A control character other than newline and tab becomes the replacement character. */
  function Sanitise(c: char): char {
    if c != '\n' && c != '\t' && IsControl(c) then REPLACEMENT else c
  }

  function SanitiseAll(s: string): string {
    seq(|s|, i requires 0 <= i < |s| => Sanitise(s[i]))
  }

  function Normalise(s: string): string {
    SanitiseAll(NormaliseBreaks(s))
  }

  /** A character the buffer may hold inside a line. */
  predicate Printable(c: char) {
    !IsControl(c) || c == '\t'
  }

  predicate SaneLine(line: string) {
    forall j :: 0 <= j < |line| ==> Printable(line[j])
  }

  /** Every line holds printable characters only, hence no newline. */
  predicate Sane(lines: seq<string>) {
    forall i :: 0 <= i < |lines| ==> SaneLine(lines[i])
  }

  lemma NormaliseStep(s: string)
    requires s != ""
    ensures s[0] == '\r' && |s| > 1 && s[1] == '\n' ==> Normalise(s) == Normalise(s[1..])
    ensures s[0] == '\r' && !(|s| > 1 && s[1] == '\n') ==> Normalise(s) == "\n" + Normalise(s[1..])
    ensures s[0] != '\r' ==> Normalise(s) == [Sanitise(s[0])] + Normalise(s[1..])
  {
    if s[0] == '\r' && |s| > 1 && s[1] == '\n' {
      assert s[1..][1..] == s[2..];
      assert NormaliseBreaks(s) == NormaliseBreaks(s[1..]);
    }
  }

  /** Reading one more character of a paste extends what it inserts. */
  lemma NormaliseNext(s: string, i: nat, inserted: string)
    requires i < |s| && inserted + Normalise(s[i..]) == Normalise(s)
    ensures s[i] == '\r' && i + 1 < |s| && s[i + 1] == '\n' ==> inserted + Normalise(s[i + 1..]) == Normalise(s)
    ensures s[i] == '\r' && !(i + 1 < |s| && s[i + 1] == '\n') ==>
              (inserted + "\n") + Normalise(s[i + 1..]) == Normalise(s)
    ensures s[i] != '\r' ==> (inserted + [Sanitise(s[i])]) + Normalise(s[i + 1..]) == Normalise(s)
  {
    NormaliseStep(s[i..]);
    assert s[i..][1..] == s[i + 1..];
  }

  lemma {:induction false} BreaksSound(s: string)
    ensures '\r' !in NormaliseBreaks(s)
    ensures '\r' !in s ==> NormaliseBreaks(s) == s
  {
    if s != "" {
      BreaksSound(s[1..]);
      if |s| > 1 {
        BreaksSound(s[2..]);
      }
    }
  }

  /** Text may be cut anywhere but inside a CRLF. */
  lemma {:induction false} BreaksConcat(a: string, b: string)
    requires !(a != "" && a[|a| - 1] == '\r' && b != "" && b[0] == '\n')
    ensures NormaliseBreaks(a + b) == NormaliseBreaks(a) + NormaliseBreaks(b)
    decreases |a|
  {
    if a == "" {
      assert a + b == b;
    } else {
      assert (a + b)[1..] == a[1..] + b;
      if a[0] == '\r' && |a| > 1 && a[1] == '\n' {
        assert (a + b)[2..] == a[2..] + b;
        BreaksConcat(a[2..], b);
      } else {
        BreaksConcat(a[1..], b);
      }
    }
  }

  lemma NormaliseConcat(a: string, b: string)
    requires !(a != "" && a[|a| - 1] == '\r' && b != "" && b[0] == '\n')
    ensures Normalise(a + b) == Normalise(a) + Normalise(b)
  {
    BreaksConcat(a, b);
  }

  lemma NormaliseBreak()
    ensures Normalise("\r\n") == Normalise("\r") == Normalise("\n") == "\n"
  {
    assert "\r\n"[2..] == "" && "\r"[1..] == "" && "\n"[1..] == "";
    assert NormaliseBreaks("\r\n") == NormaliseBreaks("\r") == NormaliseBreaks("\n") == "\n" + "";
  }

  /** Each CRLF, each lone CR and each lone LF becomes one newline, wherever it stands. */
  lemma EachBreakIsOneNewline(a: string, b: string)
    ensures Normalise(a + "\r\n" + b) == Normalise(a) + "\n" + Normalise(b)
    ensures !(b != "" && b[0] == '\n') ==> Normalise(a + "\r" + b) == Normalise(a) + "\n" + Normalise(b)
    ensures !(a != "" && a[|a| - 1] == '\r') ==> Normalise(a + "\n" + b) == Normalise(a) + "\n" + Normalise(b)
  {
    NormaliseBreak();
    NormaliseConcat(a, "\r\n");
    NormaliseConcat(a + "\r\n", b);
    NormaliseConcat(a, "\r");
    if !(b != "" && b[0] == '\n') {
      NormaliseConcat(a + "\r", b);
    }
    if !(a != "" && a[|a| - 1] == '\r') {
      NormaliseConcat(a, "\n");
      NormaliseConcat(a + "\n", b);
    }
  }

  /** Any other character becomes one character: itself when it is printable, else the replacement character. */
  lemma OtherCharactersStay(a: string, c: char, b: string)
    requires c != '\r' && c != '\n'
    ensures Normalise(a + [c] + b) == Normalise(a) + [if Printable(c) then c else REPLACEMENT] + Normalise(b)
  {
    NormaliseConcat(a, [c]);
    NormaliseConcat(a + [c], b);
    assert [c][1..] == "";
    assert NormaliseBreaks([c]) == [c] + "";
  }

  /** Text passes unchanged exactly when each character is a newline or printable. */
  lemma NormaliseFixed(s: string)
    ensures Normalise(s) == s <==> forall i :: 0 <= i < |s| ==> s[i] == '\n' || Printable(s[i])
    ensures forall i :: 0 <= i < |Normalise(s)| ==> Normalise(s)[i] == '\n' || Printable(Normalise(s)[i])
    ensures Normalise(Normalise(s)) == Normalise(s)
  {
    BreaksSound(s);
    var n := Normalise(s);
    assert forall i :: 0 <= i < |n| ==> n[i] == Sanitise(NormaliseBreaks(s)[i]) && (n[i] == '\n' || Printable(n[i]));
    assert '\r' !in n;
    BreaksSound(n);
    assert SanitiseAll(n) == n;
    if forall i :: 0 <= i < |s| ==> s[i] == '\n' || Printable(s[i]) {
      assert '\r' !in s;
      assert SanitiseAll(s) == s;
    }
  }

  /** The characters of the lines are the characters of the text, newlines apart. */
  lemma {:induction false} SaneText(lines: seq<string>)
    requires |lines| > 0 && Clean(lines)
    ensures Sane(lines) <==> Normalise(Join(lines)) == Join(lines)
  {
    var t := Join(lines);
    NormaliseFixed(t);
    if Sane(lines) {
      SaneJoin(lines);
    } else {
      var i :| 0 <= i < |lines| && !SaneLine(lines[i]);
      var j :| 0 <= j < |lines[i]| && !Printable(lines[i][j]);
      OffsetInText(lines, i, j);
      assert lines[i][j] in lines[i];
    }
  }

  lemma {:induction false} SaneJoin(lines: seq<string>)
    requires |lines| > 0 && Sane(lines)
    ensures forall i :: 0 <= i < |Join(lines)| ==> Join(lines)[i] == '\n' || Printable(Join(lines)[i])
  {
    if |lines| > 1 {
      SaneJoin(lines[1..]);
      assert Join(lines) == lines[0] + "\n" + Join(lines[1..]);
    }
  }

  /** Setting a buffer to its own text restores its lines exactly when each of its characters is
      printable, which also keeps newlines out of the lines. */
  lemma SetTextRestores(lines: seq<string>)
    requires |lines| > 0
    ensures Sane(lines) <==> Split(Normalise(Join(lines))) == lines
  {
    var t := Join(lines);
    SplitSound(Normalise(t));
    if Sane(lines) {
      assert Clean(lines);
      SaneText(lines);
      SplitJoin(lines);
    } else if Split(Normalise(t)) == lines {
      SaneText(lines);
      NormaliseFixed(t);
      assert false;
    }
  }

  /** Removing one character of a line removes it from the text. */
  lemma RemoveOne(lines: seq<string>, row: nat, column: nat)
    requires row < |lines| && column < |lines[row]|
    ensures var o := Offset(lines, row, column);
            var after := lines[row := lines[row][..column] + lines[row][column + 1..]];
            && Offset(lines, row, column + 1) == o + 1 <= |Join(lines)|
            && Join(after) == Splice(Join(lines), o, o + 1, "")
            && Offset(after, row, column) == o
            && (Sane(lines) ==> Sane(after))
  {
    ReplaceWithin(lines, row, column, column + 1, "");
    ReplaceKeeps(lines, row, column, column + 1, "");
    assert lines[row][..column] + "" + lines[row][column + 1..] == lines[row][..column] + lines[row][column + 1..];
  }

  // ----- moves on the flat text

  /** Leftmost offset reachable from `o` by steps over characters that satisfy `p`. */
  function SkipLeft(t: string, o: nat, p: char -> bool): (r: nat)
    requires o <= |t|
    ensures r <= o
    ensures forall i :: r <= i < o ==> p(t[i])
    ensures r > 0 ==> !p(t[r - 1])
  {
    if o > 0 && p(t[o - 1]) then SkipLeft(t, o - 1, p) else o
  }

  function SkipRight(t: string, o: nat, p: char -> bool): (r: nat)
    requires o <= |t|
    ensures o <= r <= |t|
    ensures forall i :: o <= i < r ==> p(t[i])
    ensures r < |t| ==> !p(t[r])
    decreases |t| - o
  {
    if o < |t| && p(t[o]) then SkipRight(t, o + 1, p) else o
  }

  lemma SkipLeftIs(t: string, o: nat, p: char -> bool, r: nat)
    requires r <= o <= |t|
    requires forall i :: r <= i < o ==> p(t[i])
    requires r > 0 ==> !p(t[r - 1])
    ensures SkipLeft(t, o, p) == r
  {
  }

  lemma SkipRightIs(t: string, o: nat, p: char -> bool, r: nat)
    requires o <= r <= |t|
    requires forall i :: o <= i < r ==> p(t[i])
    requires r < |t| ==> !p(t[r])
    ensures SkipRight(t, o, p) == r
  {
  }

  function WithinLine(): char -> bool {
    c => c != '\n'
  }

  function BlankWithinLine(): char -> bool {
    c => IsWhitespace(c) && c != '\n'
  }

  function SameClass(table: CharacterTable, other: char): char -> bool {
    c => ClassOf(table, c) == ClassOf(table, other)
  }

  function LineStart(t: string, o: nat): nat
    requires o <= |t|
  {
    SkipLeft(t, o, WithinLine())
  }

  function LineEnd(t: string, o: nat): nat
    requires o <= |t|
  {
    SkipRight(t, o, WithinLine())
  }

  /** Where a word move to the left ends: over one line break at a line start, over blanks within the
      line, then over one run of characters of the same class. */
  function WordLeft(table: CharacterTable, t: string, o: nat): (r: nat)
    requires o <= |t|
    ensures r <= o
  {
    WordLeftSkip(table, t, if o > 0 && t[o - 1] == '\n' then o - 1 else o)
  }

  function WordLeftSkip(table: CharacterTable, t: string, start: nat): (r: nat)
    requires start <= |t|
    ensures r <= start
  {
    var word := SkipLeft(t, start, BlankWithinLine());
    if word == 0 || t[word - 1] == '\n' then word
    else SkipLeft(t, word, SameClass(table, t[word - 1]))
  }

  function WordRight(table: CharacterTable, t: string, o: nat): (r: nat)
    requires o <= |t|
    ensures o <= r <= |t|
  {
    WordRightSkip(table, t, if o < |t| && t[o] == '\n' then o + 1 else o)
  }

  function WordRightSkip(table: CharacterTable, t: string, start: nat): (r: nat)
    requires start <= |t|
    ensures start <= r <= |t|
  {
    var word := SkipRight(t, start, BlankWithinLine());
    if word == |t| || t[word] == '\n' then word
    else SkipRight(t, word, SameClass(table, t[word]))
  }

  // ----- word moves within a line

  function Blank(): char -> bool {
    c => IsWhitespace(c)
  }

  /** Where a word move to the left ends in a line: over blanks, then over one run of the same class. */
  function WordStart(table: CharacterTable, line: string, column: nat): (r: nat)
    requires column <= |line|
    ensures r <= column
  {
    var word := SkipLeft(line, column, Blank());
    if word == 0 then 0 else SkipLeft(line, word, SameClass(table, line[word - 1]))
  }

  function WordEnd(table: CharacterTable, line: string, column: nat): (r: nat)
    requires column <= |line|
    ensures column <= r <= |line|
  {
    var word := SkipRight(line, column, Blank());
    if word == |line| then word else SkipRight(line, word, SameClass(table, line[word]))
  }

  datatype Position = Position(row: nat, column: nat)

  /** At a line start the move goes on from the end of the line above. */
  function WordLeftFrom(table: CharacterTable, lines: seq<string>, row: nat, column: nat): (p: Position)
    requires InRange(lines, row, column)
    ensures InRange(lines, p.row, p.column)
  {
    if column > 0 then Position(row, WordStart(table, lines[row], column))
    else if row == 0 then Position(0, 0)
    else Position(row - 1, WordStart(table, lines[row - 1], |lines[row - 1]|))
  }

  function WordRightFrom(table: CharacterTable, lines: seq<string>, row: nat, column: nat): (p: Position)
    requires InRange(lines, row, column)
    ensures InRange(lines, p.row, p.column)
  {
    if column < |lines[row]| then Position(row, WordEnd(table, lines[row], column))
    else if row + 1 == |lines| then Position(row, column)
    else Position(row + 1, WordEnd(table, lines[row + 1], 0))
  }

  /** The characters of one line, at their places in the text. */
  lemma LineInText(lines: seq<string>, row: nat)
    requires row < |lines|
    ensures Offset(lines, row, 0) + |lines[row]| <= |Join(lines)|
    ensures forall k :: Offset(lines, row, 0) <= k < Offset(lines, row, 0) + |lines[row]| ==>
                          Join(lines)[k] == lines[row][k - Offset(lines, row, 0)]
  {
    JoinAt(lines, row);
  }

  /** A step inside a line that stops at its start, or before a character that fails `p`, is the same
      step on the text. */
  lemma LineSkipLeft(lines: seq<string>, row: nat, from: nat, to: nat, p: char -> bool)
    requires InRange(lines, row, from) && to <= from && !p('\n')
    requires forall i :: to <= i < from ==> p(lines[row][i])
    requires to > 0 ==> !p(lines[row][to - 1])
    ensures Offset(lines, row, from) <= |Join(lines)|
    ensures SkipLeft(Join(lines), Offset(lines, row, from), p) == Offset(lines, row, to)
  {
    LineInText(lines, row);
    OffsetInText(lines, row, to);
    SkipLeftIs(Join(lines), Offset(lines, row, from), p, Offset(lines, row, to));
  }

  lemma LineSkipRight(lines: seq<string>, row: nat, from: nat, to: nat, p: char -> bool)
    requires InRange(lines, row, to) && from <= to && !p('\n')
    requires forall i :: from <= i < to ==> p(lines[row][i])
    requires to < |lines[row]| ==> !p(lines[row][to])
    ensures Offset(lines, row, from) <= |Join(lines)|
    ensures SkipRight(Join(lines), Offset(lines, row, from), p) == Offset(lines, row, to)
  {
    LineInText(lines, row);
    OffsetInText(lines, row, to);
    SkipRightIs(Join(lines), Offset(lines, row, from), p, Offset(lines, row, to));
  }

  /** Two insertions at a cursor that follows the first are one insertion. */
  lemma SpliceTwice(t: string, o: nat, first: string, second: string)
    requires o <= |t|
    ensures Splice(Splice(t, o, o, first), o + |first|, o + |first|, second) == Splice(t, o, o, first + second)
  {
    var once := Splice(t, o, o, first);
    assert once[..o + |first|] == t[..o] + first;
    assert once[o + |first|..] == t[o..];
  }

  lemma BlanksInLine(lines: seq<string>, row: nat, a: nat, b: nat)
    requires Clean(lines) && InRange(lines, row, b) && forall i :: a <= i < b ==> IsWhitespace(lines[row][i])
    ensures forall i :: a <= i < b ==> BlankWithinLine()(lines[row][i])
  {
    forall i | a <= i < b
      ensures BlankWithinLine()(lines[row][i])
    {
      assert lines[row][i] in lines[row];
    }
  }

  lemma ClassLeftInLine(table: CharacterTable, lines: seq<string>, row: nat, word: nat, end: nat)
    requires InRange(lines, row, word) && end <= word && word > 0 && !IsWhitespace(lines[row][word - 1])
    requires forall i :: end <= i < word ==> ClassOf(table, lines[row][i]) == ClassOf(table, lines[row][word - 1])
    requires end > 0 ==> ClassOf(table, lines[row][end - 1]) != ClassOf(table, lines[row][word - 1])
    ensures Offset(lines, row, word) <= |Join(lines)|
    ensures SkipLeft(Join(lines), Offset(lines, row, word), SameClass(table, lines[row][word - 1]))
            == Offset(lines, row, end)
  {
    var line, p := lines[row], SameClass(table, lines[row][word - 1]);
    assert !p('\n') && forall i :: end <= i < word ==> p(line[i]);
    LineSkipLeft(lines, row, word, end, p);
  }

  lemma ClassRightInLine(table: CharacterTable, lines: seq<string>, row: nat, word: nat, end: nat)
    requires InRange(lines, row, end) && word <= end && word < |lines[row]| && !IsWhitespace(lines[row][word])
    requires forall i :: word <= i < end ==> ClassOf(table, lines[row][i]) == ClassOf(table, lines[row][word])
    requires end < |lines[row]| ==> ClassOf(table, lines[row][end]) != ClassOf(table, lines[row][word])
    ensures Offset(lines, row, word) <= |Join(lines)|
    ensures SkipRight(Join(lines), Offset(lines, row, word), SameClass(table, lines[row][word]))
            == Offset(lines, row, end)
  {
    var line, p := lines[row], SameClass(table, lines[row][word]);
    assert !p('\n') && forall i :: word <= i < end ==> p(line[i]);
    LineSkipRight(lines, row, word, end, p);
  }

  lemma RunLeftInLine(table: CharacterTable, lines: seq<string>, row: nat, word: nat)
    requires InRange(lines, row, word) && word > 0 && !IsWhitespace(lines[row][word - 1])
    ensures var t, o := Join(lines), Offset(lines, row, word);
            && 0 < o <= |t| && t[o - 1] == lines[row][word - 1]
            && SkipLeft(t, o, SameClass(table, t[o - 1]))
               == Offset(lines, row, SkipLeft(lines[row], word, SameClass(table, lines[row][word - 1])))
  {
    OffsetInText(lines, row, word);
    ClassLeftInLine(table, lines, row, word, SkipLeft(lines[row], word, SameClass(table, lines[row][word - 1])));
  }

  lemma RunRightInLine(table: CharacterTable, lines: seq<string>, row: nat, word: nat)
    requires InRange(lines, row, word) && word < |lines[row]| && !IsWhitespace(lines[row][word])
    ensures var t, o := Join(lines), Offset(lines, row, word);
            && o < |t| && t[o] == lines[row][word]
            && SkipRight(t, o, SameClass(table, t[o]))
               == Offset(lines, row, SkipRight(lines[row], word, SameClass(table, lines[row][word])))
  {
    OffsetInText(lines, row, word);
    ClassRightInLine(table, lines, row, word, SkipRight(lines[row], word, SameClass(table, lines[row][word])));
  }

  lemma BlanksLeftInLine(lines: seq<string>, row: nat, start: nat)
    requires Clean(lines) && InRange(lines, row, start)
    ensures Offset(lines, row, start) <= |Join(lines)|
    ensures SkipLeft(Join(lines), Offset(lines, row, start), BlankWithinLine())
            == Offset(lines, row, SkipLeft(lines[row], start, Blank()))
  {
    var word := SkipLeft(lines[row], start, Blank());
    BlanksInLine(lines, row, word, start);
    LineSkipLeft(lines, row, start, word, BlankWithinLine());
  }

  lemma BlanksRightInLine(lines: seq<string>, row: nat, start: nat)
    requires Clean(lines) && InRange(lines, row, start)
    ensures Offset(lines, row, start) <= |Join(lines)|
    ensures SkipRight(Join(lines), Offset(lines, row, start), BlankWithinLine())
            == Offset(lines, row, SkipRight(lines[row], start, Blank()))
  {
    var word := SkipRight(lines[row], start, Blank());
    BlanksInLine(lines, row, start, word);
    LineSkipRight(lines, row, start, word, BlankWithinLine());
  }

  /** A word move in a line without newlines is one in the text. */
  lemma WordLeftInLine(table: CharacterTable, lines: seq<string>, row: nat, start: nat)
    requires Clean(lines) && InRange(lines, row, start)
    ensures Offset(lines, row, start) <= |Join(lines)|
    ensures WordLeftSkip(table, Join(lines), Offset(lines, row, start))
            == Offset(lines, row, WordStart(table, lines[row], start))
  {
    var word := SkipLeft(lines[row], start, Blank());
    BlanksLeftInLine(lines, row, start);
    if word > 0 {
      RunLeftInLine(table, lines, row, word);
    } else {
      OffsetInText(lines, row, word);
    }
  }

  lemma WordRightInLine(table: CharacterTable, lines: seq<string>, row: nat, start: nat)
    requires Clean(lines) && InRange(lines, row, start)
    ensures Offset(lines, row, start) <= |Join(lines)|
    ensures WordRightSkip(table, Join(lines), Offset(lines, row, start))
            == Offset(lines, row, WordEnd(table, lines[row], start))
  {
    var word := SkipRight(lines[row], start, Blank());
    BlanksRightInLine(lines, row, start);
    if word < |lines[row]| {
      RunRightInLine(table, lines, row, word);
    } else {
      OffsetInText(lines, row, word);
    }
  }

  /** At a line start a word move first steps over one line break. */
  lemma CursorStartLeft(lines: seq<string>, row: nat, column: nat)
    requires Clean(lines) && InRange(lines, row, column)
    ensures var o, t := Offset(lines, row, column), Join(lines);
            && o <= |t|
            && (column == 0 && row > 0 ==>
                  o > 0 && t[o - 1] == '\n' && Offset(lines, row - 1, |lines[row - 1]|) == o - 1)
            && (column > 0 || row == 0 ==> !(o > 0 && t[o - 1] == '\n'))
  {
    OffsetInText(lines, row, column);
    if column > 0 {
      assert lines[row][column - 1] in lines[row];
    } else if row > 0 {
      NextLineOffset(lines, row - 1);
    }
  }

  lemma CursorStartRight(lines: seq<string>, row: nat, column: nat)
    requires Clean(lines) && InRange(lines, row, column)
    ensures var o, t := Offset(lines, row, column), Join(lines);
            && o <= |t|
            && (column == |lines[row]| && row + 1 < |lines| ==>
                  o < |t| && t[o] == '\n' && Offset(lines, row + 1, 0) == o + 1)
            && (column < |lines[row]| || row + 1 == |lines| ==> !(o < |t| && t[o] == '\n'))
  {
    OffsetInText(lines, row, column);
    if column < |lines[row]| {
      assert lines[row][column] in lines[row];
    } else if row + 1 < |lines| {
      NextLineOffset(lines, row);
    }
  }

  /** In a buffer without newlines in its lines, a word move is the one of its text. */
  lemma WordLeftIsFlat(table: CharacterTable, lines: seq<string>, row: nat, column: nat)
    requires Clean(lines) && InRange(lines, row, column)
    ensures Offset(lines, row, column) <= |Join(lines)|
    ensures var p := WordLeftFrom(table, lines, row, column);
            Offset(lines, p.row, p.column) == WordLeft(table, Join(lines), Offset(lines, row, column))
  {
    CursorStartLeft(lines, row, column);
    if column == 0 && row > 0 {
      WordLeftInLine(table, lines, row - 1, |lines[row - 1]|);
    } else {
      WordLeftInLine(table, lines, row, column);
    }
  }

  lemma WordRightIsFlat(table: CharacterTable, lines: seq<string>, row: nat, column: nat)
    requires Clean(lines) && InRange(lines, row, column)
    ensures Offset(lines, row, column) <= |Join(lines)|
    ensures var p := WordRightFrom(table, lines, row, column);
            Offset(lines, p.row, p.column) == WordRight(table, Join(lines), Offset(lines, row, column))
  {
    CursorStartRight(lines, row, column);
    if column == |lines[row]| && row + 1 < |lines| {
      WordRightInLine(table, lines, row + 1, 0);
    } else {
      WordRightInLine(table, lines, row, column);
    }
  }

  lemma LineStartIs(lines: seq<string>, row: nat, column: nat)
    requires Clean(lines) && InRange(lines, row, column)
    ensures Offset(lines, row, column) <= |Join(lines)|
    ensures LineStart(Join(lines), Offset(lines, row, column)) == Offset(lines, row, 0)
  {
    assert forall i :: 0 <= i < |lines[row]| ==> lines[row][i] in lines[row];
    LineSkipLeft(lines, row, column, 0, WithinLine());
  }

  lemma LineEndIs(lines: seq<string>, row: nat, column: nat)
    requires Clean(lines) && InRange(lines, row, column)
    ensures Offset(lines, row, column) <= |Join(lines)|
    ensures LineEnd(Join(lines), Offset(lines, row, column)) == Offset(lines, row, |lines[row]|)
  {
    assert forall i :: 0 <= i < |lines[row]| ==> lines[row][i] in lines[row];
    LineSkipRight(lines, row, column, |lines[row]|, WithinLine());
  }

  /** Removing the line after `row` and appending it to line `row`. */
  function Joined(lines: seq<string>, row: nat): seq<string>
    requires row + 1 < |lines|
  {
    (lines[..row + 1] + lines[row + 2..])[row := lines[row] + lines[row + 1]]
  }

  lemma JoinedRefines(lines: seq<string>, row: nat)
    requires row + 1 < |lines|
    ensures Offset(lines, row + 1, 0) == Offset(lines, row, |lines[row]|) + 1 <= |Join(lines)|
    ensures var o := Offset(lines, row, |lines[row]|);
            && Join(Joined(lines, row)) == Splice(Join(lines), o, o + 1, "")
            && Offset(Joined(lines, row), row, |lines[row]|) == o
    ensures Sane(lines) ==> Sane(Joined(lines, row))
  {
    JoinLines(lines, row);
    NextLineOffset(lines, row);
    assert Joined(lines, row) == lines[..row] + [lines[row] + lines[row + 1]] + lines[row + 2..];
    if Sane(lines) {
      assert SaneLine(lines[row]) && SaneLine(lines[row + 1]);
    }
  }

  /** What a replacement inside a line does to the lines' own invariants. */
  lemma ReplaceKeeps(lines: seq<string>, row: nat, a: nat, b: nat, mid: string)
    requires row < |lines| && a <= b <= |lines[row]|
    ensures var after := lines[row := lines[row][..a] + mid + lines[row][b..]];
            && (Clean(lines) ==> (Clean(after) <==> '\n' !in mid))
            && (Sane(lines) ==> (Sane(after) <==> SaneLine(mid)))
  {
    var line := lines[row][..a] + mid + lines[row][b..];
    var after := lines[row := line];
    assert forall i :: 0 <= i < |mid| ==> line[a + i] == mid[i];
    assert forall i :: 0 <= i < |lines| && i != row ==> after[i] == lines[i];
    assert after[row] == line;
    if Clean(lines) && Clean(after) {
      assert '\n' !in line;
    }
    if Sane(lines) {
      assert SaneLine(lines[row]);
      if Sane(after) {
        assert SaneLine(line);
      }
    }
  }

  datatype CursorToken = CursorToken(text: string, atPromptStart: bool, characterCount: nat)

  /** One more than the last index from `lo` on whose character satisfies `p`, or `lo`. */
  function AfterLast(s: string, lo: nat, hi: nat, p: char -> bool): (r: nat)
    requires lo <= hi <= |s|
    ensures lo <= r <= hi
    ensures forall i :: r <= i < hi ==> !p(s[i])
    ensures r > lo ==> p(s[r - 1])
  {
    if lo == hi then lo
    else if p(s[hi - 1]) then hi
    else AfterLast(s, lo, hi - 1, p)
  }

  /** The token that ends `prefix` starts at `start`: no blank in it, no later slash, and it cannot
      start earlier. */
  predicate IsToken(prefix: string, start: nat) {
    && start <= |prefix|
    && (forall i :: start <= i < |prefix| ==> !IsWhitespace(prefix[i]))
    && (forall i :: start < i < |prefix| ==> prefix[i] != '/')
    && (|| start == 0
        || IsWhitespace(prefix[start - 1])
        || (start < |prefix| && prefix[start] == '/'))
  }

  function TokenStart(prefix: string): (start: nat)
    ensures IsToken(prefix, start)
  {
    var word := AfterLast(prefix, 0, |prefix|, IsWhitespace);
    var slash := AfterLast(prefix, word, |prefix|, c => c == '/');
    if slash == word then word else slash - 1
  }

  /** The token before a cursor is determined by what it may and may not hold. */
  lemma TokenUnique(prefix: string, start: nat)
    requires IsToken(prefix, start)
    ensures start == TokenStart(prefix)
  {
  }

  type u16 = n: nat | n < 0x1_0000

  datatype EditorWindow = EditorWindow(lines: seq<string>, promptLineStarts: seq<bool>, cursorX: u16, cursorY: u16)

  /** The display row of the cursor, counted over all lines. */
  function CursorRow(table: CharacterTable, width: nat, lines: seq<string>, row: nat, column: nat): nat
    requires width > 0 && InRange(lines, row, column)
  {
    |Visual(table, width, lines[..row])| + LineCursor(table, width, lines[row], column).row
  }

  /** The cursor's display row is one of the rows of its own line. */
  lemma CursorRowShown(table: CharacterTable, width: nat, lines: seq<string>, row: nat, column: nat)
    requires width > 0 && InRange(lines, row, column)
    ensures CursorRow(table, width, lines, row, column) < |Visual(table, width, lines)|
    ensures Visual(table, width, lines)[CursorRow(table, width, lines, row, column)]
         == LineRows(table, width, lines[row])[LineCursor(table, width, lines[row], column).row]
  {
    VisualPrefix(table, width, lines, row + 1);
    assert lines[..row + 1][..row] == lines[..row];
    InMiddle(Visual(table, width, lines), Visual(table, width, lines[..row]), LineRows(table, width, lines[row]),
             LineCursor(table, width, lines[row], column).row);
  }

  lemma InMiddle<T>(all: seq<T>, before: seq<T>, own: seq<T>, k: nat)
    requires before + own <= all && k < |own|
    ensures |before| + k < |all| && all[|before| + k] == own[k]
  {
    assert all[..|before + own|] == before + own;
  }

  /** The first of `n` rows starts the prompt when they show the first line. */
  function Starts(n: nat, firstLine: bool): seq<bool> {
    seq(n, i => firstLine && i == 0)
  }

  /** What the window's loop has built after `r` lines. */
  ghost predicate Scanned(table: CharacterTable, v: nat, lines: seq<string>, row: nat, column: nat, r: nat,
                          visual: seq<string>, starts: seq<bool>, cursor: Place)
    requires v > 0 && InRange(lines, row, column)
  {
    && r <= |lines|
    && visual == Visual(table, v, lines[..r])
    && |starts| == |visual|
    && (r > 0 ==> |visual| > 0)
    && (forall i :: 0 <= i < |starts| ==> (starts[i] <==> i == 0))
    && (r > row ==> cursor == Place(CursorRow(table, v, lines, row, column),
                                    LineCursor(table, v, lines[row], column).column))
  }

  lemma ScannedNext(table: CharacterTable, v: nat, lines: seq<string>, row: nat, column: nat, r: nat,
                    visual: seq<string>, starts: seq<bool>, cursor: Place)
    requires v > 0 && InRange(lines, row, column) && r < |lines|
    requires Scanned(table, v, lines, row, column, r, visual, starts, cursor)
    ensures var shown := LineRows(table, v, lines[r]);
            var place := LineCursor(table, v, lines[row], column);
            Scanned(table, v, lines, row, column, r + 1, visual + shown, starts + Starts(|shown|, r == 0),
                    if r == row then Place(|visual| + place.row, place.column) else cursor)
  {
    assert lines[..r + 1][..r] == lines[..r];
  }

  function FirstVisible(h: nat, cursorRow: nat): nat
    requires h > 0
  {
    if cursorRow < h then 0 else cursorRow - (h - 1)
  }

  /** The window shows as many consecutive display rows as fit: from the first one on when the cursor's row is
      among those, and otherwise up to the cursor's row. The prompt is marked at the first display row alone. */
  ghost predicate ShowsRows(all: seq<string>, h: nat, at: nat, w: EditorWindow)
    requires h > 0 && at < |all|
  {
    && w.cursorY == (if at < h then at else h - 1)
    && |w.lines| == |w.promptLineStarts| == (if |all| < h then |all| else h)
    && w.lines == all[at - w.cursorY..at - w.cursorY + |w.lines|]
    && forall i :: 0 <= i < |w.lines| ==> (w.promptLineStarts[i] <==> at < h && i == 0)
  }

  /** The cursor stands at its place in its row, inside the terminal. */
  ghost predicate ShowsCursor(table: CharacterTable, h: nat, v: nat, lines: seq<string>, row: nat, column: nat,
                              w: EditorWindow)
    requires h > 0 && v > 0 && InRange(lines, row, column)
  {
    var all, at := Visual(table, v, lines), CursorRow(table, v, lines, row, column);
    var place := LineCursor(table, v, lines[row], column);
    && at < |all|
    && ShowsRows(all, h, at, w)
    && w.cursorX == (if place.column < v then place.column else v - 1) < v
    && w.cursorY < |w.lines|
    && w.lines[w.cursorY] == LineRows(table, v, lines[row])[place.row]
  }

  /** Each row shows cells of one line, and no more than `v` columns of them. */
  ghost predicate FitsDisplay(table: CharacterTable, v: nat, lines: seq<string>, shown: seq<string>)
    requires v > 0
  {
    forall i :: 0 <= i < |shown| ==> FittingRow(table, v, lines, shown[i])
  }

  /** The part of the display that the window shows. */
  function Visible(visual: seq<string>, starts: seq<bool>, cursor: Place, h: u16, v: u16): EditorWindow
    requires h > 0 && v > 0 && |starts| == |visual| && cursor.row < |visual|
  {
    var first := FirstVisible(h, cursor.row);
    var last := if first + h <= |visual| then first + h else |visual|;
    EditorWindow(visual[first..last], starts[first..last],
                 if cursor.column < v then cursor.column else v - 1, cursor.row - first)
  }

  lemma VisibleShowsCursor(table: CharacterTable, h: u16, v: u16, lines: seq<string>, row: nat, column: nat,
                           starts: seq<bool>, w: EditorWindow)
    requires h > 0 && v > 0 && InRange(lines, row, column)
    requires |starts| == |Visual(table, v, lines)| && forall i :: 0 <= i < |starts| ==> (starts[i] <==> i == 0)
    requires CursorRow(table, v, lines, row, column) < |starts|
    requires w == Visible(Visual(table, v, lines), starts,
                          Place(CursorRow(table, v, lines, row, column),
                                LineCursor(table, v, lines[row], column).column), h, v)
    ensures ShowsCursor(table, h, v, lines, row, column, w)
  {
    CursorRowShown(table, v, lines, row, column);
  }

  lemma PartFits(table: CharacterTable, v: nat, lines: seq<string>, first: nat, shown: seq<string>)
    requires v > 0 && first + |shown| <= |Visual(table, v, lines)|
    requires shown == Visual(table, v, lines)[first..first + |shown|]
    ensures FitsDisplay(table, v, lines, shown)
  {
    forall i | 0 <= i < |shown| ensures FittingRow(table, v, lines, shown[i]) {
      VisualFits(table, v, lines, first + i);
    }
  }

  class EditorState {
    var lines: seq<string>
    var row: nat
    var column: nat
    var revision: Revision

    ghost predicate Valid()
      reads this`lines, this`row, this`column
    {
      InRange(lines, row, column)
    }

    ghost function Text(): string
      requires Valid()
      reads this`lines, this`row, this`column
    {
      Join(lines)
    }

    ghost function Cursor(): (o: nat)
      requires Valid()
      reads this`lines, this`row, this`column
      ensures o <= |Text()|
    {
      OffsetInText(lines, row, column);
      Offset(lines, row, column)
    }

    /** A line holds no newline, and no control character but tab. */
    ghost predicate Tidy()
      reads this`lines
    {
      Sane(lines)
    }

    constructor ()
      ensures Valid() && Tidy() && Text() == "" && Cursor() == 0 && revision == 0
    {
      lines, row, column, revision := [""], 0, 0, 0;
    }

    method MarkChanged()
      requires Valid()
      modifies this`revision
      ensures revision == Bumped(old(revision), 1)
    {
      revision := Bumped(revision, 1);
    }

    method Clear()
      requires Valid()
      modifies this
      ensures Valid() && Tidy() && lines == [""] && Text() == "" && Cursor() == 0
      ensures revision == Bumped(old(revision), 1)
    {
      lines, row, column := [""], 0, 0;
      MarkChanged();
    }

    /** The text becomes the normalised argument, whatever the buffer held. */
    method SetText(text: string)
      requires Valid()
      modifies this
      ensures Valid() && Tidy()
      ensures Text() == Normalise(text) && lines == Split(Normalise(text)) && Cursor() == |Text()|
    {
      Clear();
      InsertStr(text);
      SplitJoin(lines);
    }

    method InsertChar(c: char)
      requires Valid()
      modifies this
      ensures Valid() && (old(Tidy()) ==> Tidy())
      ensures c == '\r' ==> lines == old(lines) && row == old(row) && column == old(column) && revision == old(revision)
      ensures c != '\r' ==>
                && Text() == Splice(old(Text()), old(Cursor()), old(Cursor()), [Sanitise(c)])
                && Cursor() == old(Cursor()) + 1
                && revision == Bumped(old(revision), 1)
    {
      if c == '\n' {
        InsertNewline();
      } else if c == '\r' {
      } else if c == '\t' {
        InsertVisibleChar('\t');
      } else if IsControl(c) {
        InsertVisibleChar(REPLACEMENT);
      } else {
        InsertVisibleChar(c);
      }
    }

    /** Inserts exactly the normalised text at the cursor and leaves the cursor behind it. */
    method InsertStr(s: string)
      requires Valid()
      modifies this
      ensures Valid() && (old(Tidy()) ==> Tidy())
      ensures Text() == Splice(old(Text()), old(Cursor()), old(Cursor()), Normalise(s))
      ensures Cursor() == old(Cursor()) + |Normalise(s)|
      ensures revision == Bumped(old(revision), |Normalise(s)|)
    {
      ghost var t, o, inserted := Text(), Cursor(), "";
      var i := 0;
      assert s[0..] == s && Splice(t, o, o, "") == t;
      while i < |s|
        invariant i <= |s| && Valid() && (old(Tidy()) ==> Tidy())
        invariant inserted + Normalise(s[i..]) == Normalise(s)
        invariant Text() == Splice(t, o, o, inserted) && Cursor() == o + |inserted|
        invariant revision == Bumped(old(revision), |inserted|)
      {
        var c := s[i];
        NormaliseNext(s, i, inserted);
        i := i + 1;
        if c == '\r' {
          if i < |s| && s[i] == '\n' {
            continue;
          }
          InsertNewline();
          BumpedTwice(old(revision), |inserted|);
          SpliceTwice(t, o, inserted, "\n");
          inserted := inserted + "\n";
        } else {
          InsertChar(c);
          BumpedTwice(old(revision), |inserted|);
          SpliceTwice(t, o, inserted, [Sanitise(c)]);
          inserted := inserted + [Sanitise(c)];
        }
      }
    }

    method InsertNewline()
      requires Valid()
      modifies this
      ensures Valid() && (old(Tidy()) ==> Tidy())
      ensures Text() == Splice(old(Text()), old(Cursor()), old(Cursor()), "\n")
      ensures Cursor() == old(Cursor()) + 1
      ensures revision == Bumped(old(revision), 1)
    {
      SplitLine(lines, row, column);
      var head, tail := lines[row][..column], lines[row][column..];
      lines := lines[..row] + [head, tail] + lines[row + 1..];
      row := row + 1;
      column := 0;
      MarkChanged();
    }

    method InsertVisibleChar(c: char)
      requires Valid()
      modifies this
      ensures Valid() && (old(Tidy()) && Printable(c) ==> Tidy())
      ensures Text() == Splice(old(Text()), old(Cursor()), old(Cursor()), [c])
      ensures Cursor() == old(Cursor()) + 1
      ensures revision == Bumped(old(revision), 1)
    {
      ReplaceWithin(lines, row, column, column, [c]);
      ReplaceKeeps(lines, row, column, column, [c]);
      lines := lines[row := lines[row][..column] + [c] + lines[row][column..]];
      column := column + 1;
      MarkChanged();
    }

    /** Appends the next line to the cursor's, with the cursor at the seam. */
    method JoinWithNext()
      requires Valid() && row + 1 < |lines| && column == |lines[row]|
      modifies this
      ensures Valid() && (old(Tidy()) ==> Tidy())
      ensures old(Cursor()) < |old(Text())|
      ensures Text() == Splice(old(Text()), old(Cursor()), old(Cursor()) + 1, "")
      ensures Cursor() == old(Cursor())
      ensures revision == Bumped(old(revision), 1)
    {
      JoinedRefines(lines, row);
      var next := lines[row + 1];
      var rest := lines[..row + 1] + lines[row + 2..];
      lines := rest[row := lines[row] + next];
      MarkChanged();
    }

    /** Removes the character of the line at the cursor. */
    method RemoveAtCursor()
      requires Valid() && column < |lines[row]|
      modifies this`lines, this`revision
      ensures Valid() && (old(Tidy()) ==> Tidy())
      ensures old(Cursor()) < |old(Text())|
      ensures Text() == Splice(old(Text()), old(Cursor()), old(Cursor()) + 1, "")
      ensures Cursor() == old(Cursor())
      ensures revision == Bumped(old(revision), 1)
    {
      RemoveOne(lines, row, column);
      lines := lines[row := lines[row][..column] + lines[row][column + 1..]];
      MarkChanged();
    }

    /** Removes the character before the cursor, a line break included. */
    method Backspace()
      requires Valid()
      modifies this
      ensures Valid() && (old(Tidy()) ==> Tidy())
      ensures old(Cursor()) == 0 ==> lines == old(lines) && Cursor() == 0 && revision == old(revision)
      ensures old(Cursor()) > 0 ==>
                && Text() == Splice(old(Text()), old(Cursor()) - 1, old(Cursor()), "")
                && Cursor() == old(Cursor()) - 1
                && revision == Bumped(old(revision), 1)
    {
      OffsetInText(lines, row, column);
      if column > 0 {
        column := column - 1;
        RemoveAtCursor();
      } else if row > 0 {
        JoinWithPrevious();
      }
    }

    method JoinWithPrevious()
      requires Valid() && row > 0 && column == 0
      modifies this
      ensures Valid() && (old(Tidy()) ==> Tidy())
      ensures old(Cursor()) > 0 && Cursor() == old(Cursor()) - 1
      ensures Text() == Splice(old(Text()), old(Cursor()) - 1, old(Cursor()), "")
      ensures revision == Bumped(old(revision), 1)
    {
      NextLineOffset(lines, row - 1);
      row := row - 1;
      column := |lines[row]|;
      JoinWithNext();
    }

    /** Removes from where a word move to the left would end up to the cursor. */
    method DeleteWordBackward(table: CharacterTable)
      requires Valid()
      modifies this
      ensures Valid() && (old(Tidy()) ==> Tidy())
      ensures old(Cursor()) > 0 ==>
                && var from := if old(column) == 0 then old(Cursor()) - 1
                               else old(Offset(lines, row, WordStart(table, lines[row], column)));
                && Text() == Splice(old(Text()), from, old(Cursor()), "")
                && Cursor() == from
                && revision == Bumped(old(revision), 1)
                && (old(Clean(lines) && column > 0) ==> from == WordLeft(table, old(Text()), old(Cursor())))
      ensures old(Cursor()) == 0 ==> lines == old(lines) && Cursor() == 0 && revision == old(revision)
    {
      OffsetInText(lines, row, column);
      if column == 0 {
        Backspace();
        return;
      }
      var endColumn := column;
      MoveWordLeft(table);
      ReplaceWithin(lines, row, column, endColumn, "");
      ReplaceKeeps(lines, row, column, endColumn, "");
      lines := lines[row := lines[row][..column] + "" + lines[row][endColumn..]];
      MarkChanged();
    }

    /** Removes the line up to the cursor, or the line break before it at a line start. */
    method DeleteToLineStart()
      requires Valid()
      modifies this
      ensures Valid() && (old(Tidy()) ==> Tidy())
      ensures old(Cursor()) > 0 ==>
                && var from := if old(column) == 0 then old(Cursor()) - 1 else old(Offset(lines, row, 0));
                && Text() == Splice(old(Text()), from, old(Cursor()), "")
                && Cursor() == from
                && revision == Bumped(old(revision), 1)
                && (old(Clean(lines) && column > 0) ==> from == LineStart(old(Text()), old(Cursor())))
      ensures old(Cursor()) == 0 ==> lines == old(lines) && Cursor() == 0 && revision == old(revision)
    {
      OffsetInText(lines, row, column);
      if column == 0 {
        Backspace();
        return;
      }
      ReplaceWithin(lines, row, 0, column, "");
      ReplaceKeeps(lines, row, 0, column, "");
      if Clean(lines) {
        LineStartIs(lines, row, column);
      }
      lines := lines[row := lines[row][..0] + "" + lines[row][column..]];
      column := 0;
      MarkChanged();
    }

    /** Removes the character after the cursor, a line break included. */
    method Delete()
      requires Valid()
      modifies this
      ensures Valid() && (old(Tidy()) ==> Tidy())
      ensures Cursor() == old(Cursor())
      ensures old(Cursor()) == |old(Text())| ==> lines == old(lines) && revision == old(revision)
      ensures old(Cursor()) < |old(Text())| ==>
                && Text() == Splice(old(Text()), old(Cursor()), old(Cursor()) + 1, "")
                && revision == Bumped(old(revision), 1)
    {
      OffsetInText(lines, row, column);
      if column < |lines[row]| {
        RemoveAtCursor();
      } else if row + 1 < |lines| {
        JoinWithNext();
      }
    }

    method MoveLeft()
      requires Valid()
      modifies this`row, this`column
      ensures Valid()
      ensures Cursor() == if old(Cursor()) > 0 then old(Cursor()) - 1 else 0
    {
      OffsetInText(lines, row, column);
      if column > 0 {
        column := column - 1;
      } else if row > 0 {
        NextLineOffset(lines, row - 1);
        row := row - 1;
        column := |lines[row]|;
      }
    }

    method MoveRight()
      requires Valid()
      modifies this`row, this`column
      ensures Valid()
      ensures Cursor() == if old(Cursor()) < |Text()| then old(Cursor()) + 1 else old(Cursor())
    {
      OffsetInText(lines, row, column);
      if column < |lines[row]| {
        column := column + 1;
      } else if row + 1 < |lines| {
        NextLineOffset(lines, row);
        row := row + 1;
        column := 0;
      }
    }

    method MoveWordLeft(table: CharacterTable)
      requires Valid()
      modifies this`row, this`column
      ensures Valid()
      ensures Position(row, column) == WordLeftFrom(table, lines, old(row), old(column))
      ensures Clean(lines) ==> Cursor() == WordLeft(table, Text(), old(Cursor()))
    {
      if Clean(lines) {
        WordLeftIsFlat(table, lines, row, column);
      }
      if column == 0 {
        if row == 0 {
          return;
        }
        row := row - 1;
        column := |lines[row]|;
      }
      ScanWordLeft(table);
    }

    method ScanBlanksLeft()
      requires Valid()
      modifies this`column
      ensures Valid() && column == SkipLeft(lines[row], old(column), Blank())
    {
      ghost var start := column;
      var characters := lines[row];
      while column > 0 && IsWhitespace(characters[column - 1])
        invariant column <= start
        invariant forall i :: column <= i < start ==> IsWhitespace(characters[i])
      {
        column := column - 1;
      }
      SkipLeftIs(characters, start, Blank(), column);
    }

    method ScanBlanksRight()
      requires Valid()
      modifies this`column
      ensures Valid() && column == SkipRight(lines[row], old(column), Blank())
    {
      ghost var start := column;
      var characters := lines[row];
      while column < |characters| && IsWhitespace(characters[column])
        invariant start <= column <= |characters|
        invariant forall i :: start <= i < column ==> IsWhitespace(characters[i])
      {
        column := column + 1;
      }
      SkipRightIs(characters, start, Blank(), column);
    }

    /** Scans the line to the left, over blanks and then over one class. */
    method ScanWordLeft(table: CharacterTable)
      requires Valid()
      modifies this`column
      ensures Valid() && column == WordStart(table, lines[row], old(column))
    {
      ScanBlanksLeft();
      ghost var word := column;
      if column == 0 {
        return;
      }
      var characters := lines[row];
      var runClass := ClassOf(table, characters[column - 1]);
      while column > 0 && ClassOf(table, characters[column - 1]) == runClass
        invariant column <= word
        invariant forall i :: column <= i < word ==> ClassOf(table, characters[i]) == runClass
      {
        column := column - 1;
      }
      SkipLeftIs(characters, word, SameClass(table, characters[word - 1]), column);
    }

    method MoveWordRight(table: CharacterTable)
      requires Valid()
      modifies this`row, this`column
      ensures Valid()
      ensures Position(row, column) == WordRightFrom(table, lines, old(row), old(column))
      ensures Clean(lines) ==> Cursor() == WordRight(table, Text(), old(Cursor()))
    {
      if Clean(lines) {
        WordRightIsFlat(table, lines, row, column);
      }
      if column == |lines[row]| {
        if row + 1 == |lines| {
          return;
        }
        row := row + 1;
        column := 0;
      }
      ScanWordRight(table);
    }

    method ScanWordRight(table: CharacterTable)
      requires Valid()
      modifies this`column
      ensures Valid() && column == WordEnd(table, lines[row], old(column))
    {
      ScanBlanksRight();
      ghost var word := column;
      var characters := lines[row];
      if column == |characters| {
        return;
      }
      var runClass := ClassOf(table, characters[column]);
      while column < |characters| && ClassOf(table, characters[column]) == runClass
        invariant word <= column <= |characters|
        invariant forall i :: word <= i < column ==> ClassOf(table, characters[i]) == runClass
      {
        column := column + 1;
      }
      SkipRightIs(characters, word, SameClass(table, characters[word]), column);
    }

    method MoveUp()
      requires Valid()
      modifies this`row, this`column
      ensures Valid()
      ensures old(row) == 0 ==> row == 0 && column == old(column)
      ensures old(row) > 0 ==>
                row == old(row) - 1 && column == if old(column) <= |lines[row]| then old(column) else |lines[row]|
    {
      if row > 0 {
        row := row - 1;
        column := if column <= |lines[row]| then column else |lines[row]|;
      }
    }

    method MoveDown()
      requires Valid()
      modifies this`row, this`column
      ensures Valid()
      ensures old(row) + 1 == |lines| ==> row == old(row) && column == old(column)
      ensures old(row) + 1 < |lines| ==>
                row == old(row) + 1 && column == if old(column) <= |lines[row]| then old(column) else |lines[row]|
    {
      if row + 1 < |lines| {
        row := row + 1;
        column := if column <= |lines[row]| then column else |lines[row]|;
      }
    }

    method MoveHome()
      requires Valid()
      modifies this`column
      ensures Valid() && column == 0
      ensures Clean(lines) ==> Cursor() == LineStart(Text(), old(Cursor()))
    {
      if Clean(lines) {
        LineStartIs(lines, row, column);
      }
      column := 0;
    }

    method MoveEnd()
      requires Valid()
      modifies this`column
      ensures Valid() && column == |lines[row]|
      ensures Clean(lines) ==> Cursor() == LineEnd(Text(), old(Cursor()))
    {
      if Clean(lines) {
        LineEndIs(lines, row, column);
      }
      column := |lines[row]|;
    }

    method MoveDocumentStart()
      requires Valid()
      modifies this`row, this`column
      ensures Valid() && Cursor() == 0
    {
      row, column := 0, 0;
    }

    method MoveDocumentEnd()
      requires Valid()
      modifies this`row, this`column
      ensures Valid() && Cursor() == |Text()|
    {
      row := |lines| - 1;
      column := |lines[row]|;
      OffsetInText(lines, row, column);
    }

    method TokenBeforeCursor() returns (token: CursorToken)
      requires Valid()
      ensures var start := TokenStart(lines[row][..column]);
              token == CursorToken(lines[row][start..column], row == 0 && start == 0, column - start)
    {
      var prefix := lines[row][..column];
      var start := TokenStart(prefix);
      token := CursorToken(prefix[start..], row == 0 && start == 0, |prefix| - start);
    }

    /** Replaces the token by raw text: unlike pasting, a newline in it is kept inside the line, so the
        lines stay free of newlines exactly when the replacement has none. */
    method ReplaceTokenBeforeCursor(replacement: string)
      requires Valid()
      modifies this
      ensures Valid()
      ensures old(Clean(lines)) ==> (Clean(lines) <==> '\n' !in replacement)
      ensures old(Tidy()) ==> (Tidy() <==> SaneLine(replacement))
      ensures var from := old(Offset(lines, row, TokenStart(lines[row][..column])));
              && from <= old(Cursor())
              && Text() == Splice(old(Text()), from, old(Cursor()), replacement)
              && Cursor() == from + |replacement|
      ensures revision == Bumped(old(revision), 1)
    {
      var token := TokenBeforeCursor();
      var start := column - token.characterCount;
      ReplaceWithin(lines, row, start, column, replacement);
      ReplaceKeeps(lines, row, start, column, replacement);
      var line := lines[row][..start] + replacement + lines[row][column..];
      lines := lines[row := line];
      column := start + |replacement|;
      MarkChanged();
    }

    /** Wraps every line, and finds the display row and column of the cursor on the way. */
    method WrapLines(table: CharacterTable, v: nat)
      returns (visualLines: seq<string>, promptLineStarts: seq<bool>, cursor: Place)
      requires Valid() && v > 0
      ensures Scanned(table, v, lines, row, column, |lines|, visualLines, promptLineStarts, cursor)
    {
      visualLines, promptLineStarts, cursor := [], [], Place(0, 0);
      for r := 0 to |lines|
        invariant Scanned(table, v, lines, row, column, r, visualLines, promptLineStarts, cursor)
      {
        var wrapped, place := WrapDisplayLine(table, lines[r], v, if r == row then Some(column) else None);
        ScannedNext(table, v, lines, row, column, r, visualLines, promptLineStarts, cursor);
        if place.Some? {
          cursor := Place(|visualLines| + place.value.row, place.value.column);
        }
        visualLines := visualLines + wrapped;
        promptLineStarts := promptLineStarts + Starts(|wrapped|, r == 0);
      }
    }

    /** The visible rows: the last ones up to and including the cursor's, as many as fit. */
    method Window(table: CharacterTable, height: u16, width: u16) returns (w: EditorWindow)
      requires Valid()
      ensures ShowsCursor(table, AtLeastOne(height), AtLeastOne(width), lines, row, column, w)
      ensures FitsDisplay(table, AtLeastOne(width), lines, w.lines)
    {
      var h, v := AtLeastOne(height), AtLeastOne(width);
      var visualLines, promptLineStarts, cursor := WrapLines(table, v);
      CursorRowShown(table, v, lines, row, column);
      assert lines[..|lines|] == lines;
      w := Visible(visualLines, promptLineStarts, cursor, h, v);
      VisibleShowsCursor(table, h, v, lines, row, column, promptLineStarts, w);
      PartFits(table, v, lines, CursorRow(table, v, lines, row, column) - w.cursorY, w.lines);
    }
  }

  /** It does happen: an "@" that is completed with a newline leaves a line with a newline in it. */
  method NewlineInToken() returns (editor: EditorState)
    ensures fresh(editor) && editor.Valid() && !Clean(editor.lines)
  {
    editor := new EditorState();
    editor.InsertChar('@');
    editor.ReplaceTokenBeforeCursor("\n");
  }
}
