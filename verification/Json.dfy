/** JSON values and their compact text. Section 7 of RFC 8259 has control characters escaped, so the text holds
    none. Members stand in the order in which they are written. A reader that undoes the text says what it means. */
module Json {
  import opened Options

  predicate IsNumberCharacter(c: char) {
    '0' <= c <= '9' || c == '-' || c == '+' || c == '.' || c == 'e' || c == 'E'
  }

  /** The text of a number; how a number is printed is left to the library. */
  type NumberText = s: string | IsNumberText(s) witness ['0']

  predicate IsNumberText(s: string) {
    s != "" && forall i :: 0 <= i < |s| ==> IsNumberCharacter(s[i])
  }

  datatype Value =
    | Null
    | Bool(value: bool)
    | Number(number: NumberText)
    | Text(text: string)
    | List(items: seq<Value>)
    | Object(members: seq<Member>)

  datatype Member = Member(name: string, value: Value)

  predicate IsControl(c: char) {
    c < ' '
  }

  function HexDigit(n: nat): (c: char)
    requires n < 16
    ensures !IsControl(c)
  {
    if n < 10 then '0' + (n as char) else 'a' + ((n - 10) as char)
  }

  function Escape(c: char): (s: string)
    ensures forall i :: 0 <= i < |s| ==> !IsControl(s[i])
  {
    if c == '"' then ['\\', '"']
    else if c == '\\' then ['\\', '\\']
    else if c == '\n' then ['\\', 'n']
    else if c == '\r' then ['\\', 'r']
    else if c == '\t' then ['\\', 't']
    else if c as int == 8 then ['\\', 'b']
    else if c as int == 12 then ['\\', 'f']
    else if IsControl(c) then ['\\', 'u', '0', '0', HexDigit(c as int / 16), HexDigit(c as int % 16)]
    else [c]
  }

  function EscapeAll(s: string): string {
    if s == "" then "" else Escape(s[0]) + EscapeAll(s[1..])
  }

  function Quoted(s: string): string {
    ['"'] + EscapeAll(s) + ['"']
  }

  function Compact(v: Value): string {
    match v
    case Null => ['n', 'u', 'l', 'l']
    case Bool(b) => if b then ['t', 'r', 'u', 'e'] else ['f', 'a', 'l', 's', 'e']
    case Number(number) => number
    case Text(text) => Quoted(text)
    case List(items) => ['['] + CompactItems(items) + [']']
    case Object(members) => ['{'] + CompactMembers(members) + ['}']
  }

  function CompactItems(items: seq<Value>): string {
    if items == [] then ""
    else Compact(items[0]) + (if |items| == 1 then "" else [',']) + CompactItems(items[1..])
  }

  function CompactMembers(members: seq<Member>): string {
    if members == [] then ""
    else Quoted(members[0].name) + [':'] + Compact(members[0].value) + (if |members| == 1 then "" else [','])
         + CompactMembers(members[1..])
  }

  predicate Plain(s: string) {
    forall i :: 0 <= i < |s| ==> !IsControl(s[i])
  }

  lemma {:induction false} EscapedIsPlain(s: string)
    ensures Plain(EscapeAll(s))
  {
    if s != "" {
      EscapedIsPlain(s[1..]);
    }
  }

  /** The text of a value holds no control character, in particular no line break. */
  lemma {:induction false} CompactIsPlain(v: Value)
    ensures Plain(Compact(v))
  {
    match v
    case Null =>
    case Bool(_) =>
    case Number(_) =>
    case Text(text) => EscapedIsPlain(text);
    case List(items) => ItemsArePlain(items);
    case Object(members) => MembersArePlain(members);
  }

  lemma {:induction false} ItemsArePlain(items: seq<Value>)
    ensures Plain(CompactItems(items))
  {
    if items != [] {
      CompactIsPlain(items[0]);
      ItemsArePlain(items[1..]);
    }
  }

  lemma {:induction false} MembersArePlain(members: seq<Member>)
    ensures Plain(CompactMembers(members))
  {
    if members != [] {
      EscapedIsPlain(members[0].name);
      CompactIsPlain(members[0].value);
      MembersArePlain(members[1..]);
    }
  }

  // ----- reading compact text

  type Read<T> = Option<(T, string)>

  function HexValue(c: char): (n: Option<nat>) {
    if '0' <= c <= '9' then Some(c as int - '0' as int)
    else if 'a' <= c <= 'f' then Some(c as int - 'a' as int + 10)
    else None
  }

  /** The character that an escape stands for, of those that the writer has. */
  function ReadEscape(s: string): (r: Read<char>)
    ensures r.Some? ==> |r.value.1| < |s|
  {
    if |s| < 2 || s[0] != '\\' then None
    else
      match s[1]
      case '"' => Some(('"', s[2..]))
      case '\\' => Some(('\\', s[2..]))
      case 'n' => Some(('\n', s[2..]))
      case 'r' => Some(('\r', s[2..]))
      case 't' => Some(('\t', s[2..]))
      case 'b' => Some((8 as char, s[2..]))
      case 'f' => Some((12 as char, s[2..]))
      case 'u' => ReadHex(s)
      case _ => None
  }

  /** An escape in four hexadecimal digits, the first two of them zero. */
  function ReadHex(s: string): (r: Read<char>)
    ensures r.Some? ==> |r.value.1| < |s|
  {
    if |s| < 6 || s[2] != '0' || s[3] != '0' then None
    else
      var high, low := HexValue(s[4]), HexValue(s[5]);
      if high.None? || low.None? then None else Some(((16 * high.value + low.value) as char, s[6..]))
  }

  /** The text up to the closing quotation mark. */
  function ReadText(s: string): (r: Read<string>)
    ensures r.Some? ==> |r.value.1| < |s|
    decreases |s|
  {
    if s == "" || IsControl(s[0]) then None
    else if s[0] == '"' then Some(("", s[1..]))
    else
      var first := if s[0] == '\\' then ReadEscape(s) else Some((s[0], s[1..]));
      if first.None? then None
      else
        var more := ReadText(first.value.1);
        if more.None? then None else Some(([first.value.0] + more.value.0, more.value.1))
  }

  function NumberEnd(s: string): (n: nat)
    ensures n <= |s| && (forall i :: 0 <= i < n ==> IsNumberCharacter(s[i]))
    ensures n < |s| ==> !IsNumberCharacter(s[n])
  {
    if s == "" || !IsNumberCharacter(s[0]) then 0 else 1 + NumberEnd(s[1..])
  }

  function ReadValue(s: string): (r: Read<Value>)
    ensures r.Some? ==> |r.value.1| < |s|
    decreases |s|, 2
  {
    if ['n', 'u', 'l', 'l'] <= s then Some((Null, s[4..]))
    else if ['t', 'r', 'u', 'e'] <= s then Some((Bool(true), s[4..]))
    else if ['f', 'a', 'l', 's', 'e'] <= s then Some((Bool(false), s[5..]))
    else if s == "" then None
    else if IsNumberCharacter(s[0]) then
      var n := NumberEnd(s);
      Some((Number(s[..n]), s[n..]))
    else
      match s[0]
      case '"' =>
        var text := ReadText(s[1..]);
        if text.None? then None else Some((Text(text.value.0), text.value.1))
      case '[' =>
        var items := ReadItems(s[1..]);
        if items.None? then None else Some((List(items.value.0), items.value.1))
      case '{' =>
        var members := ReadMembers(s[1..]);
        if members.None? then None else Some((Object(members.value.0), members.value.1))
      case _ => None
  }

  /** The items up to the closing bracket. */
  function ReadItems(s: string): (r: Read<seq<Value>>)
    ensures r.Some? ==> |r.value.1| < |s|
    decreases |s|, 4
  {
    if s != "" && s[0] == ']' then Some(([], s[1..])) else ReadMoreItems(s)
  }

  function ReadMoreItems(s: string): (r: Read<seq<Value>>)
    ensures r.Some? ==> |r.value.1| < |s|
    decreases |s|, 3
  {
    var first := ReadValue(s);
    if first.None? || first.value.1 == "" then None
    else
      var rest := first.value.1;
      if rest[0] == ']' then Some(([first.value.0], rest[1..]))
      else if rest[0] != ',' then None
      else
        var more := ReadMoreItems(rest[1..]);
        if more.None? then None else Some(([first.value.0] + more.value.0, more.value.1))
  }

  function ReadMember(s: string): (r: Read<Member>)
    ensures r.Some? ==> |r.value.1| < |s|
    decreases |s|, 0
  {
    if s == "" || s[0] != '"' then None
    else
      var name := ReadText(s[1..]);
      if name.None? || name.value.1 == "" || name.value.1[0] != ':' then None
      else
        var value := ReadValue(name.value.1[1..]);
        if value.None? then None else Some((Member(name.value.0, value.value.0), value.value.1))
  }

  /** The members up to the closing brace. */
  function ReadMembers(s: string): (r: Read<seq<Member>>)
    ensures r.Some? ==> |r.value.1| < |s|
    decreases |s|, 2
  {
    if s != "" && s[0] == '}' then Some(([], s[1..])) else ReadMoreMembers(s)
  }

  function ReadMoreMembers(s: string): (r: Read<seq<Member>>)
    ensures r.Some? ==> |r.value.1| < |s|
    decreases |s|, 1
  {
    var first := ReadMember(s);
    if first.None? || first.value.1 == "" then None
    else
      var rest := first.value.1;
      if rest[0] == '}' then Some(([first.value.0], rest[1..]))
      else if rest[0] != ',' then None
      else
        var more := ReadMoreMembers(rest[1..]);
        if more.None? then None else Some(([first.value.0] + more.value.0, more.value.1))
  }

  // ----- what was written is read back

  lemma HexReadsBack(n: nat)
    requires n < 16
    ensures HexValue(HexDigit(n)) == Some(n)
  {
  }

  /** A character stands for itself, or its escape is read as the character. */
  lemma EscapeReadsBack(c: char, rest: string)
    ensures || (Escape(c) == [c] && c !in ['"', '\\'] && !IsControl(c))
            || (Escape(c) != [] && Escape(c)[0] == '\\' && ReadEscape(Escape(c) + rest) == Some((c, rest)))
  {
    var e := Escape(c);
    assert (e + rest)[|e|..] == rest;
    if |e| == 6 {
      HexReadsBack(c as int / 16);
      HexReadsBack(c as int % 16);
      assert ReadEscape(e + rest) == ReadHex(e + rest);
    }
  }

  lemma {:induction false} TextReadsBack(s: string, rest: string)
    ensures ReadText(EscapeAll(s) + ['"'] + rest) == Some((s, rest))
  {
    var text := EscapeAll(s) + ['"'] + rest;
    if s == "" {
      assert text[1..] == rest;
    } else {
      var more := EscapeAll(s[1..]) + ['"'] + rest;
      assert text == Escape(s[0]) + more;
      TextReadsBack(s[1..], rest);
      EscapeReadsBack(s[0], more);
      if Escape(s[0]) == [s[0]] {
        assert text[1..] == more;
      }
      assert [s[0]] + s[1..] == s;
    }
  }

  lemma {:induction false} NumberEndsAt(number: string, rest: string)
    requires forall i :: 0 <= i < |number| ==> IsNumberCharacter(number[i])
    requires rest != "" ==> !IsNumberCharacter(rest[0])
    ensures NumberEnd(number + rest) == |number|
  {
    if number == "" {
      assert number + rest == rest;
    } else {
      NumberEndsAt(number[1..], rest);
      assert (number + rest)[1..] == number[1..] + rest;
    }
  }

  lemma NumberReadsBack(number: NumberText, rest: string)
    requires rest != "" ==> !IsNumberCharacter(rest[0])
    ensures ReadValue(number + rest) == Some((Number(number), rest))
  {
    NumberEndsAt(number, rest);
    var s := number + rest;
    assert IsNumberCharacter(s[0]);
    assert s[..|number|] == number && s[|number|..] == rest;
  }

  lemma QuotedReadsBack(text: string, rest: string)
    ensures ReadValue(Quoted(text) + rest) == Some((Text(text), rest))
  {
    TextReadsBack(text, rest);
    var s := Quoted(text) + rest;
    assert s[0] == '"' && s[1..] == EscapeAll(text) + ['"'] + rest;
  }

  lemma LiteralReadsBack(v: Value, rest: string)
    requires v.Null? || v.Bool?
    ensures ReadValue(Compact(v) + rest) == Some((v, rest))
  {
    var literal := Compact(v);
    var s := literal + rest;
    assert s[0] == literal[0] && literal <= s && s[|literal|..] == rest;
  }

  /** Every value is read back from its text, whatever follows, unless that could go on a number. */
  lemma {:induction false} ValueReadsBack(v: Value, rest: string)
    requires rest != "" ==> !IsNumberCharacter(rest[0])
    ensures ReadValue(Compact(v) + rest) == Some((v, rest))
    decreases v, 3
  {
    match v
    case Null => LiteralReadsBack(v, rest);
    case Bool(_) => LiteralReadsBack(v, rest);
    case Number(number) => NumberReadsBack(number, rest);
    case Text(text) => QuotedReadsBack(text, rest);
    case List(items) => ListReadsBack(v, rest);
    case Object(members) => ObjectReadsBack(v, rest);
  }

  lemma {:induction false} ListReadsBack(v: Value, rest: string)
    requires v.List?
    ensures ReadValue(Compact(v) + rest) == Some((v, rest))
    decreases v, 2
  {
    var s, inner := Compact(v) + rest, CompactItems(v.items) + [']'] + rest;
    assert s[0] == '[' && s[1..] == inner;
    AllItemsReadBack(v.items, rest);
  }

  lemma {:induction false} AllItemsReadBack(items: seq<Value>, rest: string)
    ensures ReadItems(CompactItems(items) + [']'] + rest) == Some((items, rest))
    decreases items, 1
  {
    var inner := CompactItems(items) + [']'] + rest;
    if items == [] {
      assert inner[0] == ']' && inner[1..] == rest;
    } else {
      ItemsReadBack(items, rest);
      CompactStarts(items[0]);
      assert inner[0] == Compact(items[0])[0];
    }
  }

  lemma {:induction false} ObjectReadsBack(v: Value, rest: string)
    requires v.Object?
    ensures ReadValue(Compact(v) + rest) == Some((v, rest))
    decreases v, 2
  {
    var s, inner := Compact(v) + rest, CompactMembers(v.members) + ['}'] + rest;
    assert s[0] == '{' && s[1..] == inner;
    AllMembersReadBack(v.members, rest);
  }

  lemma {:induction false} AllMembersReadBack(members: seq<Member>, rest: string)
    ensures ReadMembers(CompactMembers(members) + ['}'] + rest) == Some((members, rest))
    decreases members, 1
  {
    var inner := CompactMembers(members) + ['}'] + rest;
    if members == [] {
      assert inner[0] == '}' && inner[1..] == rest;
    } else {
      MembersReadBack(members, rest);
      assert inner[0] == '"';
    }
  }

  /** The text of a value starts in none of the ways in which a list goes on or ends. */
  lemma CompactStarts(v: Value)
    ensures Compact(v) != "" && Compact(v)[0] !in [']', '}', ',']
  {
  }

  lemma Assoc(a: string, b: string, c: string)
    ensures (a + b) + c == a + (b + c)
  {
  }

  lemma Regroup(a: string, b: string, c: string, d: string, e: string)
    ensures a + b + c + d + e == a + (b + (c + (d + e)))
  {
    Assoc(a + b + c, d, e);
    Assoc(a + b, c, d + e);
    Assoc(a, b, c + (d + e));
  }

  /** An item in front of others, and what is behind it. */
  lemma ItemFirst(value: string, comma: string, others: string, rest: string)
    ensures (value + comma + others) + [']'] + rest == value + (comma + (others + [']'] + rest))
  {
    Regroup(value, comma, others, [']'], rest);
    Assoc(others, [']'], rest);
  }

  /** Behind the last of them comes the end. */
  lemma NothingBehind(end: string, rest: string)
    ensures "" + ("" + end + rest) == end + rest
  {
  }

  /** A member in front of others, and what is behind it. */
  lemma MemberFirst(name: string, value: string, comma: string, others: string, rest: string)
    ensures (name + [':'] + value + comma + others) + ['}'] + rest
         == name + ([':'] + (value + (comma + (others + ['}'] + rest))))
  {
    Assoc(others, ['}'], rest);
    Assoc(name + [':'] + value + comma + others, ['}'], rest);
    Assoc(name + [':'] + value + comma, others, ['}'] + rest);
    Regroup(name, [':'], value, comma, others + (['}'] + rest));
  }

  /** One more item is read in front of others, or of the end. */
  lemma ReadsOneItem(s: string, first: Value, behind: string, more: seq<Value>, rest: string)
    requires ReadValue(s) == Some((first, behind)) && behind != ""
    requires if more == [] then behind == [']'] + rest
             else behind[0] == ',' && ReadMoreItems(behind[1..]) == Some((more, rest))
    ensures ReadMoreItems(s) == Some(([first] + more, rest))
  {
    if more == [] {
      assert behind[1..] == rest && [first] + more == [first];
    }
  }

  /** The text of the first item, and what is behind it. */
  lemma ItemsText(items: seq<Value>, rest: string)
    requires items != []
    ensures CompactItems(items) + [']'] + rest == Compact(items[0]) + BehindItem(items[1..], rest)
  {
    var comma, others := if |items| == 1 then "" else [','], CompactItems(items[1..]);
    assert CompactItems(items) == Compact(items[0]) + comma + others;
    ItemFirst(Compact(items[0]), comma, others, rest);
    if |items| == 1 {
      NothingBehind([']'], rest);
    }
  }

  function BehindItem(more: seq<Value>, rest: string): string {
    if more == [] then [']'] + rest else [','] + (CompactItems(more) + [']'] + rest)
  }

  lemma {:induction false} ItemsReadBack(items: seq<Value>, rest: string)
    requires items != []
    ensures ReadMoreItems(CompactItems(items) + [']'] + rest) == Some((items, rest))
    decreases items, 0
  {
    var first, more := items[0], items[1..];
    var behind := BehindItem(more, rest);
    ItemsText(items, rest);
    ValueReadsBack(first, behind);
    if more != [] {
      ItemsReadBack(more, rest);
      assert behind[1..] == CompactItems(more) + [']'] + rest;
    }
    ReadsOneItem(Compact(first) + behind, first, behind, more, rest);
    assert [first] + more == items;
  }

  lemma {:induction false} MemberReadsBack(m: Member, rest: string)
    requires rest != "" ==> !IsNumberCharacter(rest[0])
    ensures ReadMember(Quoted(m.name) + ([':'] + (Compact(m.value) + rest))) == Some((m, rest))
    decreases m, 0
  {
    var behind := [':'] + (Compact(m.value) + rest);
    QuotedText(m.name, behind);
    TextReadsBack(m.name, behind);
    assert behind[1..] == Compact(m.value) + rest;
    ValueReadsBack(m.value, rest);
  }

  lemma ReadsOneMember(s: string, first: Member, behind: string, more: seq<Member>, rest: string)
    requires ReadMember(s) == Some((first, behind)) && behind != ""
    requires if more == [] then behind == ['}'] + rest
             else behind[0] == ',' && ReadMoreMembers(behind[1..]) == Some((more, rest))
    ensures ReadMoreMembers(s) == Some(([first] + more, rest))
  {
    if more == [] {
      assert behind[1..] == rest && [first] + more == [first];
    }
  }

  lemma QuotedText(name: string, behind: string)
    ensures (Quoted(name) + behind)[0] == '"' && (Quoted(name) + behind)[1..] == EscapeAll(name) + ['"'] + behind
  {
  }

  /** The text of the first member, and what is behind it. */
  lemma MembersText(members: seq<Member>, rest: string)
    requires members != []
    ensures CompactMembers(members) + ['}'] + rest
         == Quoted(members[0].name) + ([':'] + (Compact(members[0].value) + BehindMember(members[1..], rest)))
  {
    var name, value := Quoted(members[0].name), Compact(members[0].value);
    var comma, others := if |members| == 1 then "" else [','], CompactMembers(members[1..]);
    assert CompactMembers(members) == name + [':'] + value + comma + others;
    MemberFirst(name, value, comma, others, rest);
    if |members| == 1 {
      NothingBehind(['}'], rest);
    }
  }

  function BehindMember(more: seq<Member>, rest: string): string {
    if more == [] then ['}'] + rest else [','] + (CompactMembers(more) + ['}'] + rest)
  }

  /** One more member is read in front of those that are. */
  lemma MembersNext(members: seq<Member>, s: string, rest: string)
    requires members != [] && ReadMember(s) == Some((members[0], BehindMember(members[1..], rest)))
    requires |members| > 1 ==>
               ReadMoreMembers(CompactMembers(members[1..]) + ['}'] + rest) == Some((members[1..], rest))
    ensures ReadMoreMembers(s) == Some((members, rest))
  {
    var first, more := members[0], members[1..];
    var behind := BehindMember(more, rest);
    if more != [] {
      assert behind[1..] == CompactMembers(more) + ['}'] + rest;
    }
    ReadsOneMember(s, first, behind, more, rest);
    assert [first] + more == members;
  }

  lemma {:induction false} MembersReadBack(members: seq<Member>, rest: string)
    requires members != []
    ensures ReadMoreMembers(CompactMembers(members) + ['}'] + rest) == Some((members, rest))
    decreases members, 0
  {
    MembersText(members, rest);
    MemberReadsBack(members[0], BehindMember(members[1..], rest));
    if |members| > 1 {
      MembersReadBack(members[1..], rest);
    }
    MembersNext(members, CompactMembers(members) + ['}'] + rest, rest);
  }

  /** The compact text says what the value is. */
  lemma CompactRoundTrip(v: Value)
    ensures ReadValue(Compact(v)) == Some((v, ""))
  {
    ValueReadsBack(v, "");
    assert Compact(v) + "" == Compact(v);
  }
}
