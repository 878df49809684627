/** Pages over a table that is listed by sequence number: following the cursor visits every row once, in
    order. The two listings of the repository, child reports and follow-ups, page this way. */
module Paging {
  import opened Sequences
  import ChildReports
  import Followups
  import Utf8

  // ----- listings and pages

  /** Rows in listing order: sequence numbers are positive and strictly rise, or fall when newest is first. */
  ghost predicate Ordered<T>(rows: seq<T>, number: T -> nat, newestFirst: bool) {
    && (forall i :: 0 <= i < |rows| ==> number(rows[i]) > 0)
    && (forall i, j :: 0 <= i < j < |rows| ==>
          if newestFirst then number(rows[i]) > number(rows[j]) else number(rows[i]) < number(rows[j]))
  }

  /** Whether a row comes after the cursor. Zero is the cursor before the first page. */
  predicate After(n: nat, cursor: nat, newestFirst: bool) {
    if newestFirst then cursor == 0 || n < cursor else n > cursor
  }

  function Rest<T>(rows: seq<T>, number: T -> nat, cursor: nat, newestFirst: bool): seq<T> {
    if rows == [] then []
    else
      var rest := Rest(rows[1..], number, cursor, newestFirst);
      if After(number(rows[0]), cursor, newestFirst) then [rows[0]] + rest else rest
  }

  datatype Page<T> = Page(items: seq<T>, hasMore: bool)

  /** A sound page shows the next rows, says truly whether any are left, and is empty only when none are. */
  ghost predicate Sound<T>(rest: seq<T>, page: Page<T>) {
    && page.items <= rest
    && (page.hasMore <==> |page.items| < |rest|)
    && (page.hasMore ==> page.items != [])
  }

  /** The cursor for page `i`: the sequence number of the last row of the page before. */
  ghost function Cursor<T>(pages: seq<Page<T>>, number: T -> nat, i: nat): nat
    requires i <= |pages|
    requires forall j :: 0 <= j < i ==> pages[j].items != []
  {
    if i == 0 then 0 else number(pages[i - 1].items[|pages[i - 1].items| - 1])
  }

  function Shown<T>(pages: seq<Page<T>>): seq<T> {
    if pages == [] then [] else Shown(pages[..|pages| - 1]) + pages[|pages| - 1].items
  }

  /** Pages asked for one after the other, each from the cursor of the one before, while there is more. */
  ghost predicate Follows<T>(rows: seq<T>, number: T -> nat, newestFirst: bool, pages: seq<Page<T>>) {
    && (forall j :: 0 <= j < |pages| - 1 ==> pages[j].items != [] && pages[j].hasMore)
    && (forall j :: 0 <= j < |pages| ==> Sound(Rest(rows, number, Cursor(pages, number, j), newestFirst), pages[j]))
  }

  lemma {:induction false} RestAll<T>(rows: seq<T>, number: T -> nat, cursor: nat, newestFirst: bool)
    requires forall i :: 0 <= i < |rows| ==> After(number(rows[i]), cursor, newestFirst)
    ensures Rest(rows, number, cursor, newestFirst) == rows
  {
    if rows != [] {
      RestAll(rows[1..], number, cursor, newestFirst);
    }
  }

  /** From the cursor of row `k - 1` the rows from `k` on are left; from zero, all of them. */
  lemma {:induction false} RestIsSuffix<T>(rows: seq<T>, number: T -> nat, newestFirst: bool, k: nat)
    requires Ordered(rows, number, newestFirst) && k <= |rows|
    ensures Rest(rows, number, if k == 0 then 0 else number(rows[k - 1]), newestFirst) == rows[k..]
  {
    if k == 0 {
      RestAll(rows, number, 0, newestFirst);
    } else if k == 1 {
      RestAll(rows[1..], number, number(rows[0]), newestFirst);
    } else {
      var cursor := number(rows[k - 1]);
      assert !After(number(rows[0]), cursor, newestFirst);
      RestIsSuffix(rows[1..], number, newestFirst, k - 1);
      assert rows[1..][k - 1..] == rows[k..] && rows[1..][k - 2] == rows[k - 1];
    }
  }

  function Last<T>(s: seq<T>): T
    requires s != []
  {
    s[|s| - 1]
  }

  /** The pages so far show the first rows, none twice and none skipped; the last page says truly whether any
      are left, and its last row is the last one shown. */
  ghost predicate ShownFirst<T>(rows: seq<T>, pages: seq<Page<T>>) {
    && Shown(pages) <= rows
    && (pages != [] ==> (Last(pages).hasMore <==> |Shown(pages)| < |rows|))
    && (pages != [] && Last(pages).items != [] ==> Shown(pages) != [] && Last(Last(pages).items) == Last(Shown(pages)))
  }

  lemma {:induction false} ShownIsPrefix<T>(rows: seq<T>, number: T -> nat, newestFirst: bool, pages: seq<Page<T>>)
    requires Ordered(rows, number, newestFirst) && Follows(rows, number, newestFirst, pages)
    ensures ShownFirst(rows, pages)
  {
    if pages != [] {
      var before := pages[..|pages| - 1];
      FollowsBefore(rows, number, newestFirst, pages);
      ShownIsPrefix(rows, number, newestFirst, before);
      LastPageSound(rows, number, newestFirst, pages);
      NextPage(rows, before, Last(pages));
      SplitLast(pages);
    }
  }

  lemma LastPageSound<T>(rows: seq<T>, number: T -> nat, newestFirst: bool, pages: seq<Page<T>>)
    requires Ordered(rows, number, newestFirst) && Follows(rows, number, newestFirst, pages)
    requires pages != [] && ShownFirst(rows, pages[..|pages| - 1])
    ensures Sound(rows[|Shown(pages[..|pages| - 1])|..], Last(pages))
  {
    var before, n := pages[..|pages| - 1], |pages| - 1;
    var k := |Shown(before)|;
    if n > 0 {
      assert Last(before) == pages[n - 1];
      assert Last(Shown(before)) == rows[k - 1];
    }
    assert Cursor(pages, number, n) == if k == 0 then 0 else number(rows[k - 1]);
    RestIsSuffix(rows, number, newestFirst, k);
  }

  lemma FollowsBefore<T>(rows: seq<T>, number: T -> nat, newestFirst: bool, pages: seq<Page<T>>)
    requires pages != [] && Follows(rows, number, newestFirst, pages)
    ensures Follows(rows, number, newestFirst, pages[..|pages| - 1])
  {
    var before := pages[..|pages| - 1];
    forall j | 0 <= j < |before| ensures Sound(Rest(rows, number, Cursor(before, number, j), newestFirst), before[j]) {
      assert Cursor(before, number, j) == Cursor(pages, number, j);
    }
  }

  lemma NextPage<T>(rows: seq<T>, before: seq<Page<T>>, page: Page<T>)
    requires ShownFirst(rows, before) && Sound(rows[|Shown(before)|..], page)
    ensures ShownFirst(rows, before + [page])
  {
    var pages, k := before + [page], |Shown(before)|;
    assert pages[..|before|] == before;
    assert Shown(pages) == Shown(before) + page.items;
    assert rows[..k] + rows[k..] == rows;
  }

  /** Following the cursor until there is no more visits every row exactly once, in order. */
  lemma EveryRowOnce<T>(rows: seq<T>, number: T -> nat, newestFirst: bool, pages: seq<Page<T>>)
    requires Ordered(rows, number, newestFirst) && Follows(rows, number, newestFirst, pages) && pages != []
    ensures Shown(pages) == rows <==> !pages[|pages| - 1].hasMore
  {
    ShownIsPrefix(rows, number, newestFirst, pages);
  }

  /** It ends: each page before the last shows at least one more row. */
  lemma FollowingEnds<T>(rows: seq<T>, number: T -> nat, newestFirst: bool, pages: seq<Page<T>>)
    requires Ordered(rows, number, newestFirst) && Follows(rows, number, newestFirst, pages)
    ensures |pages| <= |Shown(pages)| + 1
    ensures |pages| <= |rows| + 1
  {
    ShownIsPrefix(rows, number, newestFirst, pages);
    if pages != [] {
      ShownGrows(pages[..|pages| - 1]);
    }
  }

  lemma {:induction false} ShownGrows<T>(pages: seq<Page<T>>)
    requires forall j :: 0 <= j < |pages| ==> pages[j].items != []
    ensures |Shown(pages)| >= |pages|
  {
    if pages != [] {
      ShownGrows(pages[..|pages| - 1]);
    }
  }

  lemma OrderedWith<T>(rows: seq<T>, number: T -> nat, row: T, newestFirst: bool)
    requires Ordered(rows, number, newestFirst) && forall i :: 0 <= i < |rows| ==> number(rows[i]) < number(row)
    requires number(row) > 0
    ensures Ordered(if newestFirst then [row] + rows else rows + [row], number, newestFirst)
  {
  }

  // ----- child reports

  const MAX_LIMIT: nat := 64
  const MAX_CURSOR: nat := 0x7fff_ffff_ffff_ffff

  datatype Listed<T> = Listed(page: Page<T>) | NotFound | CursorTooLarge | BadPage | BadView | NotAllowed

  function ReportNumber(r: ChildReports.Report): nat {
    r.sequence
  }

  /** The reports of a parent's children, in sequence order. */
  function ReportsOf(reports: seq<ChildReports.Report>, links: map<string, ChildReports.Link>,
                     parent: string): seq<ChildReports.Report> {
    if reports == [] then []
    else
      var last := reports[|reports| - 1];
      ReportsOf(reports[..|reports| - 1], links, parent)
      + if last.child in links && links[last.child].parent == parent then [last] else []
  }

  lemma {:induction false} ReportsOfOrdered(reports: seq<ChildReports.Report>, links: map<string, ChildReports.Link>,
                                            parent: string)
    requires Ordered(reports, ReportNumber, false)
    ensures Ordered(ReportsOf(reports, links, parent), ReportNumber, false)
  {
    if reports != [] {
      var before, last := reports[..|reports| - 1], reports[|reports| - 1];
      ReportsOfOrdered(before, links, parent);
      var listed := ReportsOf(before, links, parent);
      forall i | 0 <= i < |listed| ensures ReportNumber(listed[i]) < ReportNumber(last) {
        ReportsOfComplete(before, links, parent, listed[i]);
      }
      OrderedWith(listed, ReportNumber, last, false);
    }
  }

  /** The listed reports are those of the children of the parent, each with its place in the table. */
  lemma {:induction false} ReportsOfComplete(reports: seq<ChildReports.Report>, links: map<string, ChildReports.Link>,
                                             parent: string, r: ChildReports.Report)
    ensures r in ReportsOf(reports, links, parent)
            <==> r in reports && r.child in links && links[r.child].parent == parent
  {
    if reports != [] {
      ReportsOfComplete(reports[..|reports| - 1], links, parent, r);
      assert reports == reports[..|reports| - 1] + [reports[|reports| - 1]];
    }
  }

  /** The limit itself where a page may have so many rows, and else the nearest that it may have. */
  function Clamp(limit: nat): (c: nat)
    ensures 1 <= c <= MAX_LIMIT
    ensures c == limit || (limit < c == 1) || (limit > c == MAX_LIMIT)
  {
    if limit < 1 then 1 else if limit > MAX_LIMIT then MAX_LIMIT else limit
  }

  /** A page of the reports of a parent's children. One row more than the page is read, to see if it is there. */
  method ListReports(store: ChildReports.ReportStore, env: ChildReports.Environment, parent: string, cursor: nat,
                     limit: nat)
    returns (r: Listed<ChildReports.Report>)
    ensures r.NotFound? <==> parent !in env.sessions
    ensures r.CursorTooLarge? <==> parent in env.sessions && cursor > MAX_CURSOR
    ensures r.Listed? <==> parent in env.sessions && cursor <= MAX_CURSOR
    ensures r.Listed? ==>
              var rest := Rest(ReportsOf(store.reports, store.links, parent), ReportNumber, cursor, false);
              && Sound(rest, r.page) && |r.page.items| <= Clamp(limit)
              && (|r.page.items| == Clamp(limit) || !r.page.hasMore)
  {
    if parent !in env.sessions {
      return NotFound;
    }
    var bounded := Clamp(limit);
    if cursor > MAX_CURSOR {
      return CursorTooLarge;
    }
    var reports := Take(Rest(ReportsOf(store.reports, store.links, parent), ReportNumber, cursor, false), bounded + 1);
    var hasMore := |reports| > bounded;
    reports := Take(reports, bounded);
    return Listed(Page(reports, hasMore));
  }

  /** Every report of the parent's children is seen once, in order, when the cursor is followed to the end,
      in at most one page more than there are reports. */
  lemma AllReportsSeen(t: ChildReports.Tables, parent: string, pages: seq<Page<ChildReports.Report>>)
    requires ChildReports.Filed(t) && pages != []
    requires Follows(ReportsOf(t.reports, t.links, parent), ReportNumber, false, pages)
    ensures Shown(pages) == ReportsOf(t.reports, t.links, parent) <==> !Last(pages).hasMore
    ensures |pages| <= |ReportsOf(t.reports, t.links, parent)| + 1
  {
    ReportsOfOrdered(t.reports, t.links, parent);
    EveryRowOnce(ReportsOf(t.reports, t.links, parent), ReportNumber, false, pages);
    FollowingEnds(ReportsOf(t.reports, t.links, parent), ReportNumber, false, pages);
  }

  // ----- follow-ups

  const TEXT_BUDGET: nat := 256 * 1024

  type Message = Followups.Message

  datatype View = All | Active | ConsumedOnly | Unknown(name: string)

  function MessageNumber(m: Message): nat {
    m.sequence
  }

  predicate InView(m: Message, session: string, view: View) {
    && m.session == session && !m.removed
    && (view == ConsumedOnly ==> Followups.Settled(m))
    && (view == Active ==> !Followups.Settled(m))
  }

  /** The messages of a view in listing order: the consumed ones newest first, all others oldest first. */
  function Listing(messages: seq<Message>, session: string, view: View): seq<Message> {
    if messages == [] then []
    else
      var last := messages[|messages| - 1];
      var before := Listing(messages[..|messages| - 1], session, view);
      if !InView(last, session, view) then before
      else if view == ConsumedOnly then [last] + before
      else before + [last]
  }

  lemma {:induction false} ListingOrdered(messages: seq<Message>, session: string, view: View)
    requires Ordered(messages, MessageNumber, false)
    ensures Ordered(Listing(messages, session, view), MessageNumber, view == ConsumedOnly)
  {
    if messages != [] {
      var before, last := messages[..|messages| - 1], messages[|messages| - 1];
      ListingOrdered(before, session, view);
      var listed := Listing(before, session, view);
      forall i | 0 <= i < |listed| ensures MessageNumber(listed[i]) < MessageNumber(last) {
        ListingComplete(before, session, view, listed[i]);
      }
      OrderedWith(listed, MessageNumber, last, view == ConsumedOnly);
    }
  }

  /** Every message of the view is listed, and only those. */
  lemma {:induction false} ListingComplete(messages: seq<Message>, session: string, view: View, m: Message)
    ensures m in Listing(messages, session, view) <==> m in messages && InView(m, session, view)
  {
    if messages != [] {
      ListingComplete(messages[..|messages| - 1], session, view, m);
      assert messages == messages[..|messages| - 1] + [messages[|messages| - 1]];
    }
  }

  function Size(m: Message): nat {
    Utf8.ByteLength(m.text)
  }

  function TextBytes(messages: seq<Message>): nat {
    if messages == [] then 0 else TextBytes(messages[..|messages| - 1]) + Size(messages[|messages| - 1])
  }

  /** The longest page: it stops at the limit, or before the message that would exceed the text budget. */
  ghost predicate Fullest(rest: seq<Message>, limit: nat, page: Page<Message>) {
    var n := |page.items|;
    && page.items <= rest
    && n <= limit && TextBytes(page.items) <= TEXT_BUDGET
    && (page.hasMore <==> n < |rest|)
    && (n < |rest| ==> n == limit || TextBytes(page.items) + Size(rest[n]) > TEXT_BUDGET)
  }

  /** The rows of a view from the cursor on. */
  function Remaining(messages: seq<Message>, session: string, view: View, cursor: nat): seq<Message> {
    Rest(Listing(messages, session, view), MessageNumber, cursor, view == ConsumedOnly)
  }

  predicate Filled(rows: seq<Message>, limit: nat, items: seq<Message>, textBytes: nat) {
    items <= rows && |items| <= limit && textBytes == TextBytes(items) <= TEXT_BUDGET
  }

  lemma FilledNext(rows: seq<Message>, limit: nat, items: seq<Message>, textBytes: nat)
    requires Filled(rows, limit, items, textBytes) && |items| < |rows| && |items| < limit
    requires textBytes + Size(rows[|items|]) <= TEXT_BUDGET
    ensures Filled(rows, limit, items + [rows[|items|]], textBytes + Size(rows[|items|]))
  {
    assert (items + [rows[|items|]])[..|items|] == items;
  }

  /** Reads one row more than the limit, and stops at the limit or when the next text does not fit. */
  method FillPage(rest: seq<Message>, limit: nat) returns (page: Page<Message>)
    ensures Fullest(rest, limit, page)
  {
    var rows := Take(rest, limit + 1);
    var items: seq<Message>, textBytes: nat, hasMore := [], 0, false;
    while |items| < |rows| && !hasMore
      invariant Filled(rows, limit, items, textBytes)
      invariant hasMore ==> |items| < |rows| && (|items| >= limit || textBytes + Size(rows[|items|]) > TEXT_BUDGET)
      decreases |rows| - |items|, !hasMore
    {
      var row := rows[|items|];
      if |items| >= limit || textBytes + Size(row) > TEXT_BUDGET {
        hasMore := true;
      } else {
        FilledNext(rows, limit, items, textBytes);
        textBytes := textBytes + Size(row);
        items := items + [row];
      }
    }
    return Page(items, hasMore);
  }

  /** A page of a session's inbox. */
  method ListView(store: Followups.InboxStore, env: Followups.Environment, session: string, cursor: nat, limit: nat,
                  view: View)
    returns (r: Listed<Message>)
    ensures r.NotAllowed? <==> !Followups.Authorized(env, session, false)
    ensures var allowed := Followups.Authorized(env, session, false);
            var good := 1 <= limit <= MAX_LIMIT && cursor <= MAX_CURSOR;
            && (r.BadPage? <==> allowed && !good)
            && (r.BadView? <==> allowed && good && view.Unknown?)
            && (r.Listed? <==> allowed && good && !view.Unknown?)
    ensures r.Listed? ==> Fullest(Remaining(store.messages, session, view, cursor), limit, r.page)
  {
    if !Followups.Authorized(env, session, false) {
      return NotAllowed;
    }
    if !(1 <= limit <= MAX_LIMIT) || cursor > MAX_CURSOR {
      return BadPage;
    }
    if view.Unknown? {
      return BadView;
    }
    var page := FillPage(Remaining(store.messages, session, view, cursor), limit);
    return Listed(page);
  }

  lemma {:induction false} FirstFits(messages: seq<Message>)
    requires messages != []
    ensures TextBytes(messages) >= Size(messages[0])
  {
    if |messages| > 1 {
      FirstFits(messages[..|messages| - 1]);
    }
  }

  /** A page of the inbox is sound exactly when it does not get stuck on a message longer than the budget. */
  lemma SoundIff(rest: seq<Message>, limit: nat, page: Page<Message>)
    requires Fullest(rest, limit, page) && limit >= 1
    ensures Sound(rest, page) <==> rest == [] || Size(rest[0]) <= TEXT_BUDGET
  {
    if page.items != [] {
      FirstFits(page.items);
    }
  }

  lemma {:induction false} RestListed<T>(rows: seq<T>, number: T -> nat, cursor: nat, newestFirst: bool, row: T)
    requires row in Rest(rows, number, cursor, newestFirst)
    ensures row in rows
  {
    if rows != [] && row != rows[0] {
      RestListed(rows[1..], number, cursor, newestFirst, row);
    }
  }

  /** No text that was admitted exceeds the budget, so every page of an inbox is sound. */
  lemma SoundPage(t: Followups.Inbox, session: string, view: View, cursor: nat, limit: nat, page: Page<Message>)
    requires Followups.Good(t)
    requires limit >= 1 && Fullest(Remaining(t.messages, session, view, cursor), limit, page)
    ensures Sound(Remaining(t.messages, session, view, cursor), page)
  {
    var listing, rest := Listing(t.messages, session, view), Remaining(t.messages, session, view, cursor);
    if rest != [] {
      RestListed(listing, MessageNumber, cursor, view == ConsumedOnly, rest[0]);
      ListingComplete(t.messages, session, view, rest[0]);
      assert Followups.Sound(rest[0]);
    }
    SoundIff(rest, limit, page);
  }

  /** Every message of a view is seen once, in order, when the cursor is followed to the end, whatever the
      limits of the pages, in at most one page more than there are messages. */
  lemma AllMessagesSeen(t: Followups.Inbox, session: string, view: View, pages: seq<Page<Message>>, limits: seq<nat>)
    requires Followups.Good(t) && pages != [] && |limits| == |pages|
    requires forall j :: 0 <= j < |pages| - 1 ==> pages[j].items != [] && pages[j].hasMore
    requires forall j :: 0 <= j < |pages| ==>
               && limits[j] >= 1
               && Fullest(Remaining(t.messages, session, view, Cursor(pages, MessageNumber, j)), limits[j], pages[j])
    ensures Shown(pages) == Listing(t.messages, session, view) <==> !Last(pages).hasMore
    ensures |pages| <= |Listing(t.messages, session, view)| + 1
  {
    var listing := Listing(t.messages, session, view);
    ListingOrdered(t.messages, session, view);
    forall j | 0 <= j < |pages|
      ensures Sound(Rest(listing, MessageNumber, Cursor(pages, MessageNumber, j), view == ConsumedOnly), pages[j])
    {
      SoundPage(t, session, view, Cursor(pages, MessageNumber, j), limits[j], pages[j]);
    }
    EveryRowOnce(listing, MessageNumber, view == ConsumedOnly, pages);
    FollowingEnds(listing, MessageNumber, view == ConsumedOnly, pages);
  }
}
