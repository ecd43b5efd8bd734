/** Listing invoices page by page, newest first, with the last row of a page as the cursor of the
    next, while rows come, go and change status between the pages. */
module Pagination {
  import opened Options

  /** (created_at, id), the sort key; ids are unique and created_at never changes. */
  datatype Key = Key(createdAt: int, id: nat)

  predicate Less(a: Key, b: Key)
  {
    a.createdAt < b.createdAt || (a.createdAt == b.createdAt && a.id < b.id)
  }

  predicate Below(k: Key, cursor: Option<Key>)
  {
    cursor.None? || Less(k, cursor.value)
  }

  /** Math.min(Math.max(limit ?? 20, 1), 100). */
  function Limit(requested: Option<int>): (limit: nat)
    ensures requested == None ==> limit == 20
    ensures requested.Some? && 1 <= requested.value <= 100 ==> limit == requested.value
    ensures requested.Some? && requested.value < 1 ==> limit == 1
    ensures requested.Some? && requested.value > 100 ==> limit == 100
  {
    var wanted := if requested.Some? then requested.value else 20;
    if wanted < 1 then 1 else if wanted > 100 then 100 else wanted
  }

  ghost predicate Descending(keys: seq<Key>)
  {
    forall i, j :: 0 <= i < j < |keys| ==> Less(keys[j], keys[i])
  }

  /** The answer of SELECT .. WHERE key < cursor ORDER BY key DESC LIMIT n on the rows that match
      the merchant and the status filter now. */
  ghost predicate IsAnswer(rows: set<Key>, cursor: Option<Key>, n: nat, answer: seq<Key>)
  {
    && |answer| <= n && Descending(answer)
    && (forall k :: k in answer ==> k in rows && Below(k, cursor))
    && (forall k :: k in rows && Below(k, cursor) && k !in answer ==>
          |answer| == n && forall i :: 0 <= i < |answer| ==> Less(k, answer[i]))
  }

  lemma {:induction false} Newest(rows: set<Key>) returns (k: Key)
    requires rows != {}
    ensures k in rows && forall o :: o in rows && o != k ==> Less(o, k)
    decreases |rows|
  {
    var one :| one in rows;
    var others := rows - {one};
    assert rows == others + {one};
    k := one;
    if others != {} {
      var o := Newest(others);
      if Less(one, o) { k := o; }
    }
  }

  /** Every query has an answer. */
  lemma {:induction false} AnswerExists(rows: set<Key>, cursor: Option<Key>, n: nat) returns (answer: seq<Key>)
    ensures IsAnswer(rows, cursor, n, answer)
    decreases n
  {
    var below := set k | k in rows && Below(k, cursor);
    if n == 0 || below == {} {
      answer := [];
      assert forall k | k in rows && Below(k, cursor) :: k in below;
    } else {
      var first := Newest(below);
      var rest := AnswerExists(rows, Some(first), n - 1);
      answer := [first] + rest;
      forall i, j | 0 <= i < j < |answer| ensures Less(answer[j], answer[i]) {
        assert rest[j - 1] in rest;
      }
      forall k | k in rows && Below(k, cursor) && k !in answer
        ensures |answer| == n && forall i :: 0 <= i < |answer| ==> Less(k, answer[i])
      {
        assert k in below && k != first && Below(k, Some(first));
        assert k !in rest;
      }
    }
  }

  datatype Page = Page(items: seq<Key>, next: Option<Key>)

  /** What list returns, given the answer to its query for limit + 1 rows; next is the last row of
      the page, from which the cursor is written. */
  function ListPage(answer: seq<Key>, limit: nat): Page
    requires limit >= 1
  {
    if |answer| > limit then Page(answer[..limit], Some(answer[limit - 1])) else Page(answer, None)
  }

  /** The cursor that is written for a row when timestamps (in microseconds) are cut to a grain: the
      row itself for a grain of 1, the intended cursor; toISOString keeps milliseconds, a grain of
      1000. */
  function Cursor(grain: nat, k: Key): Key
    requires grain >= 1
  {
    Key(k.createdAt - k.createdAt % grain, k.id)
  }

  function NextCursor(grain: nat, page: Page): Option<Key>
    requires grain >= 1
  {
    if page.next.None? then None else Some(Cursor(grain, page.next.value))
  }

  /** One request of a walk: the matching rows at that moment, and the query's answer. */
  datatype Visit = Visit(rows: set<Key>, answer: seq<Key>)

  /** A walk: each request carries the cursor of the page before; it ends with a null cursor. */
  ghost predicate IsWalk(grain: nat, cursor: Option<Key>, limit: nat, visits: seq<Visit>)
    requires grain >= 1 && limit >= 1
    decreases visits
  {
    visits != [] ==>
      && IsAnswer(visits[0].rows, cursor, limit + 1, visits[0].answer)
      && var next := NextCursor(grain, ListPage(visits[0].answer, limit));
      if next.None? then |visits| == 1 else IsWalk(grain, next, limit, visits[1..])
  }

  function Items(limit: nat, visits: seq<Visit>): seq<Key>
    requires limit >= 1
  {
    if visits == [] then [] else ListPage(visits[0].answer, limit).items + Items(limit, visits[1..])
  }

  predicate Finished(limit: nat, visits: seq<Visit>)
    requires limit >= 1
  {
    visits != [] && ListPage(visits[|visits| - 1].answer, limit).next.None?
  }

  lemma CursorIsNotAbove(grain: nat, k: Key, o: Key)
    requires grain >= 1 && Less(o, Cursor(grain, k))
    ensures Less(o, k)
  {
  }

  /** The row comes after the page, but not after the cursor written for the page. */
  predicate Skips(grain: nat, limit: nat, v: Visit, k: Key)
    requires grain >= 1 && limit >= 1
  {
    var next := ListPage(v.answer, limit).next;
    next.Some? && Less(k, next.value) && !Less(k, Cursor(grain, next.value))
  }

  /** The items of a page are the rows above the next cursor, and every other row below the old
      cursor is below the new one. */
  lemma PageSplits(rows: set<Key>, cursor: Option<Key>, limit: nat, answer: seq<Key>)
    requires limit >= 1 && IsAnswer(rows, cursor, limit + 1, answer)
    ensures var page := ListPage(answer, limit);
      && Descending(page.items)
      && (forall k :: k in page.items ==> k in rows && Below(k, cursor))
      && (forall k :: k in rows && Below(k, cursor) && k !in page.items ==> page.next.Some? && Below(k, page.next))
      && (page.next.Some? ==> |page.items| == limit && page.next.value == page.items[limit - 1]
                              && Below(page.next.value, cursor))
  {
    var page := ListPage(answer, limit);
    if page.next.Some? {
      forall k | k in rows && Below(k, cursor) && k !in page.items ensures Below(k, page.next) {
        if k in answer {
          var i :| 0 <= i < |answer| && answer[i] == k;
          if i < limit { assert page.items[i] == k; }
        }
      }
    }
  }

  /** Older by creation time, the smaller id at one time. */
  predicate Older(a: Key, b: Key)
  {
    a.createdAt < b.createdAt || (a.createdAt == b.createdAt && a.id < b.id)
  }

  /** One page: of the rows older than the cursor it holds the newest, limit of them or all; it has a
      next cursor, written from its last row, exactly when there are more. */
  lemma PageIsNewest(rows: set<Key>, cursor: Option<Key>, limit: nat, answer: seq<Key>)
    requires limit >= 1 && IsAnswer(rows, cursor, limit + 1, answer)
    ensures var page := ListPage(answer, limit);
      var left := set k | k in rows && (cursor == None || Older(k, cursor.value));
      && |page.items| == (if |left| <= limit then |left| else limit)
      && (forall k :: k in page.items ==> k in left)
      && (forall k, i :: k in left && k !in page.items && 0 <= i < |page.items| ==> Older(k, page.items[i]))
      && (page.next == None <==> |left| <= limit)
      && (page.next.Some? ==> page.next.value == page.items[limit - 1])
  {
    var page := ListPage(answer, limit);
    var left := set k | k in rows && (cursor == None || Older(k, cursor.value));
    AnswerSize(left, limit, answer);
    assert forall i | 0 <= i < |page.items| :: page.items[i] == answer[i];
    forall k, i | k in left && k !in page.items && 0 <= i < |page.items| ensures Older(k, page.items[i]) {
      if k in answer { var j :| 0 <= j < |answer| && answer[j] == k; }
    }
  }

  lemma AnswerSize(left: set<Key>, limit: nat, answer: seq<Key>)
    requires Descending(answer) && |answer| <= limit + 1 && forall k :: k in answer ==> k in left
    requires forall k :: k in left && k !in answer ==> |answer| == limit + 1
    ensures |answer| == if |left| <= limit then |left| else limit + 1
  {
    DescendingSize(answer);
    var here := Keys(answer);
    assert here <= left;
    assert |left| == |here| + |left - here| by { assert left == here + (left - here); }
    if |answer| <= limit { assert left - here == {}; }
  }

  /** No row is returned twice: the items of a whole walk are strictly descending. */
  lemma {:induction false} WalkDescends(grain: nat, cursor: Option<Key>, limit: nat, visits: seq<Visit>)
    requires grain >= 1 && limit >= 1 && IsWalk(grain, cursor, limit, visits)
    ensures Descending(Items(limit, visits))
    ensures var items := Items(limit, visits); forall i, j :: 0 <= i < j < |items| ==> Older(items[j], items[i])
    ensures forall k :: k in Items(limit, visits) ==> Below(k, cursor)
    decreases visits
  {
    if visits != [] {
      var v := visits[0];
      var page := ListPage(v.answer, limit);
      PageSplits(v.rows, cursor, limit, v.answer);
      if page.next.Some? {
        WalkDescends(grain, NextCursor(grain, page), limit, visits[1..]);
        var rest := Items(limit, visits[1..]);
        forall k | k in rest ensures Less(k, page.next.value) {
          CursorIsNotAbove(grain, page.next.value, k);
        }
        forall i, j | 0 <= i < |page.items| && 0 <= j < |rest| ensures Less(rest[j], page.items[i]) {
          assert rest[j] in rest;
        }
      } else {
        assert visits[1..] == [];
      }
    }
  }

  /** The pages of a walk end below its cursor. */
  lemma {:induction false} EndsBelow(grain: nat, cursor: Option<Key>, limit: nat, visits: seq<Visit>)
    requires grain >= 1 && limit >= 1 && IsWalk(grain, cursor, limit, visits)
    ensures forall v :: v in visits ==>
              var next := ListPage(v.answer, limit).next; next.Some? ==> Below(next.value, cursor)
    decreases visits
  {
    if visits != [] {
      var page, rest := ListPage(visits[0].answer, limit), visits[1..];
      PageSplits(visits[0].rows, cursor, limit, visits[0].answer);
      if page.next.Some? {
        EndsBelow(grain, NextCursor(grain, page), limit, rest);
        forall v | v in rest && ListPage(v.answer, limit).next.Some?
          ensures Below(ListPage(v.answer, limit).next.value, cursor)
        {
          CursorIsNotAbove(grain, page.next.value, ListPage(v.answer, limit).next.value);
        }
      }
      assert forall v | v in visits :: v == visits[0] || v in rest;
    }
  }

  /** A row on the first page is skipped by no page. */
  lemma ReturnedIsNotSkipped(grain: nat, cursor: Option<Key>, limit: nat, visits: seq<Visit>, k: Key)
    requires grain >= 1 && limit >= 1 && IsWalk(grain, cursor, limit, visits) && visits != []
    requires k in ListPage(visits[0].answer, limit).items
    ensures forall v :: v in visits ==> !Skips(grain, limit, v, k)
  {
    var page, rest := ListPage(visits[0].answer, limit), visits[1..];
    assert forall u | u in visits :: u == visits[0] || u in rest;
    PageSplits(visits[0].rows, cursor, limit, visits[0].answer);
    if page.next.Some? {
      EndsBelow(grain, NextCursor(grain, page), limit, rest);
      AboveIsNotSkipped(grain, limit, page, rest, k);
    }
  }

  /** A row that is there, and matches, at each page of a finished walk is returned if and only if no
      page skips it. */
  lemma {:induction false} WalkMissesIffSkipped(grain: nat, cursor: Option<Key>, limit: nat, visits: seq<Visit>, k: Key)
    requires grain >= 1 && limit >= 1 && IsWalk(grain, cursor, limit, visits) && Finished(limit, visits)
    requires Below(k, cursor) && forall v :: v in visits ==> k in v.rows
    ensures k in Items(limit, visits) <==> forall v :: v in visits ==> !Skips(grain, limit, v, k)
    decreases visits
  {
    var v, rest := visits[0], visits[1..];
    var page := ListPage(v.answer, limit);
    assert v in visits && (forall u | u in rest :: u in visits) && (forall u | u in visits :: u == v || u in rest);
    PageSplits(v.rows, cursor, limit, v.answer);
    if k in page.items {
      ReturnedIsNotSkipped(grain, cursor, limit, visits, k);
    } else {
      var next := NextCursor(grain, page);
      WalkDescends(grain, next, limit, rest);
      if Less(k, next.value) {
        WalkMissesIffSkipped(grain, next, limit, rest, k);
      } else {
        assert Skips(grain, limit, v, k);
      }
    }
  }

  lemma AboveIsNotSkipped(grain: nat, limit: nat, page: Page, rest: seq<Visit>, k: Key)
    requires grain >= 1 && limit >= 1 && page.next.Some? && !Less(k, page.next.value)
    requires forall u :: u in rest ==>
               var next := ListPage(u.answer, limit).next; next.Some? ==> Below(next.value, NextCursor(grain, page))
    ensures forall u :: u in rest ==> !Skips(grain, limit, u, k)
  {
    forall u | u in rest ensures !Skips(grain, limit, u, k) {
      var next := ListPage(u.answer, limit).next;
      if next.Some? { CursorIsNotAbove(grain, page.next.value, next.value); }
    }
  }

  /** With the intended cursor every row that is there, and matches, at each page of a finished walk is
      returned. */
  lemma WalkMissesNothing(cursor: Option<Key>, limit: nat, visits: seq<Visit>, k: Key)
    requires limit >= 1 && IsWalk(1, cursor, limit, visits) && Finished(limit, visits)
    requires Below(k, cursor) && forall v :: v in visits ==> k in v.rows
    ensures k in Items(limit, visits)
  {
    WalkMissesIffSkipped(1, cursor, limit, visits, k);
  }

  const ROWS: set<Key> := {Key(1700, 2), Key(1200, 1), Key(500, 0)}

  /** With a cursor in milliseconds a row of the same millisecond as the end of a page is lost. */
  lemma MillisecondCursorSkips()
    ensures var visits := [Visit(ROWS, [Key(1700, 2), Key(1200, 1)]), Visit(ROWS, [Key(500, 0)])];
            && IsWalk(1000, None, 1, visits) && Finished(1, visits)
            && Key(1200, 1) in ROWS && Key(1200, 1) !in Items(1, visits)
  {
    var first, second := Visit(ROWS, [Key(1700, 2), Key(1200, 1)]), Visit(ROWS, [Key(500, 0)]);
    var visits := [first, second];
    assert visits[1..] == [second] && [second][1..] == [];
    assert IsAnswer(ROWS, None, 2, first.answer);
    assert ListPage(first.answer, 1) == Page([Key(1700, 2)], Some(Key(1700, 2)));
    assert Cursor(1000, Key(1700, 2)) == Key(1000, 2);
    assert IsAnswer(ROWS, Some(Key(1000, 2)), 2, second.answer);
    assert Items(1, [second]) == [Key(500, 0)];
    assert Items(1, visits) == [Key(1700, 2), Key(500, 0)];
  }

  function Count(keys: seq<Key>, k: Key): nat
  {
    if keys == [] then 0 else Count(keys[1..], k) + if keys[0] == k then 1 else 0
  }

  lemma {:induction false} DescendingCount(keys: seq<Key>, k: Key)
    requires Descending(keys)
    ensures Count(keys, k) == if k in keys then 1 else 0
  {
    if keys != [] {
      DescendingCount(keys[1..], k);
      assert keys == [keys[0]] + keys[1..];
    }
  }

  /** With the intended cursor a finished walk from the start returns each row that was there
      throughout exactly once, and any other row at most once. */
  lemma WalkIsExact(limit: nat, visits: seq<Visit>, k: Key)
    requires limit >= 1 && IsWalk(1, None, limit, visits) && Finished(limit, visits)
    ensures Count(Items(limit, visits), k) <= 1
    ensures (forall v :: v in visits ==> k in v.rows) ==> Count(Items(limit, visits), k) == 1
    ensures (forall v :: v in visits ==> k !in v.rows) ==> Count(Items(limit, visits), k) == 0
  {
    WalkDescends(1, None, limit, visits);
    DescendingCount(Items(limit, visits), k);
    if forall v :: v in visits ==> k in v.rows { WalkMissesNothing(None, limit, visits, k); }
    if forall v :: v in visits ==> k !in v.rows { WalkReturnsRows(1, None, limit, visits, k); }
  }

  /** A row that was never there is not returned. */
  lemma {:induction false} WalkReturnsRows(grain: nat, cursor: Option<Key>, limit: nat, visits: seq<Visit>, k: Key)
    requires grain >= 1 && limit >= 1 && IsWalk(grain, cursor, limit, visits)
    requires forall v :: v in visits ==> k !in v.rows
    ensures k !in Items(limit, visits)
    decreases visits
  {
    if visits != [] {
      assert visits[0] in visits;
      PageSplits(visits[0].rows, cursor, limit, visits[0].answer);
      var next := NextCursor(grain, ListPage(visits[0].answer, limit));
      if next.Some? {
        assert forall u | u in visits[1..] :: u in visits;
        WalkReturnsRows(grain, next, limit, visits[1..], k);
      } else {
        assert visits[1..] == [];
      }
    }
  }

  // ----- termination ------------------------------------------------------------------------

  function RowsBelow(rows: set<Key>, cursor: Option<Key>): set<Key>
  {
    set k | k in rows && Below(k, cursor)
  }

  /** At each page the matching rows below its cursor are among the given ones, however they come and
      go: invoices created meanwhile are newer, and others may change status. */
  ghost predicate RowsAmong(grain: nat, cursor: Option<Key>, limit: nat, visits: seq<Visit>, all: set<Key>)
    requires grain >= 1 && limit >= 1
    decreases visits
  {
    visits != [] ==>
      && RowsBelow(visits[0].rows, cursor) <= all
      && var next := NextCursor(grain, ListPage(visits[0].answer, limit));
      (next.Some? ==> RowsAmong(grain, next, limit, visits[1..], all))
  }

  function Keys(items: seq<Key>): (s: set<Key>)
    ensures forall k :: k in s <==> k in items
  {
    if items == [] then {} else
      assert items == [items[0]] + items[1..];
      {items[0]} + Keys(items[1..])
  }

  lemma {:induction false} DescendingSize(items: seq<Key>)
    requires Descending(items)
    ensures |Keys(items)| == |items|
  {
    if items != [] {
      DescendingSize(items[1..]);
      DescendingCount(items, items[0]);
      DescendingCount(items[1..], items[0]);
    }
  }

  /** A full page leaves at least limit of the given rows fewer below the cursor. */
  lemma PageUsesRows(grain: nat, rows: set<Key>, all: set<Key>, cursor: Option<Key>, limit: nat, answer: seq<Key>)
    requires grain >= 1 && limit >= 1 && IsAnswer(rows, cursor, limit + 1, answer)
    requires RowsBelow(rows, cursor) <= all && ListPage(answer, limit).next.Some?
    ensures |RowsBelow(all, NextCursor(grain, ListPage(answer, limit)))| + limit <= |RowsBelow(all, cursor)|
  {
    var page := ListPage(answer, limit);
    PageSplits(rows, cursor, limit, answer);
    DescendingSize(page.items);
    var before, after, here := RowsBelow(all, cursor), RowsBelow(all, NextCursor(grain, page)), Keys(page.items);
    forall k | k in here ensures k in before {
      assert k in RowsBelow(rows, cursor);
    }
    forall k | k in after ensures k in before && k !in here {
      CursorIsNotAbove(grain, page.next.value, k);
      NotAboveLast(page.items, k);
    }
    DisjointSizes(after, here, before);
  }

  lemma NotAboveLast(items: seq<Key>, k: Key)
    requires Descending(items) && items != [] && Less(k, items[|items| - 1])
    ensures k !in items
  {
  }

  lemma DisjointSizes(a: set<Key>, b: set<Key>, all: set<Key>)
    requires a !! b && a <= all && b <= all
    ensures |a| + |b| <= |all|
  {
    assert all == a + b + (all - a - b);
    assert |a + b| == |a| + |b|;
    assert |all| == |a + b| + |all - a - b|;
  }

  /** A walk ends: each page before the last uses up limit of the rows that ever match below its
      cursor. */
  lemma {:induction false} WalkEnds(grain: nat, cursor: Option<Key>, limit: nat, visits: seq<Visit>, all: set<Key>)
    requires grain >= 1 && limit >= 1 && visits != []
    requires IsWalk(grain, cursor, limit, visits) && RowsAmong(grain, cursor, limit, visits, all)
    ensures limit * (|visits| - 1) <= |RowsBelow(all, cursor)|
    decreases visits
  {
    if |visits| >= 2 {
      WalkEnds(grain, NextCursor(grain, ListPage(visits[0].answer, limit)), limit, visits[1..], all);
      PageUsesRows(grain, visits[0].rows, all, cursor, limit, visits[0].answer);
      assert limit * (|visits| - 1) == limit * (|visits| - 2) + limit;
    }
  }

  // ----- the cursor as text -----------------------------------------------------------------

  /** s.split(':') */
  function Split(s: string): (parts: seq<string>)
    ensures parts != []
  {
    if s == "" then [""]
    else
      var rest := Split(s[1..]);
      if s[0] == ':' then [""] + rest else [[s[0]] + rest[0]] + rest[1..]
  }

  lemma {:induction false} SplitHead(a: string, b: string)
    requires ':' !in a
    ensures Split(a + ":" + b) == [a] + Split(b)
  {
    var s := a + ":" + b;
    if a == "" {
      assert s[1..] == b;
    } else {
      assert s[1..] == a[1..] + ":" + b;
      SplitHead(a[1..], b);
      assert [a[0]] + a[1..] == a;
    }
  }

  lemma {:induction false} SplitPlain(s: string)
    ensures Split(s)[0] == s <==> ':' !in s
    ensures ':' !in Split(s)[0]
  {
    if s != "" {
      SplitPlain(s[1..]);
      assert s == [s[0]] + s[1..];
    }
  }

  /** The cursor text "<timestamp>:<id>" splits back into the two exactly when neither contains a
      colon; an ISO timestamp contains two. */
  lemma CursorTextRoundTrip(createdAt: string, id: string)
    ensures var parts := Split(createdAt + ":" + id);
      (|parts| >= 2 && parts[0] == createdAt && parts[1] == id) <==> ':' !in createdAt && ':' !in id
  {
    var parts := Split(createdAt + ":" + id);
    if ':' !in createdAt {
      SplitHead(createdAt, id);
      SplitPlain(id);
    } else {
      SplitPlain(createdAt + ":" + id);
    }
  }

  /** toISOString: the date and the hours, the minutes, and the seconds to the millisecond, with
      colons between them. */
  datatype IsoTime = IsoTime(hours: string, minutes: string, seconds: string)

  predicate IsIso(t: IsoTime)
  {
    ':' !in t.hours && ':' !in t.minutes && ':' !in t.seconds && |t.minutes| == 2
  }

  function IsoText(t: IsoTime): string
  {
    t.hours + ":" + t.minutes + ":" + t.seconds
  }

  function CursorText(t: IsoTime, id: string): string
  {
    IsoText(t) + ":" + id
  }

  /** What list reads out of its own cursor: the hours as timestamp and the minutes as id, whatever the
      row. */
  lemma OwnCursorIsMisread(t: IsoTime, id: string)
    requires IsIso(t)
    ensures var parts := Split(CursorText(t, id));
      |parts| >= 3 && parts[0] == t.hours && parts[1] == t.minutes
  {
    var rest := t.minutes + ":" + (t.seconds + ":" + id);
    assert CursorText(t, id) == t.hours + ":" + rest;
    SplitHead(t.hours, rest);
    SplitHead(t.minutes, t.seconds + ":" + id);
  }

  /** $4::uuid takes no text shorter than the 32 hexadecimal digits of a uuid. */
  predicate Accepted(cursor: string)
  {
    var parts := Split(cursor);
    |parts| >= 2 && |parts[1]| >= 32
  }

  /** A walk as the code serves it: a further page only when the cursor text of the page before is
      accepted. iso and uuid print the columns. */
  ghost predicate IsServedWalk(limit: nat, visits: seq<Visit>, iso: int -> IsoTime, uuid: nat -> string)
    requires limit >= 1
  {
    && visits != [] && IsAnswer(visits[0].rows, None, limit + 1, visits[0].answer)
    && forall i :: 0 <= i < |visits| - 1 ==>
         var next := ListPage(visits[i].answer, limit).next;
         next.Some? && Accepted(CursorText(iso(next.value.createdAt), uuid(next.value.id)))
  }

  /** An answer with room to spare is all the rows. */
  lemma AnswerIsAll(rows: set<Key>, limit: nat, answer: seq<Key>)
    requires IsAnswer(rows, None, limit + 1, answer)
    ensures |answer| <= limit <==> |rows| <= limit
  {
    DescendingSize(answer);
    var here := Keys(answer);
    assert here <= rows;
    assert |rows| == |here| + |rows - here| by { assert rows == here + (rows - here); }
    if |answer| <= limit { assert rows - here == {}; }
  }

  /** By the code's own cursor no second page is ever served: the list is complete if and only if the
      rows fit the first page. */
  lemma ServedWalkCompletesIff(
    requested: Option<int>, visits: seq<Visit>, iso: int -> IsoTime, uuid: nat -> string)
    requires forall t :: IsIso(iso(t))
    requires IsServedWalk(Limit(requested), visits, iso, uuid)
    ensures |visits| == 1
    ensures Finished(Limit(requested), visits) <==> |visits[0].rows| <= Limit(requested)
  {
    var limit := Limit(requested);
    if |visits| > 1 {
      var next := ListPage(visits[0].answer, limit).next;
      OwnCursorIsMisread(iso(next.value.createdAt), uuid(next.value.id));
    }
    AnswerIsAll(visits[0].rows, limit, visits[0].answer);
  }
}
