/** Paging over alarms when part of the filter can only be evaluated after the query: batches
    are fetched until a page is full or the table is exhausted. */
module AlarmPaging {
  import opened Text
  import opened AlarmQuery

  datatype Item = Item(alarm: Alarm, template: Option<Template>) {
    predicate Supported() { template.Some? }
  }

  datatype Page = Page(items: seq<Item>, next: Option<Key>, hasMore: bool)

  function MapAlarm(c: Catalog, a: Alarm): Item {
    Item(a, c.route(a.deviceType, a.name))
  }

  /** The part of the filter that needs the template. */
  predicate Keeps(f: Filters, item: Item) {
    && (f.supported.Some? ==> item.Supported() == f.supported.value)
    && (f.template != "" ==> item.template.Some? && item.template.value.id == f.template)
  }

  function Listed(c: Catalog, f: Filters, s: seq<Alarm>): seq<Item>
    decreases |s|
  {
    if s == [] then []
    else
      var item := MapAlarm(c, s[|s| - 1]);
      Listed(c, f, s[..|s| - 1]) + (if Keeps(f, item) then [item] else [])
  }

  /** All rows the database part of the filter lets through, in order. */
  function Rows(c: Catalog, f: Filters): seq<Alarm> {
    Where(c, OrderBy(c.table), f, None)
  }

  /** Filter, then everything after the cursor. */
  function Wanted(c: Catalog, f: Filters, cursor: Option<Key>): seq<Item> {
    Listed(c, f, From(Rows(c, f), cursor))
  }

  /** Filter, then slice. */
  function PageOf(c: Catalog, f: Filters, limit: int, cursor: Option<Key>): Page {
    var wanted := Wanted(c, f, cursor);
    var items := Take(wanted, limit);
    Page(items, if |wanted| > limit && limit > 0 then Some(KeyOf(wanted[limit - 1].alarm)) else None, |wanted| > limit)
  }

  lemma {:induction false} ListedSplits(c: Catalog, f: Filters, s: seq<Alarm>, t: seq<Alarm>)
    ensures Listed(c, f, s + t) == Listed(c, f, s) + Listed(c, f, t)
    decreases |t|
  {
    if t == [] {
      assert s + t == s;
    } else {
      assert (s + t)[..|s + t| - 1] == s + t[..|t| - 1];
      ListedSplits(c, f, s, t[..|t| - 1]);
    }
  }

  lemma RowsAreOrdered(c: Catalog, f: Filters, cursor: Option<Key>)
    requires UniqueIds(c.table)
    ensures Ordered(Rows(c, f)) && Where(c, OrderBy(c.table), f, cursor) == From(Rows(c, f), cursor)
  {
    OrderByOrders(c.table);
    WhereKeepsOrder(c, OrderBy(c.table), f);
    WhereIsFrom(c, OrderBy(c.table), f, cursor);
  }

  lemma FetchIsFrom(c: Catalog, f: Filters, n: nat, cursor: Option<Key>)
    requires UniqueIds(c.table) && n > 0
    ensures var rest := From(Rows(c, f), cursor);
            var (rows, next) := Fetch(c, f, n, cursor);
            rows == Take(rest, n) && (next.None? <==> |rest| <= n)
            && (next.Some? ==> From(Rows(c, f), next) == rest[n..])
  {
    hide OrderBy, Where, From, Rows, Ordered;
    RowsAreOrdered(c, f, cursor);
    var rest := From(Rows(c, f), cursor);
    if |rest| > n {
      KeysetResumes(Rows(c, f), cursor, n);
      assert rest[..n + 1][..n] == rest[..n];
    }
  }

  lemma BatchTaken(c: Catalog, f: Filters, before: seq<Item>, rest: seq<Alarm>, k: nat)
    requires k <= |rest|
    ensures before + Listed(c, f, rest) == before + Listed(c, f, rest[..k]) + Listed(c, f, rest[k..])
    ensures k == |rest| ==> before + Listed(c, f, rest) == before + Listed(c, f, rest[..k])
  {
    assert rest == rest[..k] + rest[k..];
    ListedSplits(c, f, rest[..k], rest[k..]);
    assert before + (Listed(c, f, rest[..k]) + Listed(c, f, rest[k..]))
        == before + Listed(c, f, rest[..k]) + Listed(c, f, rest[k..]);
  }

  /** One batch either ends the search, with the page and one item more if there is one, or
      leaves less to search. */
  lemma BatchSearched(c: Catalog, f: Filters, limit: nat, n: nat, cursor: Option<Key>, before: seq<Item>,
                      wanted: seq<Item>)
    requires UniqueIds(c.table) && n > 0
    requires before + Listed(c, f, From(Rows(c, f), cursor)) == wanted
    ensures var (records, next) := Fetch(c, f, n, cursor);
            var items := Take(before + Listed(c, f, records), limit + 1);
            if |items| > limit || next.None? then items == Take(wanted, limit + 1)
            else items + Listed(c, f, From(Rows(c, f), next)) == wanted
                 && |From(Rows(c, f), next)| < |From(Rows(c, f), cursor)|
  {
    hide Fetch, Listed, From, Rows;
    FetchIsFrom(c, f, n, cursor);
    var rest := From(Rows(c, f), cursor);
    var (records, next) := Fetch(c, f, n, cursor);
    assert records == rest[..|records|];
    BatchTaken(c, f, before, rest, |records|);
    TakePrefix(before + Listed(c, f, records), Listed(c, f, rest[|records|..]), limit + 1);
  }

  lemma TakePrefix(s: seq<Item>, t: seq<Item>, n: nat)
    ensures |s| >= n ==> Take(s + t, n) == Take(s, n)
    ensures |Take(s, n)| < n ==> Take(s, n) == s
  {
  }

  method Alarms(c: Catalog, f: Filters, limit: int, cursor: Option<Key>) returns (page: Page)
    requires UniqueIds(c.table)
    ensures page == PageOf(c, f, limit, cursor)
  {
    hide Fetch, Listed, From, Rows, Take;
    var items: seq<Item> := [];
    var batchCursor := cursor;
    ghost var wanted := Wanted(c, f, cursor);
    assert items + wanted == wanted;
    while |items| <= limit
      invariant limit >= 0 ==> |items| <= limit && items + Listed(c, f, From(Rows(c, f), batchCursor)) == wanted
      invariant limit < 0 ==> items == []
      decreases |From(Rows(c, f), batchCursor)|
    {
      var n := if limit * 2 > 100 then limit * 2 else 100;
      BatchSearched(c, f, limit, n, batchCursor, items, wanted);
      var (records, pageCursor) := Fetch(c, f, n, batchCursor);
      items := AddKept(c, f, limit, records, items);
      if |items| > limit || pageCursor.None? { break; }
      batchCursor := pageCursor;
    }
    PageOfTaken(c, f, limit, cursor, items);
    var hasMore := |items| > limit;
    items := Take(items, limit);
    var next := if hasMore && items != [] then Some(KeyOf(items[|items| - 1].alarm)) else None;
    page := Page(items, next, hasMore);
  }

  lemma PageOfTaken(c: Catalog, f: Filters, limit: int, cursor: Option<Key>, items: seq<Item>)
    requires items == if limit < 0 then [] else Take(Wanted(c, f, cursor), limit + 1)
    ensures var shown, more := Take(items, limit), |items| > limit;
            var next := if more && shown != [] then Some(KeyOf(shown[|shown| - 1].alarm)) else None;
            PageOf(c, f, limit, cursor) == Page(shown, next, more)
  {
    hide Wanted;
    assert Take(items, limit) == Take(Wanted(c, f, cursor), limit);
  }

  /** Appends the kept records, stopping one past the limit. */
  method AddKept(c: Catalog, f: Filters, limit: int, records: seq<Alarm>, before: seq<Item>) returns (items: seq<Item>)
    requires |before| <= limit
    ensures items == Take(before + Listed(c, f, records), limit + 1)
  {
    hide Take;
    items := before;
    for i := 0 to |records|
      invariant items == before + Listed(c, f, records[..i]) && |items| <= limit
    {
      assert records[..i + 1][..i] == records[..i];
      var item := MapAlarm(c, records[i]);
      if f.supported.Some? && item.Supported() != f.supported.value { continue; }
      if f.template != "" && (item.template.None? || item.template.value.id != f.template) { continue; }
      items := items + [item];
      if |items| > limit {
        assert items == before + Listed(c, f, records[..i + 1]);
        BatchTaken(c, f, before, records, i + 1);
        OneTooMany(items, Listed(c, f, records[i + 1..]), limit);
        return;
      }
    }
    assert records[..|records|] == records;
    TakeAll(items, limit + 1);
  }

  lemma OneTooMany(items: seq<Item>, more: seq<Item>, limit: int)
    requires |items| == limit + 1
    ensures Take(items + more, limit + 1) == items
  {
  }

  lemma TakeAll(items: seq<Item>, n: int)
    requires |items| <= n
    ensures Take(items, n) == items
  {
  }

  // ----- following the cursors -----

  /** One more row after position `i`. */
  lemma ListedAfter(c: Catalog, f: Filters, s: seq<Alarm>, last: Alarm, i: nat)
    requires i < |s|
    ensures Listed(c, f, (s + [last])[i + 1..]) == Listed(c, f, s[i + 1..]) + Listed(c, f, [last])
  {
    assert (s + [last])[i + 1..] == s[i + 1..] + [last];
    ListedSplits(c, f, s[i + 1..], [last]);
  }

  lemma ListedOne(c: Catalog, f: Filters, a: Alarm)
    ensures Listed(c, f, [a]) == if Keeps(f, MapAlarm(c, a)) then [MapAlarm(c, a)] else []
  {
    assert [a][..0] == [];
  }

  lemma NothingListed(c: Catalog, f: Filters)
    ensures Listed(c, f, []) == []
  {
  }

  /** The row an item was made of, and what is listed after it. */
  lemma {:induction false} ListedAt(c: Catalog, f: Filters, s: seq<Alarm>, k: nat) returns (i: nat)
    requires k < |Listed(c, f, s)|
    ensures i < |s| && Listed(c, f, s)[k] == MapAlarm(c, s[i])
    ensures Listed(c, f, s[i + 1..]) == Listed(c, f, s)[k + 1..]
    decreases |s|
  {
    hide Listed, MapAlarm, Keeps;
    assert s != [] by { NothingListed(c, f); }
    var s', last := s[..|s| - 1], s[|s| - 1];
    assert s == s' + [last];
    ListedSplits(c, f, s', [last]);
    ListedOne(c, f, last);
    if k == |Listed(c, f, s')| {
      i := |s| - 1;
      assert s[i + 1..] == [];
      NothingListed(c, f);
    } else {
      i := ListedAt(c, f, s', k);
      ListedAfter(c, f, s', last, i);
    }
  }

  /** The next page starts where this one ended. */
  lemma NextPageResumes(c: Catalog, f: Filters, limit: int, cursor: Option<Key>)
    requires UniqueIds(c.table) && PageOf(c, f, limit, cursor).next.Some?
    ensures limit > 0 && |Wanted(c, f, cursor)| > limit
    ensures Wanted(c, f, PageOf(c, f, limit, cursor).next) == Wanted(c, f, cursor)[limit..]
  {
    hide Listed, From, Rows, Ordered;
    var rows := Rows(c, f);
    RowsAreOrdered(c, f, cursor);
    var i := ListedAt(c, f, From(rows, cursor), limit - 1);
    KeysetResumes(rows, cursor, i + 1);
  }

  /** All pages, by following the cursors to the end. */
  ghost function AllPages(c: Catalog, f: Filters, limit: int, cursor: Option<Key>): seq<Item>
    requires UniqueIds(c.table)
    decreases |Wanted(c, f, cursor)|
  {
    var page := PageOf(c, f, limit, cursor);
    if page.next.None? then page.items
    else
      NextPageResumes(c, f, limit, cursor);
      page.items + AllPages(c, f, limit, page.next)
  }

  /** With a positive limit the pages together list what filtering lists; with none they list
      nothing. */
  lemma {:induction false} PagesListEverything(c: Catalog, f: Filters, limit: int, cursor: Option<Key>)
    requires UniqueIds(c.table)
    ensures AllPages(c, f, limit, cursor) == Wanted(c, f, cursor) <==> limit > 0 || Wanted(c, f, cursor) == []
    decreases |Wanted(c, f, cursor)|
  {
    var page, wanted := PageOf(c, f, limit, cursor), Wanted(c, f, cursor);
    if page.next.Some? {
      NextPageResumes(c, f, limit, cursor);
      PagesListEverything(c, f, limit, page.next);
      assert wanted == wanted[..limit] + wanted[limit..];
    }
  }

  predicate ItemsOrdered(s: seq<Item>) {
    forall i, j :: 0 <= i < j < |s| ==> Before(KeyOf(s[i].alarm), KeyOf(s[j].alarm))
  }

  lemma {:induction false} ListedMembers(c: Catalog, f: Filters, s: seq<Alarm>)
    requires Ordered(s)
    ensures ItemsOrdered(Listed(c, f, s))
    ensures forall item :: item in Listed(c, f, s)
              <==> item.alarm in s && item == MapAlarm(c, item.alarm) && Keeps(f, item)
    decreases |s|
  {
    if s != [] {
      var s', a := s[..|s| - 1], s[|s| - 1];
      ListedMembers(c, f, s');
      assert s == s' + [a];
      hide Keeps;
      var t := Listed(c, f, s');
      forall i | 0 <= i < |t| ensures Before(KeyOf(t[i].alarm), KeyOf(a)) {
        assert t[i] in t;
        var j :| 0 <= j < |s'| && s'[j] == t[i].alarm;
        assert s[j] == s'[j];
      }
    }
  }

  /** The filter, field by field; an empty text or an absent value filters nothing. */
  predicate Passes(c: Catalog, f: Filters, a: Alarm) {
    && (f.site != "" ==> a.site == f.site) && (f.device != "" ==> a.device == f.device)
    && (f.level != "" ==> a.level == f.level) && (f.status != "" ==> a.status == f.status)
    && (f.source != "" ==> a.source == f.source)
    && (f.since.Some? ==> f.since.value <= a.time) && (f.until.Some? ==> a.time <= f.until.value)
    && (f.q != "" ==> c.like(f.q, a))
    && (f.supported == Some(true) ==> c.route(a.deviceType, a.name).Some?)
    && (f.supported == Some(false) ==> c.route(a.deviceType, a.name).None?)
    && (f.template != "" ==>
          c.route(a.deviceType, a.name).Some? && c.route(a.deviceType, a.name).value.id == f.template)
  }

  /** Newest first, and by id within a moment. */
  predicate NewestFirst(s: seq<Item>) {
    forall i, j :: 0 <= i < j < |s| ==>
      s[i].alarm.time > s[j].alarm.time || (s[i].alarm.time == s[j].alarm.time && s[i].alarm.id < s[j].alarm.id)
  }

  predicate Later(a: Alarm, cursor: Option<Key>) {
    cursor.None? || a.time < cursor.value.time || (a.time == cursor.value.time && a.id > cursor.value.id)
  }

  lemma {:induction false} FromMembers(s: seq<Alarm>, cursor: Option<Key>)
    requires Ordered(s)
    ensures Ordered(From(s, cursor))
    ensures forall a :: a in From(s, cursor) <==> a in s && Later(a, cursor)
    decreases |s|
  {
    if s != [] {
      FromMembers(s[1..], cursor);
      var t := From(s[1..], cursor);
      forall i | 0 <= i < |t| ensures Before(KeyOf(s[0]), KeyOf(t[i])) { assert t[i] in t; }
    }
  }

  lemma PassesMeansBothFilters(c: Catalog, f: Filters, a: Alarm)
    ensures Matches(c, f, a) && Keeps(f, MapAlarm(c, a)) <==> Passes(c, f, a)
  {
  }

  /** What is listed after a cursor: every alarm of the table after it that passes the filter,
      once each with the template it is routed to, newest first and by id within a moment. */
  lemma ListingIsComplete(c: Catalog, f: Filters, cursor: Option<Key>)
    requires UniqueIds(c.table)
    ensures NewestFirst(Wanted(c, f, cursor))
    ensures forall item :: item in Wanted(c, f, cursor) <==>
              && item.alarm in c.table && Later(item.alarm, cursor) && Passes(c, f, item.alarm)
              && item.template == c.route(item.alarm.deviceType, item.alarm.name)
  {
    var s := OrderBy(c.table);
    OrderByOrders(c.table);
    WhereKeepsOrder(c, s, f);
    var rows := Rows(c, f);
    FromMembers(rows, cursor);
    ListedMembers(c, f, From(rows, cursor));
    forall a ensures a in s <==> a in c.table { assert a in multiset(s) <==> a in multiset(c.table); }
    forall a ensures Matches(c, f, a) && Keeps(f, MapAlarm(c, a)) <==> Passes(c, f, a) {
      PassesMeansBothFilters(c, f, a);
    }
    hide Matches, Keeps, Passes, Listed, From, Rows;
  }

  /** A page holds the first items after the cursor, as many as the limit allows; the next
      page starts after the last of them. */
  lemma PageIsExact(c: Catalog, f: Filters, limit: int, cursor: Option<Key>)
    ensures var page, wanted := PageOf(c, f, limit, cursor), Wanted(c, f, cursor);
            && page.items <= wanted
            && |page.items| == (if limit < 0 then 0 else if limit < |wanted| then limit else |wanted|)
            && (page.next.Some? <==> 0 < limit < |wanted|)
            && (page.next.Some? ==>
                  page.next == Some(Key(wanted[limit - 1].alarm.time, wanted[limit - 1].alarm.id)))
            && (page.hasMore <==> limit < |wanted|)
  {
  }

  /** "More" is announced exactly when a match lies beyond the page, unless the limit is
      negative and there is no match at all. */
  lemma MoreMeansMore(c: Catalog, f: Filters, limit: int, cursor: Option<Key>)
    ensures var page, wanted := PageOf(c, f, limit, cursor), Wanted(c, f, cursor);
            (page.hasMore <==> |wanted| > |page.items|) <==> limit >= 0 || wanted != []
  {
  }
}
