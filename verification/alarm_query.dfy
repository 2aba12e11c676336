/** The alarm table and the keyset query over it: newest first, ids ascending within a
    moment, everything after a cursor. Times and ids are given by their rank. */
module AlarmQuery {
  import opened Text

  datatype Template = Template(category: string, id: string, version: string)

  datatype Alarm = Alarm(
    id: nat, time: int, site: string, device: string, level: string, status: string, source: string,
    name: string, deviceType: string)

  /** The table, what the database matches for LIKE, and the routing of alarms to templates. */
  datatype Catalog = Catalog(
    table: seq<Alarm>,
    like: (string, Alarm) -> bool,
    route: (string, string) -> Option<Template>)

  /** An empty text is an absent filter. */
  datatype Filters = Filters(
    site: string, device: string, level: string, status: string, source: string,
    since: Option<int>, until: Option<int>, q: string,
    supported: Option<bool>, template: string)

  datatype Key = Key(time: int, id: nat)

  function KeyOf(a: Alarm): Key {
    Key(a.time, a.id)
  }

  predicate Before(k: Key, l: Key) {
    k.time > l.time || (k.time == l.time && k.id < l.id)
  }

  predicate Ordered(s: seq<Alarm>) {
    forall i, j :: 0 <= i < j < |s| ==> Before(KeyOf(s[i]), KeyOf(s[j]))
  }

  /** The primary key. */
  predicate UniqueIds(s: seq<Alarm>) {
    forall i, j :: 0 <= i < j < |s| ==> s[i].id != s[j].id
  }

  predicate Same(filter: string, value: string) {
    filter == "" || filter == value
  }

  /** The part of the filter that the database evaluates. */
  predicate Matches(c: Catalog, f: Filters, a: Alarm) {
    && Same(f.site, a.site) && Same(f.device, a.device) && Same(f.level, a.level)
    && Same(f.status, a.status) && Same(f.source, a.source)
    && (f.since.Some? ==> a.time >= f.since.value)
    && (f.until.Some? ==> a.time <= f.until.value)
    && (f.q != "" ==> c.like(f.q, a))
  }

  predicate After(cursor: Option<Key>, a: Alarm) {
    cursor.Some? ==> Before(cursor.value, KeyOf(a))
  }

  // ----- order by -----

  function InsertAlarm(a: Alarm, s: seq<Alarm>): seq<Alarm> {
    if s == [] || Before(KeyOf(a), KeyOf(s[0])) then [a] + s else [s[0]] + InsertAlarm(a, s[1..])
  }

  function OrderBy(s: seq<Alarm>): seq<Alarm> {
    if s == [] then [] else InsertAlarm(s[0], OrderBy(s[1..]))
  }

  lemma {:induction false} InsertAlarmPermutes(a: Alarm, s: seq<Alarm>)
    ensures multiset(InsertAlarm(a, s)) == multiset{a} + multiset(s)
    decreases |s|
  {
    if s == [] || Before(KeyOf(a), KeyOf(s[0])) {
      assert multiset([a] + s) == multiset{a} + multiset(s);
    } else {
      InsertAlarmPermutes(a, s[1..]);
      assert s == [s[0]] + s[1..];
    }
  }

  lemma {:induction false} InsertAlarmOrders(a: Alarm, s: seq<Alarm>)
    requires Ordered(s) && forall i :: 0 <= i < |s| ==> s[i].id != a.id
    ensures Ordered(InsertAlarm(a, s)) && forall b :: b in InsertAlarm(a, s) ==> b == a || b in s
    decreases |s|
  {
    if s != [] && !Before(KeyOf(a), KeyOf(s[0])) {
      InsertAlarmOrders(a, s[1..]);
      var t := InsertAlarm(a, s[1..]);
      forall i | 0 <= i < |t| ensures Before(KeyOf(s[0]), KeyOf(t[i])) { assert t[i] in t; }
    }
  }

  lemma {:induction false} OrderByOrders(s: seq<Alarm>)
    requires UniqueIds(s)
    ensures Ordered(OrderBy(s)) && multiset(OrderBy(s)) == multiset(s)
    decreases |s|
  {
    if s != [] {
      OrderByOrders(s[1..]);
      var t := OrderBy(s[1..]);
      forall i | 0 <= i < |t| ensures t[i].id != s[0].id { assert t[i] in multiset(s[1..]); }
      InsertAlarmOrders(s[0], t);
      InsertAlarmPermutes(s[0], t);
      assert s == [s[0]] + s[1..];
    }
  }

  // ----- where -----

  function Where(c: Catalog, s: seq<Alarm>, f: Filters, cursor: Option<Key>): seq<Alarm> {
    if s == [] then []
    else (if Matches(c, f, s[0]) && After(cursor, s[0]) then [s[0]] else []) + Where(c, s[1..], f, cursor)
  }

  function From(s: seq<Alarm>, cursor: Option<Key>): seq<Alarm> {
    if s == [] then [] else (if After(cursor, s[0]) then [s[0]] else []) + From(s[1..], cursor)
  }

  function Take<T>(s: seq<T>, n: int): seq<T> {
    if n <= 0 then [] else if n >= |s| then s else s[..n]
  }

  /** The repository: at most `limit` rows, and a cursor if there are more. */
  function Fetch(c: Catalog, f: Filters, limit: nat, cursor: Option<Key>): (seq<Alarm>, Option<Key>) {
    var rows := Take(Where(c, OrderBy(c.table), f, cursor), limit + 1);
    if |rows| > limit && limit > 0 then (rows[..limit], Some(KeyOf(rows[limit - 1])))
    else (Take(rows, limit), None)
  }

  lemma {:induction false} WhereIsFrom(c: Catalog, s: seq<Alarm>, f: Filters, cursor: Option<Key>)
    ensures Where(c, s, f, cursor) == From(Where(c, s, f, None), cursor)
    decreases |s|
  {
    if s != [] {
      WhereIsFrom(c, s[1..], f, cursor);
      hide Matches;
      var rest := Where(c, s[1..], f, None);
      assert ([s[0]] + rest)[1..] == rest && [] + rest == rest;
    }
  }

  lemma {:induction false} WhereKeepsOrder(c: Catalog, s: seq<Alarm>, f: Filters)
    requires Ordered(s)
    ensures Ordered(Where(c, s, f, None))
    ensures forall a :: a in Where(c, s, f, None) <==> a in s && Matches(c, f, a)
    decreases |s|
  {
    if s != [] {
      WhereKeepsOrder(c, s[1..], f);
      hide Matches;
      var t := Where(c, s[1..], f, None);
      forall i | 0 <= i < |t| ensures Before(KeyOf(s[0]), KeyOf(t[i])) { assert t[i] in t; }
    }
  }

  /** Nothing before position `m` is after the cursor, and everything from there on is. */
  predicate StartsAt(s: seq<Alarm>, cursor: Option<Key>, m: nat) {
    m <= |s| && (forall i :: 0 <= i < m ==> !After(cursor, s[i])) && (forall i :: m <= i < |s| ==> After(cursor, s[i]))
  }

  lemma {:induction false} FromIsSuffix(s: seq<Alarm>, cursor: Option<Key>, m: nat)
    requires StartsAt(s, cursor, m)
    ensures From(s, cursor) == s[m..]
    decreases |s|
  {
    if s != [] { FromIsSuffix(s[1..], cursor, if m > 0 then m - 1 else 0); }
  }

  lemma {:induction false} SomewhereItStarts(s: seq<Alarm>, cursor: Option<Key>) returns (m: nat)
    requires Ordered(s)
    ensures StartsAt(s, cursor, m)
    decreases |s|
  {
    m := 0;
    if s != [] {
      var rest := SomewhereItStarts(s[1..], cursor);
      if After(cursor, s[0]) {
        forall i | 0 < i < |s| ensures After(cursor, s[i]) { assert Before(KeyOf(s[0]), KeyOf(s[i])); }
      } else {
        m := rest + 1;
        forall i | 0 < i < |s| ensures s[i] == s[1..][i - 1] {}
      }
    }
  }

  /** What comes after the cursor of the k-th row is exactly what follows that row. */
  lemma KeysetResumes(s: seq<Alarm>, cursor: Option<Key>, k: nat)
    requires Ordered(s) && 1 <= k <= |From(s, cursor)|
    ensures From(s, Some(KeyOf(From(s, cursor)[k - 1]))) == From(s, cursor)[k..]
  {
    var m := SomewhereItStarts(s, cursor);
    FromIsSuffix(s, cursor, m);
    hide From;
    var key := KeyOf(s[m + k - 1]);
    assert StartsAt(s, Some(key), m + k);
    FromIsSuffix(s, Some(key), m + k);
  }
}
