/**
 * The admin analytics panel (`src/components/admin/AnalyticsPanel.tsx`).
 *
 * `fetchAnalytics` runs five queries on the `analytics_events` table and
 * aggregates the rows in the browser: distinct sessions per page over the
 * last 30 minutes, page views per day over the last 7 days, the 10 most
 * viewed pages, and the button and checkout clicks grouped by event type and
 * page. The query results are inputs here (`None` when the client returned no
 * data), and so are the 7 day keys the clock produces.
 */
module Analytics {
  import opened Wrappers
  import opened Text
  import opened Tally

  /** A page with a count: the entries of the live list and of the top pages. */
  type PageStat = Counted<string>
  /** A day key `YYYY-MM-DD` (`key`) with its number of page views. */
  type DailyStat = Counted<string>
  /** An event type and page (`key`) with its number of clicks. */
  type EventStat = Counted<ClickRow>

  /** A row of the last-30-minutes page-view query: `page, session_id`. */
  datatype RecentRow = RecentRow(page: string, sessionId: Option<string>)

  /** A row of the clicks query: `event_type, page`. */
  datatype ClickRow = ClickRow(eventType: string, page: string)

  // ---- Live visitors: `pageSessionMap`.

  function RecentPages(rows: seq<RecentRow>): seq<string> {
    seq(|rows|, i requires 0 <= i < |rows| => rows[i].page)
  }

  /** `pageSessionMap[page]` after one more row of that page: its session id is added when truthy. */
  function AddSession(ss: set<string>, row: RecentRow): set<string> {
    if Truthy(row.sessionId) then ss + {row.sessionId.value} else ss
  }

  /** The set `pageSessionMap[page]` holds after the first `n` rows. */
  function SessionsUpTo(rows: seq<RecentRow>, n: nat, page: string): set<string>
    requires n <= |rows|
  {
    if n == 0 then {}
    else if rows[n - 1].page == page then AddSession(SessionsUpTo(rows, n - 1, page), rows[n - 1])
    else SessionsUpTo(rows, n - 1, page)
  }

  /** The distinct sessions of `page` over all the rows. */
  function SessionsOf(rows: seq<RecentRow>, page: string): set<string> {
    SessionsUpTo(rows, |rows|, page)
  }

  /** A session is counted for a page exactly when some row of that page carries it as a non-empty id. */
  lemma {:induction false} SessionsMembers(rows: seq<RecentRow>, n: nat, page: string, s: string)
    requires n <= |rows|
    ensures s in SessionsUpTo(rows, n, page) <==> exists i :: 0 <= i < n && rows[i].page == page
                                                          && rows[i].sessionId == Some(s) && s != ""
  {
    if n > 0 {
      SessionsMembers(rows, n - 1, page, s);
    }
  }

  /** `Object.entries(pageSessionMap).map(([page, sessions]) => ({ page, count: sessions.size }))`. */
  function LiveEntries(rows: seq<RecentRow>): seq<PageStat> {
    var ks := FirstSeen(RecentPages(rows));
    seq(|ks|, i requires 0 <= i < |ks| => Counted(ks[i], |SessionsOf(rows, ks[i])|))
  }

  /** The entries of `pageSessionMap`, sorted by count. */
  method LiveSessions(rows: seq<RecentRow>) returns (live: seq<PageStat>)
    ensures live == SortDesc(LiveEntries(rows))
  {
    var keys, sessions := FillSessions(rows);
    var entries: seq<PageStat> := [];
    var j := 0;
    while j < |keys|
      invariant j <= |keys|
      invariant |entries| == j
      invariant forall t :: 0 <= t < j ==> entries[t] == Counted(keys[t], |SessionsOf(rows, keys[t])|)
    {
      entries := entries + [Counted(keys[j], |sessions[keys[j]]|)];
      j := j + 1;
    }
    assert entries == LiveEntries(rows);
    live := SortDesc(entries);
  }

  /** The loop that fills `pageSessionMap`; `keys` are its keys in insertion order. */
  method FillSessions(rows: seq<RecentRow>) returns (keys: seq<string>, sessions: map<string, set<string>>)
    ensures keys == FirstSeen(RecentPages(rows))
    ensures forall j :: 0 <= j < |keys| ==> keys[j] in sessions && sessions[keys[j]] == SessionsOf(rows, keys[j])
  {
    keys := [];
    sessions := map[];
    var i := 0;
    while i < |rows|
      invariant i <= |rows|
      invariant TracksSessions(keys, sessions, rows, i)
    {
      var row := rows[i];
      ghost var keys0, sessions0 := keys, sessions;
      var current: set<string> := {};
      if row.page in sessions {
        current := sessions[row.page];
      } else {
        keys := keys + [row.page];
      }
      sessions := sessions[row.page := AddSession(current, row)];
      SessionsStep(keys0, sessions0, keys, sessions, rows, i);
      i := i + 1;
    }
    assert RecentPages(rows)[..i] == RecentPages(rows);
  }

  /** `keys` and `sessions` are `pageSessionMap` after the first `n` rows. */
  predicate TracksSessions(keys: seq<string>, sessions: map<string, set<string>>, rows: seq<RecentRow>, n: nat)
    requires n <= |rows|
  {
    && keys == FirstSeen(RecentPages(rows)[..n])
    && (forall j :: 0 <= j < |keys| ==> keys[j] in sessions)
    && (forall p :: p in sessions ==> p in keys)
    && (forall p :: p in sessions ==> sessions[p] == SessionsUpTo(rows, n, p))
  }

  /** One step of the loop that fills `pageSessionMap`, from `keys, sessions` to `keys', sessions'`. */
  lemma SessionsStep(keys: seq<string>, sessions: map<string, set<string>>, keys': seq<string>,
                     sessions': map<string, set<string>>, rows: seq<RecentRow>, i: nat)
    requires i < |rows|
    requires TracksSessions(keys, sessions, rows, i)
    requires keys' == if rows[i].page in sessions then keys else keys + [rows[i].page]
    requires sessions' == sessions[rows[i].page := AddSession(if rows[i].page in sessions then sessions[rows[i].page] else {}, rows[i])]
    ensures TracksSessions(keys', sessions', rows, i + 1)
  {
    var page := rows[i].page;
    PagesStep(keys, sessions, keys', rows, i);
    if page !in sessions {
      SessionsAbsent(rows, i, page);
    }
    SessionsMapStep(sessions, sessions', rows, i);
    KeysStep(keys, sessions, keys', sessions', page);
  }

  lemma PagesStep(keys: seq<string>, sessions: map<string, set<string>>, keys': seq<string>, rows: seq<RecentRow>, i: nat)
    requires i < |rows|
    requires TracksSessions(keys, sessions, rows, i)
    requires keys' == if rows[i].page in sessions then keys else keys + [rows[i].page]
    ensures keys' == FirstSeen(RecentPages(rows)[..i + 1])
  {
    var pages := RecentPages(rows);
    assert pages[i] == rows[i].page;
    assert rows[i].page in sessions <==> rows[i].page in keys;
    FirstSeenPrefixStep(pages, i, keys, keys');
  }

  lemma SessionsMapStep(sessions: map<string, set<string>>, sessions': map<string, set<string>>, rows: seq<RecentRow>, i: nat)
    requires i < |rows|
    requires forall p :: p in sessions ==> sessions[p] == SessionsUpTo(rows, i, p)
    requires rows[i].page !in sessions ==> SessionsUpTo(rows, i, rows[i].page) == {}
    requires forall p :: p in sessions' <==> p in sessions || p == rows[i].page
    requires forall p :: p in sessions' && p != rows[i].page ==> sessions'[p] == sessions[p]
    requires sessions'[rows[i].page] == AddSession(if rows[i].page in sessions then sessions[rows[i].page] else {}, rows[i])
    ensures forall p :: p in sessions' ==> sessions'[p] == SessionsUpTo(rows, i + 1, p)
  {
  }

  /** A page without rows among the first `n` has no sessions. */
  lemma {:induction false} SessionsAbsent(rows: seq<RecentRow>, n: nat, page: string)
    requires n <= |rows|
    requires page !in RecentPages(rows)[..n]
    ensures SessionsUpTo(rows, n, page) == {}
  {
    if n > 0 {
      assert RecentPages(rows)[..n][n - 1] == rows[n - 1].page;
      assert RecentPages(rows)[..n - 1] == RecentPages(rows)[..n][..n - 1];
      SessionsAbsent(rows, n - 1, page);
    }
  }

  /** Each row adds at most one session to its page. */
  lemma {:induction false} SessionsBound(rows: seq<RecentRow>, n: nat, page: string)
    requires n <= |rows|
    ensures |SessionsUpTo(rows, n, page)| <= Occ(RecentPages(rows)[..n], page)
  {
    if n > 0 {
      var pages := RecentPages(rows);
      SessionsBound(rows, n - 1, page);
      assert pages[..n] == pages[..n - 1] + [rows[n - 1].page];
      OccSnoc(pages[..n - 1], rows[n - 1].page, page);
    }
  }

  /** Every entry of the live list is a page of the rows with its number of distinct sessions. */
  lemma LiveEntry(rows: seq<RecentRow>, e: PageStat)
    requires e in SortDesc(LiveEntries(rows))
    ensures e.key in RecentPages(rows)
    ensures e.count == |SessionsOf(rows, e.key)| <= Occ(RecentPages(rows), e.key)
  {
    assert e in multiset(LiveEntries(rows));
    SessionsBound(rows, |rows|, e.key);
    assert RecentPages(rows)[..|rows|] == RecentPages(rows);
  }

  /** Every page of the rows is listed, with its number of distinct sessions. */
  lemma LivePageListed(rows: seq<RecentRow>, page: string)
    requires page in RecentPages(rows)
    ensures Counted(page, |SessionsOf(rows, page)|) in SortDesc(LiveEntries(rows))
  {
    var ks := FirstSeen(RecentPages(rows));
    var k :| 0 <= k < |ks| && ks[k] == page;
    assert LiveEntries(rows)[k] == Counted(page, |SessionsOf(rows, page)|);
    assert Counted(page, |SessionsOf(rows, page)|) in multiset(SortDesc(LiveEntries(rows)));
  }

  /** A page seen only with missing or empty session ids is listed with count 0. */
  lemma LiveNullOnlyPage(rows: seq<RecentRow>, page: string)
    requires page in RecentPages(rows)
    requires forall i :: 0 <= i < |rows| && rows[i].page == page ==> !Truthy(rows[i].sessionId)
    ensures Counted(page, 0) in SortDesc(LiveEntries(rows))
  {
    forall s ensures s !in SessionsOf(rows, page) {
      SessionsMembers(rows, |rows|, page, s);
    }
    assert SessionsOf(rows, page) == {};
    LivePageListed(rows, page);
  }

  // ---- Page views per day: `dayMap` and `days`.

  /** `e.created_at.slice(0, 10)` for every row of the week query. */
  function DayKeys(createdAts: seq<string>): seq<string> {
    seq(|createdAts|, i requires 0 <= i < |createdAts| => Take(createdAts[i], 10))
  }

  /** The seven bars, oldest first, for the day keys `keysAgo` (`keysAgo[i]` is the key of `i` days ago). */
  function DailyCounts(dayKeys: seq<string>, keysAgo: seq<string>): seq<DailyStat>
    requires |keysAgo| == 7
  {
    seq(7, j requires 0 <= j < 7 => Counted(keysAgo[6 - j], Occ(dayKeys, keysAgo[6 - j])))
  }

  /** The loop that fills `dayMap`, then the bars. */
  method DailySeries(createdAts: seq<string>, keysAgo: seq<string>) returns (days: seq<DailyStat>)
    requires |keysAgo| == 7
    ensures days == DailyCounts(DayKeys(createdAts), keysAgo)
  {
    var dayKeys := DayKeys(createdAts);
    var seen, dayMap := CountOccurrences(dayKeys);
    days := PushBars(dayKeys, dayMap, keysAgo);
  }

  /** The loop `for (let i = 6; i >= 0; i--)` that pushes `{ day, count: dayMap[day] || 0 }`. */
  method PushBars(dayKeys: seq<string>, dayMap: map<string, nat>, keysAgo: seq<string>) returns (days: seq<DailyStat>)
    requires |keysAgo| == 7 && CountsOf(dayMap, dayKeys)
    ensures days == DailyCounts(dayKeys, keysAgo)
  {
    days := [];
    var i := 6;
    while i >= 0
      invariant -1 <= i <= 6
      invariant |days| == 6 - i
      invariant forall j :: 0 <= j < 6 - i ==> days[j] == Counted(keysAgo[6 - j], Occ(dayKeys, keysAgo[6 - j]))
    {
      var key := keysAgo[i];
      var count := if key in dayMap then dayMap[key] else 0;
      days := days + [Counted(key, count)];
      i := i - 1;
    }
  }

  /** A bar is 0 exactly when no row falls on its day, and no bar exceeds the week's total. */
  lemma DailyZeroDays(createdAts: seq<string>, keysAgo: seq<string>, j: nat)
    requires |keysAgo| == 7 && j < 7
    ensures var bar := DailyCounts(DayKeys(createdAts), keysAgo)[j];
            && (bar.count == 0 <==> forall i :: 0 <= i < |createdAts| ==> Take(createdAts[i], 10) != bar.key)
            && bar.count <= |createdAts|
  {
    var dayKeys := DayKeys(createdAts);
    var key := keysAgo[6 - j];
    if Occ(dayKeys, key) == 0 {
      forall i | 0 <= i < |createdAts| ensures Take(createdAts[i], 10) != key {
        assert dayKeys[i] == Take(createdAts[i], 10);
      }
    } else {
      assert key in dayKeys;
    }
  }

  /** With seven different day keys, the bars count every row at most once. */
  lemma DailyTotalBound(createdAts: seq<string>, keysAgo: seq<string>)
    requires |keysAgo| == 7 && Distinct(keysAgo)
    ensures TotalCount(DailyCounts(DayKeys(createdAts), keysAgo)) <= |createdAts|
  {
    var dayKeys := DayKeys(createdAts);
    var oldestFirst := seq(7, j requires 0 <= j < 7 => keysAgo[6 - j]);
    TotalOfCounts(DailyCounts(dayKeys, keysAgo), dayKeys, oldestFirst);
    SumOccDistinctBound(dayKeys, oldestFirst);
  }

  // ---- Most viewed pages: `pageMap`.

  /** `Object.entries(pageMap)` sorted by count and cut to the first 10. */
  function TopPagesOf(pages: seq<string>): seq<PageStat> {
    Take(SortDesc(CountEntries(pages)), 10)
  }

  /** The loop that fills `pageMap`, then the entries sorted and cut. */
  method TopPages(pages: seq<string>) returns (top: seq<PageStat>)
    ensures top == TopPagesOf(pages)
  {
    var keys, pageMap := CountOccurrences(pages);
    var entries: seq<PageStat> := [];
    var j := 0;
    while j < |keys|
      invariant j <= |keys|
      invariant |entries| == j
      invariant forall t :: 0 <= t < j ==> entries[t] == Counted(keys[t], Occ(pages, keys[t]))
    {
      entries := entries + [Counted(keys[j], pageMap[keys[j]])];
      j := j + 1;
    }
    assert entries == CountEntries(pages);
    top := Take(SortDesc(entries), 10);
  }

  /** An element of the sorted entries is a page of the rows with its number of rows. */
  lemma SortedEntry(pages: seq<string>, e: PageStat)
    requires e in SortDesc(CountEntries(pages))
    ensures e.key in pages && e.count == Occ(pages, e.key)
  {
    assert e in multiset(CountEntries(pages));
    var k :| 0 <= k < |CountEntries(pages)| && CountEntries(pages)[k] == e;
  }

  /** At most ten pages, by non-increasing count, each with its number of views. */
  lemma TopPagesCounts(pages: seq<string>)
    ensures var top := TopPagesOf(pages);
            && |top| <= 10
            && SortedDesc(top)
            && forall i :: 0 <= i < |top| ==> top[i].key in pages && top[i].count == Occ(pages, top[i].key)
  {
    var sorted := SortDesc(CountEntries(pages));
    var top := TopPagesOf(pages);
    forall i | 0 <= i < |top| ensures top[i].key in pages && top[i].count == Occ(pages, top[i].key) {
      assert top[i] == sorted[i];
      SortedEntry(pages, sorted[i]);
    }
  }

  /** A viewed page missing from the list was viewed no more often than the tenth listed page. */
  lemma TopPagesOmitted(pages: seq<string>, page: string)
    requires page in pages
    ensures var top := TopPagesOf(pages);
            || (exists i :: 0 <= i < |top| && top[i].key == page)
            || (|top| == 10 && Occ(pages, page) <= top[9].count)
  {
    var entries := CountEntries(pages);
    var sorted := SortDesc(entries);
    var top := TopPagesOf(pages);
    FirstSeenHas(pages, page);
    var k :| 0 <= k < |FirstSeen(pages)| && FirstSeen(pages)[k] == page;
    var e := entries[k];
    assert e in multiset(sorted);
    var j :| 0 <= j < |sorted| && sorted[j] == e;
    if j < |top| {
      assert top[j] == sorted[j];
    } else {
      assert |top| == 10 && top[9] == sorted[9];
    }
  }

  // ---- Button and checkout clicks: `clickMap`.

  /** The group key `${e.event_type}::${e.page}`. */
  function ClickKey(row: ClickRow): string {
    row.eventType + "::" + row.page
  }

  function ClickKeys(rows: seq<ClickRow>): seq<string> {
    seq(|rows|, i requires 0 <= i < |rows| => ClickKey(rows[i]))
  }

  /** The first of the first `n` rows with group key `key`: the event type and page its group records. */
  function FirstWithKey(rows: seq<ClickRow>, n: nat, key: string): Option<ClickRow>
    requires n <= |rows|
  {
    if n == 0 then None
    else
      var earlier := FirstWithKey(rows, n - 1, key);
      if earlier.Some? then earlier
      else if ClickKey(rows[n - 1]) == key then Some(rows[n - 1])
      else None
  }

  /** A group's row is found exactly for the keys that occur, and it is a row with that key. */
  lemma {:induction false} FirstWithKeyFound(rows: seq<ClickRow>, n: nat, key: string)
    requires n <= |rows|
    ensures FirstWithKey(rows, n, key).Some? <==> key in ClickKeys(rows)[..n]
    ensures FirstWithKey(rows, n, key).Some? ==>
              ClickKey(FirstWithKey(rows, n, key).value) == key && FirstWithKey(rows, n, key).value in rows
  {
    if n > 0 {
      FirstWithKeyFound(rows, n - 1, key);
      assert ClickKeys(rows)[..n] == ClickKeys(rows)[..n - 1] + [ClickKey(rows[n - 1])];
    }
  }

  /** The stored group of `key` after the first `n` rows. */
  function GroupUpTo(rows: seq<ClickRow>, n: nat, key: string): EventStat
    requires n <= |rows|
  {
    Counted(FirstWithKey(rows, n, key).GetOr(ClickRow("", "")), Occ(ClickKeys(rows)[..n], key))
  }

  /** `Object.values(clickMap)`: one group per distinct key, in the order the keys first occur. */
  function ClickGroups(rows: seq<ClickRow>): seq<EventStat> {
    var ks := FirstSeen(ClickKeys(rows));
    seq(|ks|, i requires 0 <= i < |ks| => GroupUpTo(rows, |rows|, ks[i]))
  }

  /** The values of `clickMap`, sorted by count. */
  method GroupClicks(rows: seq<ClickRow>) returns (groups: seq<EventStat>)
    ensures groups == SortDesc(ClickGroups(rows))
  {
    var keys, clickMap := FillClicks(rows);
    var values := MapValues(keys, clickMap);
    assert values == ClickGroups(rows);
    groups := SortDesc(values);
  }

  /** `Object.values` of a map whose keys were inserted in the order `keys`. */
  method MapValues<K, V>(keys: seq<K>, m: map<K, V>) returns (values: seq<V>)
    requires forall j :: 0 <= j < |keys| ==> keys[j] in m
    ensures |values| == |keys|
    ensures forall t :: 0 <= t < |keys| ==> values[t] == m[keys[t]]
  {
    values := [];
    var j := 0;
    while j < |keys|
      invariant j <= |keys| && |values| == j
      invariant forall t :: 0 <= t < j ==> values[t] == m[keys[t]]
    {
      values := values + [m[keys[j]]];
      j := j + 1;
    }
  }

  /** The loop that fills `clickMap`; `keys` are its keys in insertion order. */
  method FillClicks(rows: seq<ClickRow>) returns (keys: seq<string>, clickMap: map<string, EventStat>)
    ensures keys == FirstSeen(ClickKeys(rows))
    ensures forall j :: 0 <= j < |keys| ==> keys[j] in clickMap && clickMap[keys[j]] == GroupUpTo(rows, |rows|, keys[j])
  {
    keys := [];
    clickMap := map[];
    var i := 0;
    while i < |rows|
      invariant i <= |rows|
      invariant TracksClicks(keys, clickMap, rows, i)
    {
      var row := rows[i];
      var key := ClickKey(row);
      ghost var keys0, clickMap0 := keys, clickMap;
      var group: EventStat := Counted(row, 0);
      if key in clickMap {
        group := clickMap[key];
      } else {
        keys := keys + [key];
      }
      clickMap := clickMap[key := group.(count := group.count + 1)];
      ClicksStep(keys0, clickMap0, keys, clickMap, rows, i, group);
      i := i + 1;
    }
    assert ClickKeys(rows)[..i] == ClickKeys(rows);
  }

  /** `keys` and `clickMap` are the click groups after the first `n` rows. */
  predicate TracksClicks(keys: seq<string>, clickMap: map<string, EventStat>, rows: seq<ClickRow>, n: nat)
    requires n <= |rows|
  {
    && keys == FirstSeen(ClickKeys(rows)[..n])
    && (forall j :: 0 <= j < |keys| ==> keys[j] in clickMap)
    && (forall k :: k in clickMap ==> k in keys)
    && (forall k :: k in clickMap ==> clickMap[k] == GroupUpTo(rows, n, k))
  }

  /** One step of the loop that fills `clickMap`. */
  lemma ClicksStep(keys: seq<string>, clickMap: map<string, EventStat>, keys': seq<string>,
                   clickMap': map<string, EventStat>, rows: seq<ClickRow>, i: nat, group: EventStat)
    requires i < |rows|
    requires TracksClicks(keys, clickMap, rows, i)
    requires keys' == if ClickKey(rows[i]) in clickMap then keys else keys + [ClickKey(rows[i])]
    requires group == if ClickKey(rows[i]) in clickMap then clickMap[ClickKey(rows[i])] else Counted(rows[i], 0)
    requires clickMap' == clickMap[ClickKey(rows[i]) := group.(count := group.count + 1)]
    ensures TracksClicks(keys', clickMap', rows, i + 1)
  {
    var key := ClickKey(rows[i]);
    assert key in clickMap <==> key in keys;
    ClickKeysStep(keys, keys', rows, i);
    FirstSeenHas(ClickKeys(rows)[..i], key);
    FirstWithKeyFound(rows, i, key);
    ClickMapStep(clickMap, clickMap', rows, i, group);
    KeysStep(keys, clickMap, keys', clickMap', key);
  }

  lemma ClickKeysStep(keys: seq<string>, keys': seq<string>, rows: seq<ClickRow>, i: nat)
    requires i < |rows|
    requires keys == FirstSeen(ClickKeys(rows)[..i])
    requires keys' == if ClickKey(rows[i]) in keys then keys else keys + [ClickKey(rows[i])]
    ensures keys' == FirstSeen(ClickKeys(rows)[..i + 1])
  {
    FirstSeenPrefixStep(ClickKeys(rows), i, keys, keys');
  }

  lemma ClickMapStep(clickMap: map<string, EventStat>, clickMap': map<string, EventStat>, rows: seq<ClickRow>, i: nat, group: EventStat)
    requires i < |rows|
    requires forall k :: k in clickMap ==> clickMap[k] == GroupUpTo(rows, i, k)
    requires ClickKey(rows[i]) in clickMap ==> FirstWithKey(rows, i, ClickKey(rows[i])).Some?
    requires ClickKey(rows[i]) !in clickMap ==>
               FirstWithKey(rows, i, ClickKey(rows[i])).None? && Occ(ClickKeys(rows)[..i], ClickKey(rows[i])) == 0
    requires group == if ClickKey(rows[i]) in clickMap then clickMap[ClickKey(rows[i])] else Counted(rows[i], 0)
    requires clickMap' == clickMap[ClickKey(rows[i]) := group.(count := group.count + 1)]
    ensures forall k :: k in clickMap' ==> clickMap'[k] == GroupUpTo(rows, i + 1, k)
  {
    forall k | k in clickMap' ensures clickMap'[k] == GroupUpTo(rows, i + 1, k) {
      GroupStep(rows, i, k);
    }
  }

  /** How one more row changes the stored group of `k`. */
  lemma GroupStep(rows: seq<ClickRow>, i: nat, k: string)
    requires i < |rows|
    ensures k != ClickKey(rows[i]) ==> GroupUpTo(rows, i + 1, k) == GroupUpTo(rows, i, k)
    ensures k == ClickKey(rows[i]) && FirstWithKey(rows, i, k).Some? ==>
              GroupUpTo(rows, i + 1, k) == GroupUpTo(rows, i, k).(count := GroupUpTo(rows, i, k).count + 1)
    ensures k == ClickKey(rows[i]) && FirstWithKey(rows, i, k).None? ==>
              GroupUpTo(rows, i + 1, k) == Counted(rows[i], Occ(ClickKeys(rows)[..i], k) + 1)
  {
    var ks := ClickKeys(rows);
    assert ks[..i + 1] == ks[..i] + [ks[i]];
    OccSnoc(ks[..i], ks[i], k);
  }

  /** Every click row is counted in exactly one group: the counts add up to the number of rows. */
  lemma ClickCountsSum(rows: seq<ClickRow>)
    ensures TotalCount(SortDesc(ClickGroups(rows))) == |rows|
  {
    var ks := FirstSeen(ClickKeys(rows));
    assert ClickKeys(rows)[..|rows|] == ClickKeys(rows);
    TotalOfCounts(ClickGroups(rows), ClickKeys(rows), ks);
    SumOccFirstSeen(ClickKeys(rows));
    TotalCountPermutation(SortDesc(ClickGroups(rows)), ClickGroups(rows));
  }

  /** The two event types the clicks query asks for. */
  predicate KnownEventType(t: string) {
    t == "button_click" || t == "checkout_click"
  }

  /** For the two queried event types the group key determines the event type and the page. */
  lemma ClickKeyInjective(a: ClickRow, b: ClickRow)
    requires KnownEventType(a.eventType) && KnownEventType(b.eventType)
    requires ClickKey(a) == ClickKey(b)
    ensures a == b
  {
    assert ClickKey(a)[0] == a.eventType[0] && ClickKey(b)[0] == b.eventType[0];
    assert a.eventType == b.eventType;
    var n := |a.eventType| + 2;
    assert ClickKey(a)[n..] == a.page;
    assert ClickKey(b)[n..] == b.page;
  }

  /** Counting by group key is counting equal rows, when every event type is one of the two queried. */
  lemma {:induction false} OccClickKey(rows: seq<ClickRow>, n: nat, r: ClickRow)
    requires n <= |rows|
    requires KnownEventType(r.eventType)
    requires forall i :: 0 <= i < |rows| ==> KnownEventType(rows[i].eventType)
    ensures Occ(ClickKeys(rows)[..n], ClickKey(r)) == Occ(rows[..n], r)
  {
    if n > 0 {
      OccClickKey(rows, n - 1, r);
      var ks := ClickKeys(rows);
      assert ks[..n] == ks[..n - 1] + [ClickKey(rows[n - 1])];
      assert rows[..n] == rows[..n - 1] + [rows[n - 1]];
      OccSnoc(ks[..n - 1], ClickKey(rows[n - 1]), ClickKey(r));
      OccSnoc(rows[..n - 1], rows[n - 1], r);
      if ClickKey(rows[n - 1]) == ClickKey(r) {
        ClickKeyInjective(rows[n - 1], r);
      }
    }
  }

  /** The `k`-th group is an (event type, page) of the rows with the number of rows that have it. */
  lemma ClickGroupAt(rows: seq<ClickRow>, k: nat)
    requires forall i :: 0 <= i < |rows| ==> KnownEventType(rows[i].eventType)
    requires k < |ClickGroups(rows)|
    ensures ClickGroups(rows)[k].key in rows
    ensures ClickGroups(rows)[k].count == Occ(rows, ClickGroups(rows)[k].key)
  {
    var ks := FirstSeen(ClickKeys(rows));
    assert ClickKeys(rows)[..|rows|] == ClickKeys(rows);
    FirstSeenHas(ClickKeys(rows), ks[k]);
    FirstWithKeyFound(rows, |rows|, ks[k]);
    var r := FirstWithKey(rows, |rows|, ks[k]).value;
    OccClickKey(rows, |rows|, r);
    assert rows[..|rows|] == rows;
  }

  /** Every group of the sorted list is an (event type, page) of the rows with the number of rows that have it. */
  lemma ClickGroupListed(rows: seq<ClickRow>, k: nat)
    requires forall i :: 0 <= i < |rows| ==> KnownEventType(rows[i].eventType)
    requires k < |SortDesc(ClickGroups(rows))|
    ensures SortDesc(ClickGroups(rows))[k].key in rows
    ensures SortDesc(ClickGroups(rows))[k].count == Occ(rows, SortDesc(ClickGroups(rows))[k].key)
  {
    var groups := ClickGroups(rows);
    var g := SortDesc(groups)[k];
    assert g in multiset(groups);
    var j :| 0 <= j < |groups| && groups[j] == g;
    ClickGroupAt(rows, j);
  }

  // ---- Labels and the chart scale.

  /** The paths that get a fixed label of their own. */
  predicate LabelledPath(page: string) {
    page == "/" || page == "/upsell-assistente" || page == "/assistente-pedagogico" || page == "/assistente"
  }

  /** `formatPage`: the label shown for a page path. */
  function FormatPage(page: string): (shown: string)
    ensures shown == page <==> !LabelledPath(page) && !StartsWith(page, "/p/")
    ensures shown != page ==> shown != [] && shown[0] != '/'
    ensures StartsWith(page, "/p/") ==> shown == "Produto: " + page[3..]
  {
    if page == "/" then "P\U{00E1}gina Inicial"
    // `page.replace("/p/", "")` removes the first occurrence, which is the prefix.
    else if StartsWith(page, "/p/") then "Produto: " + page[3..]
    else if page == "/upsell-assistente" then "Upsell Assistente"
    else if page == "/assistente-pedagogico" then "Vendas Assistente"
    else if page == "/assistente" then "Dashboard Assistente"
    else page
  }

  /** Different paths get different labels. */
  lemma FormatPageInjective(a: string, b: string)
    requires a != [] && a[0] == '/' && b != [] && b[0] == '/'
    requires FormatPage(a) == FormatPage(b)
    ensures a == b
  {
    var la := FormatPage(a);
    if StartsWith(a, "/p/") || StartsWith(b, "/p/") {
      // A product label starts with "Pr", which no fixed label does.
      assert la[0] == 'P' && la[1] == 'r';
    }
    if StartsWith(a, "/p/") && StartsWith(b, "/p/") {
      assert a == "/p/" + a[3..] && b == "/p/" + b[3..];
      assert la[9..] == a[3..] && la[9..] == b[3..];
    }
  }

  /** `formatEventType`: the badge text of a click group. */
  function FormatEventType(eventType: string): (shown: string)
    ensures shown == eventType <==> !KnownEventType(eventType)
  {
    if eventType == "checkout_click" then "Clique Checkout"
    else if eventType == "button_click" then "Clique Bot\U{00E3}o"
    else eventType
  }

  /** Element `i` of a destructured array: a missing element renders as "undefined" in a template string. */
  function Element(parts: seq<string>, i: nat): (r: string)
    ensures i < |parts| ==> r == parts[i]
    ensures i >= |parts| ==> r == "undefined"
  {
    if i < |parts| then parts[i] else "undefined"
  }

  /** `formatDate`: `const [, m, d] = dateStr.split("-")` shown as `${d}/${m}`. */
  function FormatDate(dateStr: string): (r: string)
    ensures '-' !in r
  {
    var parts := Split(dateStr, '-');
    Element(parts, 2) + "/" + Element(parts, 1)
  }

  /** A day key `YYYY-MM-DD` is shown as `DD/MM`. */
  lemma FormatDateOfKey(y: string, m: string, d: string)
    requires '-' !in y && '-' !in m && '-' !in d
    ensures FormatDate(y + "-" + m + "-" + d) == d + "/" + m
  {
    var parts := [y, m, d];
    assert Join(parts[2..], "-") == d;
    assert Join(parts[1..], "-") == m + "-" + d;
    assert Join(parts, "-") == y + "-" + (m + "-" + d);
    assert y + "-" + m + "-" + d == y + "-" + (m + "-" + d);
    SplitJoin(parts, '-');
  }

  /** A string without '-' has no month or day part. */
  lemma FormatDateNoDash(s: string)
    requires '-' !in s
    ensures FormatDate(s) == "undefined/undefined"
  {
    assert Split(s, '-') == [s];
  }

  /** `maxDaily = Math.max(...dailyViews.map((d) => d.count), 1)`: the height of the tallest bar, and at least 1. */
  function MaxDaily(days: seq<DailyStat>): (m: nat)
    ensures m >= 1
    ensures forall i :: 0 <= i < |days| ==> days[i].count <= m
    ensures m == 1 || exists i :: 0 <= i < |days| && days[i].count == m
  {
    if days == [] then 1
    else
      var rest := MaxDaily(days[1..]);
      assert forall i :: 1 <= i < |days| ==> days[i] == days[1..][i - 1];
      if days[0].count > rest then days[0].count else rest
  }

  // ---- The panel's state and `fetchAnalytics`.

  /** The component state of `AnalyticsPanel`. */
  class AnalyticsPanel {
    var loading: bool
    var liveNow: seq<PageStat>
    var dailyViews: seq<DailyStat>
    var topPages: seq<PageStat>
    var buttonClicks: seq<EventStat>
    var weekTotal: nat
    var todayTotal: nat

    /** What every state of the panel satisfies: the lists are sorted by count, at most ten top pages, no bars or seven. */
    predicate Valid()
      reads this
    {
      && SortedDesc(liveNow)
      && (|dailyViews| == 0 || |dailyViews| == 7)
      && |topPages| <= 10 && SortedDesc(topPages)
      && SortedDesc(buttonClicks)
    }

    /** The initial state of the `useState` hooks. */
    constructor ()
      ensures Valid()
      ensures loading
      ensures liveNow == [] && dailyViews == [] && topPages == [] && buttonClicks == []
      ensures weekTotal == 0 && todayTotal == 0
    {
      loading := true;
      liveNow, dailyViews, topPages, buttonClicks := [], [], [], [];
      weekTotal, todayTotal := 0, 0;
    }

    /** `setLiveNow(live)` after the live-visitors query. */
    method SetLive(rows: seq<RecentRow>)
      requires Valid()
      modifies this
      ensures Valid()
      ensures liveNow == SortDesc(LiveEntries(rows))
      ensures loading == old(loading) && dailyViews == old(dailyViews) && topPages == old(topPages)
      ensures buttonClicks == old(buttonClicks) && weekTotal == old(weekTotal) && todayTotal == old(todayTotal)
    {
      liveNow := LiveSessions(rows);
    }

    /** `setWeekTotal` and `setDailyViews` after the week query. */
    method SetWeek(createdAts: seq<string>, keysAgo: seq<string>)
      requires Valid()
      requires |keysAgo| == 7
      modifies this
      ensures Valid()
      ensures weekTotal == |createdAts| && dailyViews == DailyCounts(DayKeys(createdAts), keysAgo)
      ensures loading == old(loading) && liveNow == old(liveNow) && topPages == old(topPages)
      ensures buttonClicks == old(buttonClicks) && todayTotal == old(todayTotal)
    {
      weekTotal := |createdAts|;
      dailyViews := DailySeries(createdAts, keysAgo);
    }

    /** `setTopPages` after the pages query. */
    method SetTopPages(pages: seq<string>)
      requires Valid()
      modifies this
      ensures Valid()
      ensures topPages == TopPagesOf(pages)
      ensures loading == old(loading) && liveNow == old(liveNow) && dailyViews == old(dailyViews)
      ensures buttonClicks == old(buttonClicks) && weekTotal == old(weekTotal) && todayTotal == old(todayTotal)
    {
      topPages := TopPages(pages);
      TopPagesCounts(pages);
    }

    /** `setButtonClicks` after the clicks query. */
    method SetButtonClicks(clicks: seq<ClickRow>)
      requires Valid()
      modifies this
      ensures Valid()
      ensures buttonClicks == SortDesc(ClickGroups(clicks))
      ensures loading == old(loading) && liveNow == old(liveNow) && dailyViews == old(dailyViews)
      ensures topPages == old(topPages) && weekTotal == old(weekTotal) && todayTotal == old(todayTotal)
    {
      buttonClicks := GroupClicks(clicks);
    }

    /**
     * `fetchAnalytics`, given what each of the five queries returned (`None` for no data) and the seven
     * day keys (`keysAgo[i]` is the key of `i` days ago). A query without data leaves its part of the state as it was.
     */
    method FetchAnalytics(recent: Option<seq<RecentRow>>, week: Option<seq<string>>, keysAgo: seq<string>,
                          today: Option<nat>, pages: Option<seq<string>>, clicks: Option<seq<ClickRow>>)
      requires Valid()
      requires |keysAgo| == 7
      modifies this
      ensures Valid()
      ensures !loading
      ensures liveNow == if recent.Some? then SortDesc(LiveEntries(recent.value)) else old(liveNow)
      ensures weekTotal == if week.Some? then |week.value| else old(weekTotal)
      ensures dailyViews == if week.Some? then DailyCounts(DayKeys(week.value), keysAgo) else old(dailyViews)
      ensures todayTotal == today.GetOr(0)
      ensures topPages == if pages.Some? then TopPagesOf(pages.value) else old(topPages)
      ensures buttonClicks == if clicks.Some? then SortDesc(ClickGroups(clicks.value)) else old(buttonClicks)
    {
      loading := true;
      if recent.Some? {
        SetLive(recent.value);
      }
      if week.Some? {
        SetWeek(week.value, keysAgo);
      }
      todayTotal := today.GetOr(0);
      if pages.Some? {
        SetTopPages(pages.value);
      }
      if clicks.Some? {
        SetButtonClicks(clicks.value);
      }
      loading := false;
    }
  }
}
