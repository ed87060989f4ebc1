/**
  The tracker list: search by title, filter by tab, sort by target, show a
  page; and the list's own state (tab, page size, search text, clock) changed
  by tab clicks, swipes, typing, "Load More" and the one-second tick.

  The tab filter decides availability from the clock alone (`now >= target`),
  unlike the card, which also honours the status and the pause instant.
 */
module TrackerList {
  import TrackerCard
  import opened Wrappers

  type Tracker = TrackerCard.Tracker

  /** The tabs `all`, `progress` and `available`, in their on-screen order. */
  datatype Tab = All | InProgress | Available

  const Tabs: seq<Tab> := [All, InProgress, Available]
  const ItemsPerPage: nat := 10
  const SwipeThreshold: real := 50.0

  // ---------------------------------------------------------------- search

  /** Lower-casing of the ASCII letters; other characters are kept. */
  function LowerChar(c: char): char {
    if 'A' <= c <= 'Z' then (c as int - 'A' as int + 'a' as int) as char else c
  }

  function Lower(s: string): (r: string)
    ensures |r| == |s|
  {
    seq(|s|, i requires 0 <= i < |s| => LowerChar(s[i]))
  }

  /** `needle` occurs in `hay` starting at index `i`. */
  predicate OccursAt(hay: string, needle: string, i: int) {
    0 <= i && i + |needle| <= |hay| && hay[i..i + |needle|] == needle
  }

  /** `String.prototype.includes`: whether `needle` occurs somewhere in `hay`. */
  function Includes(hay: string, needle: string): (b: bool)
    ensures b <==> exists i :: OccursAt(hay, needle, i)
    decreases |hay|
  {
    if |needle| > |hay| then
      assert forall i :: !OccursAt(hay, needle, i);
      false
    else if hay[..|needle|] == needle then
      assert OccursAt(hay, needle, 0);
      true
    else
      var b := Includes(hay[1..], needle);
      assert forall i :: OccursAt(hay[1..], needle, i) <==> OccursAt(hay, needle, i + 1) by {
        forall i ensures OccursAt(hay[1..], needle, i) <==> OccursAt(hay, needle, i + 1) {
          if 0 <= i && i + |needle| <= |hay| - 1 {
            assert hay[1..][i..i + |needle|] == hay[i + 1..i + 1 + |needle|];
          }
        }
      }
      assert !OccursAt(hay, needle, 0);
      assert b ==> exists i :: OccursAt(hay, needle, i) by {
        if b {
          var i :| OccursAt(hay[1..], needle, i);
          assert OccursAt(hay, needle, i + 1);
        }
      }
      assert (exists i :: OccursAt(hay, needle, i)) ==> b by {
        if exists i :: OccursAt(hay, needle, i) {
          var i :| OccursAt(hay, needle, i);
          assert i != 0;
          assert OccursAt(hay[1..], needle, i - 1);
        }
      }
      b
  }

  /** The search step: an empty query keeps everything; otherwise a case-insensitive title match. */
  predicate MatchesSearch(t: Tracker, query: string) {
    query == "" || Includes(Lower(t.title), Lower(query))
  }

  /** The search ignores letter case: "dead" and "DEAD" both find "Project Deadline". */
  lemma SearchExample()
    ensures var t := TrackerCard.Tracker("a", "Project Deadline", None, 0, "Progress", 0, false, None, None);
            MatchesSearch(t, "dead") && MatchesSearch(t, "DEAD")
  {
    var title := Lower("Project Deadline");
    assert title == "project deadline";
    assert Lower("dead") == "dead" && Lower("DEAD") == "dead";
    assert OccursAt(title, "dead", 8);
  }

  // ---------------------------------------------------------------- filter

  /** The list's own availability: the clock has reached the target. */
  function ComputedTab(t: Tracker, now: int): (tab: Tab)
    ensures tab != All
    ensures tab == Available <==> now >= t.targetTimestamp
    ensures tab == InProgress <==> now < t.targetTimestamp
  {
    if now >= t.targetTimestamp then Available else InProgress
  }

  /** Whether a tracker passes the search and then the tab. */
  predicate Keep(t: Tracker, tab: Tab, query: string, now: int) {
    if !MatchesSearch(t, query) then false
    else if tab == All then true
    else ComputedTab(t, now) == tab
  }

  /** `r` is `s` with some elements left out and the others in their order. */
  predicate SubsequenceOf(r: seq<Tracker>, s: seq<Tracker>)
    decreases |s|
  {
    if r == [] then true
    else if s == [] then false
    else (r[0] == s[0] && SubsequenceOf(r[1..], s[1..])) || SubsequenceOf(r, s[1..])
  }

  /** The trackers that pass the search and the tab, in their original order. */
  function FilterTrackers(ts: seq<Tracker>, tab: Tab, query: string, now: int): (r: seq<Tracker>)
    ensures SubsequenceOf(r, ts)
    ensures forall x :: x in r <==> x in ts && Keep(x, tab, query, now)
    ensures |r| <= |ts|
    ensures forall x :: multiset(r)[x] == if Keep(x, tab, query, now) then multiset(ts)[x] else 0
  {
    if ts == [] then []
    else
      var rest := FilterTrackers(ts[1..], tab, query, now);
      assert ts == [ts[0]] + ts[1..];
      assert multiset(ts) == multiset{ts[0]} + multiset(ts[1..]);
      var r := if Keep(ts[0], tab, query, now) then [ts[0]] + rest else rest;
      assert forall x :: multiset(r)[x] == if Keep(x, tab, query, now) then multiset(ts)[x] else 0;
      KeptMembers(r, ts, tab, query, now);
      r
  }

  /** Counting each passing tracker as often as the input does keeps exactly the passing trackers. */
  lemma KeptMembers(r: seq<Tracker>, ts: seq<Tracker>, tab: Tab, query: string, now: int)
    requires forall x :: multiset(r)[x] == if Keep(x, tab, query, now) then multiset(ts)[x] else 0
    ensures forall x :: x in r <==> x in ts && Keep(x, tab, query, now)
  {
    forall x ensures x in r <==> x in ts && Keep(x, tab, query, now) {
      assert x in r <==> x in multiset(r);
      assert x in ts <==> x in multiset(ts);
    }
  }

  /**
    After the search, `available` keeps exactly the trackers whose target has
    been reached, `progress` exactly the others, and `all` every survivor.
   */
  lemma FilterTabs(ts: seq<Tracker>, query: string, now: int, x: Tracker)
    ensures x in FilterTrackers(ts, All, query, now) <==> x in ts && MatchesSearch(x, query)
    ensures x in FilterTrackers(ts, Available, query, now) <==> x in ts && MatchesSearch(x, query) && now >= x.targetTimestamp
    ensures x in FilterTrackers(ts, InProgress, query, now) <==> x in ts && MatchesSearch(x, query) && now < x.targetTimestamp
  {
  }

  /** The `available` and `progress` tabs split the `all` tab, counting repeats. */
  lemma {:induction false} TabsPartitionAll(ts: seq<Tracker>, query: string, now: int)
    ensures multiset(FilterTrackers(ts, Available, query, now)) + multiset(FilterTrackers(ts, InProgress, query, now))
         == multiset(FilterTrackers(ts, All, query, now))
  {
    if ts != [] {
      TabsPartitionAll(ts[1..], query, now);
    }
  }

  // ---------------------------------------------------------------- sort

  predicate SortedByTarget(s: seq<Tracker>) {
    forall i, j :: 0 <= i < j < |s| ==> s[i].targetTimestamp <= s[j].targetTimestamp
  }

  /** Places `x` before the first element whose target is not earlier. */
  function Insert(x: Tracker, s: seq<Tracker>): (r: seq<Tracker>)
    ensures multiset(r) == multiset(s) + multiset{x}
  {
    if s == [] || x.targetTimestamp <= s[0].targetTimestamp then [x] + s
    else
      assert s == [s[0]] + s[1..];
      [s[0]] + Insert(x, s[1..])
  }

  /** A sorted list stays sorted under a head no later than any of its elements. */
  lemma ConsKeepsSorted(h: Tracker, s: seq<Tracker>)
    requires SortedByTarget(s)
    requires forall k :: 0 <= k < |s| ==> h.targetTimestamp <= s[k].targetTimestamp
    ensures SortedByTarget([h] + s)
  {
    var r := [h] + s;
    forall i, j | 0 <= i < j < |r| ensures r[i].targetTimestamp <= r[j].targetTimestamp {
      assert r[j] == s[j - 1];
      if i > 0 {
        assert r[i] == s[i - 1];
      }
    }
  }

  /** Inserting into a sorted list keeps it sorted. */
  lemma {:induction false} InsertKeepsSorted(x: Tracker, s: seq<Tracker>)
    requires SortedByTarget(s)
    ensures SortedByTarget(Insert(x, s))
  {
    if s == [] || x.targetTimestamp <= s[0].targetTimestamp {
      ConsKeepsSorted(x, s);
    } else {
      var rest := Insert(x, s[1..]);
      InsertKeepsSorted(x, s[1..]);
      forall k | 0 <= k < |rest| ensures s[0].targetTimestamp <= rest[k].targetTimestamp {
        var y := rest[k];
        assert y in multiset(rest);
        assert y == x || y in s[1..];
      }
      ConsKeepsSorted(s[0], rest);
    }
  }

  /** A copy of the list ordered by ascending target; the list itself is a value and stays as it was. */
  function SortByTarget(s: seq<Tracker>): (r: seq<Tracker>)
    ensures multiset(r) == multiset(s)
    ensures SortedByTarget(r)
  {
    if s == [] then []
    else
      assert s == [s[0]] + s[1..];
      InsertKeepsSorted(s[0], SortByTarget(s[1..]));
      Insert(s[0], SortByTarget(s[1..]))
  }

  // ---------------------------------------------------------------- page

  function Min(a: int, b: int): int {
    if a <= b then a else b
  }

  /** `slice(0, visibleCount)`: the first `visibleCount` items, or all of them when fewer. */
  function Page(s: seq<Tracker>, visibleCount: nat): (r: seq<Tracker>)
    ensures |r| == Min(visibleCount, |s|)
    ensures r <= s
  {
    if visibleCount < |s| then s[..visibleCount] else s
  }

  /** One more page of ten keeps the page size a multiple of ten. */
  lemma NextPageSize(n: nat)
    requires n % ItemsPerPage == 0
    ensures (n + ItemsPerPage) % ItemsPerPage == 0
  {
  }

  /** A page at least `small` long begins with the page of size `small`. */
  lemma PageOfLargerPage(s: seq<Tracker>, small: nat, large: nat)
    requires small <= large
    ensures |Page(s, large)| >= Min(small, |s|)
    ensures Page(s, large)[..Min(small, |Page(s, large)|)] == Page(s, small)
  {
  }

  /** "Load More" is offered while some sorted trackers are still hidden. */
  predicate CanLoadMore(sortedCount: nat, visibleCount: nat) {
    visibleCount < sortedCount
  }

  /** The page shows every tracker exactly when "Load More" is not offered. */
  lemma PageIsAllUnlessMore(s: seq<Tracker>, visibleCount: nat)
    ensures Page(s, visibleCount) == s <==> !CanLoadMore(|s|, visibleCount)
  {
  }

  /** Loading more extends the page: the old page is a prefix of the new, strictly shorter while more is offered. */
  lemma LoadMoreExtends(s: seq<Tracker>, visibleCount: nat)
    ensures Page(s, visibleCount) <= Page(s, visibleCount + ItemsPerPage)
    ensures CanLoadMore(|s|, visibleCount) ==> |Page(s, visibleCount)| < |Page(s, visibleCount + ItemsPerPage)|
  {
  }

  /** The whole pipeline: search and tab, then sort, then the page. */
  function View(ts: seq<Tracker>, tab: Tab, query: string, now: int, visibleCount: nat): (r: seq<Tracker>)
    ensures |r| == Min(visibleCount, |FilterTrackers(ts, tab, query, now)|)
    ensures r <= SortByTarget(FilterTrackers(ts, tab, query, now))
    ensures SortedByTarget(r)
    ensures forall x :: x in r ==> x in ts && Keep(x, tab, query, now)
    ensures var sorted := SortByTarget(FilterTrackers(ts, tab, query, now));
            forall i, j :: 0 <= i < |r| <= j < |sorted| ==> r[i].targetTimestamp <= sorted[j].targetTimestamp
  {
    var filtered := FilterTrackers(ts, tab, query, now);
    var sorted := SortByTarget(filtered);
    SameElements(sorted, filtered);
    PageHoldsEarliest(sorted, visibleCount);
    Page(sorted, visibleCount)
  }

  /** Two lists that are permutations of each other hold the same trackers. */
  lemma SameElements(a: seq<Tracker>, b: seq<Tracker>)
    requires multiset(a) == multiset(b)
    ensures forall x :: x in a <==> x in b
  {
    forall x ensures x in a <==> x in b {
      assert x in a <==> x in multiset(a);
      assert x in b <==> x in multiset(b);
    }
  }

  /** A page of a sorted list is sorted and holds targets no later than any tracker left off it. */
  lemma PageHoldsEarliest(s: seq<Tracker>, visibleCount: nat)
    requires SortedByTarget(s)
    ensures SortedByTarget(Page(s, visibleCount))
    ensures forall i, j :: 0 <= i < |Page(s, visibleCount)| <= j < |s| ==> Page(s, visibleCount)[i].targetTimestamp <= s[j].targetTimestamp
  {
    var r := Page(s, visibleCount);
    assert forall i :: 0 <= i < |r| ==> r[i] == s[i];
  }

  /** Ten more on the page only adds trackers at the end of the screen. */
  lemma ViewGrows(ts: seq<Tracker>, tab: Tab, query: string, now: int, visibleCount: nat)
    ensures View(ts, tab, query, now, visibleCount) <= View(ts, tab, query, now, visibleCount + ItemsPerPage)
  {
    LoadMoreExtends(SortByTarget(FilterTrackers(ts, tab, query, now)), visibleCount);
  }

  // ---------------------------------------------------------------- swipe

  /** `TABS.indexOf(tab)`. */
  function TabIndex(tab: Tab): (i: nat)
    ensures i < |Tabs| && Tabs[i] == tab
  {
    match tab
    case All => 0
    case InProgress => 1
    case Available => 2
  }

  /**
    The tab after a swipe with horizontal offset `offsetX`: far enough left
    moves to the next tab, far enough right to the previous one, never past
    either end.
   */
  function SwipeTarget(tab: Tab, offsetX: real): (r: Tab)
    ensures offsetX < -SwipeThreshold && TabIndex(tab) < |Tabs| - 1 ==> TabIndex(r) == TabIndex(tab) + 1
    ensures offsetX > SwipeThreshold && TabIndex(tab) > 0 ==> TabIndex(r) == TabIndex(tab) - 1
    ensures offsetX < -SwipeThreshold && TabIndex(tab) == |Tabs| - 1 ==> r == tab
    ensures offsetX > SwipeThreshold && TabIndex(tab) == 0 ==> r == tab
    ensures -SwipeThreshold <= offsetX <= SwipeThreshold ==> r == tab
  {
    var i := TabIndex(tab);
    if offsetX < -SwipeThreshold then
      (if i < |Tabs| - 1 then Tabs[i + 1] else tab)
    else if offsetX > SwipeThreshold then
      (if i > 0 then Tabs[i - 1] else tab)
    else tab
  }

  /** A long swipe left followed by a long swipe right comes back, unless the first hit the last tab. */
  lemma SwipeBack(tab: Tab, left: real, right: real)
    requires left < -SwipeThreshold && right > SwipeThreshold && tab != Available
    ensures SwipeTarget(SwipeTarget(tab, left), right) == tab
  {
  }

  // ---------------------------------------------------------------- where card and list disagree

  /**
    A tracker marked Available before its target is completed on its card but
    listed under `progress`; a paused tracker whose target has passed on the
    clock is still counting down on its card but listed under `available`.
   */
  lemma CardAndListDisagree()
    ensures var t := TrackerCard.Tracker("a", "Exam", None, 1000, "Available", 0, false, None, None);
            TrackerCard.Display(t, 500).isAvailable && ComputedTab(t, 500) == InProgress
    ensures var t := TrackerCard.Tracker("b", "Trip", None, 1000, "Progress", 0, true, Some(400), None);
            !TrackerCard.Display(t, 2000).isAvailable && ComputedTab(t, 2000) == Available
  {
  }

  // ---------------------------------------------------------------- list state

  /** The list's state: the selected tab, the page size, the search text and the clock. */
  class ListView {
    var filter: Tab
    var visibleCount: nat
    var searchQuery: string
    var currentTime: int

    /** The page size is always a positive multiple of ten. */
    ghost predicate Valid()
      reads this
    {
      visibleCount >= ItemsPerPage && visibleCount % ItemsPerPage == 0
    }

    /** Because the page size never drops below ten, the screen shows at least the first ten trackers, or all of them. */
    lemma ShowsFirstPage(ts: seq<Tracker>)
      requires Valid()
      ensures |Displayed(ts)| >= Min(ItemsPerPage, |FilterTrackers(ts, filter, searchQuery, currentTime)|)
      ensures Displayed(ts)[..Min(ItemsPerPage, |Displayed(ts)|)]
           == Page(SortByTarget(FilterTrackers(ts, filter, searchQuery, currentTime)), ItemsPerPage)
    {
      var sorted := SortByTarget(FilterTrackers(ts, filter, searchQuery, currentTime));
      assert Displayed(ts) == Page(sorted, visibleCount);
      PageOfLargerPage(sorted, ItemsPerPage, visibleCount);
    }

    constructor (query: string, now: int)
      ensures Valid()
      ensures filter == All && visibleCount == ItemsPerPage && searchQuery == query && currentTime == now
    {
      filter := All;
      visibleCount := ItemsPerPage;
      searchQuery := query;
      currentTime := now;
    }

    /** The trackers on screen. */
    function Displayed(ts: seq<Tracker>): seq<Tracker>
      reads this
    {
      View(ts, filter, searchQuery, currentTime, visibleCount)
    }

    /** Whether the "Load More" button is on screen. */
    function ShowsLoadMore(ts: seq<Tracker>): bool
      reads this
    {
      CanLoadMore(|FilterTrackers(ts, filter, searchQuery, currentTime)|, visibleCount)
    }

    /** Selects a tab; a change of tab resets the page size. */
    method SelectTab(tab: Tab)
      requires Valid()
      modifies this
      ensures Valid()
      ensures filter == tab && searchQuery == old(searchQuery) && currentTime == old(currentTime)
      ensures visibleCount == if tab != old(filter) then ItemsPerPage else old(visibleCount)
    {
      if tab != filter {
        filter := tab;
        visibleCount := ItemsPerPage;
      }
    }

    /** A new search text; a change of text resets the page size. */
    method SetQuery(query: string)
      requires Valid()
      modifies this
      ensures Valid()
      ensures searchQuery == query && filter == old(filter) && currentTime == old(currentTime)
      ensures visibleCount == if query != old(searchQuery) then ItemsPerPage else old(visibleCount)
    {
      if query != searchQuery {
        searchQuery := query;
        visibleCount := ItemsPerPage;
      }
    }

    /** The one-second tick: only the clock changes. */
    method Tick(now: int)
      requires Valid()
      modifies this
      ensures Valid()
      ensures currentTime == now
      ensures filter == old(filter) && searchQuery == old(searchQuery) && visibleCount == old(visibleCount)
    {
      currentTime := now;
    }

    /** "Load More": ten more trackers when the button is on screen, nothing otherwise. */
    method LoadMore(ts: seq<Tracker>)
      requires Valid()
      modifies this
      ensures Valid()
      ensures filter == old(filter) && searchQuery == old(searchQuery) && currentTime == old(currentTime)
      ensures visibleCount == if old(ShowsLoadMore(ts)) then old(visibleCount) + ItemsPerPage else old(visibleCount)
      ensures old(Displayed(ts)) <= Displayed(ts)
    {
      var sortedCount := |FilterTrackers(ts, filter, searchQuery, currentTime)|;
      ViewGrows(ts, filter, searchQuery, currentTime, visibleCount);
      if visibleCount < sortedCount {
        NextPageSize(visibleCount);
        visibleCount := visibleCount + ItemsPerPage;
      }
    }

    /** A swipe gesture ending with horizontal offset `offsetX`. */
    method HandleSwipe(offsetX: real)
      requires Valid()
      modifies this
      ensures Valid()
      ensures filter == SwipeTarget(old(filter), offsetX)
      ensures searchQuery == old(searchQuery) && currentTime == old(currentTime)
      ensures visibleCount == if filter != old(filter) then ItemsPerPage else old(visibleCount)
    {
      var currentIndex := TabIndex(filter);
      if offsetX < -SwipeThreshold {
        if currentIndex < |Tabs| - 1 {
          SelectTab(Tabs[currentIndex + 1]);
        }
      } else if offsetX > SwipeThreshold {
        if currentIndex > 0 {
          SelectTab(Tabs[currentIndex - 1]);
        }
      }
    }
  }
}
