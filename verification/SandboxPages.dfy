/** Listing sandboxes page by page (internal/gateway/gateway_callbacks.go, internal/gateway/store.go). */
module SandboxPages {
  import opened Sorting

  const MAX_LIMIT := 100
  const RUNNING := "running"

  datatype Sandbox = Sandbox(id: string, createdAt: nat, state: string, metadata: map<string, string>)

  datatype Query = Query(metadata: map<string, string>, states: set<string>, limit: int)

  datatype Page = Page(items: seq<Sandbox>, nextToken: string, totalRunning: nat)

  // ---------------------------------------------------------------- which sandboxes, in which order

  /** A key that is not there reads as the empty value. */
  function Value(metadata: map<string, string>, key: string): string {
    if key in metadata then metadata[key] else ""
  }

  predicate MetadataMatch(metadata: map<string, string>, filter: map<string, string>) {
    forall key :: key in filter ==> Value(metadata, key) == filter[key]
  }

  predicate Wanted(s: Sandbox, q: Query) {
    MetadataMatch(s.metadata, q.metadata) && (q.states == {} || s.state in q.states)
  }

  function Filtered(records: seq<Sandbox>, q: Query): seq<Sandbox> {
    if records == [] then []
    else
      var last := records[|records| - 1];
      Filtered(records[..|records| - 1], q) + if Wanted(last, q) then [last] else []
  }

  function CountRunning(records: seq<Sandbox>, q: Query): nat {
    if records == [] then 0
    else
      var last := records[|records| - 1];
      CountRunning(records[..|records| - 1], q)
      + if MetadataMatch(last.metadata, q.metadata) && last.state == RUNNING then 1 else 0
  }

  predicate Older(a: Sandbox, b: Sandbox) {
    a.createdAt <= b.createdAt
  }

  /** The store's list: the sandboxes in the order in which a map is walked, which varies, sorted by creation time. */
  function List(walked: seq<Sandbox>): seq<Sandbox> {
    Sort(walked, Older)
  }

  // ---------------------------------------------------------------- one page

  function Limit(q: Query): (limit: nat)
    ensures 1 <= limit <= MAX_LIMIT
  {
    if q.limit <= 0 || q.limit > MAX_LIMIT then MAX_LIMIT else q.limit
  }

  /** Where the page after a token starts: an unknown token leaves nothing to list. */
  function Start(filtered: seq<Sandbox>, token: string): (start: nat)
    ensures start <= |filtered|
  {
    if token == "" then 0 else After(filtered, token, 0)
  }

  function After(filtered: seq<Sandbox>, token: string, from: nat): (start: nat)
    requires from <= |filtered|
    ensures from <= start <= |filtered|
    decreases |filtered| - from
  {
    if from == |filtered| then from
    else if filtered[from].id == token then from + 1
    else After(filtered, token, from + 1)
  }

  function PageAt(records: seq<Sandbox>, q: Query, token: string): Page {
    var filtered := Filtered(records, q);
    var start := Start(filtered, token);
    var running := CountRunning(records, q);
    if start + Limit(q) < |filtered| then
      Page(filtered[start..start + Limit(q)], filtered[start + Limit(q) - 1].id, running)
    else Page(filtered[start..], "", running)
  }

  method MetadataMatches(metadata: map<string, string>, filter: map<string, string>) returns (matches: bool)
    ensures matches <==> MetadataMatch(metadata, filter)
  {
    var keys := filter.Keys;
    while keys != {}
      invariant keys <= filter.Keys
      invariant forall key :: key in filter && key !in keys ==> Value(metadata, key) == filter[key]
      decreases |keys|
    {
      var key :| key in keys;
      if Value(metadata, key) != filter[key] {
        return false;
      }
      keys := keys - {key};
    }
    return true;
  }

  method ListSandboxes(records: seq<Sandbox>, q: Query, nextToken: string) returns (page: Page)
    ensures page == PageAt(records, q, nextToken)
  {
    var filtered: seq<Sandbox> := [];
    var totalRunning := 0;
    for n := 0 to |records|
      invariant filtered == Filtered(records[..n], q)
      invariant totalRunning == CountRunning(records[..n], q)
    {
      var record := records[n];
      assert records[..n + 1][..n] == records[..n];
      var matches := MetadataMatches(record.metadata, q.metadata);
      if !matches {
        continue;
      }
      if record.state == RUNNING {
        totalRunning := totalRunning + 1;
      }
      if q.states != {} && record.state !in q.states {
        continue;
      }
      filtered := filtered + [record];
    }
    assert records[..|records|] == records;

    var start := 0;
    if nextToken != "" {
      start := |filtered|;
      var i := 0;
      while i < |filtered|
        invariant i <= |filtered| && start == |filtered|
        invariant After(filtered, nextToken, 0) == After(filtered, nextToken, i)
      {
        if filtered[i].id == nextToken {
          start := i + 1;
          break;
        }
        i := i + 1;
      }
    }

    var limit := q.limit;
    if limit <= 0 || limit > MAX_LIMIT {
      limit := MAX_LIMIT;
    }
    var end := start + limit;
    if end < |filtered| {
      page := Page(filtered[start..end], filtered[end - 1].id, totalRunning);
    } else {
      page := Page(filtered[start..], "", totalRunning);
    }
  }

  // ---------------------------------------------------------------- following the tokens

  predicate GoodIds(records: seq<Sandbox>) {
    && (forall i :: 0 <= i < |records| ==> records[i].id != "")
    && (forall i, j :: 0 <= i < j < |records| ==> records[i].id != records[j].id)
  }

  lemma {:induction false} FilteredFrom(records: seq<Sandbox>, q: Query, i: nat) returns (j: nat)
    requires i < |Filtered(records, q)|
    ensures j < |records| && Filtered(records, q)[i] == records[j] && Wanted(records[j], q)
    ensures Filtered(records[..j], q) == Filtered(records, q)[..i]
    decreases |records|
  {
    var front := records[..|records| - 1];
    if i < |Filtered(front, q)| {
      j := FilteredFrom(front, q, i);
      assert front[..j] == records[..j];
    } else {
      j := |records| - 1;
    }
  }

  lemma FilteredApart(records: seq<Sandbox>, q: Query, i: nat, k: nat) returns (j: nat, l: nat)
    requires i < k < |Filtered(records, q)|
    ensures j < l < |records| && Filtered(records, q)[i] == records[j] && Filtered(records, q)[k] == records[l]
  {
    l := FilteredFrom(records, q, k);
    j := FilteredFrom(records[..l], q, i);
  }

  lemma FilteredIds(records: seq<Sandbox>, q: Query)
    requires GoodIds(records)
    ensures GoodIds(Filtered(records, q))
  {
    var filtered := Filtered(records, q);
    forall i | 0 <= i < |filtered| ensures filtered[i].id != "" {
      var j := FilteredFrom(records, q, i);
    }
    forall i, k | 0 <= i < k < |filtered| ensures filtered[i].id != filtered[k].id {
      var j, l := FilteredApart(records, q, i, k);
    }
  }

  lemma {:induction false} AfterOwnId(filtered: seq<Sandbox>, i: nat, from: nat)
    requires GoodIds(filtered) && from <= i < |filtered|
    ensures After(filtered, filtered[i].id, from) == i + 1
    decreases |filtered| - from
  {
    if from < i {
      AfterOwnId(filtered, i, from + 1);
    }
  }

  /** The next page starts right after this one. */
  lemma NextStart(records: seq<Sandbox>, q: Query, token: string)
    requires GoodIds(records) && PageAt(records, q, token).nextToken != ""
    ensures var filtered := Filtered(records, q);
            && Start(filtered, PageAt(records, q, token).nextToken) == Start(filtered, token) + Limit(q)
            && Start(filtered, token) + Limit(q) < |filtered|
  {
    FilteredIds(records, q);
    var filtered := Filtered(records, q);
    AfterOwnId(filtered, Start(filtered, token) + Limit(q) - 1, 0);
  }

  /** The pages a client gets by following the tokens. */
  ghost function Follow(records: seq<Sandbox>, q: Query, token: string): seq<Page>
    requires GoodIds(records)
    decreases |Filtered(records, q)| - Start(Filtered(records, q), token)
  {
    var page := PageAt(records, q, token);
    if page.nextToken == "" then [page]
    else
      NextStart(records, q, token);
      [page] + Follow(records, q, page.nextToken)
  }

  function Items(pages: seq<Page>): seq<Sandbox> {
    if pages == [] then [] else pages[0].items + Items(pages[1..])
  }

  lemma {:induction false} FollowFrom(records: seq<Sandbox>, q: Query, token: string)
    requires GoodIds(records)
    ensures Items(Follow(records, q, token)) == Filtered(records, q)[Start(Filtered(records, q), token)..]
    ensures forall i :: 0 <= i < |Follow(records, q, token)| ==>
              var page := Follow(records, q, token)[i];
              && page.totalRunning == CountRunning(records, q)
              && |page.items| <= Limit(q)
              && (page.nextToken == "" <==> i == |Follow(records, q, token)| - 1)
              && (page.nextToken != "" ==> |page.items| == Limit(q))
    decreases |Filtered(records, q)| - Start(Filtered(records, q), token)
  {
    var filtered := Filtered(records, q);
    var start := Start(filtered, token);
    var page := PageAt(records, q, token);
    if page.nextToken == "" {
      FilteredIds(records, q);
      assert Items([page]) == page.items + Items([]);
    } else {
      NextStart(records, q, token);
      FollowFrom(records, q, page.nextToken);
      var rest := Follow(records, q, page.nextToken);
      assert ([page] + rest)[1..] == rest;
      assert filtered[start..] == filtered[start..start + Limit(q)] + filtered[start + Limit(q)..];
    }
  }

  /** Following the tokens from the first page ends, and the pages together are the filtered list, without a gap or a
      repeat; all are full but the last, and each counts the same running sandboxes. */
  lemma PagesPartitionTheList(records: seq<Sandbox>, q: Query)
    requires GoodIds(records)
    ensures Items(Follow(records, q, "")) == Filtered(records, q)
    ensures forall i :: 0 <= i < |Follow(records, q, "")| ==>
              var page, limit := Follow(records, q, "")[i], if 1 <= q.limit <= 100 then q.limit else 100;
              && page.totalRunning == |RunningAt(records, q.metadata)|
              && |page.items| <= limit
              && (page.nextToken == "" <==> i == |Follow(records, q, "")| - 1)
              && (page.nextToken != "" ==> |page.items| == limit)
  {
    FollowFrom(records, q, "");
    RunningAreCounted(records, q);
  }

  ghost predicate Precedes(records: seq<Sandbox>, a: Sandbox, b: Sandbox) {
    exists j, l :: 0 <= j < l < |records| && a == records[j] && b == records[l]
  }

  /** The filtered list: exactly the sandboxes wanted, in the order of the list. */
  lemma FilteredIsExact(records: seq<Sandbox>, q: Query, s: Sandbox)
    ensures s in Filtered(records, q) <==>
              && s in records
              && (forall key :: key in q.metadata ==>
                    q.metadata[key] == if key in s.metadata then s.metadata[key] else "")
              && (q.states == {} || s.state in q.states)
    ensures forall i, k :: 0 <= i < k < |Filtered(records, q)| ==>
              Precedes(records, Filtered(records, q)[i], Filtered(records, q)[k])
  {
    if s in Filtered(records, q) {
      var i :| 0 <= i < |Filtered(records, q)| && Filtered(records, q)[i] == s;
      var j := FilteredFrom(records, q, i);
    }
    if s in records && Wanted(s, q) {
      FilteredHas(records, q, s);
    }
    forall i, k | 0 <= i < k < |Filtered(records, q)|
      ensures Precedes(records, Filtered(records, q)[i], Filtered(records, q)[k])
    {
      var j, l := FilteredApart(records, q, i, k);
    }
  }

  lemma {:induction false} FilteredHas(records: seq<Sandbox>, q: Query, s: Sandbox)
    requires s in records && Wanted(s, q)
    ensures s in Filtered(records, q)
    decreases |records|
  {
    var n := |records| - 1;
    if records[n] != s {
      assert records == records[..n] + [records[n]];
      FilteredHas(records[..n], q, s);
    }
  }

  /** Where the sandboxes are that run and have the metadata asked for, in whatever state they are to be listed. */
  function RunningAt(records: seq<Sandbox>, metadata: map<string, string>): set<int> {
    set i | 0 <= i < |records| && records[i].state == "running"
            && forall key :: key in metadata ==> Value(records[i].metadata, key) == metadata[key]
  }

  /** The count of running sandboxes does not depend on the states asked for. */
  lemma {:induction false} RunningAreCounted(records: seq<Sandbox>, q: Query)
    ensures CountRunning(records, q) == |RunningAt(records, q.metadata)|
    decreases |records|
  {
    if records != [] {
      RunningAreCounted(records[..|records| - 1], q);
      OneMoreRunning(records, q.metadata);
    }
  }

  lemma OneMoreRunning(records: seq<Sandbox>, metadata: map<string, string>)
    requires records != []
    ensures var n := |records| - 1;
            var before := RunningAt(records[..n], metadata);
            && n !in before
            && RunningAt(records, metadata) ==
                 if MetadataMatch(records[n].metadata, metadata) && records[n].state == RUNNING then before + {n} else before
  {
  }

  // ---------------------------------------------------------------- the order stays the same

  predicate DistinctTimes(records: seq<Sandbox>) {
    forall a, b :: a in records && b in records && a.createdAt == b.createdAt ==> a == b
  }

  lemma {:induction false} SortedOnce(s: seq<Sandbox>, t: seq<Sandbox>)
    requires Sorted(s, Older) && Sorted(t, Older) && multiset(s) == multiset(t) && DistinctTimes(s)
    ensures s == t
    decreases |s|
  {
    SameElements(s, t);
    if s != [] {
      assert s[0] in t && t[0] in s;
      assert Older(s[0], t[0]) && Older(t[0], s[0]);
      WithoutFirst(s);
      WithoutFirst(t);
      SortedOnce(s[1..], t[1..]);
    }
  }

  lemma WithoutFirst(s: seq<Sandbox>)
    requires s != []
    ensures multiset(s[1..]) == multiset(s) - multiset{s[0]}
  {
    assert s == [s[0]] + s[1..];
  }

  /** With distinct creation times the list does not depend on the order in which the store's map is walked, so that the
      requests for successive pages see the same list. */
  lemma ListIsDetermined(walked: seq<Sandbox>, again: seq<Sandbox>)
    requires multiset(walked) == multiset(again) && DistinctTimes(walked)
    ensures List(walked) == List(again)
    ensures Sorted(List(walked), Older) && multiset(List(walked)) == multiset(walked)
  {
    KeyOrderIsTotal(Older, (x: Sandbox) => x.createdAt);
    SortSorts(walked, Older);
    SortSorts(again, Older);
    SortedOnce(List(walked), List(again));
  }

  // ---------------------------------------------------------------- and only then

  /** The sandboxes of one creation time, in order. */
  function OfTime(records: seq<Sandbox>, t: nat): seq<Sandbox> {
    if records == [] then []
    else (if records[0].createdAt == t then [records[0]] else []) + OfTime(records[1..], t)
  }

  lemma {:induction false} InsertKeepsOfTime(records: seq<Sandbox>, x: Sandbox, t: nat)
    ensures OfTime(Insert(records, x, Older), t) == OfTime([x] + records, t)
  {
    assert ([x] + records)[1..] == records;
    if records != [] && !Older(x, records[0]) {
      InsertKeepsOfTime(records[1..], x, t);
      var rest := Insert(records[1..], x, Older);
      assert ([x] + records[1..])[1..] == records[1..];
      assert ([records[0]] + rest)[1..] == rest;
    }
  }

  /** Sorting keeps the order of the sandboxes of one creation time. */
  lemma {:induction false} ListKeepsOfTime(walked: seq<Sandbox>, t: nat)
    ensures OfTime(List(walked), t) == OfTime(walked, t)
  {
    if walked != [] {
      ListKeepsOfTime(walked[1..], t);
      InsertKeepsOfTime(List(walked[1..]), walked[0], t);
      assert ([walked[0]] + List(walked[1..]))[1..] == List(walked[1..]);
    }
  }

  lemma {:induction false} TakeOut(records: seq<Sandbox>, x: Sandbox) returns (rest: seq<Sandbox>)
    requires x in records
    ensures multiset([x] + rest) == multiset(records)
  {
    if records[0] == x {
      rest := records[1..];
      assert records == [x] + rest;
    } else {
      var fewer := TakeOut(records[1..], x);
      rest := [records[0]] + fewer;
      assert records == [records[0]] + records[1..];
      assert multiset([x] + rest) == multiset([x] + fewer) + multiset{records[0]};
    }
  }

  /** Two sandboxes at the front of a walk of the same map. */
  lemma TwoFirst(walked: seq<Sandbox>, a: Sandbox, b: Sandbox) returns (rest: seq<Sandbox>)
    requires a in walked && b in walked && a != b
    ensures multiset([a, b] + rest) == multiset(walked) && multiset([b, a] + rest) == multiset(walked)
  {
    var others := TakeOut(walked, a);
    assert b in multiset([a] + others);
    assert b in others;
    rest := TakeOut(others, b);
    assert [a, b] + rest == [a] + ([b] + rest) && [b, a] + rest == [b] + ([a] + rest);
    assert multiset([a] + ([b] + rest)) == multiset{a} + multiset([b] + rest);
    assert multiset([b] + ([a] + rest)) == multiset{b} + multiset([a] + rest);
    assert multiset([a] + others) == multiset{a} + multiset(others);
  }

  ghost predicate Determined(walked: seq<Sandbox>) {
    forall u, v :: multiset(u) == multiset(walked) && multiset(v) == multiset(walked) ==> List(u) == List(v)
  }

  lemma EqualTimesSortApart(a: Sandbox, b: Sandbox, rest: seq<Sandbox>)
    requires a.createdAt == b.createdAt && a != b
    ensures List([a, b] + rest) != List([b, a] + rest)
  {
    var t := a.createdAt;
    ListKeepsOfTime([a, b] + rest, t);
    ListKeepsOfTime([b, a] + rest, t);
    FirstTwoOfTime(a, b, rest);
    FirstTwoOfTime(b, a, rest);
    assert OfTime([a, b] + rest, t)[0] == a && OfTime([b, a] + rest, t)[0] == b;
  }

  lemma FirstTwoOfTime(a: Sandbox, b: Sandbox, rest: seq<Sandbox>)
    requires a.createdAt == b.createdAt
    ensures OfTime([a, b] + rest, a.createdAt) == [a] + ([b] + OfTime(rest, a.createdAt))
  {
    assert ([a, b] + rest)[1..] == [b] + rest && ([b] + rest)[1..] == rest;
  }

  /** The list does not depend on the order in which the map is walked exactly if no two sandboxes have one creation time. */
  lemma ListIsDeterminedExactlyWhen(walked: seq<Sandbox>)
    ensures Determined(walked) <==> DistinctTimes(walked)
  {
    if DistinctTimes(walked) {
      forall u, v | multiset(u) == multiset(walked) && multiset(v) == multiset(walked) ensures List(u) == List(v) {
        SameElements(walked, u);
        ListIsDetermined(u, v);
      }
    }
    if Determined(walked) {
      forall a, b | a in walked && b in walked && a.createdAt == b.createdAt ensures a == b {
        if a != b {
          var rest := TwoFirst(walked, a, b);
          EqualTimesSortApart(a, b, rest);
        }
      }
    }
  }

  // ---------------------------------------------------------------- each request walks the map afresh

  /** A client asks for a page, and then for the next ones as long as there are tokens and it wants to go on; every request
      walks the map in its own order. */
  ghost predicate Requests(walks: seq<seq<Sandbox>>, q: Query, token: string, pages: seq<Page>)
    decreases |pages|
  {
    && |walks| == |pages| && pages != []
    && pages[0] == PageAt(List(walks[0]), q, token)
    && (|pages| == 1
        || (pages[0].nextToken != "" && Requests(walks[1..], q, pages[0].nextToken, pages[1..])))
  }

  /** There is no token after the last page. */
  predicate Ends(pages: seq<Page>) {
    pages != [] && pages[|pages| - 1].nextToken == ""
  }

  ghost predicate Session(walks: seq<seq<Sandbox>>, q: Query, token: string, pages: seq<Page>) {
    Requests(walks, q, token, pages) && Ends(pages)
  }

  ghost predicate AllWalk(walks: seq<seq<Sandbox>>, walked: seq<Sandbox>) {
    forall i :: 0 <= i < |walks| ==> multiset(walks[i]) == multiset(walked)
  }

  lemma IdsStayGood(records: seq<Sandbox>, again: seq<Sandbox>)
    requires GoodIds(records) && multiset(again) == multiset(records)
    ensures GoodIds(again)
  {
    SameElements(records, again);
    SameElementsStayDistinct(records, again);
    forall i | 0 <= i < |again| ensures again[i].id != "" {
      assert again[i] in records;
    }
    forall i, j | 0 <= i < j < |again| ensures again[i].id != again[j].id {
      assert again[i] in records && again[j] in records;
    }
  }

  lemma ListHasGoodIds(walked: seq<Sandbox>)
    requires GoodIds(walked)
    ensures GoodIds(List(walked)) && multiset(List(walked)) == multiset(walked)
  {
    KeyOrderIsTotal(Older, (x: Sandbox) => x.createdAt);
    SortSorts(walked, Older);
    IdsStayGood(walked, List(walked));
  }

  /** With distinct creation times a session sees one list. */
  lemma {:induction false} SessionFollows(walked: seq<Sandbox>, walks: seq<seq<Sandbox>>, q: Query, token: string, pages: seq<Page>)
    requires GoodIds(walked) && DistinctTimes(walked) && AllWalk(walks, walked) && Session(walks, q, token, pages)
    ensures GoodIds(List(walked)) && pages == Follow(List(walked), q, token)
    decreases |pages|
  {
    ListHasGoodIds(walked);
    FirstWalk(walked, walks);
    FollowStep(List(walked), q, token);
    if pages[0].nextToken != "" {
      SessionFollows(walked, walks[1..], q, pages[0].nextToken, pages[1..]);
      assert pages == [pages[0]] + pages[1..];
    } else {
      assert pages == [pages[0]];
    }
  }

  lemma FirstWalk(walked: seq<Sandbox>, walks: seq<seq<Sandbox>>)
    requires DistinctTimes(walked) && AllWalk(walks, walked) && walks != []
    ensures List(walks[0]) == List(walked) && AllWalk(walks[1..], walked)
  {
    ListIsDetermined(walked, walks[0]);
  }

  lemma FollowStep(records: seq<Sandbox>, q: Query, token: string)
    requires GoodIds(records)
    ensures var page := PageAt(records, q, token);
            Follow(records, q, token) ==
              if page.nextToken == "" then [page] else [page] + Follow(records, q, page.nextToken)
  {
  }

  /** One more request before others. */
  lemma RequestsCons(walk: seq<Sandbox>, walks: seq<seq<Sandbox>>, q: Query, token: string, page: Page, pages: seq<Page>)
    requires page == PageAt(List(walk), q, token) && page.nextToken != "" && Requests(walks, q, page.nextToken, pages)
    ensures Requests([walk] + walks, q, token, [page] + pages)
    ensures Items([page] + pages) == page.items + Items(pages)
    ensures Ends([page] + pages) <==> Ends(pages)
  {
    assert ([walk] + walks)[1..] == walks && ([page] + pages)[1..] == pages;
  }

  lemma WalkCons(walked: seq<Sandbox>, walk: seq<Sandbox>, walks: seq<seq<Sandbox>>)
    requires AllWalk(walks, walked) && multiset(walk) == multiset(walked)
    ensures AllWalk([walk] + walks, walked)
  {
  }

  /** Following the tokens is a session in which every request walks the map in the same order. */
  lemma {:induction false} FollowIsSession(walked: seq<Sandbox>, q: Query, token: string)
    returns (walks: seq<seq<Sandbox>>, pages: seq<Page>)
    requires GoodIds(List(walked))
    ensures pages == Follow(List(walked), q, token)
    ensures AllWalk(walks, walked) && Session(walks, q, token, pages)
    decreases |Filtered(List(walked), q)| - Start(Filtered(List(walked), q), token)
  {
    var page := PageAt(List(walked), q, token);
    if page.nextToken == "" {
      walks, pages := [walked], [page];
    } else {
      NextStart(List(walked), q, token);
      var walks', pages' := FollowIsSession(walked, q, page.nextToken);
      walks, pages := [walked] + walks', [page] + pages';
      RequestsCons(walked, walks', q, token, page, pages');
      WalkCons(walked, walked, walks');
    }
  }

  /** Every session, with any limit and filter, delivers the filtered list, each page counting the same running sandboxes,
      exactly if no two sandboxes have one creation time. */
  ghost predicate SessionsAreComplete(walked: seq<Sandbox>) {
    forall walks, q, pages: seq<Page> :: AllWalk(walks, walked) && Session(walks, q, "", pages) ==>
      Items(pages) == Filtered(List(walked), q)
      && forall i :: 0 <= i < |pages| ==> pages[i].totalRunning == |RunningAt(List(walked), q.metadata)|
  }

  lemma SessionsAreCompleteExactlyWhen(walked: seq<Sandbox>)
    requires GoodIds(walked)
    ensures SessionsAreComplete(walked) <==> DistinctTimes(walked)
  {
    if DistinctTimes(walked) {
      forall walks, q, pages: seq<Page> | AllWalk(walks, walked) && Session(walks, q, "", pages)
        ensures Items(pages) == Filtered(List(walked), q)
        ensures forall i :: 0 <= i < |pages| ==> pages[i].totalRunning == |RunningAt(List(walked), q.metadata)|
      {
        SessionIsComplete(walked, walks, q, pages);
      }
    }
    if SessionsAreComplete(walked) {
      forall a, b | a in walked && b in walked && a.createdAt == b.createdAt ensures a == b {
        if a != b {
          CompleteMeansApart(walked, a, b);
        }
      }
    }
  }

  lemma SessionIsComplete(walked: seq<Sandbox>, walks: seq<seq<Sandbox>>, q: Query, pages: seq<Page>)
    requires GoodIds(walked) && DistinctTimes(walked) && AllWalk(walks, walked) && Session(walks, q, "", pages)
    ensures Items(pages) == Filtered(List(walked), q)
    ensures forall i :: 0 <= i < |pages| ==> pages[i].totalRunning == |RunningAt(List(walked), q.metadata)|
  {
    SessionFollows(walked, walks, q, "", pages);
    PagesPartitionTheList(List(walked), q);
  }

  lemma CompleteMeansApart(walked: seq<Sandbox>, a: Sandbox, b: Sandbox)
    requires GoodIds(walked) && SessionsAreComplete(walked) && a in walked && b in walked && a != b
    ensures a.createdAt != b.createdAt
  {
    if a.createdAt == b.createdAt {
      IsListed(walked, b);
      var walks, pages := EqualTimesLoseASandbox(walked, a, b);
      CompleteMeansAll(walked, walks, pages);
    }
  }

  lemma CompleteMeansAll(walked: seq<Sandbox>, walks: seq<seq<Sandbox>>, pages: seq<Page>)
    requires SessionsAreComplete(walked) && AllWalk(walks, walked) && Session(walks, ONE_BY_ONE, "", pages)
    ensures Items(pages) == Filtered(List(walked), ONE_BY_ONE)
  {
  }

  lemma IsListed(walked: seq<Sandbox>, x: Sandbox)
    requires GoodIds(walked) && x in walked
    ensures x in Filtered(List(walked), ONE_BY_ONE)
  {
    ListHasGoodIds(walked);
    SameElements(walked, List(walked));
    AllAreWanted(List(walked));
  }

  // ---------------------------------------------------------------- how a sandbox is lost

  /** Everything, one sandbox a page. */
  const ONE_BY_ONE := Query(map[], {}, 1)

  lemma {:induction false} AllAreWanted(records: seq<Sandbox>)
    ensures Filtered(records, ONE_BY_ONE) == records
    decreases |records|
  {
    if records != [] {
      AllAreWanted(records[..|records| - 1]);
    }
  }

  lemma {:induction false} InsertBetween(older: seq<Sandbox>, rest: seq<Sandbox>, x: Sandbox)
    requires forall i :: 0 <= i < |older| ==> !Older(x, older[i])
    requires rest != [] ==> Older(x, rest[0])
    ensures Insert(older + rest, x, Older) == older + ([x] + rest)
    decreases |older|
  {
    if older == [] {
      assert older + rest == rest;
    } else {
      assert (older + rest)[1..] == older[1..] + rest;
      InsertBetween(older[1..], rest, x);
    }
  }

  lemma {:induction false} CutAt(records: seq<Sandbox>, x: Sandbox) returns (older: seq<Sandbox>, rest: seq<Sandbox>)
    ensures records == older + rest
    ensures forall i :: 0 <= i < |older| ==> !Older(x, older[i])
    ensures rest != [] ==> Older(x, rest[0])
  {
    if records == [] || Older(x, records[0]) {
      older, rest := [], records;
    } else {
      older, rest := CutAt(records[1..], x);
      older := [records[0]] + older;
    }
  }

  /** The two orders of two sandboxes of one creation time, with the same lists before and after them. */
  lemma TwoOrders(a: Sandbox, b: Sandbox, others: seq<Sandbox>) returns (older: seq<Sandbox>, rest: seq<Sandbox>)
    requires a.createdAt == b.createdAt
    ensures List([a, b] + others) == older + [a, b] + rest
    ensures List([b, a] + others) == older + [b, a] + rest
    ensures forall x :: x in older ==> x.createdAt < a.createdAt
  {
    older, rest := CutAt(List(others), a);
    OneOrder(a, b, others, older, rest);
    OneOrder(b, a, others, older, rest);
  }

  lemma OneOrder(a: Sandbox, b: Sandbox, others: seq<Sandbox>, older: seq<Sandbox>, rest: seq<Sandbox>)
    requires a.createdAt == b.createdAt && List(others) == older + rest
    requires forall i :: 0 <= i < |older| ==> !Older(a, older[i])
    requires rest != [] ==> Older(a, rest[0])
    ensures List([a, b] + others) == older + [a, b] + rest
  {
    ListCons(b, others);
    ListCons(a, [b] + others);
    assert [a, b] + others == [a] + ([b] + others);
    InsertBetween(older, rest, b);
    InsertBetween(older, [b] + rest, a);
    Regroup(a, b, older, rest);
  }

  lemma Regroup(a: Sandbox, b: Sandbox, older: seq<Sandbox>, rest: seq<Sandbox>)
    ensures older + ([a] + ([b] + rest)) == older + [a, b] + rest
  {
  }

  lemma ListCons(a: Sandbox, others: seq<Sandbox>)
    ensures List([a] + others) == Insert(List(others), a, Older)
  {
    assert ([a] + others)[1..] == others;
  }

  /** One request of a client that takes one sandbox a page and has got the first `n`. */
  lemma NthPage(records: seq<Sandbox>, n: nat)
    requires GoodIds(records) && n + 1 < |records|
    ensures PageAt(records, ONE_BY_ONE, if n == 0 then "" else records[n - 1].id)
              == Page([records[n]], records[n].id, CountRunning(records, ONE_BY_ONE))
  {
    AllAreWanted(records);
    NthOf(records, records, ONE_BY_ONE, n);
  }

  lemma NthOf(records: seq<Sandbox>, filtered: seq<Sandbox>, q: Query, n: nat)
    requires filtered == Filtered(records, q) && GoodIds(filtered) && q.limit == 1 && n + 1 < |filtered|
    ensures PageAt(records, q, if n == 0 then "" else filtered[n - 1].id)
              == Page([filtered[n]], filtered[n].id, CountRunning(records, q))
  {
    var token := if n == 0 then "" else filtered[n - 1].id;
    if n > 0 {
      AfterOwnId(filtered, n - 1, 0);
    }
    OnePage(records, filtered, q, token, n);
  }

  lemma OnePage(records: seq<Sandbox>, filtered: seq<Sandbox>, q: Query, token: string, n: nat)
    requires filtered == Filtered(records, q) && q.limit == 1 && n + 1 < |filtered| && Start(filtered, token) == n
    ensures PageAt(records, q, token) == Page([filtered[n]], filtered[n].id, CountRunning(records, q))
  {
    assert filtered[n..n + 1] == [filtered[n]];
  }

  /** Requests that go on after the first `n` of a list, one sandbox a page. */
  ghost predicate GoesOn(walked: seq<Sandbox>, list: seq<Sandbox>, n: nat, walks: seq<seq<Sandbox>>, pages: seq<Page>) {
    n <= |list| && AllWalk(walks, walked) && Requests(walks, ONE_BY_ONE, if n == 0 then "" else list[n - 1].id, pages)
  }

  /** One more request before it. */
  lemma GoesOnBefore(walked: seq<Sandbox>, list: seq<Sandbox>, n: nat, walks: seq<seq<Sandbox>>, pages: seq<Page>)
    returns (walks': seq<seq<Sandbox>>, pages': seq<Page>)
    requires list == List(walked) && GoodIds(list) && n + 1 < |list| && GoesOn(walked, list, n + 1, walks, pages)
    ensures GoesOn(walked, list, n, walks', pages') && Items(pages') == [list[n]] + Items(pages)
    ensures |pages'| == |pages| + 1 && (Ends(pages') <==> Ends(pages))
  {
    NthPage(list, n);
    var page := Page([list[n]], list[n].id, CountRunning(list, ONE_BY_ONE));
    walks', pages' := [walked] + walks, [page] + pages;
    RequestsCons(walked, walks, ONE_BY_ONE, if n == 0 then "" else list[n - 1].id, page, pages);
    WalkCons(walked, walked, walks);
  }

  /** Requests that walk the map in one order up to the n-th sandbox, and others after it. */
  lemma {:induction false} RequestsUpTo(walked: seq<Sandbox>, list: seq<Sandbox>, n: nat, stop: nat,
      walks: seq<seq<Sandbox>>, pages: seq<Page>) returns (walks': seq<seq<Sandbox>>, pages': seq<Page>)
    requires list == List(walked) && GoodIds(list) && n <= stop < |list| - 1
    requires GoesOn(walked, list, stop + 1, walks, pages)
    ensures GoesOn(walked, list, n, walks', pages') && Items(pages') == list[n..stop + 1] + Items(pages)
    ensures |pages'| >= |pages| && (Ends(pages') <==> Ends(pages))
    decreases stop - n
  {
    ItemsFrom(list, n, stop, Items(pages));
    if n == stop {
      walks', pages' := GoesOnBefore(walked, list, n, walks, pages);
    } else {
      var walksAfter, pagesAfter := RequestsUpTo(walked, list, n + 1, stop, walks, pages);
      walks', pages' := GoesOnBefore(walked, list, n, walksAfter, pagesAfter);
    }
  }

  lemma ItemsFrom(list: seq<Sandbox>, n: nat, stop: nat, more: seq<Sandbox>)
    requires n <= stop < |list|
    ensures list[n..stop + 1] + more == [list[n]] + (list[n + 1..stop + 1] + more)
    ensures n == stop ==> list[n..stop + 1] + more == [list[n]] + more
  {
  }

  /** Two walks of one map that list two sandboxes of one creation time in either order. */
  lemma TwoWalks(walked: seq<Sandbox>, a: Sandbox, b: Sandbox)
    returns (u: seq<Sandbox>, v: seq<Sandbox>, older: seq<Sandbox>, rest: seq<Sandbox>)
    requires GoodIds(walked) && a in walked && b in walked && a != b && a.createdAt == b.createdAt
    ensures multiset(u) == multiset(walked) && multiset(v) == multiset(walked)
    ensures GoodIds(List(u)) && List(u) == older + [a, b] + rest
    ensures GoodIds(List(v)) && List(v) == older + [b, a] + rest
    ensures forall x :: x in older ==> x.createdAt < a.createdAt
  {
    var others := TwoFirst(walked, a, b);
    u, v := [a, b] + others, [b, a] + others;
    older, rest := TwoOrders(a, b, others);
    IdsStayGood(walked, u);
    IdsStayGood(walked, v);
    ListHasGoodIds(u);
    ListHasGoodIds(v);
  }

  /** With any two sandboxes of one creation time in the store, a client that takes one sandbox a page may never see one of
      them: the order changes just after it has seen the other. */
  lemma EqualTimesLoseASandbox(walked: seq<Sandbox>, a: Sandbox, b: Sandbox)
    returns (walks: seq<seq<Sandbox>>, pages: seq<Page>)
    requires GoodIds(walked) && a in walked && b in walked && a != b && a.createdAt == b.createdAt
    ensures AllWalk(walks, walked) && Session(walks, ONE_BY_ONE, "", pages)
    ensures b !in Items(pages)
  {
    var u, v, older, rest := TwoWalks(walked, a, b);
    var walks2, pages2 := AfterTheOther(v, older, b, a, rest);
    var k := |older|;
    assert List(u)[k] == a;
    walks, pages := RequestsUpTo(u, List(u), 0, k, walks2, pages2);
    assert List(u)[0..k + 1] == older + [a];
    NotElsewhere(older, a, b, rest);
  }

  /** The session that goes on after `a`, when the map is walked in the order in which `b` comes before it. */
  lemma AfterTheOther(v: seq<Sandbox>, older: seq<Sandbox>, b: Sandbox, a: Sandbox, rest: seq<Sandbox>)
    returns (walks: seq<seq<Sandbox>>, pages: seq<Page>)
    requires GoodIds(List(v)) && List(v) == older + [b, a] + rest
    ensures AllWalk(walks, v) && Session(walks, ONE_BY_ONE, a.id, pages) && Items(pages) == rest
  {
    var list, k := List(v), |older|;
    assert list[k + 1] == a;
    AllAreWanted(list);
    AfterOwnId(list, k + 1, 0);
    walks, pages := FollowIsSession(v, ONE_BY_ONE, a.id);
    FollowFrom(list, ONE_BY_ONE, a.id);
    assert a.id != "";
    assert list[k + 2..] == rest;
  }

  lemma NotElsewhere(older: seq<Sandbox>, a: Sandbox, b: Sandbox, rest: seq<Sandbox>)
    requires GoodIds(older + [a, b] + rest)
    ensures b !in older + [a] + rest
  {
    var all, k := older + [a, b] + rest, |older|;
    assert all[k] == a && all[k + 1] == b;
    forall i | 0 <= i < |older| ensures older[i] != b {
      assert all[i] == older[i];
    }
    forall i | 0 <= i < |rest| ensures rest[i] != b {
      assert all[k + 2 + i] == rest[i];
    }
  }

  // ---------------------------------------------------------------- whether following the tokens ends

  /** Two sandboxes of one creation time, and a third that is not older. */
  predicate Swap(walked: seq<Sandbox>, a: Sandbox, b: Sandbox, c: Sandbox) {
    && a in walked && b in walked && c in walked && a != b && b != c && a != c
    && a.createdAt == b.createdAt <= c.createdAt
  }

  ghost predicate CanSwap(walked: seq<Sandbox>) {
    exists a, b, c :: Swap(walked, a, b, c)
  }

  lemma {:induction false} AfterIsFound(filtered: seq<Sandbox>, token: string, from: nat)
    requires from <= |filtered| && After(filtered, token, from) < |filtered|
    ensures from < After(filtered, token, from) && filtered[After(filtered, token, from) - 1].id == token
    decreases |filtered| - from
  {
    if from < |filtered| && filtered[from].id != token {
      AfterIsFound(filtered, token, from + 1);
    }
  }

  /** What is filtered out of the list of any walk: sandboxes of the store, oldest first. */
  lemma FilteredOf(walked: seq<Sandbox>, walk: seq<Sandbox>, q: Query)
    requires GoodIds(walked) && multiset(walk) == multiset(walked)
    ensures var filtered := Filtered(List(walk), q);
            && GoodIds(filtered) && Sorted(filtered, Older)
            && forall i :: 0 <= i < |filtered| ==> filtered[i] in walked
  {
    var list, filtered := List(walk), Filtered(List(walk), q);
    IdsStayGood(walked, walk);
    ListHasGoodIds(walk);
    FilteredIds(list, q);
    KeyOrderIsTotal(Older, (x: Sandbox) => x.createdAt);
    SortSorts(walk, Older);
    SameElements(walk, walked);
    forall i | 0 <= i < |filtered| ensures filtered[i] in walked {
      var j := FilteredFrom(list, q, i);
    }
    forall i, k | 0 <= i < k < |filtered| ensures Older(filtered[i], filtered[k]) {
      var j, l := FilteredApart(list, q, i, k);
    }
  }

  /** The sandbox that a page's token names, and one more that the page leaves out. */
  lemma TokenOf(walked: seq<Sandbox>, walk: seq<Sandbox>, q: Query, token: string) returns (y: Sandbox, z: Sandbox)
    requires GoodIds(walked) && multiset(walk) == multiset(walked) && PageAt(List(walk), q, token).nextToken != ""
    ensures y in walked && z in walked && y != z && Older(y, z) && PageAt(List(walk), q, token).nextToken == y.id
    ensures forall x :: x in walked && x.id == token ==> x != y && x != z && Older(x, y)
  {
    var filtered := Filtered(List(walk), q);
    FilteredOf(walked, walk, q);
    var start := Start(filtered, token);
    var last := start + Limit(q) - 1;
    y, z := filtered[last], filtered[last + 1];
    if token != "" {
      AfterIsFound(filtered, token, 0);
      forall x | x in walked && x.id == token ensures x == filtered[start - 1] {
        OneOfId(walked, x, filtered[start - 1]);
      }
    } else {
      forall x | x in walked ensures x.id != token {
        var i :| 0 <= i < |walked| && walked[i] == x;
      }
    }
  }

  lemma OneOfId(walked: seq<Sandbox>, x: Sandbox, y: Sandbox)
    requires GoodIds(walked) && x in walked && y in walked && x.id == y.id
    ensures x == y
  {
    var i :| 0 <= i < |walked| && walked[i] == x;
    var j :| 0 <= j < |walked| && walked[j] == y;
  }

  function Younger(walked: seq<Sandbox>, x: Sandbox): set<Sandbox> {
    set y | y in walked && y.createdAt > x.createdAt
  }

  /** Without a swap each token names a younger sandbox than the one before. */
  lemma {:induction false} TokensGetYounger(walked: seq<Sandbox>, walks: seq<seq<Sandbox>>, q: Query, x: Sandbox,
      pages: seq<Page>)
    requires GoodIds(walked) && !CanSwap(walked) && x in walked
    requires AllWalk(walks, walked) && Requests(walks, q, x.id, pages)
    ensures |pages| <= 1 + |Younger(walked, x)|
    decreases |pages|
  {
    if |pages| > 1 {
      var y, z := TokenOf(walked, walks[0], q, x.id);
      assert !Swap(walked, x, y, z);
      TokensGetYounger(walked, walks[1..], q, y, pages[1..]);
      FewerYounger(walked, x, y);
    }
  }

  lemma FewerYounger(walked: seq<Sandbox>, x: Sandbox, y: Sandbox)
    requires y in walked && x.createdAt < y.createdAt
    ensures |Younger(walked, y)| < |Younger(walked, x)|
  {
    SubsetSize(Younger(walked, y) + {y}, Younger(walked, x));
  }

  lemma {:induction false} SubsetSize<T>(a: set<T>, b: set<T>)
    requires a <= b
    ensures |a| <= |b|
  {
    if a != {} {
      var x :| x in a;
      SubsetSize(a - {x}, b - {x});
    }
  }

  lemma {:induction false} ElementsSize<T>(s: seq<T>)
    ensures |set x | x in s| <= |s|
  {
    if s != [] {
      ElementsSize(s[1..]);
      assert (set x | x in s) == (set x | x in s[1..]) + {s[0]};
    }
  }

  lemma RequestsAreBounded(walked: seq<Sandbox>, walks: seq<seq<Sandbox>>, q: Query, pages: seq<Page>)
    requires GoodIds(walked) && !CanSwap(walked) && AllWalk(walks, walked) && Requests(walks, q, "", pages)
    ensures |pages| <= |walked| + 1
  {
    if |pages| > 1 {
      var y, z := TokenOf(walked, walks[0], q, "");
      TokensGetYounger(walked, walks[1..], q, y, pages[1..]);
      SubsetSize(Younger(walked, y) + {y}, set x | x in walked);
      ElementsSize(walked);
    }
  }

  /** From the token of either of two neighbours of one creation time a client can be led to the other, as often as one
      likes, if something follows them. */
  lemma {:induction false} LedBackAndForth(u: seq<Sandbox>, v: seq<Sandbox>, older: seq<Sandbox>, a: Sandbox, b: Sandbox,
      rest: seq<Sandbox>, n: nat) returns (walks: seq<seq<Sandbox>>, pages: seq<Page>)
    requires multiset(u) == multiset(v) && rest != []
    requires GoodIds(List(u)) && List(u) == older + [a, b] + rest
    requires GoodIds(List(v)) && List(v) == older + [b, a] + rest
    ensures AllWalk(walks, u) && Requests(walks, ONE_BY_ONE, a.id, pages) && |pages| == n + 1 && !Ends(pages)
    decreases n
  {
    var list, k := List(u), |older|;
    assert list[k] == a && list[k + 1] == b && list[k + 1].id != "";
    NthPage(list, k + 1);
    var page := Page([b], b.id, CountRunning(list, ONE_BY_ONE));
    if n == 0 {
      walks, pages := [u], [page];
    } else {
      var walks', pages' := LedBackAndForth(v, u, older, b, a, rest, n - 1);
      walks, pages := [u] + walks', [page] + pages';
      RequestsCons(u, walks', ONE_BY_ONE, a.id, page, pages');
      WalkCons(u, u, walks');
    }
  }

  /** A client can be kept asking for more than `n` pages. */
  ghost predicate AsksFor(walked: seq<Sandbox>, n: nat) {
    exists walks, pages :: AllWalk(walks, walked) && Requests(walks, ONE_BY_ONE, "", pages) && |pages| > n && !Ends(pages)
  }

  lemma SwapLoops(walked: seq<Sandbox>, a: Sandbox, b: Sandbox, c: Sandbox, n: nat)
    requires GoodIds(walked) && Swap(walked, a, b, c)
    ensures AsksFor(walked, n)
  {
    var u, v, older, rest := TwoWalks(walked, a, b);
    KeyOrderIsTotal(Older, (x: Sandbox) => x.createdAt);
    SortSorts(u, Older);
    SameElements(walked, u);
    assert c in older + [a, b] + rest && c in rest;
    var walks2, pages2 := LedBackAndForth(u, v, older, a, b, rest, n);
    var k := |older|;
    assert List(u)[k] == a;
    var walks, pages := RequestsUpTo(u, List(u), 0, k, walks2, pages2);
    assert AllWalk(walks, walked);
  }

  ghost predicate SessionsEnd(walked: seq<Sandbox>) {
    forall walks, q, pages: seq<Page> :: AllWalk(walks, walked) && Requests(walks, q, "", pages) ==> |pages| <= |walked| + 1
  }

  /** Following the tokens ends, whatever the order of the walks, the limit and the filter, exactly if no two sandboxes of one
      creation time have a third that is not older; there are then at most as many tokens as sandboxes. Otherwise a client
      can be kept asking for ever. */
  lemma SessionsEndExactlyWhen(walked: seq<Sandbox>)
    requires GoodIds(walked)
    ensures SessionsEnd(walked) <==> !CanSwap(walked)
    ensures CanSwap(walked) ==> forall n: nat :: AsksFor(walked, n)
  {
    if CanSwap(walked) {
      var a, b, c :| Swap(walked, a, b, c);
      forall n: nat ensures AsksFor(walked, n) {
        SwapLoops(walked, a, b, c, n);
      }
      assert AsksFor(walked, |walked| + 1);
    } else {
      forall walks, q, pages: seq<Page> | AllWalk(walks, walked) && Requests(walks, q, "", pages)
        ensures |pages| <= |walked| + 1
      {
        RequestsAreBounded(walked, walks, q, pages);
      }
    }
  }
}
