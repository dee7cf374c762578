/** The paged event search of the device client, against any device, and against one that serves a fixed list. */
module DeviceSearch {
  import opened Base

  const MAX_PAGES := 4000
  const MAX_RECORDS := 100_000

  type Raw = string

  type Reading = string

  /** One answer of the device: an error, or a page. `more` says that the status reads MORE. */
  datatype Reply = Unavailable | Page(searchId: string, total: int, reported: int, more: bool, records: seq<Raw>)

  datatype Issue = Issue(page: nat, index: nat, raw: Raw)

  datatype Failure = EndBeforeStart | DeviceError | BadProgress | PageLimit

  datatype Result = Failure(reason: Failure) | Success(events: seq<Reading>, issues: seq<Issue>)

  /** `validateSearchProgress`. */
  predicate ValidProgress(searchId: string, position: nat, reply: Reply)
    requires reply.Page?
  {
    var actual := |reply.records|;
    && (reply.searchId == "" || reply.searchId == searchId)
    && (reply.reported == 0 || reply.reported == actual)
    && !(reply.total > position && actual == 0)
    && position + actual <= MAX_RECORDS
  }

  /** `searchComplete`. */
  predicate Complete(position: nat, reply: Reply)
    requires reply.Page?
  {
    if reply.total > 0 then position + |reply.records| >= reply.total else !reply.more
  }

  function Parsed(records: seq<Raw>, parse: Raw -> Option<Reading>): seq<Reading> {
    if records == [] then []
    else
      var last := parse(records[|records| - 1]);
      Parsed(records[..|records| - 1], parse) + if last.Some? then [last.value] else []
  }

  function Unparsed(records: seq<Raw>, parse: Raw -> Option<Reading>): seq<Raw> {
    if records == [] then []
    else
      var last := records[|records| - 1];
      Unparsed(records[..|records| - 1], parse) + if parse(last).Some? then [] else [last]
  }

  function Raws(issues: seq<Issue>): (raws: seq<Raw>)
    ensures |raws| == |issues|
  {
    Each(issues, (issue: Issue) => issue.raw)
  }

  /** These are the events and the issues of the records read, each in the order read. */
  ghost predicate Accounts(events: seq<Reading>, issues: seq<Issue>, read: seq<Raw>, parse: Raw -> Option<Reading>) {
    events == Parsed(read, parse) && Raws(issues) == Unparsed(read, parse)
  }

  /** A single record gives an event or an issue. */
  lemma OneRecord(r: Raw, parse: Raw -> Option<Reading>)
    ensures Parsed([r], parse) == match parse(r) case Some(reading) => [reading] case None => []
    ensures Unparsed([r], parse) == match parse(r) case Some(_) => [] case None => [r]
  {
    assert [r][..0] == [];
    assert Parsed([], parse) == [] && Unparsed([], parse) == [];
  }

  /** Events and issues come in the order of their records. */
  lemma {:induction false} InOrderOfRecords(first: seq<Raw>, second: seq<Raw>, parse: Raw -> Option<Reading>)
    ensures Parsed(first + second, parse) == Parsed(first, parse) + Parsed(second, parse)
    ensures Unparsed(first + second, parse) == Unparsed(first, parse) + Unparsed(second, parse)
  {
    if second == [] {
      assert first + second == first;
    } else {
      var init, last := second[..|second| - 1], second[|second| - 1];
      InOrderOfRecords(first, init, parse);
      assert first + second == (first + init) + [last] && second == init + [last];
      AppendRecord(first + init, last, parse);
      AppendRecord(init, last, parse);
    }
  }

  /** The issue says where on the page its record is; pages count from one. */
  predicate OnPage(issue: Issue, page: nat, records: seq<Raw>) {
    issue.page == page + 1 && issue.index < |records| && issue.raw == records[issue.index]
  }

  // ----- What a device has sent -----

  function RecordsOf(reply: Reply): seq<Raw> {
    if reply.Page? then reply.records else []
  }

  /** The position of the k-th request, and the records of the answers before it. */
  function Position(device: (nat, nat) -> Reply, k: nat): nat {
    if k == 0 then 0 else Position(device, k - 1) + |RecordsOf(device(k - 1, Position(device, k - 1)))|
  }

  function Received(device: (nat, nat) -> Reply, k: nat): seq<Raw> {
    if k == 0 then [] else Received(device, k - 1) + RecordsOf(device(k - 1, Position(device, k - 1)))
  }

  /** Every issue says where its record was received. */
  ghost predicate Placed(device: (nat, nat) -> Reply, issues: seq<Issue>, n: nat) {
    forall issue :: issue in issues ==> 1 <= issue.page <= n && OnPage(issue, issue.page - 1, RecordsAt(device, issue.page - 1))
  }

  function RecordsAt(device: (nat, nat) -> Reply, k: nat): seq<Raw> {
    RecordsOf(device(k, Position(device, k)))
  }

  datatype Verdict = Bad | GoesOn | Ends

  /** What the k-th answer means for the search. */
  function Judge(device: (nat, nat) -> Reply, searchId: string, k: nat): Verdict {
    var p := Position(device, k);
    var reply := device(k, p);
    if reply.Unavailable? || !ValidProgress(searchId, p, reply) then Bad
    else if Complete(p, reply) then Ends
    else GoesOn
  }

  /** The n-th answer is the first that completes the search, and it and all before it are as they should be. */
  ghost predicate Finishes(device: (nat, nat) -> Reply, searchId: string, n: nat) {
    && 1 <= n <= MAX_PAGES
    && Judge(device, searchId, n - 1) == Ends
    && GoesOnFor(device, searchId, n - 1)
  }

  ghost predicate GoesOnFor(device: (nat, nat) -> Reply, searchId: string, n: nat) {
    forall k: nat :: k < n ==> Judge(device, searchId, k) == GoesOn
  }

  /** The search goes on for these many pages and then fails for this reason. */
  ghost predicate Stops(device: (nat, nat) -> Reply, searchId: string, pages: nat, reason: Failure) {
    && GoesOnFor(device, searchId, pages)
    && var p := Position(device, pages);
       var reply := device(pages, p);
       match reason
       case EndBeforeStart => false
       case PageLimit => pages == MAX_PAGES
       case DeviceError => pages < MAX_PAGES && reply.Unavailable?
       case BadProgress => pages < MAX_PAGES && reply.Page? && !ValidProgress(searchId, p, reply)
  }

  lemma NoFinish(device: (nat, nat) -> Reply, searchId: string, pages: nat, reason: Failure)
    requires Stops(device, searchId, pages, reason)
    ensures forall n: nat :: !Finishes(device, searchId, n)
  {
    assert pages < MAX_PAGES ==> Judge(device, searchId, pages) == Bad;
  }

  // ----- A device that serves a list -----

  /** From each position, in every page, it returns the next records, at least one while there are any; it either gives the total or
      says truthfully whether there are more. */
  ghost predicate Serves(device: (nat, nat) -> Reply, searchId: string, list: seq<Raw>) {
    forall page: nat, p: nat :: p <= |list| ==> ServesAt(device(page, p), p, searchId, list)
  }

  ghost predicate ServesAt(reply: Reply, p: nat, searchId: string, list: seq<Raw>)
    requires p <= |list|
  {
    && reply.Page?
    && var k := |reply.records|;
       && p + k <= |list| && reply.records == list[p..p + k] && (p < |list| ==> k > 0)
       && (reply.searchId == "" || reply.searchId == searchId)
       && (reply.reported == 0 || reply.reported == k)
       && (reply.total == |list| || (reply.total == 0 && (reply.more <==> p + k < |list|)))
       && (|list| == 0 ==> !reply.more)
  }

  /** How many pages the device needs from a page and position on. */
  ghost function Pages(device: (nat, nat) -> Reply, searchId: string, list: seq<Raw>, page: nat, p: nat): nat
    requires Serves(device, searchId, list) && p <= |list|
    decreases |list| - p
  {
    assert ServesAt(device(page, p), p, searchId, list);
    var next := p + |device(page, p).records|;
    if next >= |list| then 1 else 1 + Pages(device, searchId, list, page + 1, next)
  }

  lemma AppendRecord(records: seq<Raw>, r: Raw, parse: Raw -> Option<Reading>)
    ensures Parsed(records + [r], parse) == Parsed(records, parse) + if parse(r).Some? then [parse(r).value] else []
    ensures Unparsed(records + [r], parse) == Unparsed(records, parse) + if parse(r).Some? then [] else [r]
  {
    assert (records + [r])[..|records|] == records;
  }

  /** Sorts one page into events and issues. */
  method ReadPage(page: nat, records: seq<Raw>, parse: Raw -> Option<Reading>, before: (seq<Reading>, seq<Issue>), ghost read: seq<Raw>)
    returns (events: seq<Reading>, issues: seq<Issue>)
    requires Accounts(before.0, before.1, read, parse)
    ensures Accounts(events, issues, read + records, parse)
    ensures forall issue :: issue in issues ==> issue in before.1 || OnPage(issue, page, records)
  {
    events, issues := before.0, before.1;
    assert read + records[..0] == read;
    for i := 0 to |records|
      invariant Accounts(events, issues, read + records[..i], parse)
      invariant forall issue :: issue in issues ==> issue in before.1 || OnPage(issue, page, records)
    {
      PrefixStep(records, i);
      assert read + records[..i + 1] == (read + records[..i]) + [records[i]];
      AppendRecord(read + records[..i], records[i], parse);
      var parsed := parse(records[i]);
      if parsed.Some? {
        events := events + [parsed.value];
      } else {
        ghost var earlier := issues;
        issues := issues + [Issue(page + 1, i, records[i])];
        assert Raws(issues) == Raws(earlier) + [records[i]];
      }
    }
    WholePrefix(records);
  }

  lemma PlacedMore(device: (nat, nat) -> Reply, before: seq<Issue>, issues: seq<Issue>, page: nat)
    requires Placed(device, before, page)
    requires forall issue :: issue in issues ==> issue in before || OnPage(issue, page, RecordsAt(device, page))
    ensures Placed(device, issues, page + 1)
  {
  }

  /** One answer of a device that serves the list. */
  lemma Served(device: (nat, nat) -> Reply, searchId: string, list: seq<Raw>, page: nat, p: nat)
    requires Serves(device, searchId, list) && p <= |list|
    ensures device(page, p).Page?
    ensures var reply := device(page, p);
            var next := p + |reply.records|;
            && next <= |list| && list[..p] + reply.records == list[..next]
            && (ValidProgress(searchId, p, reply) <==> next <= MAX_RECORDS)
            && (Complete(p, reply) <==> next == |list|)
            && Pages(device, searchId, list, page, p) == if next == |list| then 1 else 1 + Pages(device, searchId, list, page + 1, next)
  {
    assert ServesAt(device(page, p), p, searchId, list);
    assert list[..p] + list[p..p + |device(page, p).records|] == list[..p + |device(page, p).records|];
  }

  /** `SearchEventsDetailed`. Whatever the device answers, the search ends; it succeeds exactly if some answer completes it within the
      page limit and every answer up to that one is as it should be, and then it accounts for every record received, events and issues
      each in the order received. Otherwise it fails for one of the stated reasons. */
  method SearchEventsDetailed(device: (nat, nat) -> Reply, searchId: string, parse: Raw -> Option<Reading>, start: int, end: int)
    returns (result: Result, ghost pages: nat)
    ensures result.Success? ==>
              && Finishes(device, searchId, pages) && Accounts(result.events, result.issues, Received(device, pages), parse)
              && Placed(device, result.issues, pages)
    ensures start <= end && (exists n: nat :: Finishes(device, searchId, n)) ==> result.Success?
    ensures result == Failure(EndBeforeStart) <==> end < start
    ensures result.Failure? && start <= end ==> Stops(device, searchId, pages, result.reason)
  {
    pages := 0;
    if end < start {
      return Failure(EndBeforeStart), pages;
    }
    var position: nat := 0;
    var events: seq<Reading>, issues: seq<Issue> := [], [];
    for page := 0 to MAX_PAGES
      invariant pages == page && position == Position(device, page)
      invariant Accounts(events, issues, Received(device, page), parse) && Placed(device, issues, page)
      invariant GoesOnFor(device, searchId, page)
    {
      var reply := device(page, position);
      if reply.Unavailable? {
        NoFinish(device, searchId, page, DeviceError);
        return Failure(DeviceError), pages;
      }
      if !ValidProgress(searchId, position, reply) {
        NoFinish(device, searchId, page, BadProgress);
        return Failure(BadProgress), pages;
      }
      ghost var before := issues;
      events, issues := ReadPage(page, reply.records, parse, (events, issues), Received(device, page));
      PlacedMore(device, before, issues, page);
      pages := page + 1;
      if Complete(position, reply) {
        return Success(events, issues), pages;
      }
      position := position + |reply.records|;
    }
    NoFinish(device, searchId, pages, PageLimit);
    result := Failure(PageLimit);
  }

  // ----- What the contract comes to -----

  lemma {:induction false} PositionCounts(device: (nat, nat) -> Reply, k: nat)
    ensures Position(device, k) == |Received(device, k)|
  {
    if k > 0 {
      PositionCounts(device, k - 1);
    }
  }

  /** A page of this search, by its own count, that is not empty while the total says there is more. */
  predicate PageFits(device: (nat, nat) -> Reply, searchId: string, k: nat) {
    var reply := device(k, |Received(device, k)|);
    && reply.Page? && (reply.searchId == "" || reply.searchId == searchId)
    && (reply.reported == 0 || reply.reported == |reply.records|)
    && (reply.records == [] ==> reply.total <= |Received(device, k)|)
  }

  /** The answer that comes after these records says that they, with its own, are all. */
  predicate SaysAll(device: (nat, nat) -> Reply, k: nat) {
    var reply := device(k, |Received(device, k)|);
    reply.Page? && if reply.total > 0 then |Received(device, k + 1)| >= reply.total else !reply.more
  }

  /** These answers fit, only the last of them says that it is the last, and there are not too many records. */
  ghost predicate WellEnded(device: (nat, nat) -> Reply, searchId: string, n: nat) {
    && 1 <= n <= 4000
    && (forall k: nat :: k < n ==> PageFits(device, searchId, k) && (SaysAll(device, k) <==> k == n - 1))
    && |Received(device, n)| <= 100_000
  }

  /** A search finishes exactly with the first answer that says so, in at most 4000 pages, all of them fitting and of this search, with
      at most a hundred thousand records. */
  lemma FinishesExactly(device: (nat, nat) -> Reply, searchId: string, n: nat)
    ensures Finishes(device, searchId, n) <==> WellEnded(device, searchId, n)
  {
    if Finishes(device, searchId, n) {
      forall k: nat | k < n ensures PageFits(device, searchId, k) && (SaysAll(device, k) <==> k == n - 1) {
        JudgedExactly(device, searchId, k);
      }
      JudgedExactly(device, searchId, n - 1);
    }
    if WellEnded(device, searchId, n) {
      WellEndedFinishes(device, searchId, n);
    }
  }

  lemma WellEndedFinishes(device: (nat, nat) -> Reply, searchId: string, n: nat)
    requires WellEnded(device, searchId, n)
    ensures Finishes(device, searchId, n)
  {
    forall k: nat | k < n ensures Judge(device, searchId, k) == if k == n - 1 then Ends else GoesOn {
      JudgedExactly(device, searchId, k);
      ReceivedGrows(device, k + 1, n);
    }
  }

  lemma JudgedExactly(device: (nat, nat) -> Reply, searchId: string, k: nat)
    ensures Judge(device, searchId, k) == Ends <==>
            PageFits(device, searchId, k) && |Received(device, k + 1)| <= 100_000 && SaysAll(device, k)
    ensures Judge(device, searchId, k) == GoesOn <==>
            PageFits(device, searchId, k) && |Received(device, k + 1)| <= 100_000 && !SaysAll(device, k)
  {
    PositionCounts(device, k);
    PositionCounts(device, k + 1);
  }

  lemma {:induction false} ReceivedGrows(device: (nat, nat) -> Reply, k: nat, n: nat)
    requires k <= n
    ensures |Received(device, k)| <= |Received(device, n)|
  {
    if k < n {
      ReceivedGrows(device, k, n - 1);
    }
  }

  /** Every record received is an event or an issue, never both and never neither. */
  lemma {:induction false} EachRecordOnce(records: seq<Raw>, parse: Raw -> Option<Reading>)
    ensures |Parsed(records, parse)| + |Unparsed(records, parse)| == |records|
    ensures forall r :: multiset(Unparsed(records, parse))[r] == if parse(r).None? then multiset(records)[r] else 0
  {
    if records != [] {
      EachRecordOnce(records[..|records| - 1], parse);
      assert records == records[..|records| - 1] + [records[|records| - 1]];
    }
  }

  /** The search of a served list finishes after as many pages as the device needs, unless they exceed the limit or the list does. */
  lemma {:induction false} ServedProgress(device: (nat, nat) -> Reply, searchId: string, list: seq<Raw>, k: nat)
    requires Serves(device, searchId, list) && k < Pages(device, searchId, list, 0, 0)
    ensures Position(device, k) <= |list|
    ensures k + Pages(device, searchId, list, k, Position(device, k)) == Pages(device, searchId, list, 0, 0)
  {
    if k > 0 {
      ServedProgress(device, searchId, list, k - 1);
      Served(device, searchId, list, k - 1, Position(device, k - 1));
    }
  }

  lemma {:induction false} ServedRecords(device: (nat, nat) -> Reply, searchId: string, list: seq<Raw>, k: nat)
    requires Serves(device, searchId, list)
    ensures Position(device, k) <= |list| && Received(device, k) == list[..Position(device, k)]
  {
    if k > 0 {
      ServedRecords(device, searchId, list, k - 1);
      var p := Position(device, k - 1);
      assert ServesAt(device(k - 1, p), p, searchId, list);
      var records := device(k - 1, p).records;
      assert list[..p] + records == list[..p + |records|];
    }
  }

  lemma ServedJudged(device: (nat, nat) -> Reply, searchId: string, list: seq<Raw>, k: nat)
    requires Serves(device, searchId, list) && k < Pages(device, searchId, list, 0, 0)
    ensures Position(device, k + 1) <= |list| && Received(device, k + 1) == list[..Position(device, k + 1)]
    ensures k + 1 == Pages(device, searchId, list, 0, 0) <==> Position(device, k + 1) == |list|
    ensures Judge(device, searchId, k) ==
            if Position(device, k + 1) > MAX_RECORDS then Bad else if k + 1 == Pages(device, searchId, list, 0, 0) then Ends else GoesOn
  {
    ServedProgress(device, searchId, list, k);
    ServedRecords(device, searchId, list, k);
    Served(device, searchId, list, k, Position(device, k));
  }

  lemma ServedList(device: (nat, nat) -> Reply, searchId: string, list: seq<Raw>)
    requires Serves(device, searchId, list)
    ensures var n := Pages(device, searchId, list, 0, 0);
            && n >= 1 && Position(device, n) == |list| && Received(device, n) == list
            && (|list| <= MAX_RECORDS ==> GoesOnFor(device, searchId, n - 1))
            && Judge(device, searchId, n - 1) == (if |list| <= MAX_RECORDS then Ends else Bad)
            && forall k: nat :: k < n - 1 ==> Judge(device, searchId, k) != Ends
  {
    var n := Pages(device, searchId, list, 0, 0);
    ServedJudged(device, searchId, list, n - 1);
    WholePrefix(list);
    forall k: nat | k < n - 1
      ensures Judge(device, searchId, k) != Ends && (|list| <= MAX_RECORDS ==> Judge(device, searchId, k) == GoesOn)
    {
      ServedJudged(device, searchId, list, k);
    }
  }

  /** A search can only finish at its first answer that ends it, with none before that stops it. */
  lemma FinishesThere(device: (nat, nat) -> Reply, searchId: string, last: nat, n: nat)
    requires Judge(device, searchId, last) != GoesOn && forall k: nat :: k < last ==> Judge(device, searchId, k) != Ends
    requires Finishes(device, searchId, n)
    ensures n == last + 1 && Judge(device, searchId, last) == Ends
  {
  }

  /** Against a device that serves a list, the search succeeds exactly when neither limit is exceeded, and it has then received exactly
      the list. */
  lemma ServedSearch(device: (nat, nat) -> Reply, searchId: string, list: seq<Raw>, n: nat)
    requires Serves(device, searchId, list)
    ensures Finishes(device, searchId, n) <==>
            n == Pages(device, searchId, list, 0, 0) && n <= MAX_PAGES && |list| <= MAX_RECORDS
    ensures Finishes(device, searchId, n) ==> Received(device, n) == list
  {
    var needed := Pages(device, searchId, list, 0, 0);
    ServedList(device, searchId, list);
    if Finishes(device, searchId, n) {
      FinishesThere(device, searchId, needed - 1, n);
    }
  }

  /** The device fills its pages. */
  ghost predicate FillsPages(device: (nat, nat) -> Reply, searchId: string, list: seq<Raw>, size: nat)
    requires Serves(device, searchId, list)
  {
    forall page: nat, p: nat :: p <= |list| ==>
      ServesAt(device(page, p), p, searchId, list) && |device(page, p).records| == Min(size, |list| - p)
  }

  lemma {:induction false} PagesOf(device: (nat, nat) -> Reply, searchId: string, list: seq<Raw>, size: nat, page: nat, p: nat)
    requires Serves(device, searchId, list) && size > 0 && FillsPages(device, searchId, list, size) && p <= |list|
    ensures Pages(device, searchId, list, page, p) == if p == |list| then 1 else (|list| - p + size - 1) / size
    decreases |list| - p
  {
    assert ServesAt(device(page, p), p, searchId, list) && |device(page, p).records| == Min(size, |list| - p);
    var left := |list| - p;
    if left > size {
      PagesOf(device, searchId, list, size, page + 1, p + size);
      DivideStep(left, size);
    } else if left > 0 {
      DivideLast(left, size);
    }
  }

  lemma DivideStep(left: nat, size: nat)
    requires left > size > 0
    ensures (left + size - 1) / size == 1 + (left - size + size - 1) / size
  {
    var q := (left - 1) / size;
    assert left + size - 1 == (left - 1) + size;
    assert left - 1 == q * size + (left - 1) % size;
    assert left + size - 1 == (q + 1) * size + (left - 1) % size;
    QuotientUnique(left + size - 1, size, q + 1, (left - 1) % size);
  }

  lemma DivideLast(left: nat, size: nat)
    requires 0 < left <= size
    ensures (left + size - 1) / size == 1
  {
    QuotientUnique(left + size - 1, size, 1, left - 1);
  }

  lemma TimesLess(x: nat, y: nat, b: nat)
    requires x < y
    ensures x * b + b <= y * b
  {
    assert y * b == x * b + b + (y - x - 1) * b;
  }

  lemma QuotientUnique(a: nat, b: nat, q: nat, r: nat)
    requires b > 0 && a == q * b + r && r < b
    ensures a / b == q
  {
    var d := a / b;
    assert a == d * b + a % b;
    if d < q {
      TimesLess(d, q, b);
    } else if q < d {
      TimesLess(q, d, b);
    }
  }

  /** Against a device that fills its pages, the page limit is kept exactly by lists of at most 4000 pages. */
  lemma FullPagesExactly(device: (nat, nat) -> Reply, searchId: string, list: seq<Raw>, size: nat)
    requires Serves(device, searchId, list) && 1 <= size <= 30 && FillsPages(device, searchId, list, size)
    ensures Pages(device, searchId, list, 0, 0) <= MAX_PAGES <==> |list| <= MAX_PAGES * size
  {
    PagesOf(device, searchId, list, size, 0, 0);
    if list != [] {
      CeilingBound(|list|, size);
    }
  }

  lemma CeilingBound(n: nat, size: nat)
    requires n > 0 && size > 0
    ensures (n + size - 1) / size <= MAX_PAGES <==> n <= MAX_PAGES * size
  {
    var d := (n + size - 1) / size;
    assert n + size - 1 == d * size + (n + size - 1) % size;
    if d < MAX_PAGES {
      TimesLess(d, MAX_PAGES, size);
    } else if MAX_PAGES < d {
      TimesLess(MAX_PAGES, d, size);
    }
  }
}
