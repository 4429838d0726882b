/**
 * The scroll-and-extract loop of `scrape_google_maps`. The browser is a fixed
 * `Page`: the height read before the loop, the observations read after each
 * scroll, and the observation the page settles on once its scripted scrolls
 * are used up. Each iteration reads a height, updates the stagnation counter,
 * reads the cards and extracts `cards[len(businesses):]`; the loop ends on the
 * result cap or after five scrolls in a row without height growth.
 */
module Scroll {
  import opened Wrappers
  import opened Cards
  import Query

  /** Consecutive scrolls without height growth that end the loop. */
  const StagnationLimit: nat := 5

  /** What one read of the page returns: `document.body.scrollHeight` and the `div[role='article']` cards. */
  datatype Observation = Observation(height: int, cards: seq<Card>)

  /**
   * The page the browser shows for one URL. The first read (before the loop)
   * gives `initialHeight`; the n-th scroll shows `scrolls[n]`, and every scroll
   * after the scripted ones shows `settled`.
   */
  datatype Page = Page(initialHeight: int, scrolls: seq<Observation>, settled: Observation)

  function Observe(page: Page, n: nat): Observation
  {
    if n < |page.scrolls| then page.scrolls[n] else page.settled
  }

  /** The height `last_height` holds when scroll `n` is made. */
  function HeightBefore(page: Page, n: nat): int
  {
    if n == 0 then page.initialHeight else Observe(page, n - 1).height
  }

  /** Scroll `n` did not make the page grow. */
  predicate Stagnant(page: Page, n: nat)
  {
    Observe(page, n).height == HeightBefore(page, n)
  }

  /** The length of the unbroken run of stagnant scrolls that ends with the first `n` scrolls. */
  function StagnantRun(page: Page, n: nat): (r: nat)
    ensures r <= n
    ensures forall j :: n - r <= j < n ==> Stagnant(page, j)
    ensures r < n ==> !Stagnant(page, n - r - 1)
  {
    if n == 0 then 0 else if Stagnant(page, n - 1) then StagnantRun(page, n - 1) + 1 else 0
  }

  /** The `WebDriverWait(driver, 10).until(...)` timeout: no card appeared. */
  datatype ScrapeError = NoCardsFound

  datatype Result<T> = Ok(value: T) | Failed(error: ScrapeError)

  /** The loop's variables, plus the number of scrolls made so far. */
  datatype ScrollState = ScrollState(businesses: seq<Business>, lastHeight: int, scrollAttempts: nat, scrolls: nat)

  function Init(page: Page): ScrollState
  {
    ScrollState([], page.initialHeight, 0, 0)
  }

  /** The `while` condition. */
  predicate Continues(s: ScrollState, maxResults: int)
  {
    |s.businesses| < maxResults && s.scrollAttempts < StagnationLimit
  }

  predicate AllNamed(bs: seq<Business>)
  {
    forall k :: 0 <= k < |bs| ==> bs[k].name != ""
  }

  /** The records a card list yields, in list order, when nothing caps them. */
  function Records(cards: seq<Card>): (r: seq<Business>)
    ensures |r| <= |cards|
    ensures AllNamed(r)
  {
    if cards == [] then []
    else
      match ExtractRecord(cards[0])
      case None => Records(cards[1..])
      case Some(b) => [b] + Records(cards[1..])
  }

  /**
   * The inner `for` loop from card `i` on, with `acc` the records so far: a
   * card without a name is skipped, and the pass stops right after the record
   * that brings the count to `maxResults`.
   */
  function PassFrom(cards: seq<Card>, i: nat, acc: seq<Business>, maxResults: int): (r: seq<Business>)
    ensures |acc| <= |r| && r[..|acc|] == acc
    ensures |acc| < maxResults ==> |r| <= maxResults
    ensures AllNamed(acc) ==> AllNamed(r)
    decreases |cards| - i
  {
    if i >= |cards| then acc
    else
      match ExtractRecord(cards[i])
      case None => PassFrom(cards, i + 1, acc, maxResults)
      case Some(b) =>
        if |acc| + 1 >= maxResults then acc + [b]
        else PassFrom(cards, i + 1, acc + [b], maxResults)
  }

  /**
   * One iteration of the `while` loop: it fails exactly when the scroll shows
   * no card, and otherwise makes one scroll, only appends records, stays
   * within the cap and keeps the counters following the page.
   */
  function Step(page: Page, maxResults: int, s: ScrollState): (r: Result<ScrollState>)
    ensures r.Failed? <==> Observe(page, s.scrolls).cards == []
    ensures r.Ok? ==> r.value.scrolls == s.scrolls + 1
    ensures r.Ok? ==> |s.businesses| <= |r.value.businesses| && r.value.businesses[..|s.businesses|] == s.businesses
    ensures r.Ok? && |s.businesses| < maxResults ==> |r.value.businesses| <= maxResults
    ensures r.Ok? && Tracks(page, s) && s.scrollAttempts < StagnationLimit ==> Tracks(page, r.value)
  {
    var seen := Observe(page, s.scrolls);
    var attempts := if seen.height == s.lastHeight then s.scrollAttempts + 1 else 0;
    if seen.cards == [] then Failed(NoCardsFound)
    else Ok(ScrollState(PassFrom(seen.cards, |s.businesses|, s.businesses, maxResults), seen.height, attempts, s.scrolls + 1))
  }

  /** The iteration's new state, spelled out for a scroll that shows cards. */
  lemma StepUnfolds(page: Page, maxResults: int, s: ScrollState)
    ensures var seen := Observe(page, s.scrolls);
      seen.cards != [] ==> Step(page, maxResults, s) == Ok(ScrollState(
        PassFrom(seen.cards, |s.businesses|, s.businesses, maxResults),
        seen.height,
        if seen.height == s.lastHeight then s.scrollAttempts + 1 else 0,
        s.scrolls + 1))
  {
  }

  /**
   * A bound on the iterations left: the scripted scrolls, then at most
   * `StagnationLimit` scrolls of the settled page, whose height never changes.
   */
  function Measure(page: Page, s: ScrollState): nat
  {
    if s.scrolls <= |page.scrolls| then |page.scrolls| - s.scrolls + StagnationLimit + 1
    else if s.lastHeight == page.settled.height && s.scrollAttempts <= StagnationLimit then StagnationLimit - s.scrollAttempts
    else StagnationLimit + 1
  }

  lemma StepDecreases(page: Page, maxResults: int, s: ScrollState)
    requires Continues(s, maxResults) && Step(page, maxResults, s).Ok?
    ensures Measure(page, Step(page, maxResults, s).value) < Measure(page, s)
  {
  }

  /**
   * The whole `while` loop, from state `s`: when it returns, its condition no
   * longer holds; it makes at least one scroll when the condition held at the
   * start, and returns `s` unchanged when it did not.
   */
  function Run(page: Page, maxResults: int, s: ScrollState): (r: Result<ScrollState>)
    ensures r.Ok? ==> !Continues(r.value, maxResults) && s.scrolls <= r.value.scrolls
    ensures r.Ok? && Continues(s, maxResults) ==> s.scrolls < r.value.scrolls
    ensures !Continues(s, maxResults) ==> r == Ok(s)
    decreases Measure(page, s)
  {
    if !Continues(s, maxResults) then Ok(s)
    else
      match Step(page, maxResults, s)
      case Failed(e) => Failed(e)
      case Ok(next) =>
        StepDecreases(page, maxResults, s);
        Run(page, maxResults, next)
  }

  /**
   * What `scrape_google_maps` returns, or the error it raises, for the page
   * `site` serves: a returned list never passes the cap (a non-positive cap
   * returns the empty list) and every record in it has a name.
   */
  function Scrape(site: string -> Page, keyword: string, location: string, maxResults: int): (r: Result<seq<Business>>)
    ensures r.Ok? ==> (|r.value| <= maxResults || r.value == []) && AllNamed(r.value)
  {
    var page := site(Query.SearchUrl(keyword, location));
    RunBounded(page, maxResults, Init(page));
    RunNamed(page, maxResults, Init(page));
    match Run(page, maxResults, Init(page))
    case Ok(t) => Ok(t.businesses)
    case Failed(e) => Failed(e)
  }

  /**
   * `scrape_google_maps`: navigates to the search URL and runs the loop. The
   * `headless` flag only configures the browser and is not modelled.
   */
  method ScrapeGoogleMaps(site: string -> Page, keyword: string, location: string, maxResults: int)
    returns (r: Result<seq<Business>>)
    ensures r == Scrape(site, keyword, location, maxResults)
    ensures r.Ok? ==> (|r.value| <= maxResults || r.value == []) && AllNamed(r.value)
  {
    var page := site(Query.SearchUrl(keyword, location));
    var businesses: seq<Business> := [];
    var lastHeight := page.initialHeight;
    var scrollAttempts: nat := 0;
    var scrolls: nat := 0;
    while |businesses| < maxResults && scrollAttempts < StagnationLimit
      invariant Run(page, maxResults, ScrollState(businesses, lastHeight, scrollAttempts, scrolls)) == Run(page, maxResults, Init(page))
      decreases Measure(page, ScrollState(businesses, lastHeight, scrollAttempts, scrolls))
    {
      ghost var before := ScrollState(businesses, lastHeight, scrollAttempts, scrolls);
      var seen := Observe(page, scrolls);
      StepUnfolds(page, maxResults, before);
      var newHeight := seen.height;
      if newHeight == lastHeight {
        scrollAttempts := scrollAttempts + 1;
      } else {
        scrollAttempts := 0;
      }
      lastHeight := newHeight;
      var cards := seen.cards;
      if cards == [] {
        r := Failed(NoCardsFound);
        return;
      }
      scrolls := scrolls + 1;
      businesses := ExtractNewCards(cards, businesses, maxResults);
      assert Step(page, maxResults, before) == Ok(ScrollState(businesses, lastHeight, scrollAttempts, scrolls));
      StepDecreases(page, maxResults, before);
    }
    r := Ok(businesses);
  }

  /**
   * The inner `for card in cards[len(businesses):]` loop: appends the record
   * of every named card from index `len(businesses)` on, and breaks as soon as
   * the list reaches `maxResults`.
   */
  method ExtractNewCards(cards: seq<Card>, businesses: seq<Business>, maxResults: int) returns (extended: seq<Business>)
    requires |businesses| < maxResults
    ensures extended == PassFrom(cards, |businesses|, businesses, maxResults)
    ensures extended[..|businesses|] == businesses && |extended| <= maxResults
  {
    extended := businesses;
    var i := |businesses|;
    while i < |cards|
      invariant |businesses| <= i
      invariant |extended| < maxResults
      invariant PassFrom(cards, i, extended, maxResults) == PassFrom(cards, |businesses|, businesses, maxResults)
      decreases |cards| - i
    {
      var found := ExtractRecord(cards[i]);
      if found.Some? {
        extended := extended + [found.value];
        if |extended| >= maxResults {
          break;
        }
      }
      i := i + 1;
    }
  }

  /** The loop never takes the list past the cap, and only ever appends to it. */
  lemma {:induction false} RunBounded(page: Page, maxResults: int, s: ScrollState)
    ensures Run(page, maxResults, s).Ok? ==>
      var t := Run(page, maxResults, s).value;
      |s.businesses| <= |t.businesses| && t.businesses[..|s.businesses|] == s.businesses
      && (t.businesses == s.businesses || |t.businesses| <= maxResults)
    decreases Measure(page, s)
  {
    if Continues(s, maxResults) && Step(page, maxResults, s).Ok? {
      var next := Step(page, maxResults, s).value;
      StepDecreases(page, maxResults, s);
      RunBounded(page, maxResults, next);
    }
  }

  /** Every record the loop collects has a non-empty name. */
  lemma {:induction false} RunNamed(page: Page, maxResults: int, s: ScrollState)
    requires AllNamed(s.businesses)
    ensures Run(page, maxResults, s).Ok? ==> AllNamed(Run(page, maxResults, s).value.businesses)
    decreases Measure(page, s)
  {
    if Continues(s, maxResults) && Step(page, maxResults, s).Ok? {
      var next := Step(page, maxResults, s).value;
      StepDecreases(page, maxResults, s);
      RunNamed(page, maxResults, next);
    }
  }

  lemma {:induction false} RecordsAppend(a: seq<Card>, b: seq<Card>)
    ensures Records(a + b) == Records(a) + Records(b)
  {
    if a == [] {
      assert a + b == b;
    } else {
      assert (a + b)[0] == a[0];
      assert (a + b)[1..] == a[1..] + b;
      RecordsAppend(a[1..], b);
    }
  }

  /** The records of a stretch of cards are those of its first card followed by those of the rest. */
  lemma RecordsOfStretch(cards: seq<Card>, i: nat, e: nat)
    requires i < e <= |cards|
    ensures Records(cards[i..e]) == match ExtractRecord(cards[i])
      case None => Records(cards[i + 1..e])
      case Some(b) => [b] + Records(cards[i + 1..e])
  {
  }

  /**
   * One pass visits the cards in list order from index `i` (the length of the
   * list when the pass began): it yields exactly the records of some stretch
   * `cards[i..e]`, appended in order, and it stops before the end of the list
   * only when the cap is reached. An offset past the end of the list
   * (`cards[len(businesses):]` is then empty) appends nothing.
   */
  lemma PassFromInOrder(cards: seq<Card>, i: nat, acc: seq<Business>, maxResults: int)
    requires |acc| < maxResults
    ensures i > |cards| ==> PassFrom(cards, i, acc, maxResults) == acc
    ensures i <= |cards| ==> exists e :: (i <= e <= |cards|
      && PassFrom(cards, i, acc, maxResults) == acc + Records(cards[i..e])
      && (e < |cards| ==> |PassFrom(cards, i, acc, maxResults)| == maxResults))
  {
    if i <= |cards| {
      var e := PassEnd(cards, i, acc, maxResults);
    }
  }

  /** Where a pass starting at `i` stops. */
  lemma {:induction false} PassEnd(cards: seq<Card>, i: nat, acc: seq<Business>, maxResults: int) returns (e: nat)
    requires i <= |cards| && |acc| < maxResults
    ensures i <= e <= |cards|
    ensures PassFrom(cards, i, acc, maxResults) == acc + Records(cards[i..e])
    ensures e < |cards| ==> |PassFrom(cards, i, acc, maxResults)| == maxResults
    decreases |cards| - i
  {
    if i == |cards| {
      e := i;
      assert cards[i..i] == [];
    } else {
      match ExtractRecord(cards[i])
      case None =>
        assert PassFrom(cards, i, acc, maxResults) == PassFrom(cards, i + 1, acc, maxResults);
        e := PassEnd(cards, i + 1, acc, maxResults);
        RecordsOfStretch(cards, i, e);
      case Some(b) =>
        if |acc| + 1 >= maxResults {
          assert PassFrom(cards, i, acc, maxResults) == acc + [b];
          e := i + 1;
          RecordsOfStretch(cards, i, e);
          assert cards[i + 1..e] == [];
        } else {
          assert PassFrom(cards, i, acc, maxResults) == PassFrom(cards, i + 1, acc + [b], maxResults);
          e := PassEnd(cards, i + 1, acc + [b], maxResults);
          RecordsOfStretch(cards, i, e);
          assert acc + [b] + Records(cards[i + 1..e]) == acc + ([b] + Records(cards[i + 1..e]));
        }
    }
  }

  /**
   * The loop's counters follow the page: `last_height` is the height read
   * last, and `scroll_attempts` is the number of stagnant scrolls in a row.
   */
  ghost predicate Tracks(page: Page, s: ScrollState)
  {
    && s.lastHeight == HeightBefore(page, s.scrolls)
    && s.scrollAttempts == StagnantRun(page, s.scrolls)
    && s.scrollAttempts <= StagnationLimit
  }

  /**
   * Each scroll sets `last_height` to the new height and counts stagnant
   * scrolls in a row; the loop runs until the first scroll that completes
   * five of them, unless the cap comes first.
   */
  lemma {:induction false} RunTracksStagnation(page: Page, maxResults: int, s: ScrollState)
    requires Tracks(page, s)
    ensures Run(page, maxResults, s).Ok? ==>
      var t := Run(page, maxResults, s).value;
      && Tracks(page, t)
      && s.scrolls <= t.scrolls
      && (forall n :: s.scrolls <= n < t.scrolls ==> StagnantRun(page, n) < StagnationLimit)
      && (|t.businesses| >= maxResults || StagnantRun(page, t.scrolls) == StagnationLimit)
    decreases Measure(page, s)
  {
    if Continues(s, maxResults) && Step(page, maxResults, s).Ok? {
      var next := Step(page, maxResults, s).value;
      assert Tracks(page, next);
      StepDecreases(page, maxResults, s);
      RunTracksStagnation(page, maxResults, next);
    }
  }

  /** The loop ends only on the cap or on five stagnant scrolls in a row, and at the first such scroll. */
  lemma StopsAtCapOrFirstStagnation(page: Page, maxResults: int)
    ensures Run(page, maxResults, Init(page)).Ok? ==>
      var t := Run(page, maxResults, Init(page)).value;
      && (forall n :: 0 <= n < t.scrolls ==> StagnantRun(page, n) < StagnationLimit)
      && (|t.businesses| >= maxResults || t.scrollAttempts == StagnationLimit)
      && (|t.businesses| < maxResults ==>
            forall j: nat :: t.scrolls - StagnationLimit <= j < t.scrolls ==> Stagnant(page, j))
  {
    RunTracksStagnation(page, maxResults, Init(page));
  }

  /** Every observation shows at least one card, so the wait for cards never times out. */
  predicate CardsShown(page: Page)
  {
    (forall o :: o in page.scrolls ==> o.cards != []) && page.settled.cards != []
  }

  lemma {:induction false} RunSucceedsWhenCardsShown(page: Page, maxResults: int, s: ScrollState)
    requires CardsShown(page)
    ensures Run(page, maxResults, s).Ok?
    decreases Measure(page, s)
  {
    if Continues(s, maxResults) {
      var seen := Observe(page, s.scrolls);
      assert s.scrolls < |page.scrolls| ==> seen in page.scrolls;
      var next := Step(page, maxResults, s).value;
      StepDecreases(page, maxResults, s);
      RunSucceedsWhenCardsShown(page, maxResults, next);
    }
  }

  /**
   * A page whose height never changes ends the loop after exactly five
   * scrolls, whatever cards it keeps offering, unless the cap is reached first.
   */
  lemma ConstantHeightStopsAfterFiveScrolls(page: Page, maxResults: int)
    requires CardsShown(page)
    requires forall o :: o in page.scrolls ==> o.height == page.initialHeight
    requires page.settled.height == page.initialHeight
    ensures Run(page, maxResults, Init(page)).Ok?
    ensures var t := Run(page, maxResults, Init(page)).value;
      t.scrolls <= StagnationLimit && (|t.businesses| >= maxResults || t.scrolls == StagnationLimit)
  {
    RunSucceedsWhenCardsShown(page, maxResults, Init(page));
    RunTracksStagnation(page, maxResults, Init(page));
    var t := Run(page, maxResults, Init(page)).value;
    forall n: nat ensures StagnantRun(page, n) == n {
      ConstantHeightRun(page, n);
    }
    assert StagnantRun(page, StagnationLimit) == StagnationLimit;
  }

  lemma ConstantHeightRun(page: Page, n: nat)
    requires forall o :: o in page.scrolls ==> o.height == page.initialHeight
    requires page.settled.height == page.initialHeight
    ensures StagnantRun(page, n) == n
  {
  }

  /**
   * A search whose first scroll shows no card at all fails with the wait's
   * timeout rather than returning an empty list.
   */
  lemma NoCardsIsFailure(page: Page, maxResults: int)
    requires 0 < maxResults
    requires Observe(page, 0).cards == []
    ensures Run(page, maxResults, Init(page)) == Failed(NoCardsFound)
  {
  }

  predicate NamedCards(cards: seq<Card>)
  {
    forall c :: c in cards ==> ExtractRecord(c).Some?
  }

  /** Every card the page ever shows has a name. */
  predicate EveryCardNamed(page: Page)
  {
    (forall o :: o in page.scrolls ==> NamedCards(o.cards)) && NamedCards(page.settled.cards)
  }

  /** The card list only grows: each observation extends the ones before it. */
  predicate CardsGrow(page: Page)
  {
    && (forall j, k :: 0 <= j <= k < |page.scrolls| ==> page.scrolls[j].cards <= page.scrolls[k].cards)
    && (forall j :: 0 <= j < |page.scrolls| ==> page.scrolls[j].cards <= page.settled.cards)
  }

  lemma {:induction false} RecordsOfNamedCards(cards: seq<Card>)
    requires NamedCards(cards)
    ensures |Records(cards)| == |cards|
  {
    if cards != [] {
      assert cards[0] in cards;
      assert NamedCards(cards[1..]) by {
        forall c | c in cards[1..] ensures c in cards { }
      }
      RecordsOfNamedCards(cards[1..]);
    }
  }

  /**
   * After `n > 0` scrolls the list holds the records of the first
   * min(maxResults, |cards|) cards of the last observation, in list order.
   */
  ghost predicate FirstInDiscoveryOrder(page: Page, maxResults: int, s: ScrollState)
  {
    if s.scrolls == 0 then s.businesses == []
    else
      var cards := Observe(page, s.scrolls - 1).cards;
      0 < maxResults && s.businesses == Records(cards[..if maxResults < |cards| then maxResults else |cards|])
  }

  /**
   * When every card has a name and the card list only grows, the position
   * offset is exact: each card is extracted once, in the order the page
   * lists it, and the result is the first `maxResults` records (or all of
   * them when the page offers fewer).
   */
  lemma {:induction false} RunKeepsDiscoveryOrder(page: Page, maxResults: int, s: ScrollState)
    requires EveryCardNamed(page) && CardsGrow(page)
    requires FirstInDiscoveryOrder(page, maxResults, s)
    ensures Run(page, maxResults, s).Ok? ==> FirstInDiscoveryOrder(page, maxResults, Run(page, maxResults, s).value)
    decreases Measure(page, s)
  {
    if Continues(s, maxResults) && Step(page, maxResults, s).Ok? {
      var next := Step(page, maxResults, s).value;
      StepKeepsDiscoveryOrder(page, maxResults, s);
      StepDecreases(page, maxResults, s);
      RunKeepsDiscoveryOrder(page, maxResults, next);
    }
  }

  lemma StepKeepsDiscoveryOrder(page: Page, maxResults: int, s: ScrollState)
    requires EveryCardNamed(page) && CardsGrow(page)
    requires FirstInDiscoveryOrder(page, maxResults, s)
    requires Continues(s, maxResults) && Step(page, maxResults, s).Ok?
    ensures FirstInDiscoveryOrder(page, maxResults, Step(page, maxResults, s).value)
  {
    var next := Step(page, maxResults, s).value;
    var cards := Observe(page, s.scrolls).cards;
    var k := |s.businesses|;
    var r := PassFrom(cards, k, s.businesses, maxResults);
    assert next.businesses == r && next.scrolls - 1 == s.scrolls;
    OffsetIsPrefixLength(page, maxResults, s);
    var e := PassEnd(cards, k, s.businesses, maxResults);
    RecordsUpTo(cards, k, e, s.businesses);
    assert r == Records(cards[..e]);
    var m := if maxResults < |cards| then maxResults else |cards|;
    assert e == m;
  }

  lemma RecordsUpTo(cards: seq<Card>, k: nat, e: nat, acc: seq<Business>)
    requires k <= e <= |cards| && NamedCards(cards)
    requires acc == Records(cards[..k])
    ensures acc + Records(cards[k..e]) == Records(cards[..e])
    ensures |Records(cards[..e])| == e
  {
    assert cards[..k] + cards[k..e] == cards[..e];
    RecordsAppend(cards[..k], cards[k..e]);
    assert NamedCards(cards[..e]) by {
      forall c | c in cards[..e] ensures c in cards { }
    }
    RecordsOfNamedCards(cards[..e]);
  }

  /** Under the same assumptions, `len(businesses)` is the number of cards already examined. */
  lemma OffsetIsPrefixLength(page: Page, maxResults: int, s: ScrollState)
    requires EveryCardNamed(page) && CardsGrow(page)
    requires FirstInDiscoveryOrder(page, maxResults, s)
    ensures var cards := Observe(page, s.scrolls).cards;
      NamedCards(cards) && |s.businesses| <= |cards| && s.businesses == Records(cards[..|s.businesses|])
  {
    var cards := Observe(page, s.scrolls).cards;
    if s.scrolls < |page.scrolls| { assert page.scrolls[s.scrolls] in page.scrolls; }
    if s.scrolls == 0 {
      assert cards[..0] == [];
    } else {
      var earlier := Observe(page, s.scrolls - 1).cards;
      var m := if maxResults < |earlier| then maxResults else |earlier|;
      assert earlier <= cards;
      assert NamedCards(earlier[..m]) by {
        if s.scrolls - 1 < |page.scrolls| { assert page.scrolls[s.scrolls - 1] in page.scrolls; }
        forall c | c in earlier[..m] ensures c in earlier { }
      }
      RecordsOfNamedCards(earlier[..m]);
      assert earlier[..m] == cards[..m];
    }
  }

  /**
   * The offset is `len(businesses)`, not the number of cards examined: once an
   * unnamed card has been skipped, the next pass starts one card early and
   * extracts a named card a second time.
   */
  lemma SkippedCardShiftsOffset()
    ensures
      var unnamed := Card(map[]);
      var a := Card(map[NameSelector := Element("A", map[])]);
      var b := Card(map[NameSelector := Element("B", map[])]);
      var page := Page(0, [Observation(1, [unnamed, a])], Observation(2, [unnamed, a, b]));
      var ra := Business("A", None, None, None, None, None, None);
      var rb := Business("B", None, None, None, None, None, None);
      Run(page, 3, Init(page)) == Ok(ScrollState([ra, ra, rb], 2, 0, 2))
  {
    var unnamed := Card(map[]);
    var a := Card(map[NameSelector := Element("A", map[])]);
    var b := Card(map[NameSelector := Element("B", map[])]);
    var page := Page(0, [Observation(1, [unnamed, a])], Observation(2, [unnamed, a, b]));
    var ra := Business("A", None, None, None, None, None, None);
    var rb := Business("B", None, None, None, None, None, None);
    SelectorsDistinct(Rating, Rating);
    forall f: Field ensures SelectorOf(f) !in a.found && SelectorOf(f) !in b.found {
      SelectorsDistinct(f, f);
    }
    assert ExtractRecord(unnamed) == None;
    assert ExtractRecord(a) == Some(ra);
    assert ExtractRecord(b) == Some(rb);
    var first := [unnamed, a];
    var second := [unnamed, a, b];
    assert first[0] == unnamed && first[1] == a;
    assert second[1] == a && second[2] == b;
    assert PassFrom(first, 2, [ra], 3) == [ra];
    assert PassFrom(first, 1, [], 3) == [ra];
    assert PassFrom(first, 0, [], 3) == [ra];
    assert Step(page, 3, Init(page)) == Ok(ScrollState([ra], 1, 0, 1));
    assert PassFrom(second, 2, [ra, ra], 3) == [ra, ra, rb];
    assert PassFrom(second, 1, [ra], 3) == [ra, ra, rb];
    assert Observe(page, 1) == page.settled;
    assert Step(page, 3, ScrollState([ra], 1, 0, 1)) == Ok(ScrollState([ra, ra, rb], 2, 0, 2));
    assert Run(page, 3, ScrollState([ra, ra, rb], 2, 0, 2)) == Ok(ScrollState([ra, ra, rb], 2, 0, 2));
    assert Run(page, 3, ScrollState([ra], 1, 0, 1)) == Ok(ScrollState([ra, ra, rb], 2, 0, 2));
  }
}
