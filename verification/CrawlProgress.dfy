/** Termination of the crawl, and the guarantee that link discovery fetches no page again
    that was stored in this generation. */
module CrawlProgress {
  import opened Crawl
  import opened CrawlRuns

  /** The links of the page that a completion processes lead into the set of URLs. */
  ghost predicate PageWithin(site: Site, s: State, e: Event, universe: set<string>) {
    e.Completed? && !e.error ==> Targets(site, e.reply, Content(s, e.reply, e.data)) <= universe
  }

  ghost predicate QueueIn(s: State, universe: set<string>) {
    forall i :: 0 <= i < |s.queue| ==> s.queue[i].url in universe
  }

  function Stale(s: State, generation: int, universe: set<string>): set<string> {
    set u | u in universe && !Fresh(s, generation, u)
  }

  /** Outstanding fetches of pages that are already fresh. */
  function FreshFetches(queue: seq<Fetch>, s: State, generation: int): nat {
    if queue == [] then 0 else
    var n := |queue| - 1;
    FreshFetches(queue[..n], s, generation) + if Fresh(s, generation, queue[n].url) then 1 else 0
  }

  /** Lexicographic: URLs not yet stored in this generation, then outstanding fetches of
      fresh URLs, then outstanding fetches. */
  ghost predicate Decreases(s: State, s': State, generation: int, universe: set<string>) {
    var (a, b, c) := (|Stale(s, generation, universe)|, FreshFetches(s.queue, s, generation), |s.queue|);
    var (a', b', c') := (|Stale(s', generation, universe)|, FreshFetches(s'.queue, s', generation), |s'.queue|);
    a' < a || (a' == a && (b' < b || (b' == b && c' < c)))
  }

  lemma {:induction false} FreshFetchesConcat(a: seq<Fetch>, b: seq<Fetch>, s: State, generation: int)
    ensures FreshFetches(a + b, s, generation) == FreshFetches(a, s, generation) + FreshFetches(b, s, generation)
    decreases |b|
  {
    if b == [] {
      assert a + b == a;
    } else {
      var n := |b| - 1;
      assert (a + b)[..|a| + n] == a + b[..n];
      FreshFetchesConcat(a, b[..n], s, generation);
    }
  }

  lemma {:induction false} FreshFetchesSame(queue: seq<Fetch>, s: State, s': State, generation: int)
    requires forall i :: 0 <= i < |queue| ==>
             (Fresh(s, generation, queue[i].url) <==> Fresh(s', generation, queue[i].url))
    ensures FreshFetches(queue, s, generation) == FreshFetches(queue, s', generation)
  {
    if queue != [] { FreshFetchesSame(queue[..|queue| - 1], s, s', generation); }
  }

  lemma {:induction false} NoneFresh(queue: seq<Fetch>, s: State, generation: int)
    requires forall i :: 0 <= i < |queue| ==> !Fresh(s, generation, queue[i].url)
    ensures FreshFetches(queue, s, generation) == 0
  {
    if queue != [] { NoneFresh(queue[..|queue| - 1], s, generation); }
  }

  lemma TakenFreshFetches(s: State, index: nat, generation: int)
    requires index < |s.queue|
    ensures FreshFetches(Taken(s, index).queue, s, generation)
            + (if Fresh(s, generation, s.queue[index].url) then 1 else 0)
            == FreshFetches(s.queue, s, generation)
  {
    var head, tail := s.queue[..index], s.queue[index + 1..];
    assert s.queue == (head + [s.queue[index]]) + tail;
    assert [s.queue[index]][..0] == [];
    FreshFetchesConcat(head + [s.queue[index]], tail, s, generation);
    FreshFetchesConcat(head, [s.queue[index]], s, generation);
    FreshFetchesConcat(head, tail, s, generation);
  }

  /** A completion takes one fetch out, keeps fresh pages fresh, makes the pages it stores
      fresh, and feeds only links whose pages are not fresh even after it. */
  lemma {:induction false} CompletionShape(site: Site, generation: int, s: State, e: Event) returns (added: seq<Fetch>)
    requires e.Completed? && Enabled(generation, s, e)
    ensures var s' := Next(site, generation, s, e);
            && s'.queue == Taken(s, e.index).queue + added
            && (forall u :: Fresh(s, generation, u) ==> Fresh(s', generation, u))
            && (forall i :: 0 <= i < |added| ==> FedByLink(site, generation, s', e.reply, added[i]))
            && (if e.error then added == [] && s'.stored == s.stored else Fresh(s', generation, e.reply.requestUrl))
  {
    var s' := Next(site, generation, s, e);
    added := [];
    assert Taken(s, e.index).queue + [] == Taken(s, e.index).queue;
    if !e.error {
      CompletionEffect(site, generation, s, e);
      var taken := Taken(s, e.index);
      added := s'.queue[|taken.queue|..];
      forall i | 0 <= i < |added| ensures FedByLink(site, generation, s', e.reply, added[i]) {
        assert added[i] == s'.queue[|taken.queue| + i];
      }
    }
  }

  lemma {:induction false} DiscoverAllWithin(site: Site, generation: int, s: State, reply: Reply, links: seq<string>,
        now: int, universe: set<string>)
    requires QueueIn(s, universe)
    requires forall link :: link in links && Passes(site, reply, link) ==> site.resolved(reply.url, link) in universe
    ensures QueueIn(DiscoverAll(site, generation, s, reply, links, now), universe)
  {
    hide Passes;
    if links != [] {
      var n := |links| - 1;
      assert links[n] in links && forall link :: link in links[..n] ==> link in links;
      DiscoverAllWithin(site, generation, s, reply, links[..n], now, universe);
    }
  }

  lemma {:induction false} CompletionStaysWithin(site: Site, generation: int, s: State, e: Event, universe: set<string>)
    requires e.Completed? && Enabled(generation, s, e) && PageWithin(site, s, e, universe) && QueueIn(s, universe)
    ensures QueueIn(Next(site, generation, s, e), universe)
  {
    hide Passes;
    if !e.error {
      var links := PageLinks(site, s, e);
      forall link | link in links && Passes(site, e.reply, link) ensures site.resolved(e.reply.url, link) in universe {
        assert site.resolved(e.reply.url, link) in Targets(site, e.reply, Content(s, e.reply, e.data));
      }
      hide Targets;
      DiscoverAllWithin(site, generation, Received(s, e), e.reply, links, e.now, universe);
    }
  }

  /** Every completion decreases the measure: successes, failures, redirects that store
      another URL, and late replies for URLs stored already. */
  lemma {:induction false} CompletionDecreases(site: Site, generation: int, s: State, e: Event, universe: set<string>)
    requires e.Completed? && Enabled(generation, s, e)
    requires PageWithin(site, s, e, universe) && QueueIn(s, universe)
    ensures QueueIn(Next(site, generation, s, e), universe)
    ensures Decreases(s, Next(site, generation, s, e), generation, universe)
  {
    hide AfterCompletion;
    hide Passes;
    hide PageWithin;
    var s' := Next(site, generation, s, e);
    var taken := Taken(s, e.index);
    var added := CompletionShape(site, generation, s, e);
    CompletionStaysWithin(site, generation, s, e, universe);
    var before, after := Stale(s, generation, universe), Stale(s', generation, universe);
    assert after <= before;
    if after != before {
      SmallerSet(after, before);
    } else {
      forall u | u in universe ensures Fresh(s, generation, u) <==> Fresh(s', generation, u) {
        assert u in after <==> u in before;
      }
      TakenFreshFetches(s, e.index, generation);
      FreshFetchesConcat(taken.queue, added, s', generation);
      NoneFresh(added, s', generation);
      forall i | 0 <= i < |taken.queue|
        ensures Fresh(s, generation, taken.queue[i].url) <==> Fresh(s', generation, taken.queue[i].url)
      {
        assert taken.queue[i] == s.queue[if i < e.index then i else i + 1];
      }
      FreshFetchesSame(taken.queue, s, s', generation);
    }
  }

  lemma SmallerSet<T>(a: set<T>, b: set<T>)
    requires a <= b && a != b
    ensures |a| < |b|
  {
    var x :| x in b && x !in a;
    assert b == (b - {x}) + {x};
    SubsetSize(a, b - {x});
  }

  lemma {:induction false} SubsetSize<T>(a: set<T>, b: set<T>)
    requires a <= b
    ensures |a| <= |b|
    decreases |a|
  {
    if a != {} {
      var x :| x in a;
      SubsetSize(a - {x}, b - {x});
    }
  }

  ghost predicate StepsAt(site: Site, generation: int, states: nat -> State, events: nat -> Event, i: nat) {
    events(i).Completed? && Enabled(generation, states(i), events(i)) &&
    states(i + 1) == Next(site, generation, states(i), events(i))
  }

  /** All pages that the run meets lead into the set of URLs. */
  ghost predicate PagesWithin(site: Site, generation: int, states: nat -> State, events: nat -> Event,
        universe: set<string>) {
    forall i: nat :: StepsAt(site, generation, states, events, i) ==> PageWithin(site, states(i), events(i), universe)
  }

  lemma {:induction false} RunStops(site: Site, generation: int, universe: set<string>,
        states: nat -> State, events: nat -> Event, i: nat)
    returns (stop: nat)
    requires PagesWithin(site, generation, states, events, universe) && QueueIn(states(i), universe)
    ensures stop >= i && !StepsAt(site, generation, states, events, stop)
    decreases |Stale(states(i), generation, universe)|, FreshFetches(states(i).queue, states(i), generation),
      |states(i).queue|
  {
    stop := i;
    if StepsAt(site, generation, states, events, i) {
      hide PageWithin;
      CompletionDecreases(site, generation, states(i), events(i), universe);
      stop := RunStops(site, generation, universe, states, events, i + 1);
    }
  }

  /** Termination: no infinite sequence of states has a completion at every step, if the
      links of the pages met in it lead into a finite set of URLs. */
  lemma {:induction false} CrawlTerminates(site: Site, generation: int, universe: set<string>,
        states: nat -> State, events: nat -> Event)
    requires PagesWithin(site, generation, states, events, universe) && QueueIn(states(0), universe)
    ensures exists i: nat :: !StepsAt(site, generation, states, events, i)
  {
    var i := RunStops(site, generation, universe, states, events, 0);
  }

  /** How many fetches of a URL are outstanding. */
  function Fetches(queue: seq<Fetch>, url: string): nat {
    if queue == [] then 0 else
    var n := |queue| - 1;
    Fetches(queue[..n], url) + if queue[n].url == url then 1 else 0
  }

  lemma {:induction false} FetchesConcat(a: seq<Fetch>, b: seq<Fetch>, url: string)
    ensures Fetches(a + b, url) == Fetches(a, url) + Fetches(b, url)
    decreases |b|
  {
    if b == [] {
      assert a + b == a;
    } else {
      var n := |b| - 1;
      assert (a + b)[..|a| + n] == a + b[..n];
      FetchesConcat(a, b[..n], url);
    }
  }

  lemma {:induction false} FetchesAbsent(queue: seq<Fetch>, url: string)
    requires forall i :: 0 <= i < |queue| ==> queue[i].url != url
    ensures Fetches(queue, url) == 0
  {
    if queue != [] { FetchesAbsent(queue[..|queue| - 1], url); }
  }

  /** The change that an event may make to the number of fetches of a fresh URL: one less
      for its own completion, one more for a request from outside, and nothing else. */
  function Change(e: Event, url: string): int {
    match e
    case Completed(_, reply, _, _, _) => if reply.requestUrl == url then -1 else 0
    case Asked(u) => if u == url then 1 else 0
    case AskedCached(u, _) => if u == url then 1 else 0
  }

  lemma {:induction false} FreshIsNotFed(site: Site, generation: int, s: State, e: Event, url: string)
    requires Enabled(generation, s, e) && Fresh(Next(site, generation, s, e), generation, url)
    ensures Fetches(Next(site, generation, s, e).queue, url) == Fetches(s.queue, url) + Change(e, url)
  {
    var s' := Next(site, generation, s, e);
    if e.Completed? {
      hide AfterCompletion;
      hide Passes;
      var added := CompletionShape(site, generation, s, e);
      FetchesAbsent(added, url);
      var head, fetch, tail := s.queue[..e.index], s.queue[e.index], s.queue[e.index + 1..];
      assert s.queue == (head + [fetch]) + tail;
      assert [fetch][..0] == [];
      FetchesConcat(head + [fetch], tail, url);
      FetchesConcat(head, [fetch], url);
      FetchesConcat(head, tail, url);
      FetchesConcat(head + tail, added, url);
    } else {
      var fetch := s'.queue[|s.queue|];
      assert s'.queue == s.queue + [fetch] && [fetch][..0] == [];
      FetchesConcat(s.queue, [fetch], url);
    }
  }

  ghost function Changes(events: seq<Event>, url: string): int {
    if events == [] then 0 else
    var n := |events| - 1;
    Changes(events[..n], url) + Change(events[n], url)
  }

  /** At most one good fetch: from the moment a page is stored in this generation, in every
      further run it stays stored and no link makes the engine fetch it again. */
  lemma {:induction false} StoredPageIsNotRefetched(site: Site, generation: int, h: History, events: seq<Event>,
        url: string)
    requires IsRun(site, generation, h, events) && Fresh(h.s, generation, url)
    ensures var s := After(site, generation, h, events).s;
            Fresh(s, generation, url) && Fetches(s.queue, url) == Fetches(h.s.queue, url) + Changes(events, url)
    decreases |events|
  {
    if events != [] {
      var n := |events| - 1;
      StoredPageIsNotRefetched(site, generation, h, events[..n], url);
      var before := After(site, generation, h, events[..n]).s;
      if events[n].Completed? {
        var added := CompletionShape(site, generation, before, events[n]);
      }
      FreshIsNotFed(site, generation, before, events[n], url);
    }
  }

  /** What link discovery may ask for. */
  ghost predicate Crawlable(site: Site, url: string) {
    && (site.scheme(url) == "https" || site.scheme(url) == "http")
    && site.host(url) != ""
  }

  ghost predicate LinkFetchesCrawlable(site: Site, s: State) {
    forall i :: 0 <= i < |s.queue| && s.queue[i].origin == Link ==> Crawlable(site, s.queue[i].url)
  }

  ghost predicate LinkFetchesWithin(site: Site, host: string, s: State) {
    forall i :: 0 <= i < |s.queue| && s.queue[i].origin == Link ==> site.host(s.queue[i].url) == host
  }

  /** In every run link discovery asks only for http and https URLs with a host, and only
      for the base host when the domain filter is installed. */
  lemma {:induction false} LinkFetchesAreCrawlable(site: Site, generation: int, h: History, events: seq<Event>,
        seed: string)
    requires IsRun(site, generation, h, events) && LinkFetchesCrawlable(site, h.s)
             && LinkFetchesWithin(site, site.host(seed), h.s)
    ensures LinkFetchesCrawlable(site, After(site, generation, h, events).s)
    ensures var filter := CreateDomainFilter(seed, site.resolved, site.host);
            filter.Filter? && filter.check in site.urlFilters ==>
              LinkFetchesWithin(site, site.host(seed), After(site, generation, h, events).s)
    decreases |events|
  {
    if events != [] {
      var n := |events| - 1;
      LinkFetchesAreCrawlable(site, generation, h, events[..n], seed);
      var before, e := After(site, generation, h, events[..n]).s, events[n];
      var s' := Next(site, generation, before, e);
      if e.Completed? {
        var added := CompletionShape(site, generation, before, e);
        var taken := Taken(before, e.index);
        forall i | 0 <= i < |s'.queue| && s'.queue[i].origin == Link
          ensures Crawlable(site, s'.queue[i].url)
          ensures var filter := CreateDomainFilter(seed, site.resolved, site.host);
                  filter.Filter? && filter.check in site.urlFilters ==> site.host(s'.queue[i].url) == site.host(seed)
        {
          if i < |taken.queue| {
            assert s'.queue[i] == before.queue[if i < e.index then i else i + 1];
          } else {
            assert FedByLink(site, generation, s', e.reply, added[i - |taken.queue|]);
          }
        }
      }
    }
  }
}
