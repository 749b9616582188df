/** Whole runs of the crawl engine, one completed fetch being one step: coverage,
    termination, no second fetch of a fresh page, and what a 304 reply stores. */
module CrawlRuns {
  import opened Crawl
  import opened Documents

  /** A completion of an outstanding fetch, or a request from outside through
      engine::download or engine::found_in_page_cache. */
  datatype Event =
    | Completed(index: nat, reply: Reply, data: string, error: bool, now: int)
    | Asked(url: string)
    | AskedCached(url: string, doc: Document)

  /** The engine with what happened so far: the links found on accepted pages, together
      with the URLs asked for, and the URLs of which a fetch failed. */
  datatype History = History(s: State, demanded: set<string>, failed: set<string>)

  /** Completions answer an outstanding fetch and come after the engine was started. */
  predicate Enabled(generation: int, s: State, e: Event) {
    e.Completed? ==> e.index < |s.queue| && e.reply.requestUrl == s.queue[e.index].url && generation <= e.now
  }

  function Taken(s: State, index: nat): State
    requires index < |s.queue|
  {
    s.(queue := s.queue[..index] + s.queue[index + 1..])
  }

  ghost function Next(site: Site, generation: int, s: State, e: Event): State
    requires Enabled(generation, s, e)
  {
    match e
    case Completed(index, reply, data, error, now) => AfterCompletion(site, generation, Taken(s, index), reply, data,
      error, now)
    case Asked(url) => Feed(s, Fetch(url, Always, Direct))
    case AskedCached(url, doc) => FeedCached(s, url, doc, Direct)
  }

  /** The URLs that the links of a page lead to, if the page is accepted. */
  ghost function Targets(site: Site, reply: Reply, data: string): set<string> {
    if Accepted(site, reply, data)
    then set link | link in Links(site, reply, data) && Passes(site, reply, link) :: site.resolved(reply.url, link)
    else {}
  }

  ghost function NextHistory(site: Site, generation: int, h: History, e: Event): History
    requires Enabled(generation, h.s, e)
  {
    var s' := Next(site, generation, h.s, e);
    match e
    case Completed(_, reply, data, error, _) =>
      if error then History(s', h.demanded, h.failed + {reply.requestUrl})
      else History(s', h.demanded + Targets(site, reply, Content(h.s, reply, data)), h.failed)
    case Asked(url) => History(s', h.demanded + {url}, h.failed)
    case AskedCached(url, _) => History(s', h.demanded + {url}, h.failed)
  }

  ghost predicate IsRun(site: Site, generation: int, h: History, events: seq<Event>)
    decreases |events|, 0
  {
    events == [] ||
    var n := |events| - 1;
    IsRun(site, generation, h, events[..n]) && Enabled(generation, After(site, generation, h, events[..n]).s, events[n])
  }

  ghost function After(site: Site, generation: int, h: History, events: seq<Event>): History
    requires IsRun(site, generation, h, events)
    decreases |events|, 1
  {
    if events == [] then h else
    var n := |events| - 1;
    NextHistory(site, generation, After(site, generation, h, events[..n]), events[n])
  }

  /** Nothing in flight, nothing outstanding, whatever is stored. */
  function Start(stored: map<string, Document>): History {
    History(State(map[], stored, [], 0), {}, {})
  }

  predicate Fresh(s: State, generation: int, url: string) {
    url in s.stored && !Before(s.stored[url].ts, generation)
  }

  ghost predicate Outstanding(s: State, url: string) {
    exists i :: 0 <= i < |s.queue| && s.queue[i].url == url
  }

  /** A fetch added for a link: the link passed, and its page was not fresh. */
  ghost predicate FedByLink(site: Site, generation: int, s: State, reply: Reply, fetch: Fetch) {
    && fetch.origin == Link && !Fresh(s, generation, fetch.url)
    && exists link :: Passes(site, reply, link) && fetch.url == site.resolved(reply.url, link)
  }

  /** Link discovery only adds claims and fetches: every link that passed ends up claimed,
      and each new claim is a placeholder with a fetch under way or a fresh page. */
  ghost predicate Discovered(site: Site, generation: int, s: State, s': State, reply: Reply, links: seq<string>,
        now: int) {
    && s'.stored == s.stored && s'.total == s.total
    && |s.queue| <= |s'.queue| && s'.queue[..|s.queue|] == s.queue
    && (forall i :: |s.queue| <= i < |s'.queue| ==> FedByLink(site, generation, s, reply, s'.queue[i]))
    && (forall u :: u in s.inflight ==> u in s'.inflight && s'.inflight[u] == s.inflight[u])
    && (forall u :: u in s'.inflight && u !in s.inflight ==>
          s'.inflight[u] == Placeholder(now) && (Outstanding(s', u) || Fresh(s', generation, u)))
    && (forall link :: link in links && Passes(site, reply, link) ==> site.resolved(reply.url, link) in s'.inflight)
  }

  lemma OutstandingGrows(s: State, s': State, url: string)
    requires |s.queue| <= |s'.queue| && s'.queue[..|s.queue|] == s.queue
    ensures Outstanding(s, url) ==> Outstanding(s', url)
  {
    if Outstanding(s, url) {
      var i :| 0 <= i < |s.queue| && s.queue[i].url == url;
      assert s'.queue[..|s.queue|][i] == s'.queue[i];
    }
  }

  lemma {:induction false} DiscoverAllEffect(site: Site, generation: int, s: State, reply: Reply, links: seq<string>,
        now: int)
    ensures Discovered(site, generation, s, DiscoverAll(site, generation, s, reply, links, now), reply, links, now)
  {
    if links != [] {
      var n := |links| - 1;
      var mid := DiscoverAll(site, generation, s, reply, links[..n], now);
      DiscoverAllEffect(site, generation, s, reply, links[..n], now);
      assert forall l :: l in links ==> l in links[..n] || l == links[n];
      if Passes(site, reply, links[n]) {
        DiscoverOneEffect(site, generation, s, mid, reply, links[..n], links[n], now);
      }
    }
  }

  lemma {:induction false} DiscoverOneEffect(site: Site, generation: int, s: State, mid: State, reply: Reply,
        links: seq<string>, link: string, now: int)
    requires Discovered(site, generation, s, mid, reply, links, now) && Passes(site, reply, link)
    ensures Discovered(site, generation, s, Discover(mid, generation, site.resolved(reply.url, link), now), reply,
            links, now)
    ensures site.resolved(reply.url, link) in Discover(mid, generation, site.resolved(reply.url, link), now).inflight
  {
    var target := site.resolved(reply.url, link);
    var s' := Discover(mid, generation, target, now);
    if s'.queue != mid.queue {
      assert s'.queue[|mid.queue|].url == target;
      assert FedByLink(site, generation, s, reply, s'.queue[|mid.queue|]);
    }
    assert s'.queue[..|mid.queue|] == mid.queue;
    assert s'.queue[..|s.queue|] == mid.queue[..|s.queue|];
    forall u | u in s'.inflight && u !in s.inflight
      ensures s'.inflight[u] == Placeholder(now) && (Outstanding(s', u) || Fresh(s', generation, u))
    {
      OutstandingGrows(mid, s', u);
    }
  }

  lemma TakenKeepsOthers(s: State, index: nat, url: string)
    requires index < |s.queue| && s.queue[index].url != url && Outstanding(s, url)
    ensures Outstanding(Taken(s, index), url)
  {
    var i :| 0 <= i < |s.queue| && s.queue[i].url == url;
    var s' := Taken(s, index);
    if i < index {
      assert s'.queue[i].url == url;
    } else {
      assert s'.queue[i - 1].url == url;
    }
  }

  /** Every URL demanded is outstanding, fresh, or failed once; every claim that is not
      outstanding belongs to a fresh page. */
  ghost predicate Covered(h: History, generation: int) {
    && (forall u :: u in h.demanded ==> Outstanding(h.s, u) || Fresh(h.s, generation, u) || u in h.failed)
    && (forall u :: u in h.s.inflight ==> Outstanding(h.s, u) || Fresh(h.s, generation, u))
  }

  /** A successful completion right before its links are looked at: the fetch is taken,
      the claim erased, the page counted and stored. */
  function Received(s: State, e: Event): State
    requires e.Completed? && e.index < |s.queue|
  {
    var taken := Taken(s, e.index);
    var erased := taken.(inflight := taken.inflight - {e.reply.requestUrl}, total := taken.total + 1);
    StoreReply(erased, e.reply, Content(s, e.reply, e.data), e.now)
  }

  /** The links that a successful completion looks at. */
  ghost function PageLinks(site: Site, s: State, e: Event): seq<string>
    requires e.Completed?
  {
    AcceptedLinks(site, e.reply, Content(s, e.reply, e.data))
  }

  lemma {:induction false} CompletionEffect(site: Site, generation: int, s: State, e: Event)
    requires e.Completed? && !e.error && Enabled(generation, s, e)
    ensures Discovered(site, generation, Received(s, e), Next(site, generation, s, e), e.reply, PageLinks(site, s, e),
            e.now)
    ensures forall u :: Fresh(s, generation, u) ==> Fresh(Received(s, e), generation, u)
    ensures Fresh(Received(s, e), generation, e.reply.requestUrl)
  {
    hide Passes;
    var content := Content(s, e.reply, e.data);
    DiscoverAllEffect(site, generation, Received(s, e), e.reply, PageLinks(site, s, e), e.now);
  }

  lemma {:induction false} SuccessKeepsCovered(site: Site, generation: int, h: History, e: Event)
    requires e.Completed? && !e.error && Enabled(generation, h.s, e) && Covered(h, generation)
    ensures Covered(NextHistory(site, generation, h, e), generation)
  {
    hide AfterCompletion;
    hide Passes;
    var h' := NextHistory(site, generation, h, e);
    CompletionEffect(site, generation, h.s, e);
    forall u | u != e.reply.requestUrl && Outstanding(h.s, u) ensures Outstanding(h'.s, u) {
      TakenKeepsOthers(h.s, e.index, u);
      OutstandingGrows(Taken(h.s, e.index), h'.s, u);
    }
  }

  lemma {:induction false} StepKeepsCovered(site: Site, generation: int, h: History, e: Event)
    requires Enabled(generation, h.s, e) && Covered(h, generation)
    ensures Covered(NextHistory(site, generation, h, e), generation)
  {
    var h' := NextHistory(site, generation, h, e);
    if e.Completed? && e.error {
      forall u | u != e.reply.requestUrl && Outstanding(h.s, u) ensures Outstanding(h'.s, u) {
        TakenKeepsOthers(h.s, e.index, u);
        OutstandingGrows(Taken(h.s, e.index), h'.s, u);
      }
    } else if e.Completed? {
      SuccessKeepsCovered(site, generation, h, e);
    } else {
      assert h'.s.queue[|h.s.queue|].url == e.url;
      forall u | Outstanding(h.s, u) ensures Outstanding(h'.s, u) {
        OutstandingGrows(h.s, h'.s, u);
      }
    }
  }

  lemma {:induction false} RunKeepsCovered(site: Site, generation: int, h: History, events: seq<Event>)
    requires IsRun(site, generation, h, events) && Covered(h, generation)
    ensures Covered(After(site, generation, h, events), generation)
    decreases |events|
  {
    if events != [] {
      var n := |events| - 1;
      RunKeepsCovered(site, generation, h, events[..n]);
      StepKeepsCovered(site, generation, After(site, generation, h, events[..n]), events[n]);
    }
  }

  /** Coverage: when no fetch is outstanding any more, every link that passed on an
      accepted page has been stored in this generation, or a fetch of it failed. */
  lemma Coverage(site: Site, generation: int, stored: map<string, Document>, events: seq<Event>)
    requires IsRun(site, generation, Start(stored), events)
    requires After(site, generation, Start(stored), events).s.queue == []
    ensures var h := After(site, generation, Start(stored), events);
            forall u :: u in h.demanded ==> Fresh(h.s, generation, u) || u in h.failed
  {
    RunKeepsCovered(site, generation, Start(stored), events);
  }
}
