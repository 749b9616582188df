/** Coverage seen from the web: what a finished crawl has stored when every page answers
    consistently, and the conditional fetch that breaks it. */
module CrawlReach {
  import opened Crawl
  import opened CrawlRefetch
  import opened CrawlRuns
  import opened Documents
  import opened Ordered

  /** What the web shows under a URL: the URL the redirects end at, and the URLs to which
      the links of the accepted page lead; none for a page the filters reject. */
  datatype Page = Page(url: string, targets: set<string>)

  /** A cached document from which a 304 reply leads to the links of the page. */
  ghost predicate Shows(site: Site, web: string -> Page, url: string, data: string) {
    forall reply: Reply ::
      reply.requestUrl == url && reply.url == web(url).url && reply.code == NOT_MODIFIED ==>
        Targets(site, reply, data) == web(url).targets
  }

  /** What comes from outside agrees with the web: where redirects end, the data of full
      replies, and the documents handed to engine::found_in_page_cache. */
  ghost predicate Honest(site: Site, web: string -> Page, e: Event) {
    match e
    case Completed(_, reply, data, error, _) =>
      !error ==>
        && reply.url == web(reply.requestUrl).url
        && (reply.code != NOT_MODIFIED ==> Targets(site, reply, data) == web(reply.requestUrl).targets)
    case Asked(_) => true
    case AskedCached(url, doc) => Shows(site, web, url, doc.data)
  }

  /** A successful 304 finds a claim made from outside, or a page that has the same links
      when it is empty. */
  ghost predicate Guarded(site: Site, web: string -> Page, outside: set<string>, e: Event) {
    e.Completed? && !e.error && e.reply.code == NOT_MODIFIED && e.reply.requestUrl !in outside ==>
      Targets(site, e.reply, "") == web(e.reply.requestUrl).targets
  }

  ghost predicate GuardedRun(site: Site, generation: int, web: string -> Page, h: History, events: seq<Event>)
    requires IsRun(site, generation, h, events)
    decreases |events|
  {
    events == [] ||
    var n := |events| - 1;
    && GuardedRun(site, generation, web, h, events[..n])
    && Guarded(site, web, OutsideClaims(site, generation, h, events[..n]), events[n])
  }

  /** The content that the engine processes shows the links of the page. */
  ghost predicate Consistent(site: Site, web: string -> Page, s: State, e: Event) {
    e.Completed? && !e.error ==>
      && e.reply.url == web(e.reply.requestUrl).url
      && Targets(site, e.reply, Content(s, e.reply, e.data)) == web(e.reply.requestUrl).targets
  }

  ghost predicate ConsistentRun(site: Site, generation: int, web: string -> Page, h: History, events: seq<Event>)
    requires IsRun(site, generation, h, events)
    decreases |events|
  {
    events == [] ||
    var n := |events| - 1;
    && ConsistentRun(site, generation, web, h, events[..n])
    && Consistent(site, web, After(site, generation, h, events[..n]).s, events[n])
  }

  ghost predicate HonestRun(site: Site, web: string -> Page, events: seq<Event>) {
    forall i :: 0 <= i < |events| ==> Honest(site, web, events[i])
  }

  /** Claims from outside keep showing the links of their pages. */
  lemma {:induction false} OutsideClaimsShow(site: Site, generation: int, web: string -> Page,
        stored: map<string, Document>, events: seq<Event>)
    requires IsRun(site, generation, Start(stored), events) && HonestRun(site, web, events)
    ensures var s := After(site, generation, Start(stored), events).s;
            forall u :: u in OutsideClaims(site, generation, Start(stored), events) ==>
              u in s.inflight && Shows(site, web, u, s.inflight[u].data)
    decreases |events|
  {
    hide Shows;
    if events != [] {
      var n := |events| - 1;
      OutsideClaimsShow(site, generation, web, stored, events[..n]);
      OtherClaimsAreEmpty(site, generation, stored, events[..n]);
      assert Honest(site, web, events[n]);
      if events[n].Completed? && !events[n].error {
        CompletionEffect(site, generation, After(site, generation, Start(stored), events[..n]).s, events[n]);
      }
    }
  }

  /** When everything outside the engine agrees with the web, the engine sees the links of
      every page it processes if and only if the run is guarded. */
  lemma {:induction false} ConsistentIffGuarded(site: Site, generation: int, web: string -> Page,
        stored: map<string, Document>, events: seq<Event>)
    requires IsRun(site, generation, Start(stored), events) && HonestRun(site, web, events)
    ensures ConsistentRun(site, generation, web, Start(stored), events) <==>
            GuardedRun(site, generation, web, Start(stored), events)
    decreases |events|
  {
    hide Targets;
    if events != [] {
      var n := |events| - 1;
      ConsistentIffGuarded(site, generation, web, stored, events[..n]);
      OutsideClaimsShow(site, generation, web, stored, events[..n]);
      OtherClaimsAreEmpty(site, generation, stored, events[..n]);
      assert Honest(site, web, events[n]);
    }
  }

  /** The URL at the end of a redirect shows the same page. */
  ghost predicate RedirectsSettle(web: string -> Page) {
    forall u :: web(web(u).url) == web(u)
  }

  /** Each URL but the first is a target of the page before it. */
  ghost predicate IsPath(web: string -> Page, path: seq<string>) {
    path != [] && forall i :: 0 < i < |path| ==> path[i] in web(path[i - 1]).targets
  }

  /** The links of every page stored in this generation have been demanded. */
  ghost predicate Expanded(web: string -> Page, h: History, generation: int) {
    forall u :: Fresh(h.s, generation, u) ==> web(u).targets <= h.demanded
  }

  lemma {:induction false} StepKeepsExpanded(site: Site, generation: int, web: string -> Page, h: History, e: Event)
    requires Enabled(generation, h.s, e) && Consistent(site, web, h.s, e) && RedirectsSettle(web)
    requires Expanded(web, h, generation)
    ensures Expanded(web, NextHistory(site, generation, h, e), generation)
  {
    hide AfterCompletion;
    hide Targets;
    if e.Completed? && !e.error {
      CompletionEffect(site, generation, h.s, e);
      assert web(e.reply.url) == web(e.reply.requestUrl);
    } else {
      StoredUnchanged(site, generation, h.s, e);
    }
  }

  lemma {:induction false} StoredUnchanged(site: Site, generation: int, s: State, e: Event)
    requires Enabled(generation, s, e) && !(e.Completed? && !e.error)
    ensures Next(site, generation, s, e).stored == s.stored
  {
  }

  lemma {:induction false} RunKeepsExpanded(site: Site, generation: int, web: string -> Page, h: History,
        events: seq<Event>)
    requires IsRun(site, generation, h, events) && ConsistentRun(site, generation, web, h, events)
    requires RedirectsSettle(web) && Expanded(web, h, generation)
    ensures Expanded(web, After(site, generation, h, events), generation)
    decreases |events|
  {
    if events != [] {
      var n := |events| - 1;
      RunKeepsExpanded(site, generation, web, h, events[..n]);
      StepKeepsExpanded(site, generation, web, After(site, generation, h, events[..n]), events[n]);
    }
  }

  lemma {:induction false} AskedIsDemanded(site: Site, generation: int, h: History, events: seq<Event>, url: string)
    requires IsRun(site, generation, h, events) && Asked(url) in events
    ensures url in After(site, generation, h, events).demanded
    decreases |events|
  {
    var n := |events| - 1;
    if events[n] != Asked(url) {
      AskedIsDemanded(site, generation, h, events[..n], url);
    }
  }

  lemma {:induction false} PathIsStored(web: string -> Page, h: History, generation: int, path: seq<string>)
    requires Expanded(web, h, generation) && IsPath(web, path) && path[0] in h.demanded
    requires forall u :: u in h.demanded ==> Fresh(h.s, generation, u) || u in h.failed
    requires forall i :: 0 <= i < |path| ==> path[i] !in h.failed
    ensures Fresh(h.s, generation, path[|path| - 1])
    decreases |path|
  {
    if |path| > 1 {
      var n := |path| - 1;
      PathIsStored(web, h, generation, path[..n]);
      assert path[..n][n - 1] == path[n - 1];
      assert path[n] in web(path[n - 1]).targets;
    }
  }

  /** When no fetch is outstanding any more, every URL reachable from the seed through
      pages of which no fetch failed is stored in this generation, if every successful 304 finds a
      claim made from outside, or a page that has the same links when it is empty. */
  lemma ReachableIsStored(site: Site, generation: int, web: string -> Page, stored: map<string, Document>,
        events: seq<Event>, path: seq<string>)
    requires forall u :: u in stored ==> Before(stored[u].ts, generation)
    requires IsRun(site, generation, Start(stored), events)
    requires HonestRun(site, web, events) && GuardedRun(site, generation, web, Start(stored), events)
             && RedirectsSettle(web)
    requires IsPath(web, path) && Asked(path[0]) in events
    requires var h := After(site, generation, Start(stored), events);
             h.s.queue == [] && forall i :: 0 <= i < |path| ==> path[i] !in h.failed
    ensures Fresh(After(site, generation, Start(stored), events).s, generation, path[|path| - 1])
  {
    Coverage(site, generation, stored, events);
    ConsistentIffGuarded(site, generation, web, stored, events);
    RunKeepsExpanded(site, generation, web, Start(stored), events);
    AskedIsDemanded(site, generation, Start(stored), events, path[0]);
    PathIsStored(web, After(site, generation, Start(stored), events), generation, path);
  }

  function TwoPageParser(reply: Reply, data: string): seq<string> {
    if data == "seed" then ["a"] else if data == "page a" then ["b"] else []
  }

  /** A site of three pages: s links to a, a links to b. */
  function TwoPageSite(): Site {
    Site([], [], [TwoPageParser], u => true, (base, link) => link, u => "http", u => "host")
  }

  function SeedRun(): seq<Event> {
    [Asked("s"),
     Completed(0, Reply("s", "s", 200), "seed", false, 1),
     Completed(0, Reply("a", "a", NOT_MODIFIED), "", false, 2)]
  }

  lemma {:induction false} LinksOfSeed()
    ensures Links(TwoPageSite(), Reply("s", "s", 200), "seed") == ["a"]
    ensures Links(TwoPageSite(), Reply("a", "a", NOT_MODIFIED), "") == []
    ensures Links(TwoPageSite(), Reply("a", "a", 200), "page a") == ["b"]
  {
    var site := TwoPageSite();
    assert site.parsers[..0] == [];
    assert Parsed(site.parsers, Reply("s", "s", 200), "seed") == ["a"];
    assert Parsed(site.parsers, Reply("a", "a", NOT_MODIFIED), "") == [];
    assert Parsed(site.parsers, Reply("a", "a", 200), "page a") == ["b"];
    assert SortUnique(["a"]) == ["a"] by { assert ["a"][1..] == []; }
    assert SortUnique(["b"]) == ["b"] by { assert ["b"][1..] == []; }
  }

  lemma {:induction false} RunExtends(site: Site, generation: int, h: History, events: seq<Event>, e: Event)
    requires IsRun(site, generation, h, events) && Enabled(generation, After(site, generation, h, events).s, e)
    ensures IsRun(site, generation, h, events + [e])
    ensures After(site, generation, h, events + [e]) ==
            NextHistory(site, generation, After(site, generation, h, events), e)
  {
    assert (events + [e])[..|events|] == events;
  }

  function StalePages(): map<string, Document> {
    map["a" := Document(0, "a", "page a")]
  }

  function AfterSeed(): History {
    History(State(map["a" := Placeholder(1)], StalePages()["s" := Document(1, "s", "seed")],
      [Fetch("a", IfModifiedSince(0), Link)], 1), {"s", "a"}, {})
  }

  lemma {:induction false} SeedStep(h: History, e: Event)
    requires h == History(State(map[], StalePages(), [Fetch("s", Always, Direct)], 0), {"s"}, {})
    requires e == Completed(0, Reply("s", "s", 200), "seed", false, 1)
    ensures Enabled(1, h.s, e) && NextHistory(TwoPageSite(), 1, h, e) == AfterSeed()
  {
    LinksOfSeed();
    var site, reply := TwoPageSite(), Reply("s", "s", 200);
    assert Passes(site, reply, "a");
    assert Targets(site, reply, "seed") == {"a"};
    assert ["a"][..0] == [];
    var s1 := StoreReply(State(map[], StalePages(), [], 1), reply, "seed", 1);
    assert DiscoverAll(site, 1, s1, reply, ["a"], 1) == Discover(s1, 1, "a", 1);
    assert Taken(h.s, 0).queue == [];
    assert h.s.inflight - {"s"} == map[];
  }

  lemma {:induction false} NotModifiedStep(h: History, e: Event)
    requires h == AfterSeed() && e == Completed(0, Reply("a", "a", NOT_MODIFIED), "", false, 2)
    ensures Enabled(1, h.s, e)
    ensures NextHistory(TwoPageSite(), 1, h, e) ==
            History(State(map[], AfterSeed().s.stored["a" := Document(2, "a", "")], [], 2), {"s", "a"}, {})
  {
    LinksOfSeed();
    var reply := Reply("a", "a", NOT_MODIFIED);
    assert Content(h.s, reply, "") == "";
    assert Targets(TwoPageSite(), reply, "") == {};
    assert Taken(h.s, 0).queue == [];
    assert h.s.inflight - {"a"} == map[];
  }

  /** The link path claims a URL with an empty placeholder. When the conditional fetch of
      a stored page is answered by 304, the crawl ends with the stored page emptied, and the
      page behind it is never asked for, although no fetch failed. */
  lemma {:induction false} NotModifiedLosesLinks()
    ensures IsRun(TwoPageSite(), 1, Start(StalePages()), SeedRun())
    ensures var h := After(TwoPageSite(), 1, Start(StalePages()), SeedRun());
            && h.s.queue == [] && h.failed == {}
            && "a" in h.s.stored && h.s.stored["a"].data == ""
            && "b" !in h.demanded && "b" !in h.s.stored
    ensures Targets(TwoPageSite(), Reply("a", "a", 200), "page a") == {"b"}
  {
    var site, run, h0 := TwoPageSite(), SeedRun(), Start(StalePages());
    RunExtends(site, 1, h0, [], run[0]);
    SeedStep(After(site, 1, h0, [run[0]]), run[1]);
    RunExtends(site, 1, h0, [run[0]], run[1]);
    NotModifiedStep(After(site, 1, h0, [run[0]] + [run[1]]), run[2]);
    RunExtends(site, 1, h0, [run[0]] + [run[1]], run[2]);
    assert run == [run[0]] + [run[1]] + [run[2]];
    LinksOfSeed();
    assert Passes(site, Reply("a", "a", 200), "b");
  }

  function TwoPageWeb(url: string): Page {
    if url == "s" then Page("s", {"a"}) else if url == "a" then Page("a", {"b"}) else Page(url, {})
  }

  lemma {:induction false} NothingClaimedOutside(site: Site, generation: int, h: History, events: seq<Event>)
    requires IsRun(site, generation, h, events) && forall i :: 0 <= i < |events| ==> !events[i].AskedCached?
    ensures OutsideClaims(site, generation, h, events) == {}
    decreases |events|
  {
    if events != [] { NothingClaimedOutside(site, generation, h, events[..|events| - 1]); }
  }

  lemma {:induction false} SeedRunIsHonest()
    ensures HonestRun(TwoPageSite(), TwoPageWeb, SeedRun())
  {
    LinksOfSeed();
    var site := TwoPageSite();
    assert Passes(site, Reply("s", "s", 200), "a");
    assert Targets(site, Reply("s", "s", 200), "seed") == {"a"};
  }

  lemma {:induction false} LastNotModifiedIsUnguarded(site: Site, generation: int, web: string -> Page, h: History,
        events: seq<Event>, e: Event)
    requires events != [] && e == events[|events| - 1] && e.Completed? && NotModified(e, e.reply.requestUrl)
    requires Targets(site, e.reply, "") != web(e.reply.requestUrl).targets
    requires IsRun(site, generation, h, events) && forall i :: 0 <= i < |events| ==> !events[i].AskedCached?
    ensures !GuardedRun(site, generation, web, h, events)
  {
    hide Targets;
    NothingClaimedOutside(site, generation, h, events[..|events| - 1]);
  }

  lemma {:induction false} SeedRunIsRun()
    ensures IsRun(TwoPageSite(), 1, Start(StalePages()), SeedRun())
  {
    NotModifiedLosesLinks();
  }

  lemma {:induction false} LastLosesLinks()
    ensures Targets(TwoPageSite(), Reply("a", "a", NOT_MODIFIED), "") != TwoPageWeb("a").targets
  {
    LinksOfSeed();
    assert Targets(TwoPageSite(), Reply("a", "a", NOT_MODIFIED), "") == {};
    assert "b" in TwoPageWeb("a").targets;
  }

  /** Everything outside the engine is honest in that run; it is the guard that fails. */
  lemma {:induction false} SeedRunIsNotGuarded()
    ensures IsRun(TwoPageSite(), 1, Start(StalePages()), SeedRun()) && HonestRun(TwoPageSite(), TwoPageWeb, SeedRun())
    ensures !GuardedRun(TwoPageSite(), 1, TwoPageWeb, Start(StalePages()), SeedRun())
  {
    hide IsRun;
    hide GuardedRun;
    hide HonestRun;
    hide Targets;
    hide TwoPageSite;
    hide Start;
    SeedRunIsRun();
    SeedRunIsHonest();
    LastLosesLinks();
    LastNotModifiedIsUnguarded(TwoPageSite(), 1, TwoPageWeb, Start(StalePages()), SeedRun(), SeedRun()[2]);
  }
}
