/** What one completed fetch does, told link by link and page by page in terms of what the
    site answers. */
module CrawlPage {
  import opened Crawl
  import opened CrawlRuns
  import opened Documents
  import opened Ordered

  /** The domain filter exists if the seed has a host, and lets through exactly the links
      that resolve to this host. */
  lemma DomainFilterExact(seed: string, resolved: (string, string) -> string, host: string -> string,
        reply: Reply, link: string)
    ensures CreateDomainFilter(seed, resolved, host).InvalidUrl? <==> host(seed) == ""
    ensures host(seed) != "" ==>
              (CreateDomainFilter(seed, resolved, host).check(reply, link) <==>
               host(resolved(reply.url, link)) == host(seed))
  {
  }

  lemma {:induction false} ParsedExact(parsers: seq<(Reply, string) -> seq<string>>, reply: Reply, data: string,
        link: string)
    ensures link in Parsed(parsers, reply, data) <==> exists p :: 0 <= p < |parsers| && link in parsers[p](reply, data)
  {
    if parsers != [] {
      var n := |parsers| - 1;
      ParsedExact(parsers[..n], reply, data, link);
      assert forall p :: 0 <= p < n ==> parsers[..n][p] == parsers[p];
    }
  }

  /** The links looked at are what any parser finds, in alphabetical order, each once. */
  lemma LinksExact(site: Site, reply: Reply, data: string, link: string)
    ensures Alphabetical(Links(site, reply, data))
    ensures link in Links(site, reply, data) <==>
            exists p :: 0 <= p < |site.parsers| && link in site.parsers[p](reply, data)
  {
    SortUniqueIsAlphabetical(Parsed(site.parsers, reply, data));
    ParsedExact(site.parsers, reply, data, link);
  }

  /** A good link ends up in flight, whatever else is on the page. */
  lemma GoodLinkIsClaimed(site: Site, generation: int, s: State, reply: Reply, links: seq<string>, now: int,
        link: string)
    requires link in links && site.valid(link)
    requires var target := site.resolved(reply.url, link);
             && site.valid(target) && (site.scheme(target) == "http" || site.scheme(target) == "https")
             && site.host(target) != "" && target != reply.url
    requires forall i :: 0 <= i < |site.urlFilters| ==> site.urlFilters[i](reply, link)
    ensures site.resolved(reply.url, link) in DiscoverAll(site, generation, s, reply, links, now).inflight
  {
    assert Passes(site, reply, link);
    hide Passes;
    DiscoverAllEffect(site, generation, s, reply, links, now);
  }

  /** A page that every filter accepts: each good link that a parser finds in the content,
      on a 304 that of the claim, is in flight afterwards, and being fetched or fresh. */
  lemma {:induction false} CompletionClaimsGoodLinks(site: Site, generation: int, s: State, e: Event, content: string,
        p: nat, link: string)
    requires e.Completed? && !e.error && Enabled(generation, s, e)
    requires content == if e.reply.code != 304 then e.data
                        else if e.reply.requestUrl in s.inflight then s.inflight[e.reply.requestUrl].data else ""
    requires forall i :: 0 <= i < |site.filters| ==> site.filters[i](e.reply, content)
    requires p < |site.parsers| && link in site.parsers[p](e.reply, content) && site.valid(link)
    requires var target := site.resolved(e.reply.url, link);
             && site.valid(target) && (site.scheme(target) == "http" || site.scheme(target) == "https")
             && site.host(target) != "" && target != e.reply.url
    requires forall i :: 0 <= i < |site.urlFilters| ==> site.urlFilters[i](e.reply, link)
    ensures var s', target := Next(site, generation, s, e), site.resolved(e.reply.url, link);
            && target in s'.inflight
            && (target !in s.inflight || target == e.reply.requestUrl ==>
                  Outstanding(s', target) || Fresh(s', generation, target))
  {
    LinksExact(site, e.reply, content, link);
    assert Accepted(site, e.reply, content) && Passes(site, e.reply, link);
    hide Accepted;
    hide Passes;
    hide Links;
    CompletionEffect(site, generation, s, e);
    assert link in PageLinks(site, s, e);
  }

  /** The converse: whatever a completion claims is the target of a good link that a parser
      found on a page that every filter accepts. */
  lemma {:induction false} NewClaimIsGoodLink(site: Site, generation: int, s: State, e: Event, content: string,
        target: string)
    requires e.Completed? && !e.error && Enabled(generation, s, e)
    requires content == if e.reply.code != 304 then e.data
                        else if e.reply.requestUrl in s.inflight then s.inflight[e.reply.requestUrl].data else ""
    requires target in Next(site, generation, s, e).inflight
    requires target !in s.inflight || target == e.reply.requestUrl
    ensures forall i :: 0 <= i < |site.filters| ==> site.filters[i](e.reply, content)
    ensures site.valid(target) && (site.scheme(target) == "http" || site.scheme(target) == "https")
    ensures site.host(target) != "" && target != e.reply.url
    ensures exists p, link ::
              && 0 <= p < |site.parsers| && link in site.parsers[p](e.reply, content) && site.valid(link)
              && site.resolved(e.reply.url, link) == target
              && forall i :: 0 <= i < |site.urlFilters| ==> site.urlFilters[i](e.reply, link)
  {
    ClaimComesFromLink(site, generation, Received(s, e), e.reply, PageLinks(site, s, e), e.now, target);
    assert Accepted(site, e.reply, content);
    var link :| link in Links(site, e.reply, content) && Passes(site, e.reply, link)
                && site.resolved(e.reply.url, link) == target;
    LinksExact(site, e.reply, content, link);
    var p :| 0 <= p < |site.parsers| && link in site.parsers[p](e.reply, content);
  }

  lemma {:induction false} ClaimComesFromLink(site: Site, generation: int, s: State, reply: Reply, links: seq<string>,
        now: int, target: string)
    requires target !in s.inflight && target in DiscoverAll(site, generation, s, reply, links, now).inflight
    ensures exists link :: link in links && Passes(site, reply, link) && site.resolved(reply.url, link) == target
  {
    hide Passes;
    if links != [] {
      var n := |links| - 1;
      assert links[n] in links && forall l :: l in links[..n] ==> l in links;
      if target in DiscoverAll(site, generation, s, reply, links[..n], now).inflight {
        ClaimComesFromLink(site, generation, s, reply, links[..n], now, target);
      }
    }
  }

  /** A fetch for a link: without condition if the page is not stored, else conditional on
      the time stamp of the stored page, which is from before this generation. */
  ghost predicate FetchOf(generation: int, stored: map<string, Document>, fetch: Fetch) {
    && fetch.origin == Link
    && if fetch.url !in stored then fetch.condition == Always
       else stored[fetch.url].ts < generation && fetch.condition == IfModifiedSince(stored[fetch.url].ts)
  }

  /** The fetches added to the queue: for different URLs, none in flight before. */
  ghost predicate FetchesOf(generation: int, s: State, s': State) {
    && |s.queue| <= |s'.queue|
    && (forall i :: |s.queue| <= i < |s'.queue| ==>
          && FetchOf(generation, s.stored, s'.queue[i])
          && s'.queue[i].url !in s.inflight && s'.queue[i].url in s'.inflight)
    && (forall i, j :: |s.queue| <= i < j < |s'.queue| ==> s'.queue[i].url != s'.queue[j].url)
  }

  lemma {:induction false} DiscoverAllFetches(site: Site, generation: int, s: State, reply: Reply, links: seq<string>,
        now: int)
    ensures FetchesOf(generation, s, DiscoverAll(site, generation, s, reply, links, now))
  {
    hide Passes;
    if links != [] {
      var n := |links| - 1;
      DiscoverAllFetches(site, generation, s, reply, links[..n], now);
      DiscoverAllEffect(site, generation, s, reply, links[..n], now);
      hide Discovered;
      var mid := DiscoverAll(site, generation, s, reply, links[..n], now);
      if Passes(site, reply, links[n]) {
        DiscoveredKeepsStore(site, generation, s, reply, links[..n], now);
        OneMoreFetch(generation, s, mid, site.resolved(reply.url, links[n]), now);
      }
    }
  }

  lemma {:induction false} DiscoveredKeepsStore(site: Site, generation: int, s: State, reply: Reply,
        links: seq<string>, now: int)
    ensures var s' := DiscoverAll(site, generation, s, reply, links, now);
            s'.stored == s.stored && s.inflight.Keys <= s'.inflight.Keys
  {
    hide Passes;
    DiscoverAllEffect(site, generation, s, reply, links, now);
  }

  lemma OneMoreFetch(generation: int, s: State, mid: State, target: string, now: int)
    requires FetchesOf(generation, s, mid) && mid.stored == s.stored && s.inflight.Keys <= mid.inflight.Keys
    ensures FetchesOf(generation, s, Discover(mid, generation, target, now))
  {
  }

  /** What a successful completion leaves: the content, on a 304 that of the claim, stored
      under both URLs with the time of the reply, one page more counted, and fetches for
      links as described. */
  lemma {:induction false} CompletionExact(site: Site, generation: int, s: State, e: Event, content: string)
    requires e.Completed? && !e.error && Enabled(generation, s, e)
    requires content == if e.reply.code != 304 then e.data
                        else if e.reply.requestUrl in s.inflight then s.inflight[e.reply.requestUrl].data else ""
    ensures var s' := Next(site, generation, s, e);
            && s'.stored == s.stored[e.reply.url := Document(e.now, e.reply.url, content)]
                                    [e.reply.requestUrl := Document(e.now, e.reply.requestUrl, content)]
            && s'.total == s.total + 1
            && |s.queue| - 1 <= |s'.queue| && s'.queue[..|s.queue| - 1] == s.queue[..e.index] + s.queue[e.index + 1..]
            && forall i :: |s.queue| - 1 <= i < |s'.queue| ==>
                 && FetchOf(generation, s'.stored, s'.queue[i])
                 && (s'.queue[i].url !in s.inflight || s'.queue[i].url == e.reply.requestUrl)
  {
    CompletionEffect(site, generation, s, e);
    DiscoverAllFetches(site, generation, Received(s, e), e.reply, PageLinks(site, s, e), e.now);
    hide Passes;
    hide Links;
    hide Accepted;
    hide FetchOf;
    assert Next(site, generation, s, e) ==
           DiscoverAll(site, generation, Received(s, e), e.reply, PageLinks(site, s, e), e.now);
  }

  /** A failed completion erases the claim and leaves everything else. */
  lemma FailureOnlyErases(site: Site, generation: int, s: State, e: Event)
    requires e.Completed? && e.error && Enabled(generation, s, e)
    ensures Next(site, generation, s, e) ==
            State(s.inflight - {e.reply.requestUrl}, s.stored, s.queue[..e.index] + s.queue[e.index + 1..], s.total)
  {
  }

  /** Requests from outside queue one fetch; a cached document also becomes the claim of a
      URL that is not in flight, and its time stamp the condition. */
  lemma RequestsExact(site: Site, generation: int, s: State, url: string, doc: Document)
    ensures Next(site, generation, s, Asked(url)) ==
            State(s.inflight, s.stored, s.queue + [Fetch(url, Always, Direct)], s.total)
    ensures Next(site, generation, s, AskedCached(url, doc)) ==
            State(if url in s.inflight then s.inflight else s.inflight[url := doc],
                  s.stored, s.queue + [Fetch(url, IfModifiedSince(doc.ts), Direct)], s.total)
  {
  }

  /** What a page demands: the targets of the good links that any parser finds on it, if
      every filter accepts it, and nothing else. */
  lemma TargetsExact(site: Site, reply: Reply, data: string, target: string)
    ensures target in Targets(site, reply, data) <==>
            && (forall i :: 0 <= i < |site.filters| ==> site.filters[i](reply, data))
            && site.valid(target) && (site.scheme(target) == "http" || site.scheme(target) == "https")
            && site.host(target) != "" && target != reply.url
            && exists p, link ::
                 && 0 <= p < |site.parsers| && link in site.parsers[p](reply, data) && site.valid(link)
                 && site.resolved(reply.url, link) == target
                 && forall i :: 0 <= i < |site.urlFilters| ==> site.urlFilters[i](reply, link)
  {
    if target in Targets(site, reply, data) {
      var link :| link in Links(site, reply, data) && Passes(site, reply, link)
        && site.resolved(reply.url, link) == target;
      LinksExact(site, reply, data, link);
      var p :| 0 <= p < |site.parsers| && link in site.parsers[p](reply, data);
    }
    if p, link :|
      && 0 <= p < |site.parsers| && link in site.parsers[p](reply, data) && site.valid(link)
      && site.resolved(reply.url, link) == target
      && forall i :: 0 <= i < |site.urlFilters| ==> site.urlFilters[i](reply, link)
    {
      LinksExact(site, reply, data, link);
      if site.valid(target) && (site.scheme(target) == "http" || site.scheme(target) == "https")
         && site.host(target) != "" && target != reply.url
      {
        assert Passes(site, reply, link);
      }
    }
  }

  /** The history of a run: each successful completion adds what its page demands, each
      request its URL, and each failed completion its URL to the failed ones. */
  lemma HistoryExact(site: Site, generation: int, h: History, e: Event, content: string)
    requires Enabled(generation, h.s, e)
    requires e.Completed? ==>
               content == if e.reply.code != 304 then e.data
                          else if e.reply.requestUrl in h.s.inflight then h.s.inflight[e.reply.requestUrl].data else ""
    ensures var h' := NextHistory(site, generation, h, e);
            if !e.Completed? then h'.demanded == h.demanded + {e.url} && h'.failed == h.failed
            else if e.error then h'.demanded == h.demanded && h'.failed == h.failed + {e.reply.requestUrl}
            else h'.demanded == h.demanded + Targets(site, e.reply, content) && h'.failed == h.failed
  {
    hide Targets;
  }

  /** A URL counts as failed exactly if a completion of it came with an error. */
  lemma {:induction false} FailedExact(site: Site, generation: int, h: History, events: seq<Event>, url: string)
    requires IsRun(site, generation, h, events)
    ensures url in After(site, generation, h, events).failed <==>
            || url in h.failed
            || exists i ::
                 && 0 <= i < |events| && events[i].Completed? && events[i].error
                 && events[i].reply.requestUrl == url
    decreases |events|
  {
    hide Next;
    if events != [] {
      var n := |events| - 1;
      FailedExact(site, generation, h, events[..n], url);
      assert forall i :: 0 <= i < n ==> events[..n][i] == events[i];
    }
  }
}
