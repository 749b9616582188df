/** The crawl engine of lib/engine.cpp. The URL library, the parsers and the filters are
    functions of a Site; the storage is a map; the downloader is the list of outstanding
    fetches. Processor callbacks are not part of this model. */
module Crawl {
  import opened Documents
  import opened Ordered

  const NOT_MODIFIED := 304

  /** url() is where the redirects ended, requestUrl what was asked for. */
  datatype Reply = Reply(requestUrl: string, url: string, code: int)

  datatype Site = Site(
    filters: seq<(Reply, string) -> bool>,
    urlFilters: seq<(Reply, string) -> bool>,
    parsers: seq<(Reply, string) -> seq<string>>,
    valid: string -> bool,
    resolved: (string, string) -> string,
    scheme: string -> string,
    host: string -> string)

  /** Who asked for a fetch: a caller of the engine, or the discovery of a link. */
  datatype Origin = Direct | Link

  datatype Condition = Always | IfModifiedSince(ts: int)

  datatype Fetch = Fetch(url: string, condition: Condition, origin: Origin)

  /** The shared state: claims in flight, stored pages, outstanding fetches, page count. */
  datatype State = State(inflight: map<string, Document>, stored: map<string, Document>, queue: seq<Fetch>, total: int)

  datatype DomainFilter = Filter(check: (Reply, string) -> bool) | InvalidUrl

  /** create_domain_filter. */
  function CreateDomainFilter(url: string, resolved: (string, string) -> string, host: string -> string): DomainFilter {
    var baseHost := host(url);
    if baseHost == "" then InvalidUrl
    else Filter((reply: Reply, link: string) => baseHost == host(resolved(reply.url, link)))
  }

  /** The decision of process_reply for one link of a page. */
  ghost predicate Passes(site: Site, reply: Reply, link: string) {
    var target := site.resolved(reply.url, link);
    && site.valid(link) && site.valid(target)
    && (site.scheme(target) == "https" || site.scheme(target) == "http")
    && site.host(target) != "" && target != reply.url
    && forall f :: f in site.urlFilters ==> f(reply, link)
  }

  ghost predicate Accepted(site: Site, reply: Reply, data: string) {
    forall f :: f in site.filters ==> f(reply, data)
  }

  function Parsed(parsers: seq<(Reply, string) -> seq<string>>, reply: Reply, data: string): seq<string> {
    if parsers == [] then [] else
    var n := |parsers| - 1;
    Parsed(parsers[..n], reply, data) + parsers[n](reply, data)
  }

  function Links(site: Site, reply: Reply, data: string): seq<string> {
    SortUnique(Parsed(site.parsers, reply, data))
  }

  /** The links looked at: none on a page that a filter rejects. */
  ghost function AcceptedLinks(site: Site, reply: Reply, data: string): seq<string> {
    if Accepted(site, reply, data) then Links(site, reply, data) else []
  }

  /** std::map::insert: a claim already in flight stays. */
  function Claim(s: State, url: string, doc: Document): State {
    if url in s.inflight then s else s.(inflight := s.inflight[url := doc])
  }

  function Feed(s: State, fetch: Fetch): State {
    s.(queue := s.queue + [fetch])
  }

  function FeedCached(s: State, url: string, doc: Document, origin: Origin): State {
    Feed(Claim(s, url, doc), Fetch(url, IfModifiedSince(doc.ts), origin))
  }

  function Store(s: State, url: string, data: string, ts: int): State {
    s.(stored := s.stored[url := Document(ts, url, data)])
  }

  /** document(): empty, stamped with the current time. */
  function Placeholder(now: int): Document {
    Document(now, "", "")
  }

  /** A link that passed: claim it; fetch it unless it was stored in this generation. */
  function Discover(s: State, generation: int, target: string, now: int): State {
    if target in s.inflight then s else
    var claimed := Claim(s, target, Placeholder(now));
    if target !in s.stored then Feed(claimed, Fetch(target, Always, Link))
    else if Before(s.stored[target].ts, generation) then FeedCached(claimed, target, s.stored[target], Link)
    else claimed
  }

  ghost function DiscoverAll(site: Site, generation: int, s: State, reply: Reply, links: seq<string>, now: int): State {
    if links == [] then s else
    var n := |links| - 1;
    var before := DiscoverAll(site, generation, s, reply, links[..n], now);
    if Passes(site, reply, links[n]) then Discover(before, generation, site.resolved(reply.url, links[n]), now)
    else before
  }

  function StoreReply(s: State, reply: Reply, data: string, now: int): State {
    var s1 := Store(s, reply.url, data, now);
    if reply.url != reply.requestUrl then Store(s1, reply.requestUrl, data, now) else s1
  }

  ghost function AfterReply(site: Site, generation: int, s: State, reply: Reply, data: string, now: int): State {
    var s1 := StoreReply(s.(total := s.total + 1), reply, data, now);
    if Accepted(site, reply, data) then DiscoverAll(site, generation, s1, reply, Links(site, reply, data), now) else s1
  }

  /** The page content that process_url works with: on 304 that of the claim it erased. */
  function Content(s: State, reply: Reply, data: string): string {
    if reply.code != NOT_MODIFIED then data
    else if reply.requestUrl in s.inflight then s.inflight[reply.requestUrl].data
    else ""
  }

  /** process_url as one step. */
  ghost function AfterCompletion(site: Site, generation: int, s: State, reply: Reply, data: string, error: bool,
        now: int): State {
    var erased := s.(inflight := s.inflight - {reply.requestUrl});
    if error then erased else AfterReply(site, generation, erased, reply, Content(s, reply, data), now)
  }

  class EngineData {
    const site: Site
    const generationTime: int
    var inflight: map<string, Document>
    var total: int
    /** The storage. */
    var stored: map<string, Document>
    /** The downloader's outstanding fetches. */
    var queue: seq<Fetch>

    ghost function View(): State
      reads this
    {
      State(inflight, stored, queue, total)
    }

    constructor (site: Site, now: int, stored: map<string, Document>)
      ensures this.site == site && generationTime == now
      ensures View() == State(map[], stored, [], 0)
    {
      this.site, generationTime := site, now;
      inflight, total, this.stored, queue := map[], 0, stored, [];
    }

    /** dmanager::feed. The origin is recorded for reasoning only. */
    method Enqueue(url: string, condition: Condition, origin: Origin)
      modifies this`queue
      ensures View() == Feed(old(View()), Fetch(url, condition, origin))
    {
      queue := queue + [Fetch(url, condition, origin)];
    }

    method Download(url: string, origin: Origin)
      modifies this`queue
      ensures View() == Feed(old(View()), Fetch(url, Always, origin))
    {
      Enqueue(url, Always, origin);
    }

    method FoundInPageCache(url: string, doc: Document, origin: Origin)
      modifies this`inflight, this`queue
      ensures View() == FeedCached(old(View()), url, doc, origin)
    {
      var _ := InflightInsert(url, doc);
      Enqueue(url, IfModifiedSince(doc.ts), origin);
    }

    method InflightInsert(url: string, doc: Document) returns (inserted: bool)
      modifies this`inflight
      ensures inserted == (url !in old(inflight))
      ensures View() == Claim(old(View()), url, doc)
    {
      inserted := url !in inflight;
      if inserted {
        inflight := inflight[url := doc];
      }
    }

    method InflightErase(url: string, now: int) returns (d: Document)
      modifies this`inflight
      ensures d == if url in old(inflight) then old(inflight)[url] else Placeholder(now)
      ensures View() == old(View()).(inflight := old(inflight) - {url})
    {
      d := Placeholder(now);
      if url in inflight {
        d := inflight[url];
        inflight := inflight - {url};
      }
    }

    method StoreDocument(url: string, content: string, ts: int)
      modifies this`stored
      ensures View() == Store(old(View()), url, content, ts)
    {
      stored := stored[url := Document(ts, url, content)];
    }

    method AcceptedByFilters(reply: Reply, data: string) returns (accepted: bool)
      ensures accepted <==> Accepted(site, reply, data)
    {
      accepted := true;
      var i := 0;
      while accepted && i < |site.filters|
        invariant 0 <= i <= |site.filters|
        invariant accepted ==> forall k :: 0 <= k < i ==> site.filters[k](reply, data)
        invariant !accepted ==> exists k :: 0 <= k < |site.filters| && !site.filters[k](reply, data)
      {
        accepted := accepted && site.filters[i](reply, data);
        i := i + 1;
      }
    }

    /** The checks in front of the claim of a link, in their order. */
    method CheckLink(reply: Reply, link: string) returns (ok: bool)
      ensures ok <==> Passes(site, reply, link)
    {
      if !site.valid(link) {
        return false;
      }
      var requestUrl := site.resolved(reply.url, link);
      if !site.valid(requestUrl) {
        return false;
      }
      if site.scheme(requestUrl) != "https" && site.scheme(requestUrl) != "http" {
        return false;
      }
      if site.host(requestUrl) == "" || requestUrl == reply.url {
        return false;
      }
      ok := true;
      var i := 0;
      while ok && i < |site.urlFilters|
        invariant 0 <= i <= |site.urlFilters|
        invariant ok ==> forall k :: 0 <= k < i ==> site.urlFilters[k](reply, link)
        invariant !ok ==> exists k :: 0 <= k < |site.urlFilters| && !site.urlFilters[k](reply, link)
      {
        ok := ok && site.urlFilters[i](reply, link);
        i := i + 1;
      }
    }

    /** The body of the link loop of process_reply. */
    method ProcessLink(reply: Reply, link: string, now: int)
      modifies this`inflight, this`queue
      ensures View() == if Passes(site, reply, link)
              then Discover(old(View()), generationTime, site.resolved(reply.url, link), now) else old(View())
    {
      var ok := CheckLink(reply, link);
      if ok {
        var requestUrl := site.resolved(reply.url, link);
        var inserted := InflightInsert(requestUrl, Placeholder(now));
        if !inserted {
          return;
        }
        if requestUrl !in stored {
          Download(requestUrl, Link);
        } else {
          var doc := stored[requestUrl];
          var willProcess := Before(doc.ts, generationTime);
          if willProcess {
            FoundInPageCache(requestUrl, doc, Link);
          }
        }
      }
    }

    method ProcessReply(reply: Reply, data: string, now: int)
      modifies this
      ensures View() == AfterReply(site, generationTime, old(View()), reply, data, now)
    {
      var accepted := AcceptedByFilters(reply, data);
      total := total + 1;
      StoreDocument(reply.url, data, now);
      if reply.url != reply.requestUrl {
        StoreDocument(reply.requestUrl, data, now);
      }
      if accepted {
        var urls := [];
        for i := 0 to |site.parsers|
          invariant urls == Parsed(site.parsers[..i], reply, data)
        {
          assert site.parsers[..i + 1][..i] == site.parsers[..i];
          urls := urls + site.parsers[i](reply, data);
        }
        assert site.parsers[..|site.parsers|] == site.parsers;
        urls := SortUnique(urls);
        ghost var before := View();
        for i := 0 to |urls|
          invariant View() == DiscoverAll(site, generationTime, before, reply, urls[..i], now)
        {
          assert urls[..i + 1][..i] == urls[..i];
          ProcessLink(reply, urls[i], now);
        }
        assert urls[..|urls|] == urls;
      }
    }

    method ProcessUrl(reply: Reply, data: string, error: bool, now: int)
      modifies this
      ensures View() == AfterCompletion(site, generationTime, old(View()), reply, data, error, now)
    {
      var oldDoc := InflightErase(reply.requestUrl, now);
      if error {
        return;
      }
      if reply.code != NOT_MODIFIED {
        ProcessReply(reply, data, now);
      } else {
        ProcessReply(reply, oldDoc.data, now);
      }
    }
  }
}
