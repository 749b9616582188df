/** Conditional fetches: what a 304 reply (RFC 9110, section 15.4.5) leaves stored. */
module CrawlRefetch {
  import opened Crawl
  import opened CrawlRuns
  import opened Documents

  ghost predicate NotCompleted(events: seq<Event>, url: string) {
    forall i :: 0 <= i < |events| && events[i].Completed? ==> events[i].reply.requestUrl != url
  }

  /** A claim is never overwritten: of several insertions the first one wins until a
      completion of that URL erases it. */
  lemma {:induction false} StepKeepsClaim(site: Site, generation: int, s: State, e: Event, url: string)
    requires Enabled(generation, s, e) && url in s.inflight && NotCompleted([e], url)
    ensures var s' := Next(site, generation, s, e);
            url in s'.inflight && s'.inflight[url] == s.inflight[url]
  {
    assert [e][0] == e;
    if e.Completed? && !e.error {
      CompletionEffect(site, generation, s, e);
    }
  }

  lemma {:induction false} ClaimPersists(site: Site, generation: int, h: History, events: seq<Event>, url: string)
    requires IsRun(site, generation, h, events) && url in h.s.inflight && NotCompleted(events, url)
    ensures var s := After(site, generation, h, events).s;
            url in s.inflight && s.inflight[url] == h.s.inflight[url]
    decreases |events|
  {
    if events != [] {
      var n := |events| - 1;
      ClaimPersists(site, generation, h, events[..n], url);
      StepKeepsClaim(site, generation, After(site, generation, h, events[..n]).s, events[n], url);
    }
  }

  ghost predicate NotModified(e: Event, url: string) {
    e.Completed? && !e.error && e.reply.code == NOT_MODIFIED && e.reply.requestUrl == url
  }

  lemma {:induction false} NotModifiedStoresClaim(site: Site, generation: int, s: State, e: Event, url: string)
    requires Enabled(generation, s, e) && NotModified(e, url) && url in s.inflight
    ensures var s' := Next(site, generation, s, e);
            && url in s'.stored && s'.stored[url] == Document(e.now, url, s.inflight[url].data)
            && e.reply.url in s'.stored && s'.stored[e.reply.url].data == s.inflight[url].data
  {
    CompletionEffect(site, generation, s, e);
  }

  /** A 304 reply stores the data of the record that holds the claim, if no other fetch of
      the URL completed since the claim was made. */
  lemma {:induction false} NotModifiedStoresWinner(site: Site, generation: int, h: History, events: seq<Event>,
        url: string, e: Event)
    requires IsRun(site, generation, h, events) && url in h.s.inflight && NotCompleted(events, url)
    requires Enabled(generation, After(site, generation, h, events).s, e) && NotModified(e, url)
    ensures var s' := Next(site, generation, After(site, generation, h, events).s, e);
            url in s'.stored && s'.stored[url].data == h.s.inflight[url].data
  {
    ClaimPersists(site, generation, h, events, url);
    NotModifiedStoresClaim(site, generation, After(site, generation, h, events).s, e, url);
  }

  /** Through engine::found_in_page_cache the cached document itself is the claim, unless
      the URL was in flight already; a 304 reply then keeps the cached bytes. */
  lemma {:induction false} OutsideRefetchKeepsContent(site: Site, generation: int, h: History, doc: Document,
        events: seq<Event>, url: string, e: Event)
    requires url !in h.s.inflight
    requires IsRun(site, generation, NextHistory(site, generation, h, AskedCached(url, doc)), events)
             && NotCompleted(events, url)
    requires var s := After(site, generation, NextHistory(site, generation, h, AskedCached(url, doc)), events).s;
             Enabled(generation, s, e) && NotModified(e, url)
    ensures var s := After(site, generation, NextHistory(site, generation, h, AskedCached(url, doc)), events).s;
            var s' := Next(site, generation, s, e);
            url in s'.stored && s'.stored[url].data == doc.data
  {
    NotModifiedStoresWinner(site, generation, NextHistory(site, generation, h, AskedCached(url, doc)), events, url, e);
  }

  /** On the link path the empty placeholder is inserted first and wins: a 304 reply for a
      claim that a link made always empties the stored page. */
  lemma {:induction false} LinkRefetchEmptiesContent(site: Site, generation: int, h: History, discovery: Event,
        events: seq<Event>, url: string, e: Event)
    requires discovery.Completed? && Enabled(generation, h.s, discovery)
    requires url !in h.s.inflight && url in Next(site, generation, h.s, discovery).inflight
    requires IsRun(site, generation, NextHistory(site, generation, h, discovery), events) && NotCompleted(events, url)
    requires var s := After(site, generation, NextHistory(site, generation, h, discovery), events).s;
             Enabled(generation, s, e) && NotModified(e, url)
    ensures var s := After(site, generation, NextHistory(site, generation, h, discovery), events).s;
            var s' := Next(site, generation, s, e);
            url in s'.stored && s'.stored[url].data == "" && Fresh(s', generation, url)
    ensures var h' := After(site, generation, NextHistory(site, generation, h, discovery), events);
            NextHistory(site, generation, h', e).demanded == h'.demanded + Targets(site, e.reply, "")
  {
    var h1 := NextHistory(site, generation, h, discovery);
    if !discovery.error {
      CompletionEffect(site, generation, h.s, discovery);
    }
    assert h1.s.inflight[url] == Placeholder(discovery.now);
    NotModifiedStoresWinner(site, generation, h1, events, url, e);
    ClaimPersists(site, generation, h1, events, url);
    CompletionEffect(site, generation, After(site, generation, h1, events).s, e);
  }

  /** The URLs in flight whose claim was made through engine::found_in_page_cache. */
  ghost function OutsideClaims(site: Site, generation: int, h: History, events: seq<Event>): set<string>
    requires IsRun(site, generation, h, events)
    decreases |events|
  {
    if events == [] then {} else
    var n := |events| - 1;
    var before := OutsideClaims(site, generation, h, events[..n]);
    match events[n]
    case Completed(_, reply, _, _, _) => before - {reply.requestUrl}
    case Asked(_) => before
    case AskedCached(url, _) => if url in After(site, generation, h, events[..n]).s.inflight then before
      else before + {url}
  }

  /** A claim not made from outside holds no data. */
  lemma {:induction false} OtherClaimsAreEmpty(site: Site, generation: int, stored: map<string, Document>,
        events: seq<Event>)
    requires IsRun(site, generation, Start(stored), events)
    ensures var s, outside :=
            After(site, generation, Start(stored), events).s, OutsideClaims(site, generation, Start(stored), events);
            outside <= s.inflight.Keys && forall u :: u in s.inflight && u !in outside ==> s.inflight[u].data == ""
    decreases |events|
  {
    if events != [] {
      var n := |events| - 1;
      OtherClaimsAreEmpty(site, generation, stored, events[..n]);
      var s := After(site, generation, Start(stored), events[..n]).s;
      if events[n].Completed? && !events[n].error {
        CompletionEffect(site, generation, s, events[n]);
      }
    }
  }

  /** In every run a 304 reply for a URL without a claim from outside empties the page and
      leaves it fresh, and only the links seen on an empty page are demanded. */
  lemma {:induction false} NotModifiedWithoutOutsideClaim(site: Site, generation: int, stored: map<string, Document>,
        events: seq<Event>, url: string, e: Event)
    requires IsRun(site, generation, Start(stored), events)
    requires var h := After(site, generation, Start(stored), events);
             Enabled(generation, h.s, e) && NotModified(e, url)
    requires url !in OutsideClaims(site, generation, Start(stored), events)
    ensures var h := After(site, generation, Start(stored), events);
            var h' := NextHistory(site, generation, h, e);
            && Fresh(h'.s, generation, url) && h'.s.stored[url].data == ""
            && h'.demanded == h.demanded + Targets(site, e.reply, "")
  {
    OtherClaimsAreEmpty(site, generation, stored, events);
    CompletionEffect(site, generation, After(site, generation, Start(stored), events).s, e);
  }
}
