/** Reachability under every interleaving of any number of threads. */
module CrawlThreadReach {
  import opened Crawl
  import opened CrawlCoverage
  import opened CrawlOnce
  import opened CrawlReach
  import opened CrawlRuns
  import opened CrawlThreads
  import opened Documents

  /** What comes from outside agrees with the web. */
  ghost predicate HonestAction(site: Site, web: string -> Page, a: Action) {
    match a
    case Deliver(_, _, reply, data, error) =>
      !error ==>
        && reply.url == web(reply.requestUrl).url
        && (reply.code != NOT_MODIFIED ==> Targets(site, reply, data) == web(reply.requestUrl).targets)
    case ClaimOutside(url, doc) => Shows(site, web, url, doc.data)
    case _ => true
  }

  /** The URLs in flight whose claim holds a document: one given from outside, or the stored
      one of a thread that found its own claim erased. */
  ghost function Documented(t: Threads, documented: set<string>, a: Action): set<string>
    requires Possible(t, a)
  {
    match a
    case ClaimOutside(url, _) => if url in t.s.inflight then documented else documented + {url}
    case Reclaim(i) =>
      var target := t.handlers[i].target;
      if target in t.s.inflight then documented else documented + {target}
    case Erase(i) => documented - {t.handlers[i].reply.requestUrl}
    case _ => documented
  }

  /** A successful 304 finds a claim that holds a document, or a page that has the same links
      when it is empty; a stored document that becomes a claim shows its page. */
  ghost predicate GuardedAction(site: Site, web: string -> Page, t: Threads, documented: set<string>, a: Action)
    requires Possible(t, a)
  {
    match a
    case Erase(i) =>
      var h := t.handlers[i];
      !h.error && h.reply.code == NOT_MODIFIED && h.reply.requestUrl !in documented ==>
        Targets(site, h.reply, "") == web(h.reply.requestUrl).targets
    case Reclaim(i) =>
      var h := t.handlers[i];
      h.target !in t.s.inflight ==> Shows(site, web, h.target, h.doc.data)
    case _ => true
  }

  ghost function DocumentedAfter(site: Site, generation: int, t: Threads, actions: seq<Action>): set<string>
    requires IsExecution(site, generation, t, actions)
    decreases |actions|
  {
    if actions == [] then {} else
    var n := |actions| - 1;
    Documented(Executed(site, generation, t, actions[..n]), DocumentedAfter(site, generation, t, actions[..n]),
      actions[n])
  }

  ghost predicate GuardedExecution(site: Site, generation: int, web: string -> Page, t: Threads, actions: seq<Action>)
    requires IsExecution(site, generation, t, actions)
    decreases |actions|
  {
    actions == [] ||
    var n := |actions| - 1;
    && GuardedExecution(site, generation, web, t, actions[..n])
    && HonestAction(site, web, actions[n])
    && GuardedAction(site, web, Executed(site, generation, t, actions[..n]),
                     DocumentedAfter(site, generation, t, actions[..n]), actions[n])
  }

  /** The claims that hold a document show their pages; the others hold nothing. */
  ghost predicate ClaimsShow(site: Site, web: string -> Page, s: State, documented: set<string>) {
    && (forall u :: u in documented ==> u in s.inflight && Shows(site, web, u, s.inflight[u].data))
    && (forall u :: u in s.inflight && u !in documented ==> s.inflight[u].data == "")
  }

  /** The page in the hands of a thread has the links that the web shows. */
  ghost predicate Tells(site: Site, web: string -> Page, h: Handler) {
    match h
    case Erasing(_, reply, data, error) =>
      !error ==>
        && reply.url == web(reply.requestUrl).url
        && (reply.code != NOT_MODIFIED ==> Targets(site, reply, data) == web(reply.requestUrl).targets)
    case Replying(reply, data) => TellsPage(site, web, reply, data)
    case Storing(reply, data, _, pending) =>
      TellsPage(site, web, reply, data) && forall k :: 0 <= k < |pending| ==> pending[k] in Keys(reply)
    case _ => true
  }

  ghost predicate TellsPage(site: Site, web: string -> Page, reply: Reply, data: string) {
    reply.url == web(reply.requestUrl).url && Targets(site, reply, data) == web(reply.requestUrl).targets
  }

  ghost predicate AllTell(site: Site, web: string -> Page, t: Threads) {
    forall i :: 0 <= i < |t.handlers| ==> Tells(site, web, t.handlers[i])
  }

  lemma {:induction false} ActKeepsClaims(site: Site, generation: int, web: string -> Page, t: Threads,
        documented: set<string>, a: Action)
    requires Possible(t, a) && ClaimsShow(site, web, t.s, documented)
    requires HonestAction(site, web, a) && GuardedAction(site, web, t, documented, a)
    ensures ClaimsShow(site, web, Act(site, generation, t, a).s, Documented(t, documented, a))
  {
    hide Passes;
    hide Accepted;
    hide Links;
    hide Targets;
    hide Shows;
  }

  /** After erasing a claim a thread has the links of the page if and only if it was guarded. */
  lemma {:induction false} ErasedTells(site: Site, web: string -> Page, t: Threads, documented: set<string>, i: nat)
    requires Possible(t, Erase(i)) && ClaimsShow(site, web, t.s, documented) && Tells(site, web, t.handlers[i])
    ensures Tells(site, web, Erased(t, i).handlers[i]) <==> GuardedAction(site, web, t, documented, Erase(i))
  {
    hide Targets;
  }

  lemma {:induction false} ActKeepsTelling(site: Site, generation: int, web: string -> Page, t: Threads,
        documented: set<string>, a: Action)
    requires Possible(t, a) && ClaimsShow(site, web, t.s, documented) && AllTell(site, web, t)
    requires HonestAction(site, web, a) && GuardedAction(site, web, t, documented, a)
    ensures AllTell(site, web, Act(site, generation, t, a))
  {
    hide Passes;
    hide Accepted;
    hide Links;
    hide Targets;
    hide TellsPage;
    hide ClaimsShow;
    hide GuardedAction;
    var t' := Act(site, generation, t, a);
    if a.Erase? {
      assert Tells(site, web, t.handlers[a.i]);
      ErasedTells(site, web, t, documented, a.i);
    }
    forall k | 0 <= k < |t'.handlers| ensures Tells(site, web, t'.handlers[k]) {
      assert Tells(site, web, t.handlers[k]);
      if a.Begin? && k == a.i { BegunTells(site, web, t, a.i, a.now); }
    }
  }

  lemma BegunTells(site: Site, web: string -> Page, t: Threads, i: nat, now: int)
    requires At(t, i) && t.handlers[i].Replying? && Tells(site, web, t.handlers[i])
    ensures Tells(site, web, Begun(t, i, now).handlers[i])
  {
    hide TellsPage;
  }

  /** The thread has the page of the URL and is still in front of its links. */
  ghost predicate Expecting(h: Handler, url: string) {
    h.Storing? && url in Keys(h.reply)
  }

  ghost predicate ExpectedBy(t: Threads, url: string) {
    exists i :: 0 <= i < |t.handlers| && Expecting(t.handlers[i], url)
  }

  /** The links of the page have been demanded, or a thread is about to look at them. */
  ghost predicate Opened(web: string -> Page, w: Watch, url: string) {
    web(url).targets <= w.demanded || ExpectedBy(w.t, url)
  }

  ghost predicate AllOpened(web: string -> Page, generation: int, w: Watch) {
    forall u :: Fresh(w.t.s, generation, u) ==> Opened(web, w, u)
  }

  /** A page becomes fresh only in the hands of a thread that still has its links to check. */
  lemma {:induction false} NewlyFreshIsExpected(site: Site, generation: int, web: string -> Page, w: Watch, a: Action,
        url: string)
    requires Possible(w.t, a) && AllTell(site, web, w.t)
    requires !Fresh(w.t.s, generation, url) && Fresh(Watched(site, generation, w, a).t.s, generation, url)
    ensures ExpectedBy(Watched(site, generation, w, a).t, url)
  {
    hide Passes;
    hide Accepted;
    hide Links;
    hide Targets;
    hide TellsPage;
    assert a.Write? && w.t.handlers[a.i].pending != [] && w.t.handlers[a.i].pending[0] == url;
    assert Tells(site, web, w.t.handlers[a.i]);
    assert Expecting(Watched(site, generation, w, a).t.handlers[a.i], url);
  }

  /** When a thread starts on the links of a page, it demands what the web shows for both of
      its URLs. */
  lemma {:induction false} ScanOpens(site: Site, generation: int, web: string -> Page, w: Watch, i: nat, url: string)
    requires Possible(w.t, Write(i)) && w.t.handlers[i].pending == []
    requires Tells(site, web, w.t.handlers[i]) && RedirectsSettle(web) && Expecting(w.t.handlers[i], url)
    ensures web(url).targets <= Watched(site, generation, w, Write(i)).demanded
  {
    hide Targets;
    hide Act;
    var h := w.t.handlers[i];
    assert web(h.reply.url) == web(h.reply.requestUrl);
    assert web(url).targets == Targets(site, h.reply, h.data);
  }

  lemma {:induction false} ExpectingGoesOn(site: Site, generation: int, w: Watch, a: Action, i: nat, url: string)
    requires Possible(w.t, a) && At(w.t, i) && Expecting(w.t.handlers[i], url)
    requires !(a == Write(i) && w.t.handlers[i].pending == [])
    ensures At(Watched(site, generation, w, a).t, i) && Expecting(Watched(site, generation, w, a).t.handlers[i], url)
  {
    hide Passes;
    hide Accepted;
    hide Links;
    hide Targets;
    hide Keys;
  }

  lemma {:induction false} ExpectedStays(site: Site, generation: int, web: string -> Page, w: Watch, a: Action,
        url: string)
    requires Possible(w.t, a) && AllTell(site, web, w.t) && RedirectsSettle(web) && ExpectedBy(w.t, url)
    ensures Opened(web, Watched(site, generation, w, a), url)
  {
    hide Act;
    hide Watched;
    hide Tells;
    hide Expecting;
    hide RedirectsSettle;
    var i: nat :| i < |w.t.handlers| && Expecting(w.t.handlers[i], url);
    if a == Write(i) && w.t.handlers[i].pending == [] {
      ScanOpens(site, generation, web, w, i, url);
    } else {
      ExpectingGoesOn(site, generation, w, a, i, url);
    }
  }

  lemma DemandedGrows(site: Site, generation: int, w: Watch, a: Action)
    requires Possible(w.t, a)
    ensures w.demanded <= Watched(site, generation, w, a).demanded
  {
    hide Act;
    hide Targets;
  }

  lemma {:induction false} ActKeepsOpened(site: Site, generation: int, web: string -> Page, w: Watch, a: Action)
    requires Possible(w.t, a) && AllTell(site, web, w.t) && RedirectsSettle(web) && AllOpened(web, generation, w)
    ensures AllOpened(web, generation, Watched(site, generation, w, a))
  {
    hide Watched;
    hide ExpectedBy;
    hide AllTell;
    hide RedirectsSettle;
    hide Fresh;
    var w' := Watched(site, generation, w, a);
    DemandedGrows(site, generation, w, a);
    forall u | Fresh(w'.t.s, generation, u) ensures Opened(web, w', u) {
      if !Fresh(w.t.s, generation, u) {
        NewlyFreshIsExpected(site, generation, web, w, a, u);
      } else if ExpectedBy(w.t, u) {
        ExpectedStays(site, generation, web, w, a, u);
      }
    }
  }

  lemma {:induction false} ExecutionKeepsOpened(site: Site, generation: int, web: string -> Page, w: Watch,
        actions: seq<Action>)
    requires IsExecution(site, generation, w.t, actions) && GuardedExecution(site, generation, web, w.t, actions)
    requires RedirectsSettle(web) && AllOpened(web, generation, w)
    requires ClaimsShow(site, web, w.t.s, {}) && AllTell(site, web, w.t)
    ensures var w' := Observed(site, generation, w, actions);
            && AllOpened(web, generation, w') && AllTell(site, web, w'.t)
            && ClaimsShow(site, web, w'.t.s, DocumentedAfter(site, generation, w.t, actions))
    decreases |actions|
  {
    hide AllOpened;
    hide AllTell;
    hide ClaimsShow;
    hide RedirectsSettle;
    hide HonestAction;
    hide GuardedAction;
    hide Documented;
    hide Act;
    if actions != [] {
      var n := |actions| - 1;
      ExecutionKeepsOpened(site, generation, web, w, actions[..n]);
      var before, documented :=
        Observed(site, generation, w, actions[..n]), DocumentedAfter(site, generation, w.t, actions[..n]);
      ActKeepsOpened(site, generation, web, before, actions[n]);
      ActKeepsTelling(site, generation, web, before.t, documented, actions[n]);
      ActKeepsClaims(site, generation, web, before.t, documented, actions[n]);
      WatchedActs(site, generation, before, actions[n]);
    }
  }

  lemma WatchedActs(site: Site, generation: int, w: Watch, a: Action)
    requires Possible(w.t, a)
    ensures Watched(site, generation, w, a).t == Act(site, generation, w.t, a)
  {
    hide Act;
  }

  lemma {:induction false} AskedStaysDemanded(site: Site, generation: int, w: Watch, actions: seq<Action>, url: string,
        condition: Condition)
    requires IsExecution(site, generation, w.t, actions) && Ask(url, condition) in actions
    ensures url in Observed(site, generation, w, actions).demanded
    decreases |actions|
  {
    hide Act;
    hide Targets;
    var n := |actions| - 1;
    if actions[n] != Ask(url, condition) {
      AskedStaysDemanded(site, generation, w, actions[..n], url, condition);
      DemandedGrows(site, generation, Observed(site, generation, w, actions[..n]), actions[n]);
    }
  }

  lemma AtRestAllExpanded(web: string -> Page, generation: int, w: Watch)
    requires AllOpened(web, generation, w) && AtRest(w)
    ensures Expanded(web, History(w.t.s, w.demanded, w.failed), generation)
  {
    forall u | Fresh(w.t.s, generation, u) ensures web(u).targets <= w.demanded {
      assert Opened(web, w, u);
    }
  }

  /** Whatever any number of threads have done, when all is at rest every URL reachable from
      the seed through pages of which no fetch failed is stored in this generation, if the
      replies are honest and every 304 is guarded. */
  lemma {:induction false} ReachableUnderThreads(site: Site, generation: int, web: string -> Page,
        stored: map<string, Document>, threads: nat, actions: seq<Action>, path: seq<string>, condition: Condition)
    requires forall u :: u in stored ==> Before(stored[u].ts, generation)
    requires IsExecution(site, generation, StartThreads(stored, threads), actions) && InTime(generation, actions)
    requires GuardedExecution(site, generation, web, StartThreads(stored, threads), actions) && RedirectsSettle(web)
    requires IsPath(web, path) && Ask(path[0], condition) in actions
    requires var w := Observed(site, generation, StartWatch(stored, threads), actions);
             AtRest(w) && forall i :: 0 <= i < |path| ==> path[i] !in w.failed
    ensures Fresh(Observed(site, generation, StartWatch(stored, threads), actions).t.s, generation, path[|path| - 1])
  {
    var start := StartWatch(stored, threads);
    var w := Observed(site, generation, start, actions);
    CoverageUnderThreads(site, generation, stored, threads, actions);
    ExecutionKeepsOpened(site, generation, web, start, actions);
    AskedStaysDemanded(site, generation, start, actions, path[0], condition);
    AtRestAllExpanded(web, generation, w);
    PathIsStored(web, History(w.t.s, w.demanded, w.failed), generation, path);
  }
}
