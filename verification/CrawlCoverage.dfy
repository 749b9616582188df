/** Coverage under every interleaving of any number of threads. */
module CrawlCoverage {
  import opened Crawl
  import opened CrawlOnce
  import opened CrawlRuns
  import opened CrawlThreads
  import opened Documents

  /** The engine with the URLs asked for and found as links on accepted pages, those of
      which a fetch failed, and those claimed from outside and not yet asked for. */
  datatype Watch = Watch(t: Threads, demanded: set<string>, failed: set<string>, waiting: set<string>)

  ghost function Watched(site: Site, generation: int, w: Watch, a: Action): Watch
    requires Possible(w.t, a)
  {
    var t' := Act(site, generation, w.t, a);
    match a
    case Ask(url, _) => Watch(t', w.demanded + {url}, w.failed, w.waiting - {url})
    case ClaimOutside(url, _) => Watch(t', w.demanded, w.failed, w.waiting + {url})
    case Erase(i) =>
      var h := w.t.handlers[i];
      Watch(t', w.demanded, if h.error then w.failed + {h.reply.requestUrl} else w.failed, w.waiting)
    case Write(i) =>
      var h := w.t.handlers[i];
      var found := if h.pending == [] then Targets(site, h.reply, h.data) else {};
      Watch(t', w.demanded + found, w.failed, w.waiting)
    case _ => w.(t := t')
  }

  ghost function Observed(site: Site, generation: int, w: Watch, actions: seq<Action>): (r: Watch)
    requires IsExecution(site, generation, w.t, actions)
    ensures r.t == Executed(site, generation, w.t, actions)
    decreases |actions|
  {
    if actions == [] then w else
    var n := |actions| - 1;
    Watched(site, generation, Observed(site, generation, w, actions[..n]), actions[n])
  }

  /** The handler still has the fetch of the URL to start, or its page to store. */
  predicate Busy(h: Handler, url: string) {
    match h
    case Erasing(_, reply, _, _) => reply.requestUrl == url
    case Replying(reply, _) => reply.requestUrl == url
    case Storing(_, _, _, pending) => url in pending
    case Deciding(_, target, _) => target == url
    case Reclaiming(_, target, _, _) => target == url
    case Queueing(_, target, _, _) => target == url
    case _ => false
  }

  ghost predicate BusyWith(t: Threads, url: string) {
    exists i :: 0 <= i < |t.handlers| && Busy(t.handlers[i], url)
  }

  predicate HasLinks(h: Handler) { h.Scanning? || h.Deciding? || h.Reclaiming? || h.Queueing? }

  /** The handler has a link to the URL still to check. */
  ghost predicate Promises(site: Site, h: Handler, url: string) {
    HasLinks(h) && exists k :: 0 <= k < |h.links| && LeadsTo(site, h.reply, h.links[k], url)
  }

  ghost predicate LeadsTo(site: Site, reply: Reply, link: string, url: string) {
    Passes(site, reply, link) && site.resolved(reply.url, link) == url
  }

  ghost predicate Promised(site: Site, t: Threads, url: string) {
    exists i :: 0 <= i < |t.handlers| && Promises(site, t.handlers[i], url)
  }

  ghost predicate Attended(generation: int, w: Watch, url: string) {
    Outstanding(w.t.s, url) || Fresh(w.t.s, generation, url) || url in w.waiting || BusyWith(w.t, url)
  }

  /** Every claim is attended to; every URL demanded is attended to, failed, or a link to it
      is still to be checked. */
  ghost predicate Covering(site: Site, generation: int, w: Watch) {
    && Stamped(generation, w.t)
    && (forall u :: u in w.t.s.inflight ==> Attended(generation, w, u))
    && (forall u :: u in w.demanded ==> Attended(generation, w, u) || u in w.failed || Promised(site, w.t, u))
  }

  ghost predicate FailsFor(t: Threads, a: Action, url: string)
    requires Possible(t, a)
  {
    a.Erase? && t.handlers[a.i].error && t.handlers[a.i].reply.requestUrl == url
  }

  lemma {:induction false} OutstandingStays(site: Site, generation: int, w: Watch, a: Action, url: string)
    requires Possible(w.t, a) && Outstanding(w.t.s, url)
    ensures Attended(generation, Watched(site, generation, w, a), url)
  {
    hide Passes;
    hide Accepted;
    hide Links;
    hide Targets;
    hide Fresh;
    var w' := Watched(site, generation, w, a);
    if a.Deliver? {
      if w.t.s.queue[a.index].url == url {
        assert Busy(w'.t.handlers[a.i], url);
      } else {
        TakenKeepsOthers(w.t.s, a.index, url);
      }
    } else {
      OutstandingGrows(w.t.s, w'.t.s, url);
    }
  }

  /** The handler that works on the URL goes on with it, or gets it outstanding, stored, or
      failed. */
  lemma {:induction false} BusyGoesOn(site: Site, generation: int, w: Watch, a: Action, i: nat, url: string)
    requires Possible(w.t, a) && Stamped(generation, w.t) && At(w.t, i) && Busy(w.t.handlers[i], url)
    ensures FailsFor(w.t, a, url) || Attended(generation, Watched(site, generation, w, a), url)
  {
    hide Passes;
    hide Accepted;
    hide Links;
    hide Targets;
    var w' := Watched(site, generation, w, a);
    if a.Ask? || a.ClaimOutside? || a.i != i {
      assert Busy(w'.t.handlers[i], url);
    } else if a.Enqueue? {
      assert w'.t.s.queue[|w.t.s.queue|].url == url;
    } else if !FailsFor(w.t, a, url) {
      assert Fresh(w'.t.s, generation, url) || Busy(w'.t.handlers[i], url);
    }
  }

  lemma {:induction false} AttendedStays(site: Site, generation: int, w: Watch, a: Action, url: string)
    requires Possible(w.t, a) && Stamped(generation, w.t) && Attended(generation, w, url)
    ensures FailsFor(w.t, a, url) || Attended(generation, Watched(site, generation, w, a), url)
  {
    hide Act;
    if Outstanding(w.t.s, url) {
      OutstandingStays(site, generation, w, a, url);
    } else if Fresh(w.t.s, generation, url) {
      ActKeepsFresh(site, generation, w.t, a, url);
    } else if url in w.waiting {
      AskedIsOutstanding(site, generation, w, a, url);
    } else {
      var i :| 0 <= i < |w.t.handlers| && Busy(w.t.handlers[i], url);
      BusyGoesOn(site, generation, w, a, i, url);
    }
  }

  lemma {:induction false} AskedIsOutstanding(site: Site, generation: int, w: Watch, a: Action, url: string)
    requires Possible(w.t, a)
    ensures a.Ask? && a.url == url ==> Outstanding(Watched(site, generation, w, a).t.s, url)
  {
    if a.Ask? && a.url == url {
      assert Watched(site, generation, w, a).t.s.queue[|w.t.s.queue|].url == url;
    }
  }

  /** A new claim comes from a thread about to decide, from one that repeats its claim, or
      from outside. */
  lemma {:induction false} NewClaimIsAttended(site: Site, generation: int, w: Watch, a: Action, url: string)
    requires Possible(w.t, a) && url !in w.t.s.inflight && url in Watched(site, generation, w, a).t.s.inflight
    ensures Attended(generation, Watched(site, generation, w, a), url)
  {
    hide Passes;
    hide Accepted;
    hide Links;
    hide Targets;
    if !a.ClaimOutside? {
      assert Busy(Watched(site, generation, w, a).t.handlers[a.i], url);
    }
  }

  lemma {:induction false} FailedIsErased(site: Site, generation: int, w: Watch, a: Action, url: string)
    requires Possible(w.t, a) && FailsFor(w.t, a, url)
    ensures url !in Watched(site, generation, w, a).t.s.inflight && url in Watched(site, generation, w, a).failed
  {
  }

  lemma {:induction false} CheckKeepsPromise(site: Site, generation: int, w: Watch, a: Action, url: string)
    requires Possible(w.t, a) && a.Check? && Promises(site, w.t.handlers[a.i], url) && url !in w.t.s.inflight
    ensures var h' := Watched(site, generation, w, a).t.handlers[a.i];
            Promises(site, h', url) || Busy(h', url)
  {
    hide Passes;
    var h, h' := w.t.handlers[a.i], Watched(site, generation, w, a).t.handlers[a.i];
    var k :| 0 <= k < |h.links| && LeadsTo(site, h.reply, h.links[k], url);
    if k > 0 { assert LeadsTo(site, h'.reply, h'.links[k - 1], url); }
  }

  lemma {:induction false} OthersKeepPromise(site: Site, generation: int, w: Watch, a: Action, i: nat, url: string)
    requires Possible(w.t, a) && At(w.t, i) && Promises(site, w.t.handlers[i], url) && !(a.Check? && a.i == i)
    ensures Promises(site, Watched(site, generation, w, a).t.handlers[i], url)
  {
    hide LeadsTo;
    hide Passes;
    hide Accepted;
    hide Links;
    hide Targets;
    var h, h' := w.t.handlers[i], Watched(site, generation, w, a).t.handlers[i];
    assert HasLinks(h') && h'.reply == h.reply && h'.links == h.links;
  }

  /** A link still to be checked stays so until it is checked; then its URL is claimed by
      this thread or was claimed before. */
  lemma {:induction false} PromisedStays(site: Site, generation: int, w: Watch, a: Action, i: nat, url: string)
    requires Possible(w.t, a) && At(w.t, i) && Promises(site, w.t.handlers[i], url) && url !in w.t.s.inflight
    ensures var w' := Watched(site, generation, w, a);
            Promised(site, w'.t, url) || Attended(generation, w', url)
  {
    hide Promises;
    hide Busy;
    hide Passes;
    hide Accepted;
    hide Links;
    hide Targets;
    if a.Check? && a.i == i {
      CheckKeepsPromise(site, generation, w, a, url);
    } else {
      OthersKeepPromise(site, generation, w, a, i, url);
    }
  }

  lemma {:induction false} DemandIsMet(site: Site, generation: int, w: Watch, a: Action, url: string)
    requires Possible(w.t, a) && url !in w.demanded && url in Watched(site, generation, w, a).demanded
    ensures Attended(generation, Watched(site, generation, w, a), url)
            || Promised(site, Watched(site, generation, w, a).t, url)
  {
    hide Passes;
    hide Accepted;
    hide Links;
    var w' := Watched(site, generation, w, a);
    if a.Ask? {
      AskedIsOutstanding(site, generation, w, a, url);
    } else {
      var h, h' := w.t.handlers[a.i], w'.t.handlers[a.i];
      var link :| link in Links(site, h.reply, h.data) && LeadsTo(site, h.reply, link, url);
      var k :| 0 <= k < |h'.links| && h'.links[k] == link;
      assert LeadsTo(site, h'.reply, h'.links[k], url);
      assert Promises(site, h', url);
    }
  }

  lemma {:induction false} DemandStaysMet(site: Site, generation: int, w: Watch, a: Action, url: string)
    requires Possible(w.t, a) && Covering(site, generation, w) && url in w.demanded
    ensures var w' := Watched(site, generation, w, a);
            Attended(generation, w', url) || url in w'.failed || Promised(site, w'.t, url)
  {
    hide Act;
    hide Attended;
    hide Promises;
    hide Stamped;
    if Attended(generation, w, url) {
      AttendedStays(site, generation, w, a, url);
      if FailsFor(w.t, a, url) { FailedIsErased(site, generation, w, a, url); }
    } else if url !in w.failed {
      var i :| 0 <= i < |w.t.handlers| && Promises(site, w.t.handlers[i], url);
      PromisedStays(site, generation, w, a, i, url);
    }
  }

  lemma {:induction false} StepKeepsCovering(site: Site, generation: int, w: Watch, a: Action)
    requires Possible(w.t, a) && Covering(site, generation, w) && (a.Begin? ==> generation <= a.now)
    ensures Covering(site, generation, Watched(site, generation, w, a))
  {
    hide Act;
    hide Attended;
    hide Promised;
    hide Stamped;
    hide Targets;
    var w' := Watched(site, generation, w, a);
    ActKeepsStamped(site, generation, w.t, a);
    forall u | u in w'.t.s.inflight ensures Attended(generation, w', u) {
      if u in w.t.s.inflight {
        AttendedStays(site, generation, w, a, u);
        if FailsFor(w.t, a, u) { FailedIsErased(site, generation, w, a, u); }
      } else {
        NewClaimIsAttended(site, generation, w, a, u);
      }
    }
    forall u | u in w'.demanded ensures Attended(generation, w', u) || u in w'.failed || Promised(site, w'.t, u) {
      if u in w.demanded {
        DemandStaysMet(site, generation, w, a, u);
      } else {
        DemandIsMet(site, generation, w, a, u);
      }
    }
  }

  lemma {:induction false} ExecutionKeepsCovering(site: Site, generation: int, w: Watch, actions: seq<Action>)
    requires IsExecution(site, generation, w.t, actions) && InTime(generation, actions) && Covering(site, generation, w)
    ensures Covering(site, generation, Observed(site, generation, w, actions))
    decreases |actions|
  {
    hide Covering;
    if actions != [] {
      var n := |actions| - 1;
      assert InTime(generation, actions[..n]);
      ExecutionKeepsCovering(site, generation, w, actions[..n]);
      StepKeepsCovering(site, generation, Observed(site, generation, w, actions[..n]), actions[n]);
    }
  }

  function StartWatch(stored: map<string, Document>, threads: nat): Watch {
    Watch(StartThreads(stored, threads), {}, {}, {})
  }

  /** Nothing outstanding, no thread at work, no claim from outside still to be asked for. */
  ghost predicate AtRest(w: Watch) {
    w.t.s.queue == [] && w.waiting == {} && forall i :: 0 <= i < |w.t.handlers| ==> w.t.handlers[i].Idle?
  }

  /** Coverage: whatever any number of threads have done, when all is at rest every URL
      asked for, and every link that passed on an accepted page, has been stored in this
      generation, or a fetch of it failed. */
  lemma {:induction false} CoverageUnderThreads(site: Site, generation: int, stored: map<string, Document>,
        threads: nat, actions: seq<Action>)
    requires IsExecution(site, generation, StartThreads(stored, threads), actions) && InTime(generation, actions)
    requires AtRest(Observed(site, generation, StartWatch(stored, threads), actions))
    ensures var w := Observed(site, generation, StartWatch(stored, threads), actions);
            forall u :: u in w.demanded ==> Fresh(w.t.s, generation, u) || u in w.failed
  {
    ExecutionKeepsCovering(site, generation, StartWatch(stored, threads), actions);
  }

  /** The history of an execution: what each step adds to the URLs demanded and failed. */
  lemma WatchedExact(site: Site, generation: int, w: Watch, a: Action)
    requires Possible(w.t, a)
    ensures var w' := Watched(site, generation, w, a);
            && (a.Ask? ==> w'.demanded == w.demanded + {a.url})
            && (a.Write? && w.t.handlers[a.i].pending == [] ==>
                  w'.demanded == w.demanded + Targets(site, w.t.handlers[a.i].reply, w.t.handlers[a.i].data))
            && (!a.Ask? && !(a.Write? && w.t.handlers[a.i].pending == []) ==> w'.demanded == w.demanded)
            && w'.failed == if a.Erase? && w.t.handlers[a.i].error then w.failed + {w.t.handlers[a.i].reply.requestUrl}
                            else w.failed
  {
    hide Act;
    hide Targets;
  }
}
