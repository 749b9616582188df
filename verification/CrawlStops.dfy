/** Termination of the crawl under every interleaving of any number of threads. */
module CrawlStops {
  import opened Crawl
  import opened CrawlCoverage
  import opened CrawlOnce
  import opened CrawlProgress
  import opened CrawlRuns
  import opened CrawlThreads
  import opened Documents

  /** A step of a thread, not a request from outside. */
  predicate OfThread(a: Action) { !a.Ask? && !a.ClaimOutside? }

  /** The handler works on URLs of the universe; the URL asked for is stored, or is yet to be
      stored, before the links of its page are looked at. */
  ghost predicate SoundHandler(generation: int, s: State, h: Handler, universe: set<string>) {
    match h
    case Erasing(_, reply, _, _) => reply.requestUrl in universe
    case Replying(reply, _) => reply.requestUrl in universe
    case Storing(reply, _, ts, pending) =>
      reply.requestUrl in universe && generation <= ts
        && (reply.requestUrl in pending || Fresh(s, generation, reply.requestUrl))
    case Deciding(_, target, _) => target in universe
    case Reclaiming(_, target, _, _) => target in universe
    case Queueing(_, target, _, _) => target in universe
    case _ => true
  }

  ghost predicate Sound(generation: int, t: Threads, universe: set<string>) {
    QueueIn(t.s, universe) && forall i :: 0 <= i < |t.handlers| ==>
      SoundHandler(generation, t.s, t.handlers[i], universe)
  }

  /** The links that the handler has still to check lead into the universe. */
  ghost predicate LinksWithin(site: Site, h: Handler, universe: set<string>) {
    HasLinks(h) ==> forall k :: 0 <= k < |h.links| ==> LinkWithin(site, h.reply, h.links[k], universe)
  }

  ghost predicate LinkWithin(site: Site, reply: Reply, link: string, universe: set<string>) {
    Passes(site, reply, link) ==> site.resolved(reply.url, link) in universe
  }

  ghost predicate AllLinksWithin(site: Site, t: Threads, universe: set<string>) {
    forall i :: 0 <= i < |t.handlers| ==> LinksWithin(site, t.handlers[i], universe)
  }

  /** What the step brings in from outside stays in the universe: the URL asked for, or the
      links of the page that the thread starts to look at. */
  ghost predicate Allowed(site: Site, generation: int, t: Threads, a: Action, universe: set<string>) {
    && Possible(t, a) && (a.Begin? ==> generation <= a.now) && (a.Ask? ==> a.url in universe)
    && (a.Write? && t.handlers[a.i].pending == [] ==>
          Targets(site, t.handlers[a.i].reply, t.handlers[a.i].data) <= universe)
  }

  lemma {:induction false} PageLinksWithin(site: Site, reply: Reply, data: string, universe: set<string>)
    requires Targets(site, reply, data) <= universe
    ensures LinksWithin(site, Scanning(reply, AcceptedLinks(site, reply, data)), universe)
  {
    hide Passes;
    if Accepted(site, reply, data) {
      forall link | link in Links(site, reply, data) ensures LinkWithin(site, reply, link, universe) {
        if Passes(site, reply, link) { assert site.resolved(reply.url, link) in Targets(site, reply, data); }
      }
    }
  }

  lemma {:induction false} ActKeepsLinks(site: Site, generation: int, t: Threads, a: Action, universe: set<string>)
    requires Allowed(site, generation, t, a, universe) && AllLinksWithin(site, t, universe)
    ensures AllLinksWithin(site, Act(site, generation, t, a), universe)
  {
    hide Passes;
    hide Accepted;
    hide Links;
    hide Targets;
    hide LinkWithin;
    var t' := Act(site, generation, t, a);
    if a.Write? && t.handlers[a.i].pending == [] {
      PageLinksWithin(site, t.handlers[a.i].reply, t.handlers[a.i].data, universe);
    }
    forall k | 0 <= k < |t'.handlers| ensures LinksWithin(site, t'.handlers[k], universe) {
      assert LinksWithin(site, t.handlers[k], universe);
    }
  }

  lemma {:induction false} CheckedIsSound(site: Site, generation: int, t: Threads, i: nat, now: int,
        universe: set<string>)
    requires At(t, i) && t.handlers[i].Scanning? && LinksWithin(site, t.handlers[i], universe)
    ensures var t' := Checked(site, t, i, now);
            SoundHandler(generation, t'.s, t'.handlers[i], universe)
  {
    hide Passes;
    var h := t.handlers[i];
    if h.links != [] { assert LinkWithin(site, h.reply, h.links[0], universe); }
  }

  lemma {:induction false} ActedHandlerIsSound(site: Site, generation: int, t: Threads, a: Action,
        universe: set<string>)
    requires Allowed(site, generation, t, a, universe) && OfThread(a)
    requires Sound(generation, t, universe) && AllLinksWithin(site, t, universe)
    ensures var t' := Act(site, generation, t, a);
            SoundHandler(generation, t'.s, t'.handlers[a.i], universe)
  {
    assert SoundHandler(generation, t.s, t.handlers[a.i], universe);
    if a.Check? {
      hide Passes;
      hide Checked;
      hide SoundHandler;
      CheckedIsSound(site, generation, t, a.i, a.now, universe);
    } else {
      hide Passes;
      hide Accepted;
      hide Links;
      hide Targets;
      hide AllLinksWithin;
    }
  }

  lemma {:induction false} ActKeepsSound(site: Site, generation: int, t: Threads, a: Action, universe: set<string>)
    requires Allowed(site, generation, t, a, universe) && Sound(generation, t, universe)
             && AllLinksWithin(site, t, universe)
    ensures Sound(generation, Act(site, generation, t, a), universe)
  {
    hide Passes;
    hide Accepted;
    hide Links;
    hide Targets;
    hide AllLinksWithin;
    var t' := Act(site, generation, t, a);
    SoundIsStamped(generation, t, universe);
    forall u | Fresh(t.s, generation, u) ensures Fresh(t'.s, generation, u) {
      ActKeepsFresh(site, generation, t, a, u);
    }
    if OfThread(a) { ActedHandlerIsSound(site, generation, t, a, universe); }
    hide SoundHandler;
    hide Fresh;
    assert QueueIn(t'.s, universe) by {
      if a.Enqueue? { SoundTarget(generation, t, a.i, universe); }
    }
    assert forall k :: 0 <= k < |t'.handlers| && (!OfThread(a) || k != a.i) ==> t'.handlers[k] == t.handlers[k];
    forall k | 0 <= k < |t'.handlers| ensures SoundHandler(generation, t'.s, t'.handlers[k], universe) {
      if !OfThread(a) || k != a.i { SoundHandlerStays(generation, t.s, t'.s, t.handlers[k], universe); }
    }
  }

  lemma SoundTarget(generation: int, t: Threads, i: nat, universe: set<string>)
    requires Sound(generation, t, universe) && At(t, i) && t.handlers[i].Queueing?
    ensures t.handlers[i].target in universe
  {
    assert SoundHandler(generation, t.s, t.handlers[i], universe);
  }

  lemma SoundHandlerStays(generation: int, s: State, s': State, h: Handler, universe: set<string>)
    requires SoundHandler(generation, s, h, universe)
    requires forall u :: Fresh(s, generation, u) ==> Fresh(s', generation, u)
    ensures SoundHandler(generation, s', h, universe)
  {
    hide Fresh;
  }

  /** Whether the handler works on a fetch, or is past its decision on one, of a URL that is
      fresh. */
  function FreshWork(h: Handler, s: State, generation: int): nat {
    match h
    case Erasing(_, reply, _, _) => if Fresh(s, generation, reply.requestUrl) then 1 else 0
    case Replying(reply, _) => if Fresh(s, generation, reply.requestUrl) then 1 else 0
    case Storing(reply, _, _, _) => if Fresh(s, generation, reply.requestUrl) then 1 else 0
    case Reclaiming(_, target, _, _) => if Fresh(s, generation, target) then 1 else 0
    case Queueing(_, target, _, _) => if Fresh(s, generation, target) then 1 else 0
    case _ => 0
  }

  function FreshWorks(handlers: seq<Handler>, s: State, generation: int): nat {
    if handlers == [] then 0 else
    var n := |handlers| - 1;
    FreshWorks(handlers[..n], s, generation) + FreshWork(handlers[n], s, generation)
  }

  const FETCH := 6
  const LINK := 10

  /** A bound on the steps until the handler is idle or starts on the links of a page. */
  function Weight(h: Handler): nat {
    match h
    case Idle => 0
    case Erasing(_, _, _, _) => 5
    case Replying(_, _) => 4
    case Storing(_, _, _, pending) => 1 + |pending|
    case Scanning(_, links) => 1 + LINK * |links|
    case Deciding(_, _, links) => FETCH + 4 + LINK * |links|
    case Reclaiming(_, _, _, links) => FETCH + 3 + LINK * |links|
    case Queueing(_, _, _, links) => FETCH + 2 + LINK * |links|
  }

  function Weights(handlers: seq<Handler>): nat {
    if handlers == [] then 0 else
    var n := |handlers| - 1;
    Weights(handlers[..n]) + Weight(handlers[n])
  }

  lemma {:induction false} SumsUpdate(handlers: seq<Handler>, i: nat, h: Handler, s: State, generation: int)
    requires i < |handlers|
    ensures FreshWorks(handlers[i := h], s, generation) + FreshWork(handlers[i], s, generation) ==
            FreshWorks(handlers, s, generation) + FreshWork(h, s, generation)
    ensures Weights(handlers[i := h]) + Weight(handlers[i]) == Weights(handlers) + Weight(h)
    decreases |handlers|
  {
    hide FreshWork;
    hide Weight;
    var n := |handlers| - 1;
    if i == n {
      assert handlers[i := h][..n] == handlers[..n];
    } else {
      assert handlers[i := h][..n] == handlers[..n][i := h];
      SumsUpdate(handlers[..n], i, h, s, generation);
    }
  }

  lemma {:induction false} FreshWorksSame(handlers: seq<Handler>, s: State, s': State, generation: int,
        universe: set<string>)
    requires forall i :: 0 <= i < |handlers| ==> SoundHandler(generation, s', handlers[i], universe)
    requires forall u :: u in universe ==> (Fresh(s, generation, u) <==> Fresh(s', generation, u))
    ensures FreshWorks(handlers, s, generation) == FreshWorks(handlers, s', generation)
  {
    hide Fresh;
    if handlers != [] {
      assert SoundHandler(generation, s', handlers[|handlers| - 1], universe);
      FreshWorksSame(handlers[..|handlers| - 1], s, s', generation, universe);
    }
  }

  /** Fetches of fresh URLs, outstanding, about to be asked for, or being worked on; the
      freshness is that of the given state. */
  function FreshTokens(t: Threads, s: State, generation: int): nat {
    FreshFetches(t.s.queue, s, generation) + FreshWorks(t.handlers, s, generation)
  }

  function Load(t: Threads): nat { FETCH * |t.s.queue| + Weights(t.handlers) }

  ghost predicate Moves(generation: int, t: Threads, t': Threads) {
    var (b, b') := (FreshTokens(t, t.s, generation), FreshTokens(t', t.s, generation));
    b' < b || (b' == b && Load(t') < Load(t))
  }

  lemma {:induction false} DeliverMoves(generation: int, t: Threads, i: nat, index: nat, reply: Reply, data: string,
        error: bool)
    requires Possible(t, Deliver(i, index, reply, data, error))
    ensures Moves(generation, t, Delivered(t, i, index, reply, data, error))
  {
    hide Fresh;
    SumsUpdate(t.handlers, i, Erasing(t.s.queue[index], reply, data, error), t.s, generation);
    hide FreshFetches;
    hide FreshWorks;
    hide Weights;
    TakenFreshFetches(t.s, index, generation);
  }

  lemma {:induction false} EnqueueMoves(generation: int, t: Threads, i: nat)
    requires Possible(t, Enqueue(i))
    ensures Moves(generation, t, Enqueued(t, i))
  {
    hide Fresh;
    var h := t.handlers[i];
    SumsUpdate(t.handlers, i, Scanning(h.reply, h.links), t.s, generation);
    hide FreshWorks;
    hide Weights;
    FreshFetchesConcat(t.s.queue, [Fetch(h.target, h.condition, Link)], t.s, generation);
    OneFreshFetch(Fetch(h.target, h.condition, Link), t.s, generation);
    hide FreshFetches;
  }

  lemma {:induction false} WrittenMoves(site: Site, generation: int, t: Threads, i: nat, universe: set<string>)
    requires Possible(t, Write(i)) && Sound(generation, t, universe)
    ensures HandlerLess(generation, t, Written(site, t, i), i)
  {
    assert SoundHandler(generation, t.s, t.handlers[i], universe);
    hide Fresh;
    hide Accepted;
    hide Links;
  }

  lemma {:induction false} CheckedMoves(site: Site, generation: int, t: Threads, i: nat, now: int)
    requires Possible(t, Check(i, now))
    ensures HandlerLess(generation, t, Checked(site, t, i, now), i)
  {
    hide Passes;
    hide Fresh;
  }

  ghost predicate HandlerLess(generation: int, t: Threads, t': Threads, i: nat)
    requires At(t, i) && At(t', i)
  {
    var h, h' := t.handlers[i], t'.handlers[i];
    && t'.handlers == t.handlers[i := h'] && t'.s.queue == t.s.queue
    && (FreshWork(h', t.s, generation) < FreshWork(h, t.s, generation) ||
        (FreshWork(h', t.s, generation) == FreshWork(h, t.s, generation) && Weight(h') < Weight(h)))
  }

  /** The handler's own share of the measure goes down, if it leaves the downloader alone. */
  lemma {:induction false} HandlerMoves(site: Site, generation: int, t: Threads, a: Action, universe: set<string>)
    requires Possible(t, a) && OfThread(a) && (a.Decide? ==> a.readable)
    requires !a.Deliver? && !a.Enqueue? && Sound(generation, t, universe)
    ensures HandlerLess(generation, t, Act(site, generation, t, a), a.i)
  {
    hide Passes;
    if a.Write? {
      hide HandlerLess;
      WrittenMoves(site, generation, t, a.i, universe);
    } else if a.Decide? {
      DecidedOnStale(generation, t, a.i);
    } else if a.Check? {
      hide HandlerLess;
      CheckedMoves(site, generation, t, a.i, a.now);
    } else {
      hide Fresh;
    }
  }

  /** With the freshness of the state before it, a step of a thread starts on the links of a
      page of a fresh URL, or shortens the work and starts no fetch of a fresh URL. */
  lemma {:induction false} TokensMove(site: Site, generation: int, t: Threads, a: Action, universe: set<string>)
    requires Possible(t, a) && OfThread(a) && (a.Decide? ==> a.readable) && Sound(generation, t, universe)
    ensures Moves(generation, t, Act(site, generation, t, a))
  {
    if a.Deliver? {
      DeliverMoves(generation, t, a.i, a.index, a.reply, a.data, a.error);
    } else if a.Enqueue? {
      EnqueueMoves(generation, t, a.i);
    } else {
      HandlerMoves(site, generation, t, a, universe);
      hide Act;
      hide FreshWork;
      hide Weight;
      SumsUpdate(t.handlers, a.i, Act(site, generation, t, a).handlers[a.i], t.s, generation);
      hide FreshFetches;
      hide FreshWorks;
      hide Weights;
    }
  }

  lemma OneFreshFetch(fetch: Fetch, s: State, generation: int)
    ensures FreshFetches([fetch], s, generation) == if Fresh(s, generation, fetch.url) then 1 else 0
  {
    assert [fetch][..0] == [];
  }

  lemma DecidedOnStale(generation: int, t: Threads, i: nat)
    requires At(t, i) && t.handlers[i].Deciding?
    ensures FreshWork(Decided(generation, t, i, true).handlers[i], t.s, generation) == 0
  {
  }

  /** Lexicographic: URLs not yet stored in this generation, then fetches of fresh URLs, then
      the work left. */
  ghost predicate Lessens(generation: int, t: Threads, t': Threads, universe: set<string>) {
    var (a, b, c) := (|Stale(t.s, generation, universe)|, FreshTokens(t, t.s, generation), Load(t));
    var (a', b', c') := (|Stale(t'.s, generation, universe)|, FreshTokens(t', t'.s, generation), Load(t'));
    a' < a || (a' == a && (b' < b || (b' == b && c' < c)))
  }

  /** Every step of every thread makes the measure smaller. */
  lemma {:induction false} StepLessens(site: Site, generation: int, t: Threads, a: Action, universe: set<string>)
    requires Allowed(site, generation, t, a, universe) && OfThread(a) && (a.Decide? ==> a.readable)
    requires Sound(generation, t, universe) && AllLinksWithin(site, t, universe)
    ensures Lessens(generation, t, Act(site, generation, t, a), universe)
  {
    hide Act;
    hide Fresh;
    hide FreshFetches;
    hide FreshWorks;
    hide Load;
    var t' := Act(site, generation, t, a);
    ActKeepsSound(site, generation, t, a, universe);
    forall u | Fresh(t.s, generation, u) ensures Fresh(t'.s, generation, u) {
      SoundIsStamped(generation, t, universe);
      ActKeepsFresh(site, generation, t, a, u);
    }
    var before, after := Stale(t.s, generation, universe), Stale(t'.s, generation, universe);
    if after != before {
      SmallerSet(after, before);
    } else {
      forall u | u in universe ensures Fresh(t.s, generation, u) <==> Fresh(t'.s, generation, u) {
        assert u in after <==> u in before;
      }
      TokensMove(site, generation, t, a, universe);
      FreshFetchesSame(t'.s.queue, t.s, t'.s, generation);
      FreshWorksSame(t'.handlers, t.s, t'.s, generation, universe);
    }
  }

  lemma SoundIsStamped(generation: int, t: Threads, universe: set<string>)
    requires Sound(generation, t, universe)
    ensures Stamped(generation, t)
  {
    forall i | 0 <= i < |t.handlers| && t.handlers[i].Storing? ensures generation <= t.handlers[i].ts {
      assert SoundHandler(generation, t.s, t.handlers[i], universe);
    }
  }

  ghost predicate StepsAt(site: Site, generation: int, states: nat -> Threads, actions: nat -> Action, i: nat) {
    && Possible(states(i), actions(i)) && OfThread(actions(i))
    && (actions(i).Begin? ==> generation <= actions(i).now) && (actions(i).Decide? ==> actions(i).readable)
    && states(i + 1) == Act(site, generation, states(i), actions(i))
  }

  /** All pages that the threads look at lead into the universe. */
  ghost predicate StepsWithin(site: Site, generation: int, states: nat -> Threads, actions: nat -> Action,
        universe: set<string>) {
    forall i: nat :: StepsAt(site, generation, states, actions, i) ==>
      Allowed(site, generation, states(i), actions(i), universe)
  }

  lemma {:induction false} StepsStop(site: Site, generation: int, universe: set<string>,
        states: nat -> Threads, actions: nat -> Action, i: nat)
    returns (stop: nat)
    requires StepsWithin(site, generation, states, actions, universe)
    requires Sound(generation, states(i), universe) && AllLinksWithin(site, states(i), universe)
    ensures stop >= i && !StepsAt(site, generation, states, actions, stop)
    decreases |Stale(states(i).s, generation, universe)|, FreshTokens(states(i), states(i).s, generation),
      Load(states(i))
  {
    stop := i;
    if StepsAt(site, generation, states, actions, i) {
      hide Act;
      hide Sound;
      hide Stale;
      hide FreshTokens;
      hide Load;
      hide Allowed;
      hide AllLinksWithin;
      StepLessens(site, generation, states(i), actions(i), universe);
      ActKeepsSound(site, generation, states(i), actions(i), universe);
      ActKeepsLinks(site, generation, states(i), actions(i), universe);
      stop := StepsStop(site, generation, universe, states, actions, i + 1);
    }
  }

  ghost predicate AllowedExecution(site: Site, generation: int, t: Threads, actions: seq<Action>, universe: set<string>)
    requires IsExecution(site, generation, t, actions)
    decreases |actions|
  {
    actions == [] ||
    var n := |actions| - 1;
    && AllowedExecution(site, generation, t, actions[..n], universe)
    && Allowed(site, generation, Executed(site, generation, t, actions[..n]), actions[n], universe)
  }

  lemma {:induction false} ExecutionIsSound(site: Site, generation: int, t: Threads, actions: seq<Action>,
        universe: set<string>)
    requires IsExecution(site, generation, t, actions) && AllowedExecution(site, generation, t, actions, universe)
    requires Sound(generation, t, universe) && AllLinksWithin(site, t, universe)
    ensures var t' := Executed(site, generation, t, actions);
            Sound(generation, t', universe) && AllLinksWithin(site, t', universe)
    decreases |actions|
  {
    hide Act;
    hide Allowed;
    hide Sound;
    hide AllLinksWithin;
    if actions != [] {
      var n := |actions| - 1;
      ExecutionIsSound(site, generation, t, actions[..n], universe);
      ActKeepsSound(site, generation, Executed(site, generation, t, actions[..n]), actions[n], universe);
      ActKeepsLinks(site, generation, Executed(site, generation, t, actions[..n]), actions[n], universe);
    }
  }

  /** Termination: from no state that any number of threads reach can the threads go on for
      ever without requests from outside, if the URLs asked for and the links of the pages
      that the threads look at lead into a finite set. */
  lemma {:induction false} ThreadsStop(site: Site, generation: int, stored: map<string, Document>, threads: nat,
        done: seq<Action>, universe: set<string>, states: nat -> Threads, actions: nat -> Action)
    requires IsExecution(site, generation, StartThreads(stored, threads), done)
    requires AllowedExecution(site, generation, StartThreads(stored, threads), done, universe)
    requires states(0) == Executed(site, generation, StartThreads(stored, threads), done)
    requires StepsWithin(site, generation, states, actions, universe)
    ensures exists i: nat :: !StepsAt(site, generation, states, actions, i)
  {
    ExecutionIsSound(site, generation, StartThreads(stored, threads), done, universe);
    var i := StepsStop(site, generation, universe, states, actions, 0);
  }
}
