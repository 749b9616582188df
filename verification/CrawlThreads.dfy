/** The crawl engine with several downloader threads: taking a completion, erasing its
    claim, storing, claiming a link, deciding and feeding are separate steps of a handler,
    and the handlers interleave freely. */
module CrawlThreads {
  import opened Crawl
  import opened CrawlRuns
  import opened Documents

  /** Where a thread stands in process_url and process_reply. */
  datatype Handler =
    | Idle
    | Erasing(fetch: Fetch, reply: Reply, data: string, error: bool)
    | Replying(reply: Reply, data: string)
    | Storing(reply: Reply, data: string, ts: int, pending: seq<string>)
    | Scanning(reply: Reply, links: seq<string>)
    | Deciding(reply: Reply, target: string, links: seq<string>)
    | Reclaiming(reply: Reply, target: string, doc: Document, links: seq<string>)
    | Queueing(reply: Reply, target: string, condition: Condition, links: seq<string>)

  /** The shared state, one handler per thread, and two histories: the claims that were
      kept because the page was fresh, and the completed fetches that no link asked for. */
  datatype Threads = Threads(s: State, handlers: seq<Handler>, kept: multiset<string>, direct: multiset<string>)

  datatype Action =
    | Ask(url: string, condition: Condition)
    | ClaimOutside(url: string, doc: Document)
    | Deliver(i: nat, index: nat, reply: Reply, data: string, error: bool)
    | Erase(i: nat)
    | Begin(i: nat, now: int)
    | Write(i: nat)
    | Check(i: nat, now: int)
    | Decide(i: nat, readable: bool)
    | Reclaim(i: nat)
    | Enqueue(i: nat)

  predicate Possible(t: Threads, a: Action) {
    match a
    case Ask(_, _) => true
    case ClaimOutside(_, _) => true
    case Deliver(i, index, reply, _, _) => i < |t.handlers| && t.handlers[i].Idle? && index < |t.s.queue|
      && reply.requestUrl == t.s.queue[index].url
    case Erase(i) => i < |t.handlers| && t.handlers[i].Erasing?
    case Begin(i, _) => i < |t.handlers| && t.handlers[i].Replying?
    case Write(i) => i < |t.handlers| && t.handlers[i].Storing?
    case Check(i, _) => i < |t.handlers| && t.handlers[i].Scanning?
    case Decide(i, _) => i < |t.handlers| && t.handlers[i].Deciding?
    case Reclaim(i) => i < |t.handlers| && t.handlers[i].Reclaiming?
    case Enqueue(i) => i < |t.handlers| && t.handlers[i].Queueing?
  }

  function Move(t: Threads, i: nat, s: State, h: Handler): Threads
    requires i < |t.handlers|
  {
    t.(s := s, handlers := t.handlers[i := h])
  }

  /** The URLs under which a reply is stored. */
  function Keys(reply: Reply): seq<string> {
    if reply.url != reply.requestUrl then [reply.url, reply.requestUrl] else [reply.url]
  }

  predicate At(t: Threads, i: nat) { i < |t.handlers| }

  function Delivered(t: Threads, i: nat, index: nat, reply: Reply, data: string, error: bool): Threads
    requires At(t, i) && index < |t.s.queue|
  {
    Move(t, i, Taken(t.s, index), Erasing(t.s.queue[index], reply, data, error))
  }

  function Erased(t: Threads, i: nat): Threads
    requires At(t, i) && t.handlers[i].Erasing?
  {
    var h := t.handlers[i];
    var s' := t.s.(inflight := t.s.inflight - {h.reply.requestUrl});
    var t' := Move(t, i, s', if h.error then Idle else Replying(h.reply, Content(t.s, h.reply, h.data)));
    if h.fetch.origin == Direct then t'.(direct := t.direct + multiset{h.reply.requestUrl}) else t'
  }

  function Begun(t: Threads, i: nat, now: int): Threads
    requires At(t, i) && t.handlers[i].Replying?
  {
    var h := t.handlers[i];
    Move(t, i, t.s.(total := t.s.total + 1), Storing(h.reply, h.data, now, Keys(h.reply)))
  }

  ghost function Written(site: Site, t: Threads, i: nat): Threads
    requires At(t, i) && t.handlers[i].Storing?
  {
    var h := t.handlers[i];
    if h.pending != [] then Move(t, i, Store(t.s, h.pending[0], h.data, h.ts), h.(pending := h.pending[1..]))
    else Move(t, i, t.s, Scanning(h.reply, AcceptedLinks(site, h.reply, h.data)))
  }

  ghost function Checked(site: Site, t: Threads, i: nat, now: int): Threads
    requires At(t, i) && t.handlers[i].Scanning?
  {
    var h := t.handlers[i];
    if h.links == [] then Move(t, i, t.s, Idle) else
    var target := site.resolved(h.reply.url, h.links[0]);
    if !Passes(site, h.reply, h.links[0]) || target in t.s.inflight
      then Move(t, i, t.s, Scanning(h.reply, h.links[1..]))
    else Move(t, i, Claim(t.s, target, Placeholder(now)), Deciding(h.reply, target, h.links[1..]))
  }

  /** A failed read of the stored page counts as no page. */
  function Decided(generation: int, t: Threads, i: nat, readable: bool): Threads
    requires At(t, i) && t.handlers[i].Deciding?
  {
    var h := t.handlers[i];
    if !readable || h.target !in t.s.stored then Move(t, i, t.s, Queueing(h.reply, h.target, Always, h.links))
    else if Before(t.s.stored[h.target].ts, generation)
      then Move(t, i, t.s, Reclaiming(h.reply, h.target, t.s.stored[h.target], h.links))
    else Move(t, i, t.s, Scanning(h.reply, h.links)).(kept := t.kept + multiset{h.target})
  }

  function Reclaimed(t: Threads, i: nat): Threads
    requires At(t, i) && t.handlers[i].Reclaiming?
  {
    var h := t.handlers[i];
    Move(t, i, Claim(t.s, h.target, h.doc), Queueing(h.reply, h.target, IfModifiedSince(h.doc.ts), h.links))
  }

  function Enqueued(t: Threads, i: nat): Threads
    requires At(t, i) && t.handlers[i].Queueing?
  {
    var h := t.handlers[i];
    Move(t, i, Feed(t.s, Fetch(h.target, h.condition, Link)), Scanning(h.reply, h.links))
  }

  ghost function Act(site: Site, generation: int, t: Threads, a: Action): Threads
    requires Possible(t, a)
  {
    match a
    case Ask(url, condition) => t.(s := Feed(t.s, Fetch(url, condition, Direct)))
    case ClaimOutside(url, doc) => t.(s := Claim(t.s, url, doc))
    case Deliver(i, index, reply, data, error) => Delivered(t, i, index, reply, data, error)
    case Erase(i) => Erased(t, i)
    case Begin(i, now) => Begun(t, i, now)
    case Write(i) => Written(site, t, i)
    case Check(i, now) => Checked(site, t, i, now)
    case Decide(i, readable) => Decided(generation, t, i, readable)
    case Reclaim(i) => Reclaimed(t, i)
    case Enqueue(i) => Enqueued(t, i)
  }

  ghost predicate IsExecution(site: Site, generation: int, t: Threads, actions: seq<Action>)
    decreases |actions|, 0
  {
    actions == [] ||
    var n := |actions| - 1;
    IsExecution(site, generation, t, actions[..n]) && Possible(Executed(site, generation, t, actions[..n]), actions[n])
  }

  ghost function Executed(site: Site, generation: int, t: Threads, actions: seq<Action>): Threads
    requires IsExecution(site, generation, t, actions)
    decreases |actions|, 1
  {
    if actions == [] then t else
    var n := |actions| - 1;
    Act(site, generation, Executed(site, generation, t, actions[..n]), actions[n])
  }

  /** Whether the handler is responsible for a claim of the URL: it won the claim and has
      not fed it yet, or it holds the completion of a link fetch. */
  function Holds(h: Handler, url: string): nat {
    match h
    case Erasing(fetch, reply, _, _) => if fetch.origin == Link && reply.requestUrl == url then 1 else 0
    case Deciding(_, target, _) => if target == url then 1 else 0
    case Reclaiming(_, target, _, _) => if target == url then 1 else 0
    case Queueing(_, target, _, _) => if target == url then 1 else 0
    case _ => 0
  }

  function Held(handlers: seq<Handler>, url: string): nat {
    if handlers == [] then 0 else
    var n := |handlers| - 1;
    Held(handlers[..n], url) + Holds(handlers[n], url)
  }

  function LinkFetches(queue: seq<Fetch>, url: string): nat {
    if queue == [] then 0 else
    var n := |queue| - 1;
    LinkFetches(queue[..n], url) + if queue[n].origin == Link && queue[n].url == url then 1 else 0
  }

  lemma {:induction false} HeldUpdate(handlers: seq<Handler>, i: nat, h: Handler, url: string)
    requires i < |handlers|
    ensures Held(handlers[i := h], url) + Holds(handlers[i], url) == Held(handlers, url) + Holds(h, url)
    decreases |handlers|
  {
    var n := |handlers| - 1;
    if i == n {
      assert handlers[i := h][..n] == handlers[..n];
    } else {
      assert handlers[i := h][..n] == handlers[..n][i := h];
      HeldUpdate(handlers[..n], i, h, url);
    }
  }

  lemma {:induction false} LinkFetchesConcat(a: seq<Fetch>, b: seq<Fetch>, url: string)
    ensures LinkFetches(a + b, url) == LinkFetches(a, url) + LinkFetches(b, url)
    decreases |b|
  {
    if b == [] {
      assert a + b == a;
    } else {
      var n := |b| - 1;
      assert (a + b)[..|a| + n] == a + b[..n];
      LinkFetchesConcat(a, b[..n], url);
    }
  }

  lemma LinkFetchesOne(fetch: Fetch, url: string)
    ensures LinkFetches([fetch], url) == if fetch.origin == Link && fetch.url == url then 1 else 0
  {
    assert [fetch][..0] == [];
  }

  lemma LinkFetchesTaken(s: State, index: nat, url: string)
    requires index < |s.queue|
    ensures LinkFetches(Taken(s, index).queue, url) + LinkFetches([s.queue[index]], url) == LinkFetches(s.queue, url)
  {
    var head, fetch, tail := s.queue[..index], s.queue[index], s.queue[index + 1..];
    assert s.queue == (head + [fetch]) + tail;
    LinkFetchesConcat(head + [fetch], tail, url);
    LinkFetchesConcat(head, [fetch], url);
    LinkFetchesConcat(head, tail, url);
  }

  /** All that was started for a URL on behalf of a link and has not been given up. */
  function Claims(t: Threads, url: string): nat {
    Held(t.handlers, url) + LinkFetches(t.s.queue, url) + t.kept[url]
  }

  predicate Exclusive(t: Threads, url: string) {
    Claims(t, url) <= (if url in t.s.inflight then 1 else 0) + t.direct[url]
  }

  lemma {:induction false} DeliverKeepsExclusive(t: Threads, i: nat, index: nat, reply: Reply, data: string,
        error: bool, url: string)
    requires Possible(t, Deliver(i, index, reply, data, error)) && Exclusive(t, url)
    ensures Exclusive(Delivered(t, i, index, reply, data, error), url)
  {
    HeldUpdate(t.handlers, i, Erasing(t.s.queue[index], reply, data, error), url);
    LinkFetchesTaken(t.s, index, url);
    LinkFetchesOne(t.s.queue[index], url);
  }

  lemma {:induction false} EnqueueKeepsExclusive(t: Threads, i: nat, url: string)
    requires At(t, i) && t.handlers[i].Queueing? && Exclusive(t, url)
    ensures Exclusive(Enqueued(t, i), url)
  {
    var h := t.handlers[i];
    HeldUpdate(t.handlers, i, Scanning(h.reply, h.links), url);
    LinkFetchesConcat(t.s.queue, [Fetch(h.target, h.condition, Link)], url);
    LinkFetchesOne(Fetch(h.target, h.condition, Link), url);
  }

  lemma {:induction false} AskKeepsExclusive(t: Threads, fetch: Fetch, url: string)
    requires fetch.origin == Direct && Exclusive(t, url)
    ensures Exclusive(t.(s := Feed(t.s, fetch)), url)
  {
    LinkFetchesConcat(t.s.queue, [fetch], url);
    LinkFetchesOne(fetch, url);
  }

  /** Steps that leave the downloader alone. */
  lemma {:induction false} MoveKeepsExclusive(site: Site, generation: int, t: Threads, a: Action, url: string)
    requires a.Erase? || a.Begin? || a.Write? || a.Check? || a.Decide? || a.Reclaim?
    requires Possible(t, a) && Exclusive(t, url)
    ensures Exclusive(Act(site, generation, t, a), url)
  {
    hide Passes;
    hide Accepted;
    hide Links;
    hide Held;
    hide LinkFetches;
    HeldUpdate(t.handlers, a.i, Act(site, generation, t, a).handlers[a.i], url);
  }

  lemma {:induction false} ActKeepsExclusive(site: Site, generation: int, t: Threads, a: Action, url: string)
    requires Possible(t, a) && Exclusive(t, url)
    ensures Exclusive(Act(site, generation, t, a), url)
  {
    match a
    case Ask(u, condition) => AskKeepsExclusive(t, Fetch(u, condition, Direct), url);
    case ClaimOutside(_, _) =>
    case Deliver(i, index, reply, data, error) => DeliverKeepsExclusive(t, i, index, reply, data, error, url);
    case Enqueue(i) => EnqueueKeepsExclusive(t, i, url);
    case _ => MoveKeepsExclusive(site, generation, t, a, url);
  }

  /** Claim exclusion in every reachable state: what was started for a URL by links, and
      not given up, is at most one, plus the completions of fetches no link asked for. */
  lemma {:induction false} ClaimExclusion(site: Site, generation: int, t: Threads, actions: seq<Action>, url: string)
    requires IsExecution(site, generation, t, actions) && Exclusive(t, url)
    ensures Exclusive(Executed(site, generation, t, actions), url)
    decreases |actions|
  {
    if actions != [] {
      var n := |actions| - 1;
      ClaimExclusion(site, generation, t, actions[..n], url);
      ActKeepsExclusive(site, generation, Executed(site, generation, t, actions[..n]), actions[n], url);
    }
  }

  /** The engine right after its start: nothing in flight and all threads idle. */
  function StartThreads(stored: map<string, Document>, threads: nat): Threads {
    Threads(State(map[], stored, [], 0), seq(threads, (i: int) => Idle), multiset{}, multiset{})
  }

  lemma {:induction false} IdleHoldsNothing(handlers: seq<Handler>, url: string)
    requires forall i :: 0 <= i < |handlers| ==> handlers[i] == Idle
    ensures Held(handlers, url) == 0
  {
    if handlers != [] { IdleHoldsNothing(handlers[..|handlers| - 1], url); }
  }

  /** Under every interleaving of any number of threads, at most one link fetch of a URL is
      outstanding as long as no fetch of it that no link asked for has completed. */
  lemma AtMostOneLinkFetch(site: Site, generation: int, stored: map<string, Document>, threads: nat,
        actions: seq<Action>, url: string)
    requires IsExecution(site, generation, StartThreads(stored, threads), actions)
    requires Executed(site, generation, StartThreads(stored, threads), actions).direct[url] == 0
    ensures var t := Executed(site, generation, StartThreads(stored, threads), actions);
            && LinkFetches(t.s.queue, url) + Held(t.handlers, url) + t.kept[url] <= 1
            && (LinkFetches(t.s.queue, url) == 1 ==> url in t.s.inflight)
  {
    IdleHoldsNothing(StartThreads(stored, threads).handlers, url);
    ClaimExclusion(site, generation, StartThreads(stored, threads), actions, url);
  }

  lemma {:induction false} DiscoverFirst(site: Site, generation: int, s: State, reply: Reply, links: seq<string>,
        now: int)
    requires links != []
    ensures DiscoverAll(site, generation, s, reply, links, now) ==
            DiscoverAll(site, generation, DiscoverAll(site, generation, s, reply, [links[0]], now), reply, links[1..],
              now)
    decreases |links|
  {
    hide Passes;
    if |links| == 1 {
      assert links == [links[0]] && links[1..] == [];
    } else {
      var n := |links| - 1;
      DiscoverFirst(site, generation, s, reply, links[..n], now);
      assert links[..n][1..] == links[1..][..n - 1] && links[1..][n - 1] == links[n];
    }
  }

  /** The actions `more` lead from one state to the other. */
  ghost predicate Leads(site: Site, generation: int, t: Threads, more: seq<Action>, t': Threads) {
    IsExecution(site, generation, t, more) && Executed(site, generation, t, more) == t'
  }

  lemma {:induction false} LeadsOne(site: Site, generation: int, t: Threads, a: Action)
    requires Possible(t, a)
    ensures Leads(site, generation, t, [a], Act(site, generation, t, a))
  {
    hide Act;
    hide Possible;
    assert [a][..0] == [] && [a][0] == a;
    assert IsExecution(site, generation, t, []) && Executed(site, generation, t, []) == t;
  }

  lemma {:induction false} LeadsOn(site: Site, generation: int, t: Threads, a: seq<Action>, u: Threads, b: seq<Action>,
        v: Threads)
    requires Leads(site, generation, t, a, u) && Leads(site, generation, u, b, v)
    ensures Leads(site, generation, t, a + b, v)
    decreases |b|
  {
    hide Act;
    hide Possible;
    if b == [] {
      assert a + b == a;
    } else {
      var n := |b| - 1;
      var c := a + b;
      LeadsOn(site, generation, t, a, u, b[..n], Executed(site, generation, u, b[..n]));
      assert c[..|c| - 1] == a + b[..n] && c[|c| - 1] == b[n];
    }
  }

  lemma {:induction false} LeadsStep(site: Site, generation: int, t: Threads, actions: seq<Action>, u: Threads,
        a: Action)
    requires Leads(site, generation, t, actions, u) && Possible(u, a)
    ensures Leads(site, generation, t, actions + [a], Act(site, generation, u, a))
  {
    LeadsOne(site, generation, u, a);
    LeadsOn(site, generation, t, actions, u, [a], Act(site, generation, u, a));
  }

  ghost predicate SameUpToHistory(t: Threads, s: State, handlers: seq<Handler>) {
    t.s == s && t.handlers == handlers
  }

  /** A handler that is not disturbed treats one link as the atomic step does. */
  lemma {:induction false} SoloLink(site: Site, generation: int, t: Threads, i: nat, now: int)
    returns (actions: seq<Action>, t': Threads)
    requires At(t, i) && t.handlers[i].Scanning? && t.handlers[i].links != []
    ensures Leads(site, generation, t, actions, t')
    ensures var h := t.handlers[i];
            SameUpToHistory(t', DiscoverAll(site, generation, t.s, h.reply, [h.links[0]], now),
              t.handlers[i := Scanning(h.reply, h.links[1..])])
  {
    hide Passes;
    hide Leads;
    var h := t.handlers[i];
    assert [h.links[0]][..0] == [];
    t' := Checked(site, t, i, now);
    actions := [Check(i, now)];
    LeadsOne(site, generation, t, Check(i, now));
    if t'.handlers[i].Deciding? {
      LeadsStep(site, generation, t, actions, t', Decide(i, true));
      actions, t' := actions + [Decide(i, true)], Decided(generation, t', i, true);
      if t'.handlers[i].Reclaiming? {
        LeadsStep(site, generation, t, actions, t', Reclaim(i));
        actions, t' := actions + [Reclaim(i)], Reclaimed(t', i);
      }
      if t'.handlers[i].Queueing? {
        LeadsStep(site, generation, t, actions, t', Enqueue(i));
        actions, t' := actions + [Enqueue(i)], Enqueued(t', i);
      }
    }
  }

  lemma {:induction false} SoloScan(site: Site, generation: int, t: Threads, i: nat, now: int)
    returns (actions: seq<Action>, t': Threads)
    requires At(t, i) && t.handlers[i].Scanning?
    ensures Leads(site, generation, t, actions, t')
    ensures var h := t.handlers[i];
            SameUpToHistory(t', DiscoverAll(site, generation, t.s, h.reply, h.links, now), t.handlers[i := Idle])
    decreases |t.handlers[i].links|
  {
    hide Passes;
    hide Leads;
    var h := t.handlers[i];
    if h.links == [] {
      actions, t' := [Check(i, now)], Checked(site, t, i, now);
      LeadsOne(site, generation, t, Check(i, now));
    } else {
      var first, mid := SoloLink(site, generation, t, i, now);
      var rest, end := SoloScan(site, generation, mid, i, now);
      LeadsOn(site, generation, t, first, mid, rest, end);
      DiscoverFirst(site, generation, t.s, h.reply, h.links, now);
      actions, t' := first + rest, end;
      assert mid.handlers[i := Idle] == t.handlers[i := Idle];
    }
  }

  lemma {:induction false} SoloWrite(site: Site, generation: int, t: Threads, i: nat)
    returns (actions: seq<Action>, t': Threads)
    requires At(t, i) && t.handlers[i].Storing? && t.handlers[i].pending == Keys(t.handlers[i].reply)
    ensures Leads(site, generation, t, actions, t')
    ensures var h := t.handlers[i];
            SameUpToHistory(t', StoreReply(t.s, h.reply, h.data, h.ts),
                            t.handlers[i := Scanning(h.reply, AcceptedLinks(site, h.reply, h.data))])
  {
    hide Leads;
    hide Links;
    hide Accepted;
    actions, t' := [Write(i)], Written(site, t, i);
    LeadsOne(site, generation, t, Write(i));
    if t'.handlers[i].pending != [] {
      LeadsStep(site, generation, t, actions, t', Write(i));
      actions, t' := actions + [Write(i)], Written(site, t', i);
    }
    LeadsStep(site, generation, t, actions, t', Write(i));
    actions, t' := actions + [Write(i)], Written(site, t', i);
  }

  /** The two grains agree: an idle thread that takes a completion and is not disturbed
      leaves the shared state as process_url does in one step, and is idle again. */
  lemma {:induction false} SoloCompletionIsAtomic(site: Site, generation: int, t: Threads, i: nat, e: Event)
    returns (actions: seq<Action>, t': Threads)
    requires e.Completed? && Enabled(generation, t.s, e)
    requires At(t, i) && t.handlers[i] == Idle
    ensures Leads(site, generation, t, actions, t')
    ensures SameUpToHistory(t', Next(site, generation, t.s, e), t.handlers)
  {
    hide Leads;
    hide Links;
    hide Accepted;
    hide DiscoverAll;
    var deliver := Deliver(i, e.index, e.reply, e.data, e.error);
    LeadsOne(site, generation, t, deliver);
    t' := Delivered(t, i, e.index, e.reply, e.data, e.error);
    LeadsStep(site, generation, t, [deliver], t', Erase(i));
    actions, t' := [deliver] + [Erase(i)], Erased(t', i);
    if e.error {
      assert t.handlers[i := Erasing(t.s.queue[e.index], e.reply, e.data, e.error)][i := Idle] == t.handlers;
    } else {
      LeadsStep(site, generation, t, actions, t', Begin(i, e.now));
      actions, t' := actions + [Begin(i, e.now)], Begun(t', i, e.now);
      var writes, stored := SoloWrite(site, generation, t', i);
      LeadsOn(site, generation, t, actions, t', writes, stored);
      var scan, end := SoloScan(site, generation, stored, i, e.now);
      LeadsOn(site, generation, t, actions + writes, stored, scan, end);
      actions, t' := actions + writes + scan, end;
      NextByLinks(site, generation, t.s, e);
      assert t'.handlers == t.handlers;
    }
  }

  lemma {:induction false} NextByLinks(site: Site, generation: int, s: State, e: Event)
    requires e.Completed? && !e.error && Enabled(generation, s, e)
    ensures Next(site, generation, s, e) ==
            DiscoverAll(site, generation, Received(s, e), e.reply, PageLinks(site, s, e), e.now)
  {
    hide Links;
    hide Accepted;
  }

  /** A request from outside with a cached document, taken as two steps. */
  lemma {:induction false} SoloRequestIsAtomic(site: Site, generation: int, t: Threads, url: string, doc: Document)
    returns (t': Threads)
    ensures Leads(site, generation, t, [ClaimOutside(url, doc)] + [Ask(url, IfModifiedSince(doc.ts))], t')
    ensures SameUpToHistory(t', Next(site, generation, t.s, AskedCached(url, doc)), t.handlers)
  {
    hide Leads;
    var mid := Act(site, generation, t, ClaimOutside(url, doc));
    LeadsOne(site, generation, t, ClaimOutside(url, doc));
    LeadsStep(site, generation, t, [ClaimOutside(url, doc)], mid, Ask(url, IfModifiedSince(doc.ts)));
    t' := Act(site, generation, mid, Ask(url, IfModifiedSince(doc.ts)));
  }

  /** Every fetch of the URL, outstanding or completed, was made for a link. */
  ghost predicate OnlyLinks(t: Threads, url: string) {
    && t.direct[url] == 0
    && (forall i :: 0 <= i < |t.s.queue| && t.s.queue[i].url == url ==> t.s.queue[i].origin == Link)
    && (forall i :: 0 <= i < |t.handlers| && t.handlers[i].Erasing? && t.handlers[i].reply.requestUrl == url ==>
          t.handlers[i].fetch.origin == Link)
  }

  lemma {:induction false} ActKeepsOnlyLinks(site: Site, generation: int, t: Threads, a: Action, url: string)
    requires Possible(t, a) && OnlyLinks(t, url) && (a.Ask? ==> a.url != url)
    ensures OnlyLinks(Act(site, generation, t, a), url)
  {
    hide Passes;
    hide Accepted;
    hide Links;
  }

  lemma {:induction false} NeverAskedIsOnlyLinks(site: Site, generation: int, t: Threads, actions: seq<Action>,
        url: string)
    requires IsExecution(site, generation, t, actions) && OnlyLinks(t, url)
    requires forall i :: 0 <= i < |actions| && actions[i].Ask? ==> actions[i].url != url
    ensures OnlyLinks(Executed(site, generation, t, actions), url)
    decreases |actions|
  {
    hide OnlyLinks;
    hide Act;
    if actions != [] {
      var n := |actions| - 1;
      NeverAskedIsOnlyLinks(site, generation, t, actions[..n], url);
      ActKeepsOnlyLinks(site, generation, Executed(site, generation, t, actions[..n]), actions[n], url);
    }
  }

  /** In particular, for a URL that nobody asks for from outside there is never more than
      one link fetch outstanding. */
  lemma {:induction false} NeverAskedHasOneFetch(site: Site, generation: int, stored: map<string, Document>,
        threads: nat,
        actions: seq<Action>, url: string)
    requires IsExecution(site, generation, StartThreads(stored, threads), actions)
    requires forall i :: 0 <= i < |actions| && actions[i].Ask? ==> actions[i].url != url
    ensures var t := Executed(site, generation, StartThreads(stored, threads), actions);
            LinkFetches(t.s.queue, url) <= 1 && (LinkFetches(t.s.queue, url) == 1 ==> url in t.s.inflight)
  {
    NeverAskedIsOnlyLinks(site, generation, StartThreads(stored, threads), actions, url);
    AtMostOneLinkFetch(site, generation, stored, threads, actions, url);
  }

  /** Between its claim and its fetch a thread repeats the claim with the stored document:
      it takes effect only if the claim was erased meanwhile. */
  lemma ReclaimExact(site: Site, generation: int, t: Threads, i: nat)
    requires Possible(t, Reclaim(i))
    ensures var t', h := Act(site, generation, t, Reclaim(i)), t.handlers[i];
            && t'.s.inflight == (if h.target in t.s.inflight then t.s.inflight else t.s.inflight[h.target := h.doc])
            && t'.s.stored == t.s.stored && t'.s.queue == t.s.queue && t'.s.total == t.s.total
            && t'.handlers == t.handlers[i := Queueing(h.reply, h.target, IfModifiedSince(h.doc.ts), h.links)]
  {
  }

  /** A page that cannot be read is fetched without condition, like one that is not stored. */
  lemma FailedReadIsFetched(site: Site, generation: int, t: Threads, i: nat, readable: bool)
    requires Possible(t, Decide(i, readable)) && (!readable || t.handlers[i].target !in t.s.stored)
    ensures var t', h := Act(site, generation, t, Decide(i, readable)), t.handlers[i];
            t'.s == t.s && t'.handlers == t.handlers[i := Queueing(h.reply, h.target, Always, h.links)]
  {
  }
}
