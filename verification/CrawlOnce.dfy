/** When a page stored in this generation is not fetched again for a link, with any number
    of threads: exactly when no thread is past its decision to fetch it. */
module CrawlOnce {
  import opened Crawl
  import opened CrawlRuns
  import opened CrawlThreads
  import opened Documents

  /** Pages are stamped after the engine was started. */
  ghost predicate InTime(generation: int, actions: seq<Action>) {
    forall i :: 0 <= i < |actions| && actions[i].Begin? ==> generation <= actions[i].now
  }

  /** Every stored page can be read. */
  ghost predicate ReadsSucceed(actions: seq<Action>) {
    forall i :: 0 <= i < |actions| && actions[i].Decide? ==> actions[i].readable
  }

  ghost predicate Stamped(generation: int, t: Threads) {
    forall i :: 0 <= i < |t.handlers| && t.handlers[i].Storing? ==> generation <= t.handlers[i].ts
  }

  lemma {:induction false} ActKeepsStamped(site: Site, generation: int, t: Threads, a: Action)
    requires Possible(t, a) && Stamped(generation, t) && (a.Begin? ==> generation <= a.now)
    ensures Stamped(generation, Act(site, generation, t, a))
  {
    hide Passes;
    hide Accepted;
    hide Links;
  }

  lemma {:induction false} ExecutionIsStamped(site: Site, generation: int, t: Threads, actions: seq<Action>)
    requires IsExecution(site, generation, t, actions) && InTime(generation, actions) && Stamped(generation, t)
    ensures Stamped(generation, Executed(site, generation, t, actions))
    decreases |actions|
  {
    hide Stamped;
    hide Act;
    hide Possible;
    if actions != [] {
      var n := |actions| - 1;
      assert InTime(generation, actions[..n]);
      ExecutionIsStamped(site, generation, t, actions[..n]);
      ActKeepsStamped(site, generation, Executed(site, generation, t, actions[..n]), actions[n]);
    }
  }

  /** The thread found the page missing or old, and is about to have it fetched. */
  predicate PastDecision(h: Handler, url: string) {
    (h.Reclaiming? || h.Queueing?) && h.target == url
  }

  ghost predicate NoneDecided(t: Threads, url: string) {
    forall i :: 0 <= i < |t.handlers| ==> !PastDecision(t.handlers[i], url)
  }

  lemma {:induction false} ActKeepsFresh(site: Site, generation: int, t: Threads, a: Action, url: string)
    requires Possible(t, a) && Stamped(generation, t) && Fresh(t.s, generation, url)
    ensures Fresh(Act(site, generation, t, a).s, generation, url)
  {
    hide Passes;
    hide Accepted;
    hide Links;
  }

  lemma {:induction false} ActKeepsNoneDecided(site: Site, generation: int, t: Threads, a: Action, url: string)
    requires Possible(t, a) && Fresh(t.s, generation, url) && NoneDecided(t, url) && (a.Decide? ==> a.readable)
    ensures NoneDecided(Act(site, generation, t, a), url)
  {
    hide Passes;
    hide Accepted;
    hide Links;
  }

  lemma {:induction false} ActAddsNoFetch(site: Site, generation: int, t: Threads, a: Action, url: string)
    requires Possible(t, a) && NoneDecided(t, url)
    ensures LinkFetches(Act(site, generation, t, a).s.queue, url) <= LinkFetches(t.s.queue, url)
  {
    hide Passes;
    hide Accepted;
    hide Links;
    hide LinkFetches;
    match a
    case Ask(u, condition) =>
      LinkFetchesConcat(t.s.queue, [Fetch(u, condition, Direct)], url);
      LinkFetchesOne(Fetch(u, condition, Direct), url);
    case Deliver(_, index, _, _, _) =>
      LinkFetchesTaken(t.s, index, url);
    case Enqueue(i) =>
      var h := t.handlers[i];
      LinkFetchesConcat(t.s.queue, [Fetch(h.target, h.condition, Link)], url);
      LinkFetchesOne(Fetch(h.target, h.condition, Link), url);
    case _ =>
  }

  lemma {:induction false} NoneDecidedIsNotRefetched(site: Site, generation: int, t: Threads, actions: seq<Action>,
        url: string)
    requires IsExecution(site, generation, t, actions) && InTime(generation, actions) && ReadsSucceed(actions)
    requires Stamped(generation, t) && Fresh(t.s, generation, url) && NoneDecided(t, url)
    ensures var t' := Executed(site, generation, t, actions);
            && Fresh(t'.s, generation, url) && NoneDecided(t', url)
            && LinkFetches(t'.s.queue, url) <= LinkFetches(t.s.queue, url)
    decreases |actions|
  {
    hide Stamped;
    hide Fresh;
    hide NoneDecided;
    hide Act;
    hide Possible;
    if actions != [] {
      var n := |actions| - 1;
      assert InTime(generation, actions[..n]) && ReadsSucceed(actions[..n]);
      NoneDecidedIsNotRefetched(site, generation, t, actions[..n], url);
      ExecutionIsStamped(site, generation, t, actions[..n]);
      var before := Executed(site, generation, t, actions[..n]);
      ActKeepsFresh(site, generation, before, actions[n], url);
      ActKeepsNoneDecided(site, generation, before, actions[n], url);
      ActAddsNoFetch(site, generation, before, actions[n], url);
    }
  }

  /** A thread past its decision gets to ask for the page in at most one more step. */
  lemma {:induction false} DecidedIsEnqueued(site: Site, generation: int, t: Threads, i: nat, url: string)
    returns (actions: seq<Action>, t': Threads)
    requires At(t, i) && PastDecision(t.handlers[i], url)
    ensures Leads(site, generation, t, actions, t') && InTime(generation, actions) && ReadsSucceed(actions)
    ensures t'.s.stored == t.s.stored && t'.s.queue == t.s.queue
    ensures At(t', i) && t'.handlers[i].Queueing? && t'.handlers[i].target == url
  {
    if t.handlers[i].Queueing? {
      actions, t' := [], t;
    } else {
      LeadsOne(site, generation, t, Reclaim(i));
      actions, t' := [Reclaim(i)], Reclaimed(t, i);
    }
  }

  /** A thread is about to hand a fetch of the URL to the downloader. */
  ghost predicate FeedPossible(t: Threads, url: string) {
    exists i: nat :: Possible(t, Enqueue(i)) && t.handlers[i].target == url
  }

  /** In no further execution does a thread hand a fetch of the URL to the downloader. */
  ghost predicate NeverRefetched(site: Site, generation: int, t: Threads, url: string) {
    forall actions ::
      IsExecution(site, generation, t, actions) && InTime(generation, actions) && ReadsSucceed(actions) ==>
        !FeedPossible(Executed(site, generation, t, actions), url)
  }

  lemma {:induction false} NeverRefetchedIff(site: Site, generation: int, t: Threads, url: string)
    requires Stamped(generation, t) && Fresh(t.s, generation, url)
    ensures NeverRefetched(site, generation, t, url) <==> NoneDecided(t, url)
  {
    hide IsExecution;
    hide Executed;
    hide LinkFetches;
    if NoneDecided(t, url) {
      forall actions | IsExecution(site, generation, t, actions) && InTime(generation, actions) && ReadsSucceed(actions)
        ensures !FeedPossible(Executed(site, generation, t, actions), url)
      {
        NoneDecidedIsNotRefetched(site, generation, t, actions, url);
      }
    } else {
      var i: nat :| i < |t.handlers| && PastDecision(t.handlers[i], url);
      var actions, t' := DecidedIsEnqueued(site, generation, t, i, url);
      assert Possible(t', Enqueue(i)) && FeedPossible(t', url);
      assert !NeverRefetched(site, generation, t, url);
    }
  }

  /** In every state that any number of threads reach, for every page stored in this
      generation: no link ever has it fetched again if and only if no thread is past its
      decision to fetch it. */
  lemma {:induction false} FreshIsNotRefetchedIff(site: Site, generation: int, stored: map<string, Document>,
        threads: nat, actions: seq<Action>, url: string)
    requires IsExecution(site, generation, StartThreads(stored, threads), actions) && InTime(generation, actions)
    requires Fresh(Executed(site, generation, StartThreads(stored, threads), actions).s, generation, url)
    ensures var t := Executed(site, generation, StartThreads(stored, threads), actions);
            NeverRefetched(site, generation, t, url) <==> NoneDecided(t, url)
  {
    ExecutionIsStamped(site, generation, StartThreads(stored, threads), actions);
    NeverRefetchedIff(site, generation, Executed(site, generation, StartThreads(stored, threads), actions), url);
  }

  /** A thread that stores pages one by one gets to any of them. */
  lemma {:induction false} WriteUpTo(site: Site, generation: int, t: Threads, i: nat, url: string)
    returns (actions: seq<Action>, t': Threads)
    requires At(t, i) && t.handlers[i].Storing? && url in t.handlers[i].pending && generation <= t.handlers[i].ts
    ensures Leads(site, generation, t, actions, t') && InTime(generation, actions)
    ensures Fresh(t'.s, generation, url) && |t'.handlers| == |t.handlers|
    ensures forall k :: 0 <= k < |t.handlers| && k != i ==> t'.handlers[k] == t.handlers[k]
    decreases |t.handlers[i].pending|
  {
    hide Leads;
    hide Links;
    hide Accepted;
    LeadsOne(site, generation, t, Write(i));
    var mid := Written(site, t, i);
    if t.handlers[i].pending[0] == url {
      actions, t' := [Write(i)], mid;
    } else {
      var rest, end := WriteUpTo(site, generation, mid, i, url);
      LeadsOn(site, generation, t, [Write(i)], mid, rest, end);
      actions, t' := [Write(i)] + rest, end;
    }
  }

  /** The window between erasing the claim of a page and storing the page: a thread that
      meets a link to it there ends up past its decision although the page is fresh. */
  lemma {:induction false} RefetchWindow(site: Site, generation: int, t: Threads, i: nat, j: nat, target: string)
    returns (actions: seq<Action>, t': Threads)
    requires i != j && At(t, i) && At(t, j)
    requires t.handlers[i].Storing? && target in t.handlers[i].pending && generation <= t.handlers[i].ts
    requires t.handlers[j].Scanning? && t.handlers[j].links != []
    requires Passes(site, t.handlers[j].reply, t.handlers[j].links[0])
    requires site.resolved(t.handlers[j].reply.url, t.handlers[j].links[0]) == target
    requires target !in t.s.inflight && !Fresh(t.s, generation, target)
    ensures Leads(site, generation, t, actions, t') && InTime(generation, actions)
    ensures Fresh(t'.s, generation, target) && !NoneDecided(t', target)
  {
    hide Passes;
    hide Leads;
    hide Links;
    hide Accepted;
    var check := Check(j, t.handlers[i].ts);
    LeadsOne(site, generation, t, check);
    var t1 := Checked(site, t, j, t.handlers[i].ts);
    LeadsStep(site, generation, t, [check], t1, Decide(j, true));
    var t2 := Decided(generation, t1, j, true);
    assert PastDecision(t2.handlers[j], target);
    var writes, t3 := WriteUpTo(site, generation, t2, i, target);
    LeadsOn(site, generation, t, [check] + [Decide(j, true)], t2, writes, t3);
    actions, t' := [check] + [Decide(j, true)] + writes, t3;
    assert PastDecision(t'.handlers[j], target);
  }
}
