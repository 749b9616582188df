/** A run of two downloader threads, from the start of the engine, in which a page fetched
    for a link without an error is fetched for a link again: the claim of a page is erased
    before the page is stored. */
module CrawlWindow {
  import opened Crawl
  import opened CrawlOnce
  import opened CrawlRuns
  import opened CrawlThreads
  import opened Documents
  import opened Ordered

  function DiamondParser(reply: Reply, data: string): seq<string> {
    if data == "seed" then ["a", "b"] else if data == "page b" then ["a"] else []
  }

  /** s links to a and b, b links to a. */
  function Diamond(): Site {
    Site([], [], [DiamondParser], u => true, (base, link) => link, u => "http", u => "host")
  }

  function Ok(url: string): Reply { Reply(url, url, 200) }

  lemma {:induction false} DiamondLinks()
    ensures Links(Diamond(), Ok("s"), "seed") == ["a", "b"]
    ensures Links(Diamond(), Ok("b"), "page b") == ["a"]
    ensures forall reply: Reply, link :: Passes(Diamond(), reply, link) <==> link != reply.url
  {
    var site := Diamond();
    assert site.parsers[..0] == [];
    assert Parsed(site.parsers, Ok("s"), "seed") == ["a", "b"];
    assert Parsed(site.parsers, Ok("b"), "page b") == ["a"];
    assert SortUnique(["a"]) == ["a"] by { assert ["a"][1..] == []; }
    assert SortUnique(["a", "b"]) == ["a", "b"] by {
      assert ["a", "b"][1..] == ["b"] && ["b"][1..] == [];
      assert SortUnique(["b"]) == ["b"];
      assert Less("a", "b");
    }
  }

  function SeedStored(): map<string, Document> { map["s" := Document(1, "s", "seed")] }

  /** Right after the seed: a and b are claimed and being fetched. */
  function SeedDone(): State {
    State(map["a" := Placeholder(1), "b" := Placeholder(1)], SeedStored(),
      [Fetch("a", Always, Link), Fetch("b", Always, Link)], 1)
  }

  lemma {:induction false} SeedStep(s: State, e: Event)
    requires s == State(map[], map[], [Fetch("s", Always, Direct)], 0)
    requires e == Completed(0, Ok("s"), "seed", false, 1)
    ensures Enabled(1, s, e) && Next(Diamond(), 1, s, e) == SeedDone()
  {
    DiamondLinks();
    var site, reply := Diamond(), Ok("s");
    var s0 := State(map[], SeedStored(), [], 1);
    assert Taken(s, 0).queue == [];
    assert s.inflight - {"s"} == map[];
    assert StoreReply(State(map[], map[], [], 1), reply, "seed", 1) == s0;
    assert ["a", "b"][..1] == ["a"] && ["a"][..0] == [];
    hide Links;
    var s1 := DiscoverAll(site, 1, s0, reply, ["a"], 1);
    assert s1 == Discover(s0, 1, "a", 1);
    assert DiscoverAll(site, 1, s0, reply, ["a", "b"], 1) == Discover(s1, 1, "b", 1);
  }

  /** Thread 0 has erased the claim of a and is about to store a. */
  lemma {:induction false} FetchA(t: Threads) returns (actions: seq<Action>, t': Threads)
    requires t.s == SeedDone() && t.handlers == [Idle, Idle]
    ensures Leads(Diamond(), 1, t, actions, t')
    ensures t'.s == State(map["b" := Placeholder(1)], SeedStored(), [Fetch("b", Always, Link)], 2)
    ensures t'.handlers == [Storing(Ok("a"), "page a", 1, ["a"]), Idle]
  {
    hide Leads;
    var site, deliver := Diamond(), Deliver(0, 0, Ok("a"), "page a", false);
    LeadsOne(site, 1, t, deliver);
    t' := Delivered(t, 0, 0, Ok("a"), "page a", false);
    LeadsStep(site, 1, t, [deliver], t', Erase(0));
    actions, t' := [deliver] + [Erase(0)], Erased(t', 0);
    assert t'.s.inflight == map["b" := Placeholder(1)];
    LeadsStep(site, 1, t, actions, t', Begin(0, 1));
    actions, t' := actions + [Begin(0, 1)], Begun(t', 0, 1);
  }

  /** Meanwhile thread 1 has fetched b ... */
  lemma {:induction false} FetchB(t: Threads) returns (actions: seq<Action>, t': Threads)
    requires t.s == State(map["b" := Placeholder(1)], SeedStored(), [Fetch("b", Always, Link)], 2)
    requires t.handlers == [Storing(Ok("a"), "page a", 1, ["a"]), Idle]
    ensures Leads(Diamond(), 1, t, actions, t')
    ensures t'.s == State(map[], SeedStored(), [], 3)
    ensures t'.handlers == [Storing(Ok("a"), "page a", 1, ["a"]), Storing(Ok("b"), "page b", 1, ["b"])]
  {
    hide Leads;
    var site, deliver := Diamond(), Deliver(1, 0, Ok("b"), "page b", false);
    LeadsOne(site, 1, t, deliver);
    t' := Delivered(t, 1, 0, Ok("b"), "page b", false);
    LeadsStep(site, 1, t, [deliver], t', Erase(1));
    actions, t' := [deliver] + [Erase(1)], Erased(t', 1);
    assert t'.s.inflight == map[];
    LeadsStep(site, 1, t, actions, t', Begin(1, 1));
    actions, t' := actions + [Begin(1, 1)], Begun(t', 1, 1);
  }

  /** ... stored it, and found its link to a. */
  lemma {:induction false} StoreB(t: Threads) returns (actions: seq<Action>, t': Threads)
    requires t.s == State(map[], SeedStored(), [], 3)
    requires t.handlers == [Storing(Ok("a"), "page a", 1, ["a"]), Storing(Ok("b"), "page b", 1, ["b"])]
    ensures Leads(Diamond(), 1, t, actions, t')
    ensures t'.s == State(map[], SeedStored()["b" := Document(1, "b", "page b")], [], 3)
    ensures t'.handlers == [Storing(Ok("a"), "page a", 1, ["a"]), Scanning(Ok("b"), ["a"])]
  {
    hide Leads;
    var site := Diamond();
    DiamondLinks();
    hide Links;
    LeadsOne(site, 1, t, Write(1));
    t' := Written(site, t, 1);
    LeadsStep(site, 1, t, [Write(1)], t', Write(1));
    actions, t' := [Write(1)] + [Write(1)], Written(site, t', 1);
  }

  lemma {:induction false} AskSeed(t: Threads) returns (t': Threads)
    requires t == StartThreads(map[], 2)
    ensures Leads(Diamond(), 1, t, [Ask("s", Always)], t')
    ensures t'.s == State(map[], map[], [Fetch("s", Always, Direct)], 0) && t'.handlers == [Idle, Idle]
  {
    LeadsOne(Diamond(), 1, t, Ask("s", Always));
    t' := Act(Diamond(), 1, t, Ask("s", Always));
  }

  /** The window of a is open: the general condition for a second fetch is met. */
  lemma {:induction false} OpenWindow(t: Threads) returns (actions: seq<Action>, t': Threads)
    requires t.s == State(map[], SeedStored()["b" := Document(1, "b", "page b")], [], 3)
    requires t.handlers == [Storing(Ok("a"), "page a", 1, ["a"]), Scanning(Ok("b"), ["a"])]
    ensures Leads(Diamond(), 1, t, actions, t') && Fresh(t'.s, 1, "a") && !NeverRefetched(Diamond(), 1, t', "a")
  {
    hide Leads;
    hide NeverRefetched;
    DiamondLinks();
    actions, t' := RefetchWindow(Diamond(), 1, t, 0, 1, "a");
    LeadsStamped(Diamond(), 1, t, actions, t');
    NeverRefetchedIff(Diamond(), 1, t', "a");
  }

  lemma LeadsStamped(site: Site, generation: int, t: Threads, actions: seq<Action>, t': Threads)
    requires Leads(site, generation, t, actions, t') && InTime(generation, actions) && Stamped(generation, t)
    ensures Stamped(generation, t')
  {
    ExecutionIsStamped(site, generation, t, actions);
  }

  /** From the start of the engine with an empty store and two threads a state is reachable
      in which a page is stored in this generation and some further execution has it
      fetched again for a link. In the one-step model no run has such a step. */
  lemma {:induction false} StoredPageIsRefetched()
    ensures exists actions, t ::
              Leads(Diamond(), 1, StartThreads(map[], 2), actions, t) && Fresh(t.s, 1, "a")
                && !NeverRefetched(Diamond(), 1, t, "a")
  {
    hide Leads;
    hide Next;
    hide Diamond;
    hide NeverRefetched;
    var site, start, e := Diamond(), StartThreads(map[], 2), Completed(0, Ok("s"), "seed", false, 1);
    var t1 := AskSeed(start);
    SeedStep(t1.s, e);
    var more2, t2 := SoloCompletionIsAtomic(site, 1, t1, 0, e);
    LeadsOn(site, 1, start, [Ask("s", Always)], t1, more2, t2);
    var more3, t3 := FetchA(t2);
    LeadsOn(site, 1, start, [Ask("s", Always)] + more2, t2, more3, t3);
    var more4, t4 := FetchB(t3);
    LeadsOn(site, 1, start, [Ask("s", Always)] + more2 + more3, t3, more4, t4);
    var more5, t5 := StoreB(t4);
    LeadsOn(site, 1, start, [Ask("s", Always)] + more2 + more3 + more4, t4, more5, t5);
    var more6, t6 := OpenWindow(t5);
    LeadsOn(site, 1, start, [Ask("s", Always)] + more2 + more3 + more4 + more5, t5, more6, t6);
  }
}
