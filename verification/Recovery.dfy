/** The recovery handler of processors/recovery.cpp: N workers share one stack of URLs;
    each reads the stored document of a URL, pushes it to the processor, answers the user
    with one byte and takes the next URL. The last worker to finish closes the response. */
module Recovery {

  /** What a worker waits for. A failed read leaves it Stranded: no callback is pending. */
  datatype Stage = Ready | Reading(url: string) | Pushing(url: string) | Stranded | Finished

  /** The handler with its pending callbacks, its response, and what became of the URLs. */
  datatype Pool = Pool(
    processors: seq<nat>,
    urls: seq<string>,
    stages: seq<Stage>,
    announced: int,
    written: string,
    closes: nat,
    answered: seq<string>,
    dropped: seq<string>)

  function Without(s: seq<nat>, w: nat): seq<nat> {
    if s == [] then [] else if s[0] == w then s[1..] else [s[0]] + Without(s[1..], w)
  }

  /** finish_processor. */
  function Finish(p: Pool, w: nat): Pool
    requires w < |p.stages|
  {
    var left := Without(p.processors, w);
    p.(processors := left, stages := p.stages[w := Finished], closes := if left == [] then p.closes + 1 else p.closes)
  }

  /** process_next. */
  function ProcessNext(p: Pool, w: nat): Pool
    requires w < |p.stages|
  {
    if p.urls == [] then Finish(p, w)
    else
      var n := |p.urls| - 1;
      p.(urls := p.urls[..n], stages := p.stages[w := Reading(p.urls[n])])
  }

  /** The callback of the read. */
  function AfterRead(p: Pool, w: nat, ok: bool): Pool
    requires w < |p.stages| && p.stages[w].Reading?
  {
    var url := p.stages[w].url;
    if ok then p.(stages := p.stages[w := Pushing(url)])
    else p.(stages := p.stages[w := Stranded], dropped := p.dropped + [url])
  }

  /** The state of a push callback between its answer and process_next. */
  function Answered(p: Pool, w: nat, ok: bool): Pool
    requires w < |p.stages| && p.stages[w].Pushing?
  {
    p.(written := p.written + [if ok then 's' else 'f'], answered := p.answered + [p.stages[w].url],
       stages := p.stages[w := Ready])
  }

  /** The callback of the push: one byte for the user, then the next URL. */
  function AfterPush(p: Pool, w: nat, ok: bool): Pool
    requires w < |p.stages| && p.stages[w].Pushing?
  {
    ProcessNext(Answered(p, w, ok), w)
  }

  function Workers(n: nat): (r: seq<nat>)
    ensures |r| == n && forall i :: 0 <= i < n ==> r[i] == i
  {
    seq(n, (i: nat) => i)
  }

  /** The header is sent, no worker is started yet. */
  function Connected(urls: seq<string>, n: nat): Pool {
    Pool(Workers(n), urls, seq(n, (i: nat) => Ready), |urls|, "", 0, [], [])
  }

  /** The launch loop, after its first k iterations. */
  function Launched(urls: seq<string>, n: nat, k: nat): (p: Pool)
    requires k <= n
    ensures |p.stages| == n
  {
    if k == 0 then Connected(urls, n) else ProcessNext(Launched(urls, n, k - 1), k - 1)
  }

  class RecoveryHandler {
    var processors: seq<nat>
    var urls: seq<string>
    /** Per worker, the callback that is pending. */
    var stages: seq<Stage>
    var status: int
    var announced: int
    var written: string
    var closes: nat
    ghost var answered: seq<string>
    ghost var dropped: seq<string>

    ghost function View(): Pool
      reads this
    {
      Pool(processors, urls, stages, announced, written, closes, answered, dropped)
    }

    constructor ()
      ensures View() == Pool([], [], [], 0, "", 0, [], []) && status == 0
    {
      processors, urls, stages, status, announced, written, closes := [], [], [], 0, 0, "", 0;
      answered, dropped := [], [];
    }

    /** on_request up to the search for URLs: `connected` of `count` connections succeed. */
    method OnRequest(hasProcessor: bool, count: nat, connected: nat) returns (searching: bool)
      requires processors == [] && connected <= count
      modifies this
      ensures searching <==> hasProcessor && count >= 1 && connected == count
      ensures status == if !hasProcessor || count < 1 then 400 else if connected < count then 500 else old(status)
      ensures closes == if searching then old(closes) else old(closes) + 1
      ensures processors == if searching then Workers(count) else if !hasProcessor || count < 1 then []
              else Workers(connected)
      ensures announced == if searching then old(announced) else 0
      ensures urls == old(urls) && stages == old(stages)
      ensures written == old(written) && answered == old(answered) && dropped == old(dropped)
    {
      if !hasProcessor || count < 1 {
        status, announced, closes := 400, 0, closes + 1;
        return false;
      }
      var i := 0;
      while i < count
        invariant 0 <= i <= connected && processors == Workers(i)
        invariant status == old(status) && closes == old(closes) && urls == old(urls) && written == old(written)
        invariant announced == old(announced) && stages == old(stages)
        invariant answered == old(answered) && dropped == old(dropped)
      {
        if i >= connected {
          status, announced, closes := 500, 0, closes + 1;
          return false;
        }
        processors := processors + [i];
        i := i + 1;
      }
      return true;
    }

    /** The callback of the search: sends the header and launches every worker. The loop
        runs over `processors`; a worker launched without a URL left finishes and erases
        from it, which the language leaves undefined. `defined` tells whether the loop got
        by without; if not, the state is that in front of the first such worker. */
    method OnUrls(found: seq<string>) returns (defined: bool)
      requires processors == Workers(|processors|)
      requires written == "" && closes == 0 && answered == [] && dropped == []
      modifies this
      ensures status == 200
      ensures defined <==> |old(processors)| <= |found|
      ensures View() == Launched(found, |old(processors)|, if defined then |old(processors)| else |found|)
    {
      var n := |processors|;
      urls, status, announced := found, 200, |found|;
      stages := seq(n, (i: nat) => Ready);
      var k := 0;
      while k < n
        invariant 0 <= k <= n && k <= |found| && status == 200
        invariant View() == Launched(found, n, k)
        invariant processors == Workers(n) && |urls| == |found| - k
      {
        if urls == [] {
          return false;
        }
        LaunchTakesOne(found, n, k);
        ProcessNextUrl(processors[k]);
        k := k + 1;
      }
      return true;
    }

    method ProcessNextUrl(w: nat)
      requires w < |stages|
      modifies this`processors, this`urls, this`stages, this`closes
      ensures View() == ProcessNext(old(View()), w)
    {
      if urls == [] {
        FinishProcessor(w);
        return;
      }
      var url := urls[|urls| - 1];
      urls := urls[..|urls| - 1];
      stages := stages[w := Reading(url)];
    }

    method FinishProcessor(w: nat)
      requires w < |stages|
      modifies this`processors, this`stages, this`closes
      ensures View() == Finish(old(View()), w)
    {
      var i := 0;
      while i < |processors| && processors[i] != w
        invariant 0 <= i <= |processors|
        invariant Without(processors, w) == processors[..i] + Without(processors[i..], w)
      {
        assert processors[i..][1..] == processors[i + 1..];
        assert processors[..i + 1] == processors[..i] + [processors[i]];
        i := i + 1;
      }
      if i != |processors| {
        assert processors[i..][1..] == processors[i + 1..];
        processors := processors[..i] + processors[i + 1..];
      }
      stages := stages[w := Finished];
      if processors == [] {
        closes := closes + 1;
      }
    }

    method OnRead(w: nat, ok: bool)
      requires w < |stages| && stages[w].Reading?
      modifies this`stages, this`dropped
      ensures View() == AfterRead(old(View()), w, ok)
    {
      var url := stages[w].url;
      if ok {
        stages := stages[w := Pushing(url)];
      } else {
        stages := stages[w := Stranded];
        dropped := dropped + [url];
      }
    }

    method OnPushed(w: nat, ok: bool)
      requires w < |stages| && stages[w].Pushing?
      modifies this
      ensures status == old(status) && written == old(written) + (if ok then "s" else "f")
      ensures View() == AfterPush(old(View()), w, ok)
    {
      written := written + [if ok then 's' else 'f'];
      answered := answered + [stages[w].url];
      stages := stages[w := Ready];
      ProcessNextUrl(w);
    }
  }

  datatype Event = Read(w: nat, ok: bool) | Pushed(w: nat, ok: bool)

  predicate Enabled(p: Pool, e: Event) {
    e.w < |p.stages| && if e.Read? then p.stages[e.w].Reading? else p.stages[e.w].Pushing?
  }

  function Next(p: Pool, e: Event): Pool
    requires Enabled(p, e)
  {
    if e.Read? then AfterRead(p, e.w, e.ok) else AfterPush(p, e.w, e.ok)
  }

  ghost predicate IsRun(p: Pool, events: seq<Event>)
    decreases |events|, 0
  {
    events == [] ||
    var n := |events| - 1;
    IsRun(p, events[..n]) && Enabled(After(p, events[..n]), events[n])
  }

  ghost function After(p: Pool, events: seq<Event>): Pool
    requires IsRun(p, events)
    decreases |events|, 1
  {
    if events == [] then p else
    var n := |events| - 1;
    Next(After(p, events[..n]), events[n])
  }

  function Carries(s: Stage, url: string): nat {
    if (s.Reading? || s.Pushing?) && s.url == url then 1 else 0
  }

  /** How often a URL is being read or being pushed. */
  function Carried(stages: seq<Stage>, url: string): nat {
    if stages == [] then 0 else
    var n := |stages| - 1;
    Carried(stages[..n], url) + Carries(stages[n], url)
  }

  lemma {:induction false} CarriedUpdate(stages: seq<Stage>, w: nat, s: Stage, url: string)
    requires w < |stages|
    ensures Carried(stages[w := s], url) + Carries(stages[w], url) == Carried(stages, url) + Carries(s, url)
    decreases |stages|
  {
    var n := |stages| - 1;
    if w == n {
      assert stages[w := s][..n] == stages[..n];
    } else {
      assert stages[w := s][..n] == stages[..n][w := s];
      CarriedUpdate(stages[..n], w, s, url);
    }
  }

  /** How often a URL is on the stack, being read or pushed, answered, or dropped. */
  function Accounted(p: Pool, url: string): nat {
    multiset(p.urls)[url] + Carried(p.stages, url) + multiset(p.answered)[url] + multiset(p.dropped)[url]
  }

  lemma {:induction false} NextConserves(p: Pool, w: nat, url: string)
    requires w < |p.stages| && Carries(p.stages[w], url) == 0
    ensures Accounted(ProcessNext(p, w), url) == Accounted(p, url)
  {
    hide Carried;
    if p.urls == [] {
      CarriedUpdate(p.stages, w, Finished, url);
    } else {
      var n := |p.urls| - 1;
      CarriedUpdate(p.stages, w, Reading(p.urls[n]), url);
      assert p.urls == p.urls[..n] + [p.urls[n]];
    }
  }

  lemma {:induction false} StepConserves(p: Pool, e: Event, url: string)
    requires Enabled(p, e)
    ensures Accounted(Next(p, e), url) == Accounted(p, url)
  {
    hide Carried;
    if e.Read? {
      CarriedUpdate(p.stages, e.w, if e.ok then Pushing(p.stages[e.w].url) else Stranded, url);
    } else {
      CarriedUpdate(p.stages, e.w, Ready, url);
      NextConserves(Answered(p, e.w, e.ok), e.w, url);
    }
  }

  ghost predicate HasStranded(stages: seq<Stage>) {
    exists w :: 0 <= w < |stages| && stages[w] == Stranded
  }

  ghost predicate NoRepeat(s: seq<nat>) {
    forall i, j :: 0 <= i < j < |s| ==> s[i] != s[j]
  }

  /** What holds between callbacks: the processors are the workers not finished, each once;
      the response is closed exactly when there are none; workers finish only when the
      stack is empty; one byte is written per answered URL, none for a dropped one. */
  ghost predicate Invariant(p: Pool) {
    && NoRepeat(p.processors)
    && (forall w: nat :: w in p.processors <==> w < |p.stages| && p.stages[w] != Finished)
    && p.closes == (if p.processors == [] then 1 else 0)
    && (forall w :: 0 <= w < |p.stages| && p.stages[w] == Finished ==> p.urls == [])
    && |p.written| == |p.answered|
    && (p.dropped != [] <==> HasStranded(p.stages))
    && |p.stages| > 0
  }

  lemma {:induction false} WithoutExact(s: seq<nat>, w: nat)
    requires NoRepeat(s)
    ensures NoRepeat(Without(s, w))
    ensures forall x: nat :: x in Without(s, w) <==> x in s && x != w
  {
    if s != [] {
      assert forall x :: x in s <==> x == s[0] || x in s[1..];
      assert s[0] !in s[1..];
      if s[0] != w {
        WithoutExact(s[1..], w);
      }
    }
  }

  lemma {:induction false} StrandedUpdate(stages: seq<Stage>, w: nat, s: Stage)
    requires w < |stages| && stages[w] != Stranded
    ensures HasStranded(stages[w := s]) <==> HasStranded(stages) || s == Stranded
  {
    var after := stages[w := s];
    if HasStranded(stages) {
      var v :| 0 <= v < |stages| && stages[v] == Stranded;
      assert after[v] == Stranded;
    }
    if HasStranded(after) {
      var v :| 0 <= v < |after| && after[v] == Stranded;
      assert v == w || stages[v] == Stranded;
    }
    if s == Stranded { assert after[w] == Stranded; }
  }

  lemma {:induction false} ProcessNextKeepsInvariant(p: Pool, w: nat)
    requires Invariant(p) && w < |p.stages| && p.stages[w] == Ready
    ensures Invariant(ProcessNext(p, w))
  {
    hide HasStranded;
    WithoutExact(p.processors, w);
    assert w in p.processors;
    StrandedUpdate(p.stages, w, ProcessNext(p, w).stages[w]);
  }

  lemma {:induction false} StepKeepsInvariant(p: Pool, e: Event)
    requires Enabled(p, e) && Invariant(p)
    ensures Invariant(Next(p, e))
  {
    hide HasStranded;
    if e.Pushed? {
      StrandedUpdate(p.stages, e.w, Ready);
      ProcessNextKeepsInvariant(Answered(p, e.w, e.ok), e.w);
    } else {
      StrandedUpdate(p.stages, e.w, Next(p, e).stages[e.w]);
    }
  }

  /** Launching one worker takes one URL as long as there is one. */
  lemma {:induction false} LaunchTakesOne(urls: seq<string>, n: nat, k: nat)
    requires k <= n
    ensures var p := Launched(urls, n, k);
            && |p.urls| == (if k <= |urls| then |urls| - k else 0)
            && (k <= |urls| ==> p.processors == Workers(n) && p.closes == 0)
  {
    if k > 0 { LaunchTakesOne(urls, n, k - 1); }
  }

  /** The launch loop never erases from the vector it iterates over if and only if there
      are at least as many URLs as workers. */
  lemma LaunchIsSafeIff(urls: seq<string>, n: nat)
    ensures (forall k :: 0 <= k < n ==> Launched(urls, n, k).urls != []) <==> n <= |urls|
  {
    forall k | 0 <= k < n ensures Launched(urls, n, k).urls != [] <==> k < |urls| {
      LaunchTakesOne(urls, n, k);
    }
    if n > |urls| {
      assert Launched(urls, n, |urls|).urls == [];
    }
  }

  lemma {:induction false} ConnectedPool(urls: seq<string>, n: nat, url: string)
    requires 1 <= n
    ensures Invariant(Connected(urls, n)) && Accounted(Connected(urls, n), url) == multiset(urls)[url]
  {
    var p := Connected(urls, n);
    ReadyCarriesNothing(p.stages, url);
    assert forall w: nat :: w < n ==> p.processors[w] == w && p.stages[w] == Ready;
  }

  lemma {:induction false} LaunchedPool(urls: seq<string>, n: nat, k: nat, url: string)
    requires 1 <= n <= |urls| && k <= n
    ensures var p := Launched(urls, n, k);
            && Invariant(p) && Accounted(p, url) == multiset(urls)[url] && p.announced == |urls|
            && (forall w :: k <= w < n ==> p.stages[w] == Ready)
            && (forall w :: 0 <= w < k ==> p.stages[w].Reading?)
  {
    hide Invariant;
    hide Accounted;
    if k == 0 {
      ConnectedPool(urls, n, url);
    } else {
      LaunchedPool(urls, n, k - 1, url);
      LaunchTakesOne(urls, n, k - 1);
      var p := Launched(urls, n, k - 1);
      ProcessNextKeepsInvariant(p, k - 1);
      NextConserves(p, k - 1, url);
    }
  }

  lemma {:induction false} ReadyCarriesNothing(stages: seq<Stage>, url: string)
    requires forall i :: 0 <= i < |stages| ==> stages[i] == Ready
    ensures Carried(stages, url) == 0
  {
    if stages != [] { ReadyCarriesNothing(stages[..|stages| - 1], url); }
  }

  /** In every reachable state every URL is accounted for, as often as it was found. */
  lemma {:induction false} RunConserves(urls: seq<string>, n: nat, events: seq<Event>, url: string)
    requires 1 <= n <= |urls| && IsRun(Launched(urls, n, n), events)
    ensures var p := After(Launched(urls, n, n), events);
            && Accounted(p, url) == multiset(urls)[url] && p.announced == |urls|
            && Invariant(p) && forall w :: 0 <= w < |p.stages| ==> p.stages[w] != Ready
    decreases |events|
  {
    hide Invariant;
    hide Accounted;
    if events == [] {
      LaunchedPool(urls, n, n, url);
    } else {
      var m := |events| - 1;
      RunConserves(urls, n, events[..m], url);
      var p := After(Launched(urls, n, n), events[..m]);
      StepConserves(p, events[m], url);
      StepKeepsInvariant(p, events[m]);
    }
  }

  /** What the user is told of one URL. */
  datatype Report = Report(url: string, ok: bool)

  /** The completed pushes of a run, in order, each with the URL its worker was pushing. */
  ghost function Reports(p: Pool, events: seq<Event>): seq<Report>
    requires IsRun(p, events)
    decreases |events|
  {
    if events == [] then [] else
    var n := |events| - 1;
    var e := events[n];
    Reports(p, events[..n]) + if e.Pushed? then [Report(After(p, events[..n]).stages[e.w].url, e.ok)] else []
  }

  /** One byte for the user per completed push: s for success, f for failure. */
  lemma PushTellsOutcome(p: Pool, w: nat, ok: bool)
    requires Enabled(p, Pushed(w, ok))
    ensures Next(p, Pushed(w, ok)).written == p.written + (if ok then "s" else "f")
    ensures Next(p, Pushed(w, ok)).answered == p.answered + [p.stages[w].url]
  {
  }

  lemma ReadTellsNothing(p: Pool, w: nat, ok: bool)
    requires Enabled(p, Read(w, ok))
    ensures Next(p, Read(w, ok)).written == p.written && Next(p, Read(w, ok)).answered == p.answered
    ensures Next(p, Read(w, ok)).dropped == p.dropped + if ok then [] else [p.stages[w].url]
  {
  }

  /** In every run byte i tells whether the i-th completed push succeeded, and the i-th
      answered URL is the one that its worker was pushing. */
  lemma {:induction false} BytesTellOutcomes(urls: seq<string>, n: nat, events: seq<Event>)
    requires n <= |urls| && IsRun(Launched(urls, n, n), events)
    ensures var p, reports := After(Launched(urls, n, n), events), Reports(Launched(urls, n, n), events);
            && |p.written| == |p.answered| == |reports|
            && (forall i :: 0 <= i < |reports| ==>
                  p.written[i] == (if reports[i].ok then 's' else 'f') && p.answered[i] == reports[i].url)
    decreases |events|
  {
    hide Next;
    if events == [] {
      LaunchTellsNothing(urls, n, n);
    } else {
      var m := |events| - 1;
      BytesTellOutcomes(urls, n, events[..m]);
      var p, e := After(Launched(urls, n, n), events[..m]), events[m];
      if e.Pushed? { PushTellsOutcome(p, e.w, e.ok); } else { ReadTellsNothing(p, e.w, e.ok); }
    }
  }

  lemma {:induction false} LaunchTellsNothing(urls: seq<string>, n: nat, k: nat)
    requires k <= n
    ensures Launched(urls, n, k).written == "" && Launched(urls, n, k).answered == []
  {
    if k > 0 { LaunchTellsNothing(urls, n, k - 1); }
  }

  /** The stack is worked off from its end: worker k starts with the k-th URL from there. */
  lemma {:induction false} LaunchedReads(urls: seq<string>, n: nat, k: nat)
    requires k <= n && k <= |urls|
    ensures var p := Launched(urls, n, k);
            && p.urls == urls[..|urls| - k]
            && forall w :: 0 <= w < k ==> p.stages[w] == Reading(urls[|urls| - 1 - w])
  {
    if k > 0 { LaunchedReads(urls, n, k - 1); }
  }

  /** A worker whose push has completed reads the last URL of the stack next. */
  lemma NextUrlIsLast(p: Pool, w: nat, ok: bool)
    requires Enabled(p, Pushed(w, ok)) && p.urls != []
    ensures var q := Next(p, Pushed(w, ok));
            q.stages[w] == Reading(p.urls[|p.urls| - 1]) && q.urls + [p.urls[|p.urls| - 1]] == p.urls
  {
  }

  /** No callback is pending. */
  ghost predicate AtRest(p: Pool) {
    forall w :: 0 <= w < |p.stages| ==> !p.stages[w].Reading? && !p.stages[w].Pushing?
  }

  lemma {:induction false} RestCarriesNothing(stages: seq<Stage>, url: string)
    requires forall w :: 0 <= w < |stages| ==> !stages[w].Reading? && !stages[w].Pushing?
    ensures Carried(stages, url) == 0
  {
    if stages != [] { RestCarriesNothing(stages[..|stages| - 1], url); }
  }

  /** The response is closed at most once. Once it is closed, every URL was answered, none
      was dropped, and as many bytes were written as the Content-Length announced. */
  lemma {:induction false} ClosedMeansComplete(urls: seq<string>, n: nat, events: seq<Event>)
    requires 1 <= n <= |urls| && IsRun(Launched(urls, n, n), events)
    ensures var p := After(Launched(urls, n, n), events);
            && p.closes <= 1
            && (p.closes == 1 ==>
              p.dropped == [] && multiset(p.answered) == multiset(urls) && |p.written| == p.announced)
  {
    RunConserves(urls, n, events, "");
    var p := After(Launched(urls, n, n), events);
    if p.closes == 1 {
      forall w: nat | w < |p.stages| ensures p.stages[w] == Finished {
        assert w !in p.processors;
      }
      assert p.stages[0] == Finished;
      assert p.urls == [] && p.dropped == [];
      forall url ensures multiset(p.answered)[url] == multiset(urls)[url] {
        RunConserves(urls, n, events, url);
        RestCarriesNothing(p.stages, url);
      }
      assert multiset(p.answered) == multiset(urls);
      assert |multiset(p.answered)| == |p.answered| && |multiset(urls)| == |urls|;
    }
  }

  /** When no callback is pending any more, the response was closed if and only if no read
      failed. */
  lemma ClosedIffNothingDropped(urls: seq<string>, n: nat, events: seq<Event>)
    requires 1 <= n <= |urls| && IsRun(Launched(urls, n, n), events)
    requires AtRest(After(Launched(urls, n, n), events))
    ensures var p := After(Launched(urls, n, n), events);
            p.closes == 1 <==> p.dropped == []
  {
    RunConserves(urls, n, events, "");
    ClosedMeansComplete(urls, n, events);
    var p := After(Launched(urls, n, n), events);
    if p.processors != [] {
      assert p.processors[0] in p.processors;
      assert p.stages[p.processors[0]] == Stranded;
      assert HasStranded(p.stages);
    }
  }

  /** A failed read strands its worker for good, and the response is never closed. */
  lemma {:induction false} StrandedForever(p: Pool, events: seq<Event>, w: nat)
    requires Invariant(p) && IsRun(p, events) && w < |p.stages| && p.stages[w] == Stranded
    ensures var q := After(p, events);
            Invariant(q) && w < |q.stages| && q.stages[w] == Stranded && q.closes == 0
    decreases |events|
  {
    if events != [] {
      var n := |events| - 1;
      StrandedForever(p, events[..n], w);
      StepKeepsInvariant(After(p, events[..n]), events[n]);
    }
    assert w in After(p, events).processors;
  }

  function Weight(s: Stage): nat {
    if s.Reading? then 2 else if s.Pushing? then 1 else 0
  }

  function Weights(stages: seq<Stage>): nat {
    if stages == [] then 0 else
    var n := |stages| - 1;
    Weights(stages[..n]) + Weight(stages[n])
  }

  function Measure(p: Pool): nat {
    3 * |p.urls| + Weights(p.stages)
  }

  lemma {:induction false} WeightsUpdate(stages: seq<Stage>, w: nat, s: Stage)
    requires w < |stages|
    ensures Weights(stages[w := s]) + Weight(stages[w]) == Weights(stages) + Weight(s)
    decreases |stages|
  {
    var n := |stages| - 1;
    if w == n {
      assert stages[w := s][..n] == stages[..n];
    } else {
      assert stages[w := s][..n] == stages[..n][w := s];
      WeightsUpdate(stages[..n], w, s);
    }
  }

  lemma {:induction false} StepDecreases(p: Pool, e: Event)
    requires Enabled(p, e)
    ensures Measure(Next(p, e)) < Measure(p)
  {
    var q := Next(p, e);
    WeightsUpdate(p.stages, e.w, q.stages[e.w]);
    assert q.stages == p.stages[e.w := q.stages[e.w]];
  }

  /** Every run ends: it has no more steps than the measure of the state it starts in. */
  lemma {:induction false} RunIsBounded(p: Pool, events: seq<Event>)
    requires IsRun(p, events)
    ensures |events| + Measure(After(p, events)) <= Measure(p)
    decreases |events|
  {
    if events != [] {
      var n := |events| - 1;
      RunIsBounded(p, events[..n]);
      StepDecreases(After(p, events[..n]), events[n]);
    }
  }
}
