/**
 * What one call of `process_dork` does, as functions of what the browser does
 * on each attempt, and the bookkeeping of the run over all dorks.
 *
 * The browser is replaced by a script: for each pass of the retry loop, either
 * the driver could not be set up, or, for each engine in order, what each page
 * gave. The links a page contributes are those `get_search_results` keeps
 * (module Engines). An engine's page loop can also be cut short by an
 * exception raised inside the engine's `try` but outside
 * `get_search_results` (which catches its own), and `driver.quit()` after the
 * engine loop can raise into the outer `except`.
 */
module DorkRun {
  import opened PyStr
  import opened Engines

  /** One page of an engine's page loop. */
  datatype PageResult = Page(load: PageLoad) | Raises

  /**
   * One pass of the retry loop: `setup_chrome_driver` returned `None`, or a
   * browser came up; `engines[k]` lists the pages of the k-th engine in
   * `Order`, and `quitRaises` says whether `driver.quit()` then raised.
   */
  datatype Attempt =
    | NoDriver
    | Browser(engines: seq<seq<PageResult>>, quitRaises: bool)

  /** The state the loops of `process_dork` change: `all_links`, `urls_parsed`, `working_engines`. */
  datatype Run = Run(links: seq<string>, urls: nat, working: seq<Engine>)

  /** After an engine's page loop: the state, and whether the loop ran to its end without raising. */
  datatype Step = Step(run: Run, completed: bool)

  /** After the retry loop: the state, what `process_dork` returns, and how many passes it made. */
  datatype Outcome = Outcome(run: Run, ok: bool, attempts: nat)

  /** An attempt the script does not list is one whose driver setup failed. */
  function AttemptAt(attempts: seq<Attempt>, i: nat): Attempt {
    if i < |attempts| then attempts[i] else NoDriver
  }

  /** An engine the script does not list gets pages that load nothing. */
  function ScriptFor(engines: seq<seq<PageResult>>, k: nat): seq<PageResult> {
    if k < |engines| then engines[k] else []
  }

  /** A page the script does not list is one `get_search_results` failed on (it returns no links). */
  function PageAt(script: seq<PageResult>, page: nat): PageResult {
    if page < |script| then script[page] else Page(LoadFailed)
  }

  predicate NoDup(s: seq<Engine>) {
    forall i, j :: 0 <= i < j < |s| ==> s[i] != s[j]
  }

  predicate AllHttp(links: seq<string>) {
    forall i :: 0 <= i < |links| ==> StartsWith(links[i], "http")
  }

  /** `r2` extends `r1`'s links, and `urls_parsed` grew by exactly the number of links added. */
  predicate Grows(r1: Run, r2: Run) {
    r1.links <= r2.links && r2.urls == r1.urls + (|r2.links| - |r1.links|)
  }

  /** The page loop ran to its end without raising. */
  predicate Completes(script: seq<PageResult>, pages: nat) {
    forall i :: 0 <= i < pages ==> !PageAt(script, i).Raises?
  }

  // ---------------------------------------------------------------- one engine

  /** `all_links.extend(links)` and `urls_parsed += len(links)` for one page. */
  function Fetch(r: Run, e: Engine, load: PageLoad): Run {
    var links := PageLinks(e, load);
    r.(links := r.links + links, urls := r.urls + |links|)
  }

  /** `for page in range(pages)`, from page `page` on. */
  function PagesFrom(r: Run, e: Engine, script: seq<PageResult>, page: nat, pages: nat): Step
    decreases pages - page
  {
    if page >= pages then Step(r, true)
    else match PageAt(script, page)
      case Raises => Step(r, false)
      case Page(load) => PagesFrom(Fetch(r, e, load), e, script, page + 1, pages)
  }

  /** `if engine not in working_engines: working_engines.append(engine)` */
  function Enlist(working: seq<Engine>, e: Engine): seq<Engine> {
    if e in working then working else working + [e]
  }

  /** Python's `list.remove`: drops the first occurrence. */
  function RemoveFirst(s: seq<Engine>, e: Engine): seq<Engine>
    decreases |s|
  {
    if s == [] then []
    else if s[0] == e then s[1..]
    else [s[0]] + RemoveFirst(s[1..], e)
  }

  /** `if engine in working_engines: working_engines.remove(engine)` */
  function Withdraw(working: seq<Engine>, e: Engine): seq<Engine> {
    if e in working then RemoveFirst(working, e) else working
  }

  /** The body of the engine loop's `try` and its `except`, for one engine. */
  function TryEngine(r: Run, e: Engine, script: seq<PageResult>, pages: nat): Step {
    var s := PagesFrom(r.(working := Enlist(r.working, e)), e, script, 0, pages);
    if s.completed then s else Step(s.run.(working := Withdraw(s.run.working, e)), false)
  }

  /** `for engine in self.search_engines.keys()`, from the k-th engine on; it stops at the first that completes. */
  function EngineLoop(r: Run, engines: seq<seq<PageResult>>, k: nat, pages: nat): Run
    decreases |Order| - k
  {
    if k >= |Order| then r
    else
      var s := TryEngine(r, Order[k], ScriptFor(engines, k), pages);
      if s.completed then s.run else EngineLoop(s.run, engines, k + 1, pages)
  }

  // ---------------------------------------------------------------- the retry loop

  function Later(o: Outcome): Outcome {
    o.(attempts := o.attempts + 1)
  }

  /**
   * `while retries < max_retries`, entered with `retries` passes made. A pass
   * returns `True` when the browser came up, `driver.quit()` did not raise and
   * `all_links` is not empty; any other pass adds one to `retries`.
   */
  function Retry(r: Run, attempts: seq<Attempt>, pages: nat, retries: nat, maxRetries: int): Outcome
    decreases if retries < maxRetries then maxRetries - retries else 0
  {
    if retries >= maxRetries then Outcome(r, false, 0)
    else match AttemptAt(attempts, retries)
      case NoDriver => Later(Retry(r, attempts, pages, retries + 1, maxRetries))
      case Browser(engines, quitRaises) =>
        var after := EngineLoop(r, engines, 0, pages);
        if !quitRaises && after.links != [] then Outcome(after, true, 1)
        else Later(Retry(after, attempts, pages, retries + 1, maxRetries))
  }

  // ---------------------------------------------------------------- the stats

  /** The counters of the `stats` dictionary (`start_time` aside). */
  datatype Tally = Tally(total: nat, checked: nat, urls: nat, errors: nat, retried: nat, working: seq<Engine>)

  /** The default `max_retries` of `process_dork`, which `run` relies on. */
  const MaxRetries: int := 3

  /** `process_dork` started on the given stats: `all_links` starts empty. */
  function DorkOutcome(t: Tally, pages: nat, maxRetries: int, attempts: seq<Attempt>): Outcome {
    Retry(Run([], t.urls, t.working), attempts, pages, 0, maxRetries)
  }

  /** What `process_dork` does to the stats once its outcome is known: one more checked dork if it returned `True`, one more error dork if not. */
  function Account(t: Tally, o: Outcome): Tally {
    t.(urls := o.run.urls, working := o.run.working,
       checked := t.checked + (if o.ok then 1 else 0),
       errors := t.errors + (if o.ok then 0 else 1))
  }

  /** The stats after `process_dork`. */
  function AfterDork(t: Tally, pages: nat, maxRetries: int, attempts: seq<Attempt>): Tally {
    Account(t, DorkOutcome(t, pages, maxRetries, attempts))
  }

  function ScriptOf(scripts: seq<seq<Attempt>>, i: nat): seq<Attempt> {
    if i < |scripts| then scripts[i] else []
  }

  /** The stats after the first n dorks were processed one after the other, `scripts[i]` playing the i-th. */
  function ProcessAll(t: Tally, pages: nat, scripts: seq<seq<Attempt>>, n: nat): Tally
    decreases n, 0
  {
    if n == 0 then t else TallyAfter(t, pages, scripts, n - 1)
  }

  /** What `process_dork` returns for the k-th dork (counting from 0), run on the stats the dorks before it left. */
  function OutcomeAt(t: Tally, pages: nat, scripts: seq<seq<Attempt>>, k: nat): Outcome
    decreases k, 1
  {
    DorkOutcome(ProcessAll(t, pages, scripts, k), pages, MaxRetries, ScriptOf(scripts, k))
  }

  /** The stats once the k-th dork has been processed after the ones before it. */
  function TallyAfter(t: Tally, pages: nat, scripts: seq<seq<Attempt>>, k: nat): Tally
    decreases k, 2
  {
    Account(ProcessAll(t, pages, scripts, k), OutcomeAt(t, pages, scripts, k))
  }

  /** The test that ends `display_stats`. */
  predicate AllAccounted(t: Tally) {
    t.checked + t.errors >= t.total
  }

  // ================================================================ lemmas

  /** The page loop only adds links, counts each one, keeps them `http…`, and completes exactly when no page raises. */
  lemma {:induction false} PagesFromFacts(r: Run, e: Engine, script: seq<PageResult>, page: nat, pages: nat)
    ensures Grows(r, PagesFrom(r, e, script, page, pages).run)
    ensures PagesFrom(r, e, script, page, pages).run.working == r.working
    ensures AllHttp(r.links) ==> AllHttp(PagesFrom(r, e, script, page, pages).run.links)
    ensures PagesFrom(r, e, script, page, pages).completed <==>
      forall i :: page <= i < pages ==> !PageAt(script, i).Raises?
    decreases pages - page
  {
    if page < pages && PageAt(script, page).Page? {
      var load := PageAt(script, page).load;
      var r1 := Fetch(r, e, load);
      PagesFromFacts(r1, e, script, page + 1, pages);
      if AllHttp(r.links) {
        var ls := PageLinks(e, load);
        assert forall l :: l in ls ==> StartsWith(l, "http") by {
          if load.Loaded? { LinkFilterFacts(e, load.hrefs); }
        }
        assert AllHttp(r1.links) by {
          forall i | 0 <= i < |r1.links| ensures StartsWith(r1.links[i], "http") {
            if i >= |r.links| { assert r1.links[i] == ls[i - |r.links|]; }
          }
        }
      }
    }
  }

  /** Removing the first occurrence from a list without duplicates removes the element altogether and nothing else. */
  lemma {:induction false} RemoveFirstFacts(s: seq<Engine>, e: Engine)
    requires NoDup(s)
    ensures NoDup(RemoveFirst(s, e))
    ensures e !in RemoveFirst(s, e)
    ensures forall x :: x != e ==> (x in RemoveFirst(s, e) <==> x in s)
    decreases |s|
  {
    if s != [] {
      HeadAndTail(s);
      if s[0] != e {
        RemoveFirstFacts(s[1..], e);
        var t := RemoveFirst(s[1..], e);
        assert RemoveFirst(s, e) == [s[0]] + t;
        ConsNoDup(s[0], t);
      }
    }
  }

  /** A list without duplicates is its head, not repeated, before a tail without duplicates. */
  lemma HeadAndTail(s: seq<Engine>)
    requires s != [] && NoDup(s)
    ensures NoDup(s[1..]) && s[0] !in s[1..]
    ensures forall x :: x in s <==> x == s[0] || x in s[1..]
  {
    assert s == [s[0]] + s[1..];
    forall i | 0 <= i < |s[1..]| ensures s[1..][i] != s[0] {
      assert s[1..][i] == s[i + 1];
    }
  }

  lemma ConsNoDup(x: Engine, t: seq<Engine>)
    requires NoDup(t) && x !in t
    ensures NoDup([x] + t)
  {
    forall i, j | 0 <= i < j < |[x] + t| ensures ([x] + t)[i] != ([x] + t)[j] {
      assert ([x] + t)[j] == t[j - 1];
      if i == 0 { assert t[j - 1] in t; } else { assert ([x] + t)[i] == t[i - 1]; }
    }
  }

  /**
   * Trying one engine keeps `working_engines` free of duplicates and, apart
   * from that engine, as it was; the engine is listed afterwards exactly when
   * its page loop completed.
   */
  lemma TryEngineFacts(r: Run, e: Engine, script: seq<PageResult>, pages: nat)
    requires NoDup(r.working)
    ensures Grows(r, TryEngine(r, e, script, pages).run)
    ensures AllHttp(r.links) ==> AllHttp(TryEngine(r, e, script, pages).run.links)
    ensures NoDup(TryEngine(r, e, script, pages).run.working)
    ensures TryEngine(r, e, script, pages).completed <==> Completes(script, pages)
    ensures e in TryEngine(r, e, script, pages).run.working <==> Completes(script, pages)
    ensures forall x :: x != e ==> (x in TryEngine(r, e, script, pages).run.working <==> x in r.working)
  {
    var w := Enlist(r.working, e);
    assert NoDup(w);
    var r1 := r.(working := w);
    PagesFromFacts(r1, e, script, 0, pages);
    var s := PagesFrom(r1, e, script, 0, pages);
    if !s.completed {
      RemoveFirstFacts(w, e);
    }
  }

  /** The rest of the engine loop keeps the same guarantees. */
  lemma {:induction false} EngineLoopFacts(r: Run, engines: seq<seq<PageResult>>, k: nat, pages: nat)
    requires NoDup(r.working)
    ensures Grows(r, EngineLoop(r, engines, k, pages))
    ensures AllHttp(r.links) ==> AllHttp(EngineLoop(r, engines, k, pages).links)
    ensures NoDup(EngineLoop(r, engines, k, pages).working)
    decreases |Order| - k
  {
    if k < |Order| {
      var s := TryEngine(r, Order[k], ScriptFor(engines, k), pages);
      TryEngineFacts(r, Order[k], ScriptFor(engines, k), pages);
      if !s.completed {
        EngineLoopFacts(s.run, engines, k + 1, pages);
      }
    }
  }

  /**
   * The engine loop stops after the first engine whose page loop completes:
   * what the later engines would do makes no difference.
   */
  lemma {:induction false} EngineLoopStops(r: Run, e1: seq<seq<PageResult>>, e2: seq<seq<PageResult>>, from: nat, k: nat, pages: nat)
    requires NoDup(r.working)
    requires from <= k < |Order|
    requires forall j :: from <= j <= k ==> ScriptFor(e1, j) == ScriptFor(e2, j)
    requires Completes(ScriptFor(e1, k), pages)
    ensures EngineLoop(r, e1, from, pages) == EngineLoop(r, e2, from, pages)
    decreases k - from
  {
    var s := TryEngine(r, Order[from], ScriptFor(e1, from), pages);
    TryEngineFacts(r, Order[from], ScriptFor(e1, from), pages);
    if from < k && !s.completed {
      EngineLoopStops(s.run, e1, e2, from + 1, k, pages);
    }
  }

  /** In particular, when Google's page loop completes, Google is the only engine tried. */
  lemma GoogleFirst(r: Run, engines: seq<seq<PageResult>>, pages: nat)
    requires NoDup(r.working)
    requires Completes(ScriptFor(engines, 0), pages)
    ensures EngineLoop(r, engines, 0, pages) == TryEngine(r, Google, ScriptFor(engines, 0), pages).run
    ensures Google in EngineLoop(r, engines, 0, pages).working
  {
    TryEngineFacts(r, Google, ScriptFor(engines, 0), pages);
  }

  /** The retry loop keeps the guarantees of the engine loop. */
  lemma {:induction false} RetryFacts(r: Run, attempts: seq<Attempt>, pages: nat, retries: nat, maxRetries: int)
    requires NoDup(r.working)
    ensures Grows(r, Retry(r, attempts, pages, retries, maxRetries).run)
    ensures AllHttp(r.links) ==> AllHttp(Retry(r, attempts, pages, retries, maxRetries).run.links)
    ensures NoDup(Retry(r, attempts, pages, retries, maxRetries).run.working)
    decreases if retries < maxRetries then maxRetries - retries else 0
  {
    if retries < maxRetries {
      match AttemptAt(attempts, retries)
      case NoDriver =>
        RetryFacts(r, attempts, pages, retries + 1, maxRetries);
      case Browser(engines, quitRaises) =>
        var after := EngineLoop(r, engines, 0, pages);
        EngineLoopFacts(r, engines, 0, pages);
        if quitRaises || after.links == [] {
          RetryFacts(after, attempts, pages, retries + 1, maxRetries);
        }
    }
  }

  /**
   * At most `max_retries` passes, never one more; none at all, and failure,
   * when `max_retries <= 0`; failure only once every pass is used up.
   */
  lemma {:induction false} RetryBudget(r: Run, attempts: seq<Attempt>, pages: nat, retries: nat, maxRetries: int)
    ensures var o := Retry(r, attempts, pages, retries, maxRetries);
      var budget := if retries < maxRetries then maxRetries - retries else 0;
      && o.attempts <= budget
      && (!o.ok ==> o.attempts == budget)
      && (budget == 0 ==> o == Outcome(r, false, 0))
    decreases if retries < maxRetries then maxRetries - retries else 0
  {
    if retries < maxRetries {
      match AttemptAt(attempts, retries)
      case NoDriver =>
        RetryBudget(r, attempts, pages, retries + 1, maxRetries);
      case Browser(engines, quitRaises) =>
        var after := EngineLoop(r, engines, 0, pages);
        if quitRaises || after.links == [] {
          assert Retry(r, attempts, pages, retries, maxRetries)
                 == Later(Retry(after, attempts, pages, retries + 1, maxRetries));
          RetryBudget(after, attempts, pages, retries + 1, maxRetries);
        } else {
          assert Retry(r, attempts, pages, retries, maxRetries) == Outcome(after, true, 1);
        }
    }
  }

  /**
   * Success only on a pass whose browser came up and whose `driver.quit()`
   * did not raise, with links collected.
   */
  lemma {:induction false} RetrySuccess(r: Run, attempts: seq<Attempt>, pages: nat, retries: nat, maxRetries: int)
    ensures var o := Retry(r, attempts, pages, retries, maxRetries);
      o.ok ==> && o.attempts >= 1 && o.run.links != []
               && AttemptAt(attempts, retries + o.attempts - 1).Browser?
               && !AttemptAt(attempts, retries + o.attempts - 1).quitRaises
    ensures var a := AttemptAt(attempts, retries);
      retries < maxRetries && a.Browser? && !a.quitRaises && EngineLoop(r, a.engines, 0, pages).links != [] ==>
        Retry(r, attempts, pages, retries, maxRetries) == Outcome(EngineLoop(r, a.engines, 0, pages), true, 1)
    decreases if retries < maxRetries then maxRetries - retries else 0
  {
    var o := Retry(r, attempts, pages, retries, maxRetries);
    if retries < maxRetries {
      var a := AttemptAt(attempts, retries);
      var next := if a.NoDriver? then r else EngineLoop(r, a.engines, 0, pages);
      if a.Browser? && !a.quitRaises && next.links != [] {
        assert o == Outcome(next, true, 1);
      } else {
        var o' := Retry(next, attempts, pages, retries + 1, maxRetries);
        assert o == Later(o');
        RetrySuccess(next, attempts, pages, retries + 1, maxRetries);
        assert retries + o.attempts - 1 == retries + 1 + o'.attempts - 1;
      }
    }
  }

  /** A page that adds no link to `all_links`: it raised, failed to load, or had no `href` the filter keeps. */
  predicate YieldsNothing(e: Engine, p: PageResult) {
    p.Raises? || PageLinks(e, p.load) == []
  }

  /** Every page of the engine's page loop adds nothing. */
  predicate EngineBarren(e: Engine, script: seq<PageResult>, pages: nat) {
    forall p :: 0 <= p < pages ==> YieldsNothing(e, PageAt(script, p))
  }

  /** A pass in which no engine finds anything (or no browser comes up at all). */
  predicate PassBarren(a: Attempt, pages: nat) {
    a.Browser? ==> forall k :: 0 <= k < |Order| ==> EngineBarren(Order[k], ScriptFor(a.engines, k), pages)
  }

  /** Pages that yield nothing leave `all_links` as it was. */
  lemma {:induction false} BarrenPagesKeepLinks(r: Run, e: Engine, script: seq<PageResult>, page: nat, pages: nat)
    requires forall p :: page <= p < pages ==> YieldsNothing(e, PageAt(script, p))
    ensures PagesFrom(r, e, script, page, pages).run.links == r.links
    decreases pages - page
  {
    if page < pages && PageAt(script, page).Page? {
      var r1 := Fetch(r, e, PageAt(script, page).load);
      assert r1.links == r.links + [] == r.links;
      BarrenPagesKeepLinks(r1, e, script, page + 1, pages);
    }
  }

  /** Engines whose pages all yield nothing leave `all_links` as it was. */
  lemma {:induction false} BarrenEnginesKeepLinks(r: Run, engines: seq<seq<PageResult>>, k: nat, pages: nat)
    requires forall j :: k <= j < |Order| ==> EngineBarren(Order[j], ScriptFor(engines, j), pages)
    ensures EngineLoop(r, engines, k, pages).links == r.links
    decreases |Order| - k
  {
    if k < |Order| {
      var e := Order[k];
      var s := TryEngine(r, e, ScriptFor(engines, k), pages);
      BarrenPagesKeepLinks(r.(working := Enlist(r.working, e)), e, ScriptFor(engines, k), 0, pages);
      assert s.run.links == r.links;
      if !s.completed {
        BarrenEnginesKeepLinks(s.run, engines, k + 1, pages);
      }
    }
  }

  /**
   * When `all_links` starts empty and no pass finds anything, every pass is
   * spent and the dork fails with no links.
   */
  lemma {:induction false} NothingFoundFails(r: Run, attempts: seq<Attempt>, pages: nat, retries: nat, maxRetries: int)
    requires r.links == []
    requires forall j :: retries <= j < maxRetries ==> PassBarren(AttemptAt(attempts, j), pages)
    ensures var o := Retry(r, attempts, pages, retries, maxRetries);
      && !o.ok && o.run.links == []
      && o.attempts == if retries < maxRetries then maxRetries - retries else 0
    decreases if retries < maxRetries then maxRetries - retries else 0
  {
    if retries < maxRetries {
      var a := AttemptAt(attempts, retries);
      var next := if a.NoDriver? then r else EngineLoop(r, a.engines, 0, pages);
      if a.Browser? {
        assert PassBarren(a, pages);
        BarrenEnginesKeepLinks(r, a.engines, 0, pages);
      }
      assert Retry(r, attempts, pages, retries, maxRetries)
             == Later(Retry(next, attempts, pages, retries + 1, maxRetries));
      NothingFoundFails(next, attempts, pages, retries + 1, maxRetries);
    }
  }

  /** When no driver can ever be set up, every pass is spent, nothing changes, and the dork fails. */
  lemma {:induction false} NoDriverFails(r: Run, attempts: seq<Attempt>, pages: nat, retries: nat, maxRetries: int)
    requires forall j :: retries <= j < maxRetries ==> AttemptAt(attempts, j).NoDriver?
    ensures Retry(r, attempts, pages, retries, maxRetries) ==
      Outcome(r, false, if retries < maxRetries then maxRetries - retries else 0)
    decreases if retries < maxRetries then maxRetries - retries else 0
  {
    if retries < maxRetries {
      NoDriverFails(r, attempts, pages, retries + 1, maxRetries);
    }
  }

  /**
   * `all_links` outlives a failed pass: once it holds links, the next pass
   * whose browser comes up and quits cleanly returns `True`, even if that
   * pass itself finds nothing.
   */
  lemma LinksCarryOver(r: Run, attempts: seq<Attempt>, pages: nat, retries: nat, maxRetries: int)
    requires NoDup(r.working)
    requires r.links != [] && retries < maxRetries
    requires AttemptAt(attempts, retries).Browser? && !AttemptAt(attempts, retries).quitRaises
    ensures Retry(r, attempts, pages, retries, maxRetries).ok
    ensures Retry(r, attempts, pages, retries, maxRetries).attempts == 1
  {
    EngineLoopFacts(r, AttemptAt(attempts, retries).engines, 0, pages);
  }

  /**
   * Each `process_dork` adds one to exactly one of `checked_dorks` (when it
   * returns `True`) and `error_dorks` (when it returns `False`), grows
   * `urls_parsed` by the number of links it collected, and keeps
   * `working_engines` free of duplicates.
   */
  lemma AfterDorkFacts(t: Tally, pages: nat, maxRetries: int, attempts: seq<Attempt>)
    requires NoDup(t.working)
    ensures var t2 := AfterDork(t, pages, maxRetries, attempts);
      var o := DorkOutcome(t, pages, maxRetries, attempts);
      && t2.checked + t2.errors == t.checked + t.errors + 1
      && (t2.checked == t.checked + 1 <==> o.ok)
      && (o.ok ==> t2.checked == t.checked + 1 && t2.errors == t.errors)
      && (!o.ok ==> t2.checked == t.checked && t2.errors == t.errors + 1)
      && t2.total == t.total && t2.retried == t.retried
      && t2.urls == t.urls + |o.run.links|
      && AllHttp(o.run.links)
      && (o.ok ==> o.run.links != [])
      && NoDup(t2.working)
  {
    RetryFacts(Run([], t.urls, t.working), attempts, pages, 0, maxRetries);
    RetrySuccess(Run([], t.urls, t.working), attempts, pages, 0, maxRetries);
  }

  /** After n dorks, `checked_dorks + error_dorks` has grown by exactly n. */
  lemma {:induction false} ProcessAllAccounts(t: Tally, pages: nat, scripts: seq<seq<Attempt>>, n: nat)
    requires NoDup(t.working)
    ensures var t2 := ProcessAll(t, pages, scripts, n);
      && t2.checked + t2.errors == t.checked + t.errors + n
      && t2.total == t.total && t2.retried == t.retried
      && t2.urls >= t.urls
      && NoDup(t2.working)
    decreases n
  {
    if n > 0 {
      ProcessAllAccounts(t, pages, scripts, n - 1);
      TallyAfterFacts(t, pages, scripts, n - 1);
      assert ProcessAll(t, pages, scripts, n) == TallyAfter(t, pages, scripts, n - 1);
    }
  }

  /** `AfterDorkFacts` for the k-th dork of a run. */
  lemma TallyAfterFacts(t: Tally, pages: nat, scripts: seq<seq<Attempt>>, k: nat)
    requires NoDup(ProcessAll(t, pages, scripts, k).working)
    ensures var p := ProcessAll(t, pages, scripts, k);
      var t2 := TallyAfter(t, pages, scripts, k);
      && t2.checked + t2.errors == p.checked + p.errors + 1
      && t2.total == p.total && t2.retried == p.retried
      && t2.urls >= p.urls
      && NoDup(t2.working)
  {
    AfterDorkFacts(ProcessAll(t, pages, scripts, k), pages, MaxRetries, ScriptOf(scripts, k));
  }

  /**
   * Started from fresh stats with `total_dorks` set to the number of dorks,
   * the stop test of `display_stats` holds exactly once every dork has been
   * processed, and `checked + errors` never exceeds the total before that.
   */
  lemma StopsWhenAllProcessed(total: nat, pages: nat, scripts: seq<seq<Attempt>>, n: nat)
    ensures var t := ProcessAll(Tally(total, 0, 0, 0, 0, []), pages, scripts, n);
      && (AllAccounted(t) <==> n >= total)
      && (n <= total ==> t.checked + t.errors <= t.total)
  {
    ProcessAllAccounts(Tally(total, 0, 0, 0, 0, []), pages, scripts, n);
  }
}
