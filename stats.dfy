/**
 * The parser's shared `stats` dictionary as an object, with `process_dork`
 * and the submission of all dorks in `run` as methods that update it. Workers
 * are taken to run one after the other.
 */
module DorkStats {
  import opened Engines
  import opened DorkRun

  /** What a dork adds to the output files: its links under `results.txt`, or its line in `errors.txt`. */
  datatype Record = Saved(dork: string, links: seq<string>) | Failed(dork: string)

  /** The dork of each record, in order. */
  function DorksOf(records: seq<Record>): (dorks: seq<string>)
    ensures |dorks| == |records|
  {
    if records == [] then [] else DorksOf(records[..|records| - 1]) + [records[|records| - 1].dork]
  }

  class Stats {
    var totalDorks: nat
    var checkedDorks: nat
    var urlsParsed: nat
    var errorDorks: nat
    var retryDorks: nat
    var workingEngines: seq<Engine>

    ghost predicate Valid()
      reads this
    {
      NoDup(workingEngines)
    }

    function Snapshot(): Tally
      reads this
    {
      Tally(totalDorks, checkedDorks, urlsParsed, errorDorks, retryDorks, workingEngines)
    }

    /** The counters `__init__` sets up. */
    constructor ()
      ensures Valid() && Snapshot() == Tally(0, 0, 0, 0, 0, [])
    {
      totalDorks, checkedDorks, urlsParsed, errorDorks, retryDorks := 0, 0, 0, 0, 0;
      workingEngines := [];
    }

    /**
     * `process_dork(dork, pages, max_retries)`, the browser playing `attempts`.
     * The stats end as `AfterDork` says; the record holds the collected links
     * on success, all of them `http…` and at least one.
     */
    method ProcessDork(dork: string, pages: nat, maxRetries: int, attempts: seq<Attempt>) returns (ok: bool, record: Record)
      requires Valid()
      modifies this
      ensures Valid()
      ensures ok == DorkOutcome(old(Snapshot()), pages, maxRetries, attempts).ok
      ensures Snapshot() == AfterDork(old(Snapshot()), pages, maxRetries, attempts)
      ensures record == if ok then Saved(dork, DorkOutcome(old(Snapshot()), pages, maxRetries, attempts).run.links)
                        else Failed(dork)
      ensures record.Saved? ==> record.links != [] && AllHttp(record.links)
    {
      ghost var t0 := Snapshot();
      ghost var goal := DorkOutcome(t0, pages, maxRetries, attempts);
      AfterDorkFacts(t0, pages, maxRetries, attempts);
      var retries: nat := 0;
      var allLinks: seq<string> := [];
      while retries < maxRetries
        invariant totalDorks == t0.total && checkedDorks == t0.checked && errorDorks == t0.errors && retryDorks == t0.retried
        invariant Retry(Run(allLinks, urlsParsed, workingEngines), attempts, pages, retries, maxRetries).run == goal.run
        invariant Retry(Run(allLinks, urlsParsed, workingEngines), attempts, pages, retries, maxRetries).ok == goal.ok
        decreases maxRetries - retries
      {
        var attempt := AttemptAt(attempts, retries);
        if attempt.NoDriver? {
          retries := retries + 1;
          continue;
        }
        ghost var before := Run(allLinks, urlsParsed, workingEngines);
        allLinks := TryEngines(dork, pages, attempt.engines, allLinks);
        assert Run(allLinks, urlsParsed, workingEngines) == EngineLoop(before, attempt.engines, 0, pages);
        if attempt.quitRaises {
          // the outer `except`: the pass is spent, `all_links` is kept
          retries := retries + 1;
        } else if allLinks != [] {
          checkedDorks := checkedDorks + 1;
          return true, Saved(dork, allLinks);
        } else {
          retries := retries + 1;
        }
      }
      errorDorks := errorDorks + 1;
      return false, Failed(dork);
    }

    /**
     * The engine loop of one pass: tries the engines in order until one's page
     * loop completes, extending `all_links` (given and returned) and the stats.
     */
    method TryEngines(dork: string, pages: nat, engines: seq<seq<PageResult>>, links: seq<string>)
      returns (allLinks: seq<string>)
      modifies this
      ensures Run(allLinks, urlsParsed, workingEngines)
              == EngineLoop(Run(links, old(urlsParsed), old(workingEngines)), engines, 0, pages)
      ensures totalDorks == old(totalDorks) && checkedDorks == old(checkedDorks)
      ensures errorDorks == old(errorDorks) && retryDorks == old(retryDorks)
    {
      ghost var before := Run(links, urlsParsed, workingEngines);
      allLinks := links;
      var k := 0;
      while k < |Order|
        invariant k <= |Order|
        invariant totalDorks == old(totalDorks) && checkedDorks == old(checkedDorks)
        invariant errorDorks == old(errorDorks) && retryDorks == old(retryDorks)
        invariant EngineLoop(Run(allLinks, urlsParsed, workingEngines), engines, k, pages) == EngineLoop(before, engines, 0, pages)
        decreases |Order| - k
      {
        var engine := Order[k];
        ghost var entry := Run(allLinks, urlsParsed, workingEngines);
        var completed;
        allLinks, completed := TryEngine(dork, pages, engine, ScriptFor(engines, k), allLinks);
        assert Step(Run(allLinks, urlsParsed, workingEngines), completed)
               == DorkRun.TryEngine(entry, engine, ScriptFor(engines, k), pages);
        if completed {
          // this engine's page loop completed: stop trying engines
          break;
        }
        k := k + 1;
      }
    }

    /** One engine's `try` (registering it, then its page loop) and its `except` (withdrawing it). */
    method TryEngine(dork: string, pages: nat, engine: Engine, script: seq<PageResult>, links: seq<string>)
      returns (allLinks: seq<string>, completed: bool)
      modifies this
      ensures Step(Run(allLinks, urlsParsed, workingEngines), completed)
              == DorkRun.TryEngine(Run(links, old(urlsParsed), old(workingEngines)), engine, script, pages)
      ensures totalDorks == old(totalDorks) && checkedDorks == old(checkedDorks)
      ensures errorDorks == old(errorDorks) && retryDorks == old(retryDorks)
    {
      if engine !in workingEngines {
        workingEngines := workingEngines + [engine];
      }
      assert workingEngines == Enlist(old(workingEngines), engine);
      allLinks, completed := ScrapePages(dork, pages, engine, script, links);
      if !completed && engine in workingEngines {
        workingEngines := RemoveFirst(workingEngines, engine);
      }
    }

    /** The page loop of one engine: each page's links are appended to `all_links` and counted. */
    method ScrapePages(dork: string, pages: nat, engine: Engine, script: seq<PageResult>, links: seq<string>)
      returns (allLinks: seq<string>, completed: bool)
      modifies this
      ensures Step(Run(allLinks, urlsParsed, workingEngines), completed)
              == PagesFrom(Run(links, old(urlsParsed), old(workingEngines)), engine, script, 0, pages)
      ensures totalDorks == old(totalDorks) && checkedDorks == old(checkedDorks)
      ensures errorDorks == old(errorDorks) && retryDorks == old(retryDorks)
    {
      ghost var start := Run(links, urlsParsed, workingEngines);
      allLinks := links;
      var page: nat := 0;
      completed := true;
      while page < pages
        invariant page <= pages && completed
        invariant totalDorks == old(totalDorks) && checkedDorks == old(checkedDorks)
        invariant errorDorks == old(errorDorks) && retryDorks == old(retryDorks)
        invariant workingEngines == start.working
        invariant PagesFrom(Run(allLinks, urlsParsed, workingEngines), engine, script, page, pages)
                  == PagesFrom(start, engine, script, 0, pages)
        decreases pages - page
      {
        var result := PageAt(script, page);
        if result.Raises? {
          completed := false;
          break;
        }
        ghost var here := Run(allLinks, urlsParsed, workingEngines);
        allLinks := ScrapePage(dork, page, engine, result.load, allLinks);
        assert PagesFrom(here, engine, script, page, pages)
               == PagesFrom(Fetch(here, engine, result.load), engine, script, page + 1, pages);
        page := page + 1;
      }
    }

    /** One page of the loop: its links are appended to `all_links` and added to `urls_parsed`. */
    method ScrapePage(dork: string, page: nat, engine: Engine, load: PageLoad, links: seq<string>)
      returns (allLinks: seq<string>)
      modifies this
      ensures Run(allLinks, urlsParsed, workingEngines)
              == Fetch(Run(links, old(urlsParsed), old(workingEngines)), engine, load)
      ensures totalDorks == old(totalDorks) && checkedDorks == old(checkedDorks)
      ensures errorDorks == old(errorDorks) && retryDorks == old(retryDorks)
    {
      var url, found := GetSearchResults(engine, dork, page, load);
      allLinks := links + found;
      urlsParsed := urlsParsed + |found|;
    }

    /** `process_dork` for the i-th dork of the run, with the default `max_retries`. */
    method ProcessNext(dork: string, pages: nat, scripts: seq<seq<Attempt>>, i: nat, ghost t0: Tally) returns (record: Record)
      requires Valid() && Snapshot() == ProcessAll(t0, pages, scripts, i)
      modifies this
      ensures Valid() && Snapshot() == ProcessAll(t0, pages, scripts, i + 1)
      ensures record.dork == dork
    {
      var ok;
      ok, record := ProcessDork(dork, pages, MaxRetries, ScriptOf(scripts, i));
      assert ProcessAll(t0, pages, scripts, i + 1) == TallyAfter(t0, pages, scripts, i);
      assert OutcomeAt(t0, pages, scripts, i) == DorkOutcome(ProcessAll(t0, pages, scripts, i), pages, MaxRetries, ScriptOf(scripts, i));
    }

    /**
     * The part of `run` that submits every dork to `process_dork` with the
     * default `max_retries`: nothing happens without dorks; otherwise
     * `total_dorks` is set and every dork leaves exactly one record, in order.
     */
    method RunDorks(dorks: seq<string>, pages: nat, scripts: seq<seq<Attempt>>) returns (records: seq<Record>)
      requires Valid()
      modifies this
      ensures Valid()
      ensures dorks == [] ==> Snapshot() == old(Snapshot()) && records == []
      ensures dorks != [] ==> Snapshot() == ProcessAll(old(Snapshot()).(total := |dorks|), pages, scripts, |dorks|)
      ensures |records| == |dorks|
      ensures DorksOf(records) == dorks
      ensures checkedDorks + errorDorks == old(checkedDorks + errorDorks) + |dorks|
    {
      records := [];
      if dorks != [] {
        totalDorks := |dorks|;
        ghost var t0 := Snapshot();
        assert t0 == old(Snapshot()).(total := |dorks|);
        for i := 0 to |dorks|
          invariant Valid()
          invariant Snapshot() == ProcessAll(t0, pages, scripts, i)
          invariant |records| == i
          invariant DorksOf(records) == dorks[..i]
        {
          var record := ProcessNext(dorks[i], pages, scripts, i, t0);
          assert (records + [record])[..i] == records;
          records := records + [record];
          assert dorks[..i + 1] == dorks[..i] + [dorks[i]];
        }
        assert dorks[..|dorks|] == dorks;
        ProcessAllAccounts(t0, pages, scripts, |dorks|);
      }
    }
  }
}
