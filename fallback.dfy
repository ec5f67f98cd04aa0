// The primary/fallback rule of core/fallback_search.py and its asyncio twin
// core/async_fallback_search.py. An engine call is an outcome: the list it returned,
// or an exception. Threads and asyncio scheduling are not modelled: a worker that
// has not finished when the join times out is a slot with no result.

module Fallback {
  import opened Base
  import opened Results

  /** What one engine call gives: a list of results, or an exception. */
  datatype Outcome = Ok(results: seq<Hit>) | Raise

  /** The result of `search_with_fallback`, and how many times it called the fallback. */
  datatype Attempt = Attempt(results: seq<Hit>, fallbackCalls: nat)

  /** `search_with_fallback(primary, fallback, ...)` and `async_search_with_fallback`.
      `fallback` is the outcome of the first fallback call and `retry` that of a
      second one: when the primary returns an empty list and the fallback then raises,
      the exception escapes to the outer handler, which calls the fallback again. */
  function SearchWithFallback(primary: Outcome, fallback: Outcome, retry: Outcome): Attempt
  {
    match primary
    case Ok(r) =>
      if r != [] then Attempt(r, 0)
      else (match fallback
            case Ok(f) => Attempt(f, 1)
            case Raise => Attempt(if retry.Ok? then retry.results else [], 2))
    case Raise => Attempt(if fallback.Ok? then fallback.results else [], 1)
  }

  /** The decision table: a non-empty primary list wins without calling the fallback;
      otherwise the answer is what a fallback call returned, or [] when every call
      that ran raised. The fallback runs a second time only after an empty primary
      and a raising first call. Nothing escapes: the function never raises. */
  lemma SearchWithFallbackTable(primary: Outcome, fallback: Outcome, retry: Outcome)
    ensures var a := SearchWithFallback(primary, fallback, retry);
      (a.fallbackCalls == 0 <==> primary.Ok? && primary.results != [])
      && (a.fallbackCalls == 0 ==> a.results == primary.results)
      && (a.fallbackCalls == 1 ==> a.results == (if fallback.Ok? then fallback.results else []))
      && (a.fallbackCalls == 2 <==> primary == Ok([]) && fallback.Raise?)
      && (a.fallbackCalls == 2 ==> a.results == (if retry.Ok? then retry.results else []))
      && (a.results != [] ==>
            (primary.Ok? && a.results == primary.results) || (fallback.Ok? && a.results == fallback.results)
            || (retry.Ok? && a.results == retry.results))
  {
  }

  /** With a fallback that does not raise, the rule is "primary unless it failed or
      found nothing". */
  lemma FallbackWhenPrimaryFails(primary: Outcome, f: seq<Hit>, retry: Outcome)
    ensures SearchWithFallback(primary, Ok(f), retry).results
      == if primary.Ok? && primary.results != [] then primary.results else f
  {
  }

  /** A slot whose worker has not written a result reads as []. */
  function SlotOrEmpty(slot: Option<seq<Hit>>): seq<Hit>
  {
    match slot
    case Some(r) => r
    case None => []
  }

  /** `asyncio.gather(..., return_exceptions=True)` followed by the exception-to-[]
      mapping. */
  function OrEmpty(o: Outcome): seq<Hit>
  {
    match o
    case Ok(r) => r
    case Raise => []
  }

  /** The three slots of a fallback search: Google falling back to Startpage, Bing
      falling back to DuckDuckGo, and Brave alone. */
  datatype Slots = Slots(googleStartpage: seq<Hit>, bingDdg: seq<Hit>, brave: seq<Hit>)

  /** `fallback_parallel_search`: each slot is the worker's result when it finished in
      time, else the [] the results dict starts with. A finished pair worker holds
      the result of `search_with_fallback`; the Brave worker calls Brave directly. */
  function FallbackParallelSearch(googleStartpage: Option<Attempt>, bingDdg: Option<Attempt>,
                                  brave: Option<seq<Hit>>): (s: Slots)
    ensures googleStartpage.None? ==> s.googleStartpage == []
    ensures bingDdg.None? ==> s.bingDdg == []
    ensures brave.None? ==> s.brave == []
  {
    Slots(if googleStartpage.Some? then googleStartpage.value.results else [],
          if bingDdg.Some? then bingDdg.value.results else [],
          SlotOrEmpty(brave))
  }

  /** `async_fallback_parallel_search`: the two pair tasks are `search_with_fallback`
      calls and the third calls Brave; a task that ended in an exception (a pair task
      only raises when it is cancelled, say) gives [], and positions are kept. */
  function AsyncFallbackParallelSearch(googleStartpage: Outcome, bingDdg: Outcome, brave: Outcome): (s: Slots)
    ensures s.googleStartpage == OrEmpty(googleStartpage)
    ensures s.bingDdg == OrEmpty(bingDdg)
    ensures s.brave == OrEmpty(brave)
  {
    Slots(OrEmpty(googleStartpage), OrEmpty(bingDdg), OrEmpty(brave))
  }

  /** When the pair tasks complete, the asynchronous slots hold exactly what the
      synchronous ones hold when every worker finishes in time. */
  lemma AsyncMatchesThreaded(gPrimary: Outcome, gFallback: Outcome, gRetry: Outcome,
                             bPrimary: Outcome, bFallback: Outcome, bRetry: Outcome, brave: seq<Hit>)
    ensures var g := SearchWithFallback(gPrimary, gFallback, gRetry);
      var b := SearchWithFallback(bPrimary, bFallback, bRetry);
      AsyncFallbackParallelSearch(Ok(g.results), Ok(b.results), Ok(brave))
        == FallbackParallelSearch(Some(g), Some(b), Some(brave))
  {
  }
}
