/** `get_veterinarians`: the run over the fixed number of result pages. The
    browser is replaced by a rendering function from a URL to the outcome of
    the wait for the readiness marker and the page as then rendered. */
module Pagination {
  import opened Wrappers
  import opened Text
  import opened Markup
  import opened Veterinarians

  /** The search the program runs. */
  const SearchUrl: string := "https://www.zooplus.de/tierarzt/results?animal_99=true"

  /** The number of result pages a run visits. */
  const NumPages: nat := 5

  /** The percentage logged after a page is parsed. `get_veterinarians` writes the
      step `20` literally; it matches the completed fraction only because
      there are five pages. */
  function ProgressPercent(p: nat): (pct: nat)
    ensures pct * NumPages == 100 * p
  {
    20 * p
  }

  /** The query parameter appended for pages after the first. */
  const PageParam: string := "&page="

  /** The address of result page `k`: the search URL itself for the first
      page, the search URL with `&page=k` appended for the others. */
  function PageUrl(url: string, k: nat): string
    requires k >= 1
  {
    if k == 1 then url else url + PageParam + Decimal(k)
  }

  /** The page number an address denotes, read back from it. */
  function PageNumberOf(url: string, u: string): Option<nat> {
    var n := |url| + |PageParam|;
    if u == url then Some(1)
    else if n <= |u| && u[..n] == url + PageParam && AllDigits(u[n..]) then Some(ParseDecimal(u[n..]))
    else None
  }

  /** Every page address carries its own page number. */
  lemma PageUrlRoundTrip(url: string, k: nat)
    requires k >= 1
    ensures PageNumberOf(url, PageUrl(url, k)) == Some(k)
  {
    if k > 1 {
      var u := PageUrl(url, k);
      var n := |url| + |PageParam|;
      assert u[..n] == url + PageParam;
      assert u[n..] == Decimal(k);
      DecimalRoundTrip(k);
    }
  }

  /** The addresses of pages 1 to `n`, in the order they are visited. */
  function Schedule(url: string, n: nat): (us: seq<string>)
    ensures |us| == n
  {
    if n == 0 then [] else Schedule(url, n - 1) + [PageUrl(url, n)]
  }

  /** Entry `i` of the schedule is the address of page `i + 1`, so the pages
      are visited in strictly increasing order and no address repeats. */
  lemma {:induction false} ScheduleOrder(url: string, n: nat)
    ensures forall i :: 0 <= i < n ==> Schedule(url, n)[i] == PageUrl(url, i + 1)
    ensures forall i :: 0 <= i < n ==> PageNumberOf(url, Schedule(url, n)[i]) == Some(i + 1)
    ensures forall i, j :: 0 <= i < j < n ==> Schedule(url, n)[i] != Schedule(url, n)[j]
  {
    if n > 0 {
      ScheduleOrder(url, n - 1);
      assert forall i :: 0 <= i < n - 1 ==> Schedule(url, n)[i] == Schedule(url, n - 1)[i];
    }
    forall i | 0 <= i < n
      ensures PageNumberOf(url, Schedule(url, n)[i]) == Some(i + 1)
    {
      PageUrlRoundTrip(url, i + 1);
    }
  }

  /** What the browser shows after navigating to an address: whether the
      readiness marker (a `result-intro__title` element) appeared before the
      wait gave up, and the page as rendered. */
  datatype Rendered = Rendered(ready: bool, page: Page)

  /** The browser: navigating to an address and waiting for the marker. */
  type Renderer = string -> Rendered

  /** Turning a rendered page into its records. The run below is stated for
      any extractor; the scraper's own is `ExtractPage`. */
  type Extractor = Page -> Result<seq<Veterinarian>, Fault>

  /** The observable steps of a run, in order: navigations, the
      "Start parsing page #p" log line and the "Parsing progress: X%" line. */
  datatype Event = Navigate(url: string) | StartPage(page: nat) | Progress(percent: nat)

  /** A run's outcome together with the events it produced. */
  datatype Run = Run(result: Result<seq<Veterinarian>, Fault>, trace: seq<Event>)

  /** The records of page `p`: a wait that runs out is a fault, as is any
      listing that cannot be parsed. */
  function PageResult(url: string, render: Renderer, extract: Extractor, p: nat): Result<seq<Veterinarian>, Fault>
    requires p >= 1
  {
    var shown := render(PageUrl(url, p));
    if !shown.ready then Failure(WaitTimeout(p)) else extract(shown.page)
  }

  /** The events up to and including the wait on page `p`. The first page is
      announced after navigating to it, the later ones before. */
  function Opening(url: string, p: nat): seq<Event>
    requires p >= 1
  {
    if p == 1 then [Navigate(url), StartPage(1)]
    else [StartPage(p), Navigate(PageUrl(url, p))]
  }

  /** Reference semantics of a run over pages 1 to `n`: pages in order, the
      records of each appended to those before, stopping at the first fault. */
  function RunPages(url: string, render: Renderer, extract: Extractor, n: nat): Run {
    if n == 0 then Run(Success([]), [])
    else
      var before := RunPages(url, render, extract, n - 1);
      if before.result.Failure? then before
      else
        var trace := before.trace + Opening(url, n);
        match PageResult(url, render, extract, n)
        case Failure(f) => Run(Failure(f), trace)
        case Success(vs) => Run(Success(before.result.value + vs), trace + [Progress(ProgressPercent(n))])
  }

  function Navigations(trace: seq<Event>): seq<string> {
    if trace == [] then []
    else (if trace[0].Navigate? then [trace[0].url] else []) + Navigations(trace[1..])
  }

  function Progresses(trace: seq<Event>): seq<nat> {
    if trace == [] then []
    else (if trace[0].Progress? then [trace[0].percent] else []) + Progresses(trace[1..])
  }

  lemma {:induction false} NavigationsAppend(a: seq<Event>, b: seq<Event>)
    ensures Navigations(a + b) == Navigations(a) + Navigations(b)
    ensures Progresses(a + b) == Progresses(a) + Progresses(b)
    decreases |a|
  {
    if a == [] {
      assert a + b == b;
    } else {
      assert (a + b)[1..] == a[1..] + b;
      NavigationsAppend(a[1..], b);
    }
  }

  predicate AllPagesSucceed(url: string, render: Renderer, extract: Extractor, n: nat) {
    forall p :: 1 <= p <= n ==> PageResult(url, render, extract, p).Success?
  }

  /** The records of pages 1 to `n`, one sequence per page, in page order. */
  function PageRecords(url: string, render: Renderer, extract: Extractor, n: nat): (pages: seq<seq<Veterinarian>>)
    requires AllPagesSucceed(url, render, extract, n)
    ensures |pages| == n
  {
    if n == 0 then [] else PageRecords(url, render, extract, n - 1) + [PageResult(url, render, extract, n).value]
  }

  function Flatten<T>(xss: seq<seq<T>>): seq<T> {
    if xss == [] then [] else Flatten(xss[..|xss| - 1]) + xss[|xss| - 1]
  }

  function TotalLength<T>(xss: seq<seq<T>>): nat {
    if xss == [] then 0 else TotalLength(xss[..|xss| - 1]) + |xss[|xss| - 1]|
  }

  lemma {:induction false} FlattenLength<T>(xss: seq<seq<T>>)
    ensures |Flatten(xss)| == TotalLength(xss)
  {
    if xss != [] {
      FlattenLength(xss[..|xss| - 1]);
    }
  }

  /** A run succeeds exactly when every page's wait succeeds and every
      listing on every page parses; its records are then the pages' records
      concatenated in page order, as many as the pages hold together. */
  lemma {:induction false} RunCollectsAllPages(url: string, render: Renderer, extract: Extractor, n: nat)
    ensures RunPages(url, render, extract, n).result.Success? <==> AllPagesSucceed(url, render, extract, n)
    ensures AllPagesSucceed(url, render, extract, n) ==>
      && RunPages(url, render, extract, n).result.value == Flatten(PageRecords(url, render, extract, n))
      && |RunPages(url, render, extract, n).result.value| == TotalLength(PageRecords(url, render, extract, n))
  {
    if n > 0 {
      RunCollectsAllPages(url, render, extract, n - 1);
      if AllPagesSucceed(url, render, extract, n) {
        assert AllPagesSucceed(url, render, extract, n - 1);
        var pages := PageRecords(url, render, extract, n);
        assert pages[..n - 1] == PageRecords(url, render, extract, n - 1);
        FlattenLength(pages);
      } else if AllPagesSucceed(url, render, extract, n - 1) {
        assert PageResult(url, render, extract, n).Failure?;
      }
    }
  }

  /** A failed run reports the fault of the first page that fails. */
  lemma {:induction false} RunReportsFirstFault(url: string, render: Renderer, extract: Extractor, n: nat)
    requires RunPages(url, render, extract, n).result.Failure?
    ensures exists q ::
      && 1 <= q <= n
      && PageResult(url, render, extract, q) == Failure(RunPages(url, render, extract, n).result.error)
      && AllPagesSucceed(url, render, extract, q - 1)
  {
    var before := RunPages(url, render, extract, n - 1);
    if before.result.Failure? {
      RunReportsFirstFault(url, render, extract, n - 1);
    } else {
      RunCollectsAllPages(url, render, extract, n - 1);
      assert PageResult(url, render, extract, n) == Failure(RunPages(url, render, extract, n).result.error);
    }
  }

  lemma OpeningEvents(url: string, p: nat)
    requires p >= 1
    ensures Navigations(Opening(url, p)) == [PageUrl(url, p)]
    ensures Progresses(Opening(url, p)) == []
  {
    var o := Opening(url, p);
    assert o[1..][1..] == [];
    assert Navigations(o[1..][1..]) == [] && Progresses(o[1..][1..]) == [];
  }

  /** Once a run has faulted, visiting further pages changes nothing: the
      fault aborts the run. */
  lemma {:induction false} FaultIsFinal(url: string, render: Renderer, extract: Extractor, m: nat, n: nat)
    requires m <= n
    requires RunPages(url, render, extract, m).result.Failure?
    ensures RunPages(url, render, extract, n) == RunPages(url, render, extract, m)
    decreases n - m
  {
    if m < n {
      FaultIsFinal(url, render, extract, m, n - 1);
      var before := RunPages(url, render, extract, n - 1);
      assert before.result.Failure?;
      assert RunPages(url, render, extract, n) == before;
    }
  }

  /** Visiting page `n` after a fault-free run over the pages before it adds
      one navigation, to page `n`, and one progress line if the page parses. */
  lemma PageStepEvents(url: string, render: Renderer, extract: Extractor, n: nat)
    requires n >= 1
    requires RunPages(url, render, extract, n - 1).result.Success?
    ensures Navigations(RunPages(url, render, extract, n).trace)
      == Navigations(RunPages(url, render, extract, n - 1).trace) + [PageUrl(url, n)]
    ensures Progresses(RunPages(url, render, extract, n).trace)
      == Progresses(RunPages(url, render, extract, n - 1).trace)
         + (if PageResult(url, render, extract, n).Success? then [ProgressPercent(n)] else [])
  {
    var before := RunPages(url, render, extract, n - 1);
    var opening := Opening(url, n);
    var trace := before.trace + opening;
    NavigationsAppend(before.trace, opening);
    OpeningEvents(url, n);
    if PageResult(url, render, extract, n).Success? {
      var tail := [Progress(ProgressPercent(n))];
      NavigationsAppend(trace, tail);
      assert tail[1..] == [];
    }
  }

  /** The navigations of a run follow the schedule: pages 1, 2, ... in order,
      stopping at the first page that faulted, or covering all `n` pages when
      the run succeeds. */
  lemma {:induction false} RunFollowsSchedule(url: string, render: Renderer, extract: Extractor, n: nat)
    ensures var r := RunPages(url, render, extract, n);
      var navs := Navigations(r.trace);
      && |navs| <= n
      && navs == Schedule(url, |navs|)
      && (r.result.Success? ==> |navs| == n)
      && (r.result.Failure? ==>
            && 1 <= |navs|
            && PageResult(url, render, extract, |navs|).Failure?
            && AllPagesSucceed(url, render, extract, |navs| - 1))
  {
    if n > 0 {
      RunFollowsSchedule(url, render, extract, n - 1);
      if RunPages(url, render, extract, n - 1).result.Success? {
        PageStepEvents(url, render, extract, n);
        RunCollectsAllPages(url, render, extract, n - 1);
      }
    }
  }

  /** Every run of at least one page starts by navigating to the URL it was
      given. */
  lemma {:induction false} RunStartsAtUrl(url: string, render: Renderer, extract: Extractor, n: nat)
    requires n >= 1
    ensures |RunPages(url, render, extract, n).trace| > 0
    ensures RunPages(url, render, extract, n).trace[0] == Navigate(url)
  {
    var before := RunPages(url, render, extract, n - 1);
    if n == 1 {
      assert before == Run(Success([]), []);
      assert RunPages(url, render, extract, n).trace[..2] == Opening(url, 1);
    } else {
      RunStartsAtUrl(url, render, extract, n - 1);
      if before.result.Success? {
        var trace := before.trace + Opening(url, n);
        assert trace[0] == before.trace[0];
        assert RunPages(url, render, extract, n).trace[0] == trace[0];
      }
    }
  }

  /** The progress percentages of pages 1 to `k`, in order. */
  function ProgressLine(k: nat): (ps: seq<nat>)
    ensures |ps| == k
  {
    if k == 0 then [] else ProgressLine(k - 1) + [ProgressPercent(k)]
  }

  /** Entry `i` of the progress line is the percentage for page `i + 1`; the
      line rises strictly and ends at 100 once every page is parsed. */
  lemma {:induction false} ProgressLineEntries(k: nat)
    ensures forall i :: 0 <= i < k ==> ProgressLine(k)[i] == ProgressPercent(i + 1)
    ensures forall i, j :: 0 <= i < j < k ==> ProgressLine(k)[i] < ProgressLine(k)[j]
    ensures k == NumPages ==> ProgressLine(k)[k - 1] == 100
  {
    if k > 0 {
      ProgressLineEntries(k - 1);
      assert forall i :: 0 <= i < k - 1 ==> ProgressLine(k)[i] == ProgressLine(k - 1)[i];
    }
  }

  /** One progress line follows each page that was parsed, carrying the
      percentage for that page: every page on success, every page before the
      one that faulted otherwise. */
  lemma {:induction false} RunReportsProgress(url: string, render: Renderer, extract: Extractor, n: nat)
    ensures var r := RunPages(url, render, extract, n);
      var progress := Progresses(r.trace);
      && progress == ProgressLine(|progress|)
      && |progress| <= n
      && (r.result.Success? ==> |progress| == n)
      && |progress| + (if r.result.Success? then 0 else 1) == |Navigations(r.trace)|
  {
    if n > 0 {
      RunReportsProgress(url, render, extract, n - 1);
      var before := RunPages(url, render, extract, n - 1);
      if before.result.Success? {
        PageStepEvents(url, render, extract, n);
      } else {
        assert RunPages(url, render, extract, n) == before;
      }
    }
  }

  /** `get_veterinarians`, step by step as the Python code performs it: the first
      page, then pages 2 to `NumPages` in a loop, each appending its records
      and logging its progress. */
  method GetVeterinarians(url: string, render: Renderer)
    returns (result: Result<seq<Veterinarian>, Fault>, trace: seq<Event>)
    ensures Run(result, trace) == RunPages(url, render, ExtractPage, NumPages)
    ensures result.Success? ==> Navigations(trace) == Schedule(url, NumPages)
    ensures result.Success? ==> Progresses(trace) == [20, 40, 60, 80, 100]
  {
    trace := [Navigate(url), StartPage(1)];
    var shown := render(url);
    assert RunPages(url, render, ExtractPage, 0) == Run(Success([]), []);
    assert trace == [] + Opening(url, 1);
    if !shown.ready {
      result := Failure(WaitTimeout(1));
      FaultIsFinal(url, render, ExtractPage, 1, NumPages);
      return;
    }
    var firstPage := ExtractPage(shown.page);
    if firstPage.Failure? {
      result := Failure(firstPage.error);
      FaultIsFinal(url, render, ExtractPage, 1, NumPages);
      return;
    }
    var veterinarians := firstPage.value;
    trace := trace + [Progress(20)];
    assert veterinarians == [] + firstPage.value;
    var pageNum := 2;
    while pageNum <= NumPages
      invariant 2 <= pageNum <= NumPages + 1
      invariant RunPages(url, render, ExtractPage, pageNum - 1) == Run(Success(veterinarians), trace)
    {
      trace := trace + [StartPage(pageNum), Navigate(url + PageParam + Decimal(pageNum))];
      shown := render(url + PageParam + Decimal(pageNum));
      if !shown.ready {
        result := Failure(WaitTimeout(pageNum));
        FaultIsFinal(url, render, ExtractPage, pageNum, NumPages);
        return;
      }
      var records := ExtractPage(shown.page);
      if records.Failure? {
        result := Failure(records.error);
        FaultIsFinal(url, render, ExtractPage, pageNum, NumPages);
        return;
      }
      veterinarians := veterinarians + records.value;
      trace := trace + [Progress(20 * pageNum)];
      pageNum := pageNum + 1;
    }
    result := Success(veterinarians);
    RunFollowsSchedule(url, render, ExtractPage, NumPages);
    RunReportsProgress(url, render, ExtractPage, NumPages);
    assert ProgressLine(NumPages) == [20, 40, 60, 80, 100];
  }

  /** `main`'s run: the search URL is visited first and, when every page
      parses, the five result pages of that search in order. */
  method CollectSearch(render: Renderer)
    returns (result: Result<seq<Veterinarian>, Fault>, trace: seq<Event>)
    ensures Run(result, trace) == RunPages(SearchUrl, render, ExtractPage, NumPages)
    ensures |trace| > 0 && trace[0] == Navigate(SearchUrl)
    ensures result.Success? ==>
      && Navigations(trace) == Schedule(SearchUrl, NumPages)
      && Navigations(trace)[NumPages - 1] == SearchUrl + "&page=5"
  {
    result, trace := GetVeterinarians(SearchUrl, render);
    RunStartsAtUrl(SearchUrl, render, ExtractPage, NumPages);
    if result.Success? {
      ScheduleOrder(SearchUrl, NumPages);
      assert Decimal(5) == "5";
    }
  }
}
