/** Backward cursor pagination over historical candles, written out in batches. Times are in milliseconds. */
module CandleBackfill {
  import opened Json
  import opened Grid

  const API_LIMIT := 100
  const MAX_PAGES := 500
  const MAX_EMPTY_PAGES := 3

  datatype Candle = Candle(ts: int, confirm: bool, body: string)

  /** What one request returns; a row that cannot be parsed is `None`. */
  datatype Reply = Rows(rows: seq<Option<Candle>>) | RequestFailed

  /** Any server at all: a reply for each request number and cursor. */
  type Server = (nat, int) -> Reply

  datatype Failure = Stalled | FirstPageFailed | RequestFailure | RowInvalid | PagesExceeded

  datatype Stop = Going | Completed | Failed(failure: Failure)

  /** `target` is the requested start, the coverage window its aligned form; `batch` is in pages. */
  datatype Job = Job(from: int, target: int, start: int, end: int, batch: nat, dryRun: bool)

  datatype Paging = Paging(
    cursor: int, page: nat, empties: nat, seen: set<int>, observed: set<int>, rows: seq<Candle>,
    flushed: seq<seq<Candle>>, fetched: nat, exhausted: bool, stop: Stop)

  function Parsed(rows: seq<Option<Candle>>): Option<seq<Candle>>
  {
    if rows == [] then Some([]) else
      var before := Parsed(rows[..|rows| - 1]);
      if before.None? || rows[|rows| - 1].None? then None else Some(before.value + [rows[|rows| - 1].value])
  }

  predicate Wanted(c: Candle, job: Job)
  {
    c.confirm && job.start <= c.ts < job.end
  }

  function Kept(rows: seq<Candle>, job: Job): seq<Candle>
  {
    if rows == [] then [] else
      var last := rows[|rows| - 1];
      Kept(rows[..|rows| - 1], job) + if Wanted(last, job) then [last] else []
  }

  function Times(rows: seq<Candle>): set<int>
  {
    set c | c in rows :: c.ts
  }

  function Oldest(rows: seq<Candle>): int
    requires rows != []
  {
    if |rows| == 1 then rows[0].ts else
      var before, last := Oldest(rows[..|rows| - 1]), rows[|rows| - 1].ts;
      if last < before then last else before
  }

  // ------------------------------------------------------------------------- one page

  function OnEmptyPage(s: Paging): Paging
  {
    if s.empties + 1 >= MAX_EMPTY_PAGES then s.(empties := s.empties + 1, exhausted := true, stop := Completed)
    else s.(empties := s.empties + 1)
  }

  function OnRows(s: Paging, page: seq<Candle>, job: Job): Paging
    requires page != []
  {
    var kept, oldest := Kept(page, job), Oldest(page);
    var t := s.(empties := 0, observed := s.observed + Times(kept), rows := s.rows + kept, fetched := s.fetched + |kept|);
    if oldest <= job.target then t.(stop := Completed)
    else if |page| < API_LIMIT then t.(exhausted := true, stop := Completed)
    else if !job.dryRun && |t.rows| >= job.batch * API_LIMIT then
      t.(cursor := oldest, flushed := t.flushed + [t.rows], rows := [])
    else t.(cursor := oldest)
  }

  function OnPage(s: Paging, rows: seq<Option<Candle>>, job: Job): Paging
  {
    if rows == [] then OnEmptyPage(s)
    else if Parsed(rows).None? then s.(empties := 0, stop := Failed(RowInvalid))
    else OnRows(s, ParsedRows(rows), job)
  }

  /** The state once a page has been answered. */
  function Asked(s: Paging): Paging
  {
    s.(seen := s.seen + {s.cursor}, page := s.page + 1)
  }

  /** One iteration of the paging loop. */
  function Step(s: Paging, server: Server, job: Job): Paging
  {
    if s.cursor in s.seen then s.(stop := Failed(Stalled)) else
      match server(s.page, s.cursor)
      case RequestFailed =>
        s.(seen := s.seen + {s.cursor}, stop := Failed(if s.page == 0 then FirstPageFailed else RequestFailure))
      case Rows(rows) => OnPage(Asked(s), rows, job)
  }

  function ParsedRows(rows: seq<Option<Candle>>): (r: seq<Candle>)
    requires rows != [] && Parsed(rows).Some?
    ensures r != []
  {
    Parsed(rows).value
  }

  function Run(s: Paging, server: Server, job: Job): Paging
    decreases if s.page < MAX_PAGES then MAX_PAGES - s.page else 0, if s.stop.Going? then 1 else 0
  {
    if !s.stop.Going? then s
    else if s.page >= MAX_PAGES then s.(stop := Failed(PagesExceeded))
    else Run(Step(s, server, job), server, job)
  }

  function Initial(job: Job): Paging
  {
    Paging(job.from, 0, 0, {}, {}, [], [], 0, false, Going)
  }

  method ParsePage(rows: seq<Option<Candle>>) returns (page: Option<seq<Candle>>)
    ensures page == Parsed(rows)
  {
    var parsed: seq<Candle> := [];
    for i := 0 to |rows|
      invariant Parsed(rows[..i]) == Some(parsed)
    {
      assert rows[..i + 1][..i] == rows[..i];
      if rows[i].None? {
        ParsedFailsFrom(rows, i + 1);
        return None;
      }
      parsed := parsed + [rows[i].value];
    }
    assert rows[..|rows|] == rows;
    return Some(parsed);
  }

  lemma {:induction false} ParsedFailsFrom(rows: seq<Option<Candle>>, n: nat)
    requires n <= |rows| && Parsed(rows[..n]).None?
    ensures Parsed(rows).None?
    decreases |rows|
  {
    if n == |rows| {
      assert rows[..n] == rows;
    } else {
      assert rows[..|rows| - 1][..n] == rows[..n];
      ParsedFailsFrom(rows[..|rows| - 1], n);
    }
  }

  method KeepPage(page: seq<Candle>, job: Job) returns (kept: seq<Candle>, times: set<int>)
    ensures kept == Kept(page, job) && times == Times(kept)
  {
    kept, times := [], {};
    for i := 0 to |page|
      invariant kept == Kept(page[..i], job) && times == Times(kept)
    {
      assert page[..i + 1][..i] == page[..i];
      if page[i].confirm && job.start <= page[i].ts < job.end {
        kept := kept + [page[i]];
        times := times + {page[i].ts};
      }
    }
    assert page[..|page|] == page;
  }

  method OldestOf(page: seq<Candle>) returns (oldest: int)
    requires page != []
    ensures oldest == Oldest(page)
  {
    oldest := page[0].ts;
    for i := 1 to |page|
      invariant oldest == Oldest(page[..i])
    {
      assert page[..i + 1][..i] == page[..i];
      if page[i].ts < oldest {
        oldest := page[i].ts;
      }
    }
    assert page[..|page|] == page;
  }

  /** What the loop does with the rows of a page that is not empty. */
  method ReadRows(s: Paging, rows: seq<Option<Candle>>, job: Job) returns (t: Paging)
    requires rows != []
    ensures t == if Parsed(rows).None? then s.(empties := 0, stop := Failed(RowInvalid))
                 else OnRows(s, ParsedRows(rows), job)
  {
    var page := ParsePage(rows);
    if page.None? {
      return s.(empties := 0, stop := Failed(RowInvalid));
    }
    t := TakePage(s, page.value, job);
  }

  method TakePage(s: Paging, page: seq<Candle>, job: Job) returns (t: Paging)
    requires page != []
    ensures t == OnRows(s, page, job)
  {
    var kept, times := KeepPage(page, job);
    t := s.(empties := 0, observed := s.observed + times, rows := s.rows + kept, fetched := s.fetched + |kept|);
    var oldest := OldestOf(page);
    if oldest <= job.target {
      return t.(stop := Completed);
    }
    if |page| < API_LIMIT {
      return t.(exhausted := true, stop := Completed);
    }
    t := t.(cursor := oldest);
    if !job.dryRun && |t.rows| >= job.batch * API_LIMIT {
      t := t.(flushed := t.flushed + [t.rows], rows := []);
    }
  }

  /** The body of the paging loop. */
  method FetchPage(s: Paging, server: Server, job: Job) returns (t: Paging)
    requires s.stop.Going?
    ensures t == Step(s, server, job)
  {
    if s.cursor in s.seen {
      return s.(stop := Failed(Stalled));
    }
    var reply := server(s.page, s.cursor);
    t := s.(seen := s.seen + {s.cursor});
    if reply.RequestFailed? {
      return t.(stop := Failed(if t.page == 0 then FirstPageFailed else RequestFailure));
    }
    t := t.(page := t.page + 1);
    if reply.rows != [] {
      t := ReadRows(t, reply.rows, job);
      return;
    }
    t := t.(empties := t.empties + 1);
    if t.empties >= MAX_EMPTY_PAGES {
      t := t.(exhausted := true, stop := Completed);
    }
  }

  /** The paging and flushing loop of `deep_backfill_one`: at most 500 requests, whatever the server. */
  method Backfill(server: Server, job: Job) returns (s: Paging)
    ensures s == Run(Initial(job), server, job)
    ensures !s.stop.Going? && s.page <= MAX_PAGES
  {
    s := Initial(job);
    while s.page < MAX_PAGES
      invariant s.stop.Going? && s.page <= MAX_PAGES && Run(Initial(job), server, job) == Run(s, server, job)
      decreases MAX_PAGES - s.page
    {
      s := FetchPage(s, server, job);
      if !s.stop.Going? {
        return;
      }
    }
    return s.(stop := Failed(PagesExceeded));
  }

  // ------------------------------------------------------------- against any server at all

  function Concat(batches: seq<seq<Candle>>): seq<Candle>
  {
    if batches == [] then [] else Concat(batches[..|batches| - 1]) + batches[|batches| - 1]
  }

  /** Everything kept so far, in the order it arrived: the batches written and the rows not yet written. */
  function Collected(s: Paging): seq<Candle>
  {
    Concat(s.flushed) + s.rows
  }

  predicate Tallied(s: Paging)
  {
    s.observed == Times(Collected(s)) && s.fetched == |Collected(s)|
  }

  predicate FullBatches(s: Paging, job: Job)
  {
    && (job.dryRun ==> s.flushed == [])
    && (forall i :: 0 <= i < |s.flushed| ==> |s.flushed[i]| >= job.batch * API_LIMIT)
  }

  predicate Accounted(s: Paging, job: Job)
  {
    && Tallied(s) && FullBatches(s, job)
    && (s.stop.Going? ==> s.empties == 0 || s.cursor in s.seen)
    && (s.stop == Completed ==> s.empties == 0)
  }

  /** Writing out a batch, or not, does not change what was collected. */
  lemma CollectedOnly(s: Paging, t: Paging)
    requires s.flushed == t.flushed + [t.rows] ==> s.rows == []
    requires s.flushed != t.flushed + [t.rows] ==> s.rows == t.rows && s.flushed == t.flushed
    ensures Collected(s) == Collected(t)
  {
    assert (t.flushed + [t.rows])[..|t.flushed|] == t.flushed;
  }

  lemma OnRowsCollects(s: Paging, page: seq<Candle>, job: Job)
    requires page != []
    ensures Collected(OnRows(s, page, job)) == Collected(s) + Kept(page, job)
  {
    var grown := s.(rows := s.rows + Kept(page, job));
    assert Collected(grown) == Collected(s) + Kept(page, job);
    assert grown.flushed != grown.flushed + [grown.rows];
    CollectedOnly(OnRows(s, page, job), grown);
  }

  lemma TimesOfConcat(a: seq<Candle>, b: seq<Candle>)
    ensures Times(a + b) == Times(a) + Times(b)
  {
  }

  lemma OnRowsTallies(s: Paging, page: seq<Candle>, job: Job)
    requires page != [] && Tallied(s)
    ensures Tallied(OnRows(s, page, job))
  {
    OnRowsCollects(s, page, job);
    TimesOfConcat(Collected(s), Kept(page, job));
  }

  lemma OnRowsFillsBatches(s: Paging, page: seq<Candle>, job: Job)
    requires page != [] && FullBatches(s, job)
    ensures FullBatches(OnRows(s, page, job), job)
  {
  }

  /** Whatever the server answers: the observed times are those of the rows collected, nothing collected is
      lost or written twice, every batch written is full, and a run that completes never ends on an empty
      page. The exit for three empty pages in a row is dead: the cursor of an empty page is asked again and
      taken for a stall. */
  lemma {:induction false} RunAccounts(s: Paging, server: Server, job: Job)
    requires Accounted(s, job)
    ensures Accounted(Run(s, server, job), job) && Collected(s) <= Collected(Run(s, server, job))
    decreases if s.page < MAX_PAGES then MAX_PAGES - s.page else 0, if s.stop.Going? then 1 else 0
  {
    if s.stop.Going? && s.page < MAX_PAGES {
      StepAccounts(s, server, job);
      RunAccounts(Step(s, server, job), server, job);
    }
  }

  lemma OnRowsAccounts(s: Paging, page: seq<Candle>, job: Job)
    requires page != [] && s.stop.Going? && Tallied(s) && FullBatches(s, job)
    ensures Accounted(OnRows(s, page, job), job) && Collected(s) <= Collected(OnRows(s, page, job))
  {
    OnRowsCollects(s, page, job);
    OnRowsTallies(s, page, job);
    OnRowsFillsBatches(s, page, job);
  }

  lemma OnPageAccounts(s: Paging, rows: seq<Option<Candle>>, job: Job)
    requires s.stop.Going? && Tallied(s) && FullBatches(s, job) && s.empties == 0 && s.cursor in s.seen
    ensures Accounted(OnPage(s, rows, job), job) && Collected(s) <= Collected(OnPage(s, rows, job))
  {
    if rows != [] && Parsed(rows).Some? {
      OnRowsAccounts(s, ParsedRows(rows), job);
    } else {
      SameCollected(s, OnPage(s, rows, job));
    }
  }

  lemma SameCollected(s: Paging, t: Paging)
    requires s.rows == t.rows && s.flushed == t.flushed
    ensures Collected(s) == Collected(t)
  {
  }

  lemma StepAccounts(s: Paging, server: Server, job: Job)
    requires Accounted(s, job) && s.stop.Going?
    ensures Accounted(Step(s, server, job), job) && Collected(s) <= Collected(Step(s, server, job))
  {
    if s.cursor !in s.seen && server(s.page, s.cursor).Rows? {
      SameCollected(s, Asked(s));
      OnPageAccounts(Asked(s), server(s.page, s.cursor).rows, job);
    } else {
      SameCollected(s, Step(s, server, job));
    }
  }

  // ------------------------------------------------- against a server with a fixed history

  /** Newest first, no time twice. */
  predicate Descending(rows: seq<Candle>)
  {
    forall i, j :: 0 <= i < j < |rows| ==> rows[i].ts > rows[j].ts
  }

  /** How many of the newest rows are not before the cursor. */
  function Skipped(history: seq<Candle>, cursor: int): (k: nat)
    ensures k <= |history|
  {
    if history == [] || history[0].ts < cursor then 0 else 1 + Skipped(history[1..], cursor)
  }

  lemma {:induction false} SkippedIs(history: seq<Candle>, cursor: int, k: nat)
    requires k <= |history|
    requires forall i :: 0 <= i < |history| ==> (i < k <==> history[i].ts >= cursor)
    ensures Skipped(history, cursor) == k
  {
    if history != [] && history[0].ts >= cursor {
      assert forall i :: 1 <= i < |history| ==> history[1..][i - 1] == history[i];
      SkippedIs(history[1..], cursor, k - 1);
    }
  }

  function PageEnd(history: seq<Candle>, k: nat): (e: nat)
    requires k <= |history|
    ensures k <= e <= |history|
  {
    if k + API_LIMIT < |history| then k + API_LIMIT else |history|
  }

  function AsReply(rows: seq<Candle>): Reply
  {
    Rows(seq(|rows|, i requires 0 <= i < |rows| => Some(rows[i])))
  }

  /** Up to a hundred newest rows strictly before the cursor. */
  function HistoryServer(history: seq<Candle>): Server
  {
    (page, cursor) =>
      var k := Skipped(history, cursor);
      AsReply(history[k..PageEnd(history, k)])
  }

  lemma {:induction false} ReplyParses(rows: seq<Candle>)
    ensures Parsed(AsReply(rows).rows) == Some(rows)
  {
    if rows == [] {
    } else {
      var before, last := rows[..|rows| - 1], rows[|rows| - 1];
      ReplyParses(before);
      assert AsReply(rows).rows[..|rows| - 1] == AsReply(before).rows;
      assert rows == before + [last];
    }
  }

  lemma {:induction false} OldestIsLast(rows: seq<Candle>)
    requires rows != [] && Descending(rows)
    ensures Oldest(rows) == rows[|rows| - 1].ts
  {
    if |rows| > 1 {
      OldestIsLast(rows[..|rows| - 1]);
    }
  }

  lemma {:induction false} KeptOfConcat(a: seq<Candle>, b: seq<Candle>, job: Job)
    ensures Kept(a + b, job) == Kept(a, job) + Kept(b, job)
  {
    if b == [] {
      assert a + b == a;
    } else {
      assert (a + b)[..|a + b| - 1] == a + b[..|b| - 1];
      KeptOfConcat(a, b[..|b| - 1], job);
    }
  }

  lemma {:induction false} KeptOfUnwanted(rows: seq<Candle>, job: Job)
    requires forall i :: 0 <= i < |rows| ==> !Wanted(rows[i], job)
    ensures Kept(rows, job) == []
  {
    if rows != [] {
      KeptOfUnwanted(rows[..|rows| - 1], job);
    }
  }

  lemma {:induction false} KeptIsFilter(rows: seq<Candle>, job: Job)
    ensures forall c :: c in Kept(rows, job) <==> c in rows && Wanted(c, job)
    ensures Descending(rows) ==> Descending(Kept(rows, job))
  {
    if rows != [] {
      var before, last := rows[..|rows| - 1], rows[|rows| - 1];
      assert rows == before + [last];
      KeptIsFilter(before, job);
      forall c | c in Kept(before, job) && Descending(rows)
        ensures c.ts > last.ts
      {
        assert c in before;
      }
    }
  }

  lemma {:induction false} SkippedSplits(history: seq<Candle>, cursor: int)
    requires Descending(history)
    ensures forall i :: 0 <= i < |history| ==> (i < Skipped(history, cursor) <==> history[i].ts >= cursor)
  {
    if history != [] && history[0].ts >= cursor {
      SkippedSplits(history[1..], cursor);
      assert forall i :: 1 <= i < |history| ==> history[1..][i - 1] == history[i];
    }
  }

  /** The history, split at the start of the run and at the target: rows `first..late` are after the target. */
  datatype Split = Split(history: seq<Candle>, first: nat, late: nat)

  function SplitOf(history: seq<Candle>, job: Job): (h: Split)
    ensures h.first <= h.late <= |h.history|
  {
    var first, late := Skipped(history, job.from), Skipped(history, job.target + 1);
    Split(history, first, if late < first then first else late)
  }

  lemma HistorySplits(history: seq<Candle>, job: Job)
    requires Descending(history)
    ensures Splits(SplitOf(history, job), job)
  {
    SkippedSplits(history, job.from);
    SkippedSplits(history, job.target + 1);
  }

  predicate Splits(h: Split, job: Job)
  {
    && Descending(h.history) && h.first <= h.late <= |h.history|
    && (forall i :: 0 <= i < |h.history| ==> (i < h.first <==> h.history[i].ts >= job.from))
    && (forall i :: h.first <= i < |h.history| ==> (i < h.late <==> h.history[i].ts > job.target))
  }

  /** The loop has read the history up to row `k`, in full pages, all of them after the target. */
  predicate HasRead(s: Paging, h: Split, k: nat, job: Job)
  {
    && h.first <= k <= h.late <= |h.history| && s.stop.Going? && Point(h.first, s.page, API_LIMIT) == k
    && s.cursor == (if k == h.first then job.from else h.history[k - 1].ts)
    && (forall c :: c in s.seen ==> c > s.cursor)
    && Collected(s) == Kept(h.history[h.first..k], job)
  }

  /** It stopped after collecting from the rows up to `e`. */
  predicate StoppedAt(s: Paging, h: Split, e: nat, job: Job)
  {
    && h.first <= e <= |h.history| && Collected(s) == Kept(h.history[h.first..e], job)
    && (s.stop == Completed ==> forall i :: e <= i < |h.history| ==> h.history[i].ts < job.target)
  }

  predicate Reaches(total: nat, late: nat)
    requires late <= total
  {
    if total > late then late / API_LIMIT < MAX_PAGES
    else total % API_LIMIT != 0 && total / API_LIMIT < MAX_PAGES
  }

  /** The run is over, by completing exactly when the target is reached, with the history read up to some row. */
  ghost predicate RunEnds(r: Paging, h: Split, reached: bool, job: Job)
  {
    && (r.stop == Completed <==> reached)
    && (r.stop in {Completed, Failed(Stalled), Failed(PagesExceeded)})
    && (exists e :: StoppedAt(r, h, e, job))
  }

  lemma NextPage(s: Paging, h: Split, k: nat, job: Job)
    requires Splits(h, job) && HasRead(s, h, k, job)
    ensures HistoryServer(h.history)(s.page, s.cursor) == AsReply(h.history[k..PageEnd(h.history, k)])
    ensures s.cursor !in s.seen
  {
    SkippedIs(h.history, s.cursor, k);
  }

  lemma PageReads(s: Paging, h: Split, k: nat, job: Job)
    requires Splits(h, job) && HasRead(s, h, k, job) && k < |h.history|
    ensures var e := PageEnd(h.history, k);
            Step(s, HistoryServer(h.history), job) == OnRows(Asked(s), h.history[k..e], job)
  {
    NextPage(s, h, k, job);
    StepOnReply(s, HistoryServer(h.history), h.history[k..PageEnd(h.history, k)], job);
  }

  lemma StepOnReply(s: Paging, server: Server, rows: seq<Candle>, job: Job)
    requires s.cursor !in s.seen && server(s.page, s.cursor) == AsReply(rows) && rows != []
    ensures Step(s, server, job) == OnRows(Asked(s), rows, job)
  {
    ReplyParses(rows);
  }

  lemma PageOldest(history: seq<Candle>, k: nat, e: nat)
    requires Descending(history) && k < e <= |history|
    ensures Oldest(history[k..e]) == history[e - 1].ts
  {
    OldestIsLast(history[k..e]);
  }

  lemma PageCollects(s: Paging, h: Split, k: nat, e: nat, job: Job)
    requires h.first <= k < e <= |h.history| && Collected(s) == Kept(h.history[h.first..k], job)
    ensures Collected(OnRows(s, h.history[k..e], job)) == Kept(h.history[h.first..e], job)
  {
    OnRowsCollects(s, h.history[k..e], job);
    KeptOfConcat(h.history[h.first..k], h.history[k..e], job);
    assert h.history[h.first..k] + h.history[k..e] == h.history[h.first..e];
  }

  /** A full page of rows after the target leaves the loop going from its oldest row. */
  lemma FullPageContinues(s: Paging, page: seq<Candle>, job: Job)
    requires |page| == API_LIMIT && Oldest(page) > job.target
    ensures var t := OnRows(s, page, job);
            t.page == s.page && t.seen == s.seen && t.stop == s.stop && t.empties == 0 && t.cursor == Oldest(page)
  {
  }

  lemma ReadOn(s: Paging, t: Paging, h: Split, k: nat, job: Job)
    requires Splits(h, job) && HasRead(s, h, k, job) && k + API_LIMIT <= h.late
    requires t.stop == s.stop && t.page == s.page + 1 && t.seen == s.seen + {s.cursor}
    requires t.cursor == h.history[k + API_LIMIT - 1].ts && Collected(t) == Kept(h.history[h.first..k + API_LIMIT], job)
    ensures HasRead(t, h, k + API_LIMIT, job)
  {
    assert h.history[k + API_LIMIT - 1].ts < s.cursor;
  }

  lemma FullPageTaken(s: Paging, h: Split, k: nat, job: Job)
    requires Descending(h.history) && h.first <= k && k + API_LIMIT <= |h.history|
    requires h.history[k + API_LIMIT - 1].ts > job.target && Collected(s) == Kept(h.history[h.first..k], job)
    ensures var t := OnRows(s, h.history[k..k + API_LIMIT], job);
      && t.page == s.page && t.seen == s.seen && t.stop == s.stop && t.empties == 0
      && t.cursor == h.history[k + API_LIMIT - 1].ts && Collected(t) == Kept(h.history[h.first..k + API_LIMIT], job)
  {
    PageCollects(s, h, k, k + API_LIMIT, job);
    PageOldest(h.history, k, k + API_LIMIT);
    FullPageContinues(s, h.history[k..k + API_LIMIT], job);
  }

  lemma FullPageReads(s: Paging, h: Split, k: nat, job: Job)
    requires Splits(h, job) && HasRead(s, h, k, job) && k + API_LIMIT <= h.late
    ensures var t := Step(s, HistoryServer(h.history), job);
            t.page == s.page + 1 && t.empties == 0 && HasRead(t, h, k + API_LIMIT, job)
  {
    PageReads(s, h, k, job);
    SameCollected(s, Asked(s));
    FullPageTaken(Asked(s), h, k, job);
    ReadOn(s, Step(s, HistoryServer(h.history), job), h, k, job);
  }

  lemma LastPageReads(s: Paging, h: Split, k: nat, job: Job)
    requires Splits(h, job) && HasRead(s, h, k, job) && k < |h.history| && h.late < k + API_LIMIT
    ensures var t := Step(s, HistoryServer(h.history), job);
            t.stop == Completed && StoppedAt(t, h, PageEnd(h.history, k), job)
  {
    var e := PageEnd(h.history, k);
    PageReads(s, h, k, job);
    SameCollected(s, Asked(s));
    PageCollects(Asked(s), h, k, e, job);
    PageOldest(h.history, k, e);
    assert h.late < e ==> h.history[e - 1].ts <= job.target;
  }

  /** An empty page ends the run at the next turn: the same cursor is taken for a stall. */
  lemma EmptyPageFails(s: Paging, h: Split, job: Job)
    requires Splits(h, job) && HasRead(s, h, |h.history|, job) && s.empties == 0 && s.page < MAX_PAGES
    ensures var r := Run(s, HistoryServer(h.history), job);
            r.stop in {Failed(Stalled), Failed(PagesExceeded)} && StoppedAt(r, h, |h.history|, job)
  {
    var server := HistoryServer(h.history);
    NextPage(s, h, |h.history|, job);
    assert AsReply(h.history[|h.history|..|h.history|]).rows == [];
    var t := Step(s, server, job);
    assert t.stop.Going? && t.cursor in t.seen;
    assert Run(s, server, job) == Run(t, server, job);
    assert t.page < MAX_PAGES ==> Run(t, server, job) == Step(t, server, job);
    SameCollected(Run(s, server, job), s);
  }

  /** Where full pages leave the run: out of pages or of rows, or at a page with the last rows it needs. */
  ghost predicate Decides(reached: bool, h: Split)
  {
    forall page: nat :: Point(h.first, page, API_LIMIT) <= h.late ==>
      var k := Point(h.first, page, API_LIMIT);
      && (page >= MAX_PAGES || k == |h.history| ==> !reached)
      && (page < MAX_PAGES && k < |h.history| && h.late < k + API_LIMIT ==> reached)
  }

  lemma ReachesDecides(h: Split)
    requires h.first <= h.late <= |h.history|
    ensures Decides(Reaches(|h.history| - h.first, h.late - h.first), h)
  {
    forall page: nat | Point(h.first, page, API_LIMIT) <= h.late
      ensures var k, reached := Point(h.first, page, API_LIMIT), Reaches(|h.history| - h.first, h.late - h.first);
        && (page >= MAX_PAGES || k == |h.history| ==> !reached)
        && (page < MAX_PAGES && k < |h.history| && h.late < k + API_LIMIT ==> reached)
    {
      PointIsLinear(h.first, page, API_LIMIT);
      FullPagesReach(page, page * API_LIMIT, |h.history| - h.first, h.late - h.first);
    }
  }

  lemma FullPagesReach(page: nat, read: nat, total: nat, late: nat)
    requires page * API_LIMIT == read <= late <= total
    ensures page >= MAX_PAGES || read == total ==> !Reaches(total, late)
    ensures page < MAX_PAGES && read < total && late < read + API_LIMIT ==> Reaches(total, late)
  {
  }

  lemma LastPageEnds(s: Paging, h: Split, k: nat, job: Job)
    requires Splits(h, job) && HasRead(s, h, k, job) && k < |h.history| && h.late < k + API_LIMIT && s.page < MAX_PAGES
    ensures RunEnds(Run(s, HistoryServer(h.history), job), h, true, job)
  {
    LastPageReads(s, h, k, job);
    EndsAt(Step(s, HistoryServer(h.history), job), h, PageEnd(h.history, k), job);
    RunContinues(s, HistoryServer(h.history), job);
  }

  lemma NoPageLeftEnds(s: Paging, h: Split, k: nat, job: Job)
    requires HasRead(s, h, k, job) && s.page >= MAX_PAGES
    ensures RunEnds(Run(s, HistoryServer(h.history), job), h, false, job)
  {
    var r := s.(stop := Failed(PagesExceeded));
    SameCollected(r, s);
    EndsAt(r, h, k, job);
  }

  lemma NoRowLeftEnds(s: Paging, h: Split, job: Job)
    requires Splits(h, job) && HasRead(s, h, |h.history|, job) && s.empties == 0 && s.page < MAX_PAGES
    ensures RunEnds(Run(s, HistoryServer(h.history), job), h, false, job)
  {
    EmptyPageFails(s, h, job);
    EndsAt(Run(s, HistoryServer(h.history), job), h, |h.history|, job);
  }

  lemma EndsAt(r: Paging, h: Split, e: nat, job: Job)
    requires StoppedAt(r, h, e, job) && r.stop in {Completed, Failed(Stalled), Failed(PagesExceeded)}
    ensures RunEnds(r, h, r.stop == Completed, job)
  {
  }

  lemma RunContinues(s: Paging, server: Server, job: Job)
    requires s.stop.Going? && s.page < MAX_PAGES
    ensures Run(s, server, job) == Run(Step(s, server, job), server, job)
  {
  }

  lemma LastTurnEnds(s: Paging, h: Split, k: nat, reached: bool, job: Job)
    requires Splits(h, job) && HasRead(s, h, k, job) && s.empties == 0 && Decides(reached, h)
    requires s.page >= MAX_PAGES || k == |h.history| || h.late < k + API_LIMIT
    ensures RunEnds(Run(s, HistoryServer(h.history), job), h, reached, job)
  {
    if s.page >= MAX_PAGES {
      NoPageLeftEnds(s, h, k, job);
    } else if k == |h.history| {
      NoRowLeftEnds(s, h, job);
    } else {
      LastPageEnds(s, h, k, job);
    }
  }

  lemma {:induction false} RunReads(s: Paging, h: Split, k: nat, reached: bool, job: Job)
    requires Splits(h, job) && HasRead(s, h, k, job) && s.empties == 0 && Decides(reached, h)
    ensures RunEnds(Run(s, HistoryServer(h.history), job), h, reached, job)
    decreases |h.history| - k
  {
    if s.page >= MAX_PAGES || k == |h.history| || h.late < k + API_LIMIT {
      LastTurnEnds(s, h, k, reached, job);
    } else {
      var server := HistoryServer(h.history);
      FullPageReads(s, h, k, job);
      RunContinues(s, server, job);
      RunReads(Step(s, server, job), h, k + API_LIMIT, reached, job);
    }
  }

  lemma KeptMiddle(a: seq<Candle>, b: seq<Candle>, c: seq<Candle>, job: Job)
    requires Kept(a, job) == [] && Kept(c, job) == []
    ensures Kept(a + b + c, job) == Kept(b, job)
  {
    KeptOfConcat(a, b, job);
    KeptOfConcat(a + b, c, job);
  }

  lemma NewerAreUnwanted(h: Split, job: Job)
    requires Splits(h, job) && job.end <= job.from
    ensures Kept(h.history[..h.first], job) == []
  {
    assert forall i :: 0 <= i < h.first ==> h.history[..h.first][i] == h.history[i];
    KeptOfUnwanted(h.history[..h.first], job);
  }

  lemma OlderAreUnwanted(history: seq<Candle>, e: nat, job: Job)
    requires e <= |history| && job.target <= job.start
    requires forall i :: e <= i < |history| ==> history[i].ts < job.target
    ensures Kept(history[e..], job) == []
  {
    assert forall i :: 0 <= i < |history| - e ==> history[e..][i] == history[e + i];
    KeptOfUnwanted(history[e..], job);
  }

  /** The rows of the history the job is after. */
  lemma CompletedCollectsAll(r: Paging, h: Split, e: nat, job: Job)
    requires Splits(h, job) && StoppedAt(r, h, e, job) && r.stop == Completed
    requires job.target <= job.start && job.end <= job.from
    ensures Collected(r) == Kept(h.history, job)
  {
    NewerAreUnwanted(h, job);
    OlderAreUnwanted(h.history, e, job);
    KeptInside(h.history, h.first, e, job);
  }

  lemma KeptInside(history: seq<Candle>, first: nat, e: nat, job: Job)
    requires first <= e <= |history| && Kept(history[..first], job) == [] && Kept(history[e..], job) == []
    ensures Kept(history, job) == Kept(history[first..e], job)
  {
    KeptMiddle(history[..first], history[first..e], history[e..], job);
    assert history[..first] + history[first..e] + history[e..] == history;
  }

  /** Against a fixed history the run completes exactly when an oldest row lies beyond the target, or the
      rows before the start do not end on a full page, within the page limit. When it completes, the observed
      times are those of all wanted rows, and the batches written followed by the remainder hold each of them
      once, newest first. */
  lemma BackfillIsComplete(history: seq<Candle>, job: Job)
    requires Descending(history) && job.target <= job.start && job.end <= job.from
    ensures var r, h := Run(Initial(job), HistoryServer(history), job), SplitOf(history, job);
      && (r.stop == Completed <==> Reaches(|history| - h.first, h.late - h.first))
      && (r.stop == Completed ==> HoldsAll(r, history, job))
  {
    InitialRunEnds(history, SplitOf(history, job), job);
    InitialAccounts(HistoryServer(history), job);
    var r := Run(Initial(job), HistoryServer(history), job);
    if r.stop == Completed {
      HistorySplits(history, job);
      CompletedRunCollects(r, SplitOf(history, job), job);
      CollectedObserves(r, history, job);
    }
  }

  /** Every wanted row of the history was collected once, newest first, and every wanted time observed. */
  ghost predicate HoldsAll(r: Paging, history: seq<Candle>, job: Job)
  {
    && Collected(r) == Kept(history, job) && Descending(Collected(r))
    && forall t :: t in r.observed <==> exists c :: c in history && Wanted(c, job) && c.ts == t
  }

  lemma InitialAccounts(server: Server, job: Job)
    ensures Tallied(Run(Initial(job), server, job))
  {
    RunAccounts(Initial(job), server, job);
  }

  lemma InitialHasRead(h: Split, job: Job)
    requires h.first <= h.late <= |h.history|
    ensures HasRead(Initial(job), h, h.first, job)
  {
    assert h.history[h.first..h.first] == [];
  }

  lemma HistoryRunEnds(h: Split, reached: bool, job: Job)
    requires Splits(h, job) && reached == Reaches(|h.history| - h.first, h.late - h.first)
    ensures RunEnds(Run(Initial(job), HistoryServer(h.history), job), h, reached, job)
  {
    InitialHasRead(h, job);
    ReachesDecides(h);
    RunReads(Initial(job), h, h.first, reached, job);
  }

  lemma InitialRunEnds(history: seq<Candle>, h: Split, job: Job)
    requires Descending(history) && h == SplitOf(history, job)
    ensures RunEnds(Run(Initial(job), HistoryServer(history), job), h, Reaches(|history| - h.first, h.late - h.first), job)
  {
    HistorySplits(history, job);
    HistoryRunEnds(h, Reaches(|history| - h.first, h.late - h.first), job);
  }

  lemma CompletedRunCollects(r: Paging, h: Split, job: Job)
    requires Splits(h, job) && RunEnds(r, h, true, job) && job.target <= job.start && job.end <= job.from
    ensures Collected(r) == Kept(h.history, job)
  {
    var e :| StoppedAt(r, h, e, job);
    CompletedCollectsAll(r, h, e, job);
  }

  lemma CollectedObserves(r: Paging, history: seq<Candle>, job: Job)
    requires Descending(history) && Tallied(r) && Collected(r) == Kept(history, job)
    ensures HoldsAll(r, history, job)
  {
    KeptIsFilter(history, job);
    forall t
      ensures t in r.observed <==> exists c :: c in history && Wanted(c, job) && c.ts == t
    {
      if t in r.observed {
        var c :| c in Collected(r) && c.ts == t;
        assert c in history && Wanted(c, job);
      }
      if c :| c in history && Wanted(c, job) && c.ts == t {
        assert c in Collected(r);
      }
    }
  }

  /** Whatever stops the run, what was collected is what a prefix of the history holds: nothing is skipped. */
  lemma StoppedRunsHaveNoHoles(history: seq<Candle>, job: Job)
    requires Descending(history)
    ensures exists e :: StoppedAt(Run(Initial(job), HistoryServer(history), job), SplitOf(history, job), e, job)
  {
    InitialRunEnds(history, SplitOf(history, job), job);
  }

  /** Candles a millisecond apart, all after the time 0. */
  function CandlesDown(n: nat): seq<Candle>
  {
    seq(n, i => Candle(1000 - i, true, ""))
  }

  lemma CandlesDownSplit(n: nat, job: Job)
    requires n < 1000 < job.from && job.target == 0
    ensures Descending(CandlesDown(n)) && SplitOf(CandlesDown(n), job) == Split(CandlesDown(n), 0, n)
  {
    SkippedIs(CandlesDown(n), job.from, 0);
    SkippedIs(CandlesDown(n), 1, n);
  }

  /** A history that ends on a full page without reaching the target is complete, yet the run fails. */
  lemma FullLastPageFails(n: nat, job: Job)
    requires n < 1000 < job.from && n % API_LIMIT == 0
    requires job.target == 0 <= job.start && job.end <= job.from
    ensures Descending(CandlesDown(n)) && Run(Initial(job), HistoryServer(CandlesDown(n)), job).stop != Completed
  {
    CandlesDownSplit(n, job);
    BackfillIsComplete(CandlesDown(n), job);
  }

  // --------------------------------------------------------------------- writing a batch

  /** First occurrence of each time. */
  function Deduped(rows: seq<Candle>): seq<Candle>
  {
    if rows == [] then [] else
      var before, last := Deduped(rows[..|rows| - 1]), rows[|rows| - 1];
      if last.ts in Times(before) then before else before + [last]
  }

  /** `_dedupe_rows` */
  method DedupeRows(rows: seq<Candle>) returns (result: seq<Candle>)
    ensures result == Deduped(rows)
  {
    var seen: set<int> := {};
    result := [];
    for i := 0 to |rows|
      invariant result == Deduped(rows[..i]) && seen == Times(result)
    {
      assert rows[..i + 1][..i] == rows[..i];
      if rows[i].ts !in seen {
        seen := seen + {rows[i].ts};
        result := result + [rows[i]];
      }
    }
    assert rows[..|rows|] == rows;
  }

  predicate DistinctTimes(rows: seq<Candle>)
  {
    forall i, j :: 0 <= i < j < |rows| ==> rows[i].ts != rows[j].ts
  }

  lemma AddDistinct(rows: seq<Candle>, c: Candle)
    requires DistinctTimes(rows) && c.ts !in Times(rows)
    ensures DistinctTimes(rows + [c])
  {
    assert forall i :: 0 <= i < |rows| ==> rows[i].ts in Times(rows);
  }

  /** Every time is kept, once. */
  lemma {:induction false} DedupedTimes(rows: seq<Candle>)
    ensures Times(Deduped(rows)) == Times(rows) && DistinctTimes(Deduped(rows))
  {
    if rows != [] {
      var before, last := rows[..|rows| - 1], rows[|rows| - 1];
      DedupedTimes(before);
      assert rows == before + [last];
      TimesOfConcat(before, [last]);
      TimesOfConcat(Deduped(before), [last]);
      if last.ts !in Times(Deduped(before)) {
        AddDistinct(Deduped(before), last);
      }
    }
  }

  predicate FirstOfItsTime(c: Candle, rows: seq<Candle>)
  {
    exists i :: 0 <= i < |rows| && rows[i] == c && forall j :: 0 <= j < i ==> rows[j].ts != c.ts
  }

  lemma FirstStaysFirst(c: Candle, before: seq<Candle>, last: Candle)
    requires FirstOfItsTime(c, before)
    ensures FirstOfItsTime(c, before + [last])
  {
    var i :| 0 <= i < |before| && before[i] == c && forall j :: 0 <= j < i ==> before[j].ts != c.ts;
    var rows := before + [last];
    assert rows[i] == c && forall j :: 0 <= j < i ==> rows[j] == before[j];
  }

  lemma NewIsFirst(before: seq<Candle>, last: Candle)
    requires last.ts !in Times(before)
    ensures FirstOfItsTime(last, before + [last])
  {
    var rows := before + [last];
    assert rows[|before|] == last && forall j :: 0 <= j < |before| ==> rows[j] == before[j] && before[j].ts in Times(before);
  }

  /** And the row kept is the first with its time. */
  lemma {:induction false} DedupedKeepsFirst(rows: seq<Candle>)
    ensures forall c :: c in Deduped(rows) ==> FirstOfItsTime(c, rows)
  {
    if rows != [] {
      var before, last := rows[..|rows| - 1], rows[|rows| - 1];
      DedupedKeepsFirst(before);
      DedupedTimes(before);
      assert rows == before + [last];
      forall c | c in Deduped(rows)
        ensures FirstOfItsTime(c, rows)
      {
        if c in Deduped(before) {
          FirstStaysFirst(c, before, last);
        } else {
          NewIsFirst(before, last);
        }
      }
    }
  }

  /** Rows collected from a fixed history are written as they are. */
  lemma {:induction false} DedupedIdentity(rows: seq<Candle>)
    requires Descending(rows)
    ensures Deduped(rows) == rows
  {
    if rows != [] {
      DedupedIdentity(rows[..|rows| - 1]);
    }
  }
}
