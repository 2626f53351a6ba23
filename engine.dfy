/** The crawl engine: start or resume a crawl, walk the list pages handing each
    row to the processor, stop on the page limit, an early exit, the last page
    or too many errors, and finalise (complete, pause on interrupt, fail on
    error).  Saving sorts the collection newest first and gives it to every
    sink.  The browser and the disk are oracles. */
module Engine {
  import opened Wrappers
  import opened Text
  import opened Values
  import Schema
  import Checkpoint
  import Dedup
  import Processor

  // ---------------------------------------------------------------------
  // Sorting before a save

  /** The sort key `(announcement_date or "", bid_notice_number)`. */
  function SortKey(n: Schema.BidNotice): (string, string) {
    (if "announcement_date" in n.text then n.text["announcement_date"] else "",
     if "bid_notice_number" in n.text then n.text["bid_notice_number"] else "")
  }

  /** Python's `<` on a pair of strings. */
  predicate KeyLess(a: (string, string), b: (string, string)) {
    Less(a.0, b.0) || (a.0 == b.0 && Less(a.1, b.1))
  }

  lemma KeyLessTransitive(a: (string, string), b: (string, string), c: (string, string))
    requires KeyLess(a, b) && KeyLess(b, c)
    ensures KeyLess(a, c)
  {
    if Less(a.0, b.0) && Less(b.0, c.0) { LessTransitive(a.0, b.0, c.0); }
    if a.0 == b.0 && b.0 == c.0 && Less(a.1, b.1) && Less(b.1, c.1) { LessTransitive(a.1, b.1, c.1); }
  }

  lemma KeyLessTotal(a: (string, string), b: (string, string))
    ensures a == b || KeyLess(a, b) || KeyLess(b, a)
  {
    LessTotal(a.0, b.0);
    LessTotal(a.1, b.1);
  }

  lemma KeyLessIrreflexive(a: (string, string))
    ensures !KeyLess(a, a)
  {
    LessIrreflexive(a.0);
    LessIrreflexive(a.1);
  }

  /** "Not below" is transitive: the order `sort(reverse=True)` produces is consistent. */
  lemma KeyNotLessTransitive(a: (string, string), b: (string, string), c: (string, string))
    requires !KeyLess(a, b) && !KeyLess(b, c)
    ensures !KeyLess(a, c)
  {
    KeyLessTotal(a, b);
    KeyLessTotal(b, c);
    if KeyLess(a, c) {
      if a == b { } else if b == c { } else {
        KeyLessTransitive(c, b, a);
        KeyLessTransitive(a, c, a);
        KeyLessIrreflexive(a);
      }
    }
  }

  /** Newest first: no notice sorts below a later one. */
  predicate SortedDescending(s: seq<Schema.BidNotice>) {
    forall i, j :: 0 <= i < j < |s| ==> !KeyLess(SortKey(s[i]), SortKey(s[j]))
  }

  /** Inserts `x` before the first notice whose key is strictly smaller, so
      notices with equal keys keep their order. */
  function Insert(x: Schema.BidNotice, s: seq<Schema.BidNotice>): (r: seq<Schema.BidNotice>)
    ensures multiset(r) == multiset(s) + multiset{x}
    ensures |r| == |s| + 1
  {
    if s == [] then [x]
    else if KeyLess(SortKey(s[0]), SortKey(x)) then [x] + s
    else
      assert s == [s[0]] + s[1..];
      [s[0]] + Insert(x, s[1..])
  }

  /** Nothing in `s` sorts above `m`. */
  predicate NoneAbove(m: Schema.BidNotice, s: seq<Schema.BidNotice>) {
    forall j :: 0 <= j < |s| ==> !KeyLess(SortKey(m), SortKey(s[j]))
  }

  lemma InsertNoneAbove(m: Schema.BidNotice, x: Schema.BidNotice, s: seq<Schema.BidNotice>)
    requires NoneAbove(m, s) && !KeyLess(SortKey(m), SortKey(x))
    ensures NoneAbove(m, Insert(x, s))
  {
    var r := Insert(x, s);
    forall j | 0 <= j < |r| ensures !KeyLess(SortKey(m), SortKey(r[j])) {
      assert r[j] in multiset(s) + multiset{x};
      if r[j] != x {
        assert r[j] in s;
      }
    }
  }

  /** A notice above the head of a sorted sequence is above all of it. */
  lemma AboveHeadNoneAbove(x: Schema.BidNotice, s: seq<Schema.BidNotice>)
    requires SortedDescending(s) && s != [] && KeyLess(SortKey(s[0]), SortKey(x))
    ensures NoneAbove(x, s)
  {
    forall j | 0 <= j < |s| ensures !KeyLess(SortKey(x), SortKey(s[j])) {
      if j > 0 { assert !KeyLess(SortKey(s[0]), SortKey(s[j])); }
      KeyLessTotal(SortKey(s[j]), SortKey(s[0]));
      if KeyLess(SortKey(x), SortKey(s[j])) {
        if SortKey(s[j]) != SortKey(s[0]) {
          KeyLessTransitive(SortKey(x), SortKey(s[j]), SortKey(s[0]));
        }
        KeyLessTransitive(SortKey(s[0]), SortKey(x), SortKey(s[0]));
        KeyLessIrreflexive(SortKey(s[0]));
      }
    }
  }

  lemma ConsSorted(m: Schema.BidNotice, s: seq<Schema.BidNotice>)
    requires SortedDescending(s) && NoneAbove(m, s)
    ensures SortedDescending([m] + s)
  {
    var r := [m] + s;
    forall i, j | 0 <= i < j < |r| ensures !KeyLess(SortKey(r[i]), SortKey(r[j])) {
      if i > 0 { assert r[i] == s[i - 1] && r[j] == s[j - 1]; }
      else { assert r[j] == s[j - 1]; }
    }
  }

  /** Inserting into a sorted sequence keeps it sorted. */
  lemma {:induction false} InsertSorted(x: Schema.BidNotice, s: seq<Schema.BidNotice>)
    requires SortedDescending(s)
    ensures SortedDescending(Insert(x, s))
  {
    if s == [] {
    } else if KeyLess(SortKey(s[0]), SortKey(x)) {
      AboveHeadNoneAbove(x, s);
      ConsSorted(x, s);
    } else {
      var tail := s[1..];
      assert SortedDescending(tail);
      InsertSorted(x, tail);
      assert NoneAbove(s[0], tail);
      InsertNoneAbove(s[0], x, tail);
      ConsSorted(s[0], Insert(x, tail));
    }
  }

  /** `notices.sort(key=..., reverse=True)` */
  method SortDescending(s: seq<Schema.BidNotice>) returns (r: seq<Schema.BidNotice>)
    ensures SortedDescending(r)
    ensures multiset(r) == multiset(s)
  {
    r := [];
    for i := 0 to |s|
      invariant SortedDescending(r)
      invariant multiset(r) == multiset(s[..i])
    {
      assert s[..i + 1] == s[..i] + [s[i]];
      InsertSorted(s[i], r);
      r := Insert(s[i], r);
    }
    assert s[..|s|] == s;
  }

  // ---------------------------------------------------------------------
  // The page loop

  /** How moving on from a list page goes. */
  datatype Turn = NoNextPage | TurnFailed | Turned | TurnRaised

  /** One pass of the page loop as the browser shows it: loading the list
      raises, the user interrupts, or the page's rows (each with the browser's
      behaviour while its detail is fetched) and the page turn. */
  datatype PageVisit =
    | LoadRaised
    | Interrupted
    | Loaded(rows: seq<(Item, Processor.FetchOracle)>, turn: Turn)

  /** The rows the processor has dealt with so far: skipped, extracted or failed. */
  function Handled(stats: Processor.Stats): int
    reads stats
  {
    stats.itemsSkipped + stats.itemsExtracted + stats.errors
  }

  /** A visit whose page raised: loading the list or turning the page. */
  predicate Raised(v: PageVisit) {
    v.LoadRaised? || (v.Loaded? && v.turn == TurnRaised)
  }

  /** A visit after which the loop cannot go on: an interrupt, no next page,
      or a page turn that failed. */
  predicate Ends(v: PageVisit) {
    v.Interrupted? || (v.Loaded? && (v.turn == NoNextPage || v.turn == TurnFailed))
  }

  /** Why the page loop ended. */
  datatype LoopExit = MaxPagesReached | EarlyExit | NoMorePages | NavigationFailed | TooManyErrors
                    | Interrupt | VisitsExhausted

  /** The visits `visits[..used]` of the page loop: visit `i` was on page
      `nums[i]`, the error count was `errs[i]` before it and `errs[i + 1]`
      after it.  The count never drops, a list that did not load adds exactly
      one, and every visit but the last let the loop go on: it did not end the
      loop, the next visit was on the next page number, and a page error left
      the count at most at the ceiling, having added at least one. */
  ghost predicate Trace(visits: seq<PageVisit>, used: nat, nums: seq<int>, errs: seq<int>) {
    used <= |visits| && |nums| == used && |errs| == used + 1
    && (forall i :: 0 <= i < used ==> errs[i] <= errs[i + 1])
    && (forall i :: 0 <= i < used ==> visits[i].LoadRaised? ==> errs[i + 1] == errs[i] + 1)
    && (forall i :: 0 <= i < used - 1 ==> !Ends(visits[i]) && nums[i + 1] == nums[i] + 1)
    && (forall i :: 0 <= i < used - 1 ==> Raised(visits[i]) ==> errs[i] + 1 <= errs[i + 1] <= MaxErrors)
  }

  /** The last visit of the trace let the loop go on. */
  ghost predicate Continues(visits: seq<PageVisit>, used: nat, errs: seq<int>)
    requires used <= |visits| && |errs| == used + 1
  {
    used > 0 ==> !Ends(visits[used - 1]) && (Raised(visits[used - 1]) ==> errs[used - 1] + 1 <= errs[used] <= MaxErrors)
  }

  lemma TraceExtend(visits: seq<PageVisit>, used: nat, nums: seq<int>, errs: seq<int>, n: int, e: int)
    requires Trace(visits, used, nums, errs) && Continues(visits, used, errs) && used < |visits|
    requires used > 0 ==> n == nums[used - 1] + 1
    requires errs[used] <= e && (visits[used].LoadRaised? ==> e == errs[used] + 1)
    ensures Trace(visits, used + 1, nums + [n], errs + [e])
  {
  }

  /** What one pass of the page loop leads to. */
  datatype Step = Continue(next: int) | Stop(exit: LoopExit)

  /** The page-error ceiling. */
  const MaxErrors := 10

  /** How a run ends: normally, or with the interrupt or the error re-raised. */
  datatype RunResult = Finished | RaisedInterrupt | RaisedError(message: string)

  /** The disk as a run sees it. */
  datatype Disk = Disk(now: string, checkpointWriteOk: bool, dedupWrite: Dedup.WriteOutcome)

  class CrawlerEngine {
    const checkpoint: Checkpoint.CheckpointManager
    const dedup: Dedup.DeduplicationManager
    const collected: Schema.NoticeList
    const stats: Processor.Stats
    const processor: Processor.NoticeProcessor
    /** 0 means no limit. */
    const maxPages: int
    const listUrl: string

    /** The processor works on the engine's own checkpoint, store, collection
        and counters: the same objects, not copies. */
    predicate Valid()
      reads this, processor, dedup
    {
      processor.checkpoint == checkpoint && processor.dedup == dedup
      && processor.collected == collected && processor.stats == stats
      && processor.earlyExitThreshold == 30
      && dedup.Valid()
    }

    constructor (checkpoint: Checkpoint.CheckpointManager, dedup: Dedup.DeduplicationManager,
                 maxPages: int, listUrl: string)
      requires dedup.Valid()
      ensures Valid()
      ensures this.checkpoint == checkpoint && this.dedup == dedup
      ensures this.maxPages == maxPages && this.listUrl == listUrl
      ensures fresh(collected) && fresh(stats) && fresh(processor)
      ensures collected.notices == [] && processor.consecutiveDuplicates == 0
      ensures stats.pagesCrawled == 0 && stats.itemsExtracted == 0 && stats.itemsSkipped == 0 && stats.errors == 0
    {
      this.checkpoint := checkpoint;
      this.dedup := dedup;
      this.maxPages := maxPages;
      this.listUrl := listUrl;
      var c := new Schema.NoticeList();
      var st := new Processor.Stats();
      collected := c;
      stats := st;
      processor := new Processor.NoticeProcessor(checkpoint, dedup, c, st);
    }

    /** After a loaded page with rows, the duplicate run has reached the
        threshold: the loop must stop there. */
    predicate EarlyExitDue(visit: PageVisit)
      reads this, processor
    {
      visit.Loaded? && visit.rows != [] && processor.consecutiveDuplicates >= processor.earlyExitThreshold
    }

    /** The rows of one page, in order, until the duplicate run reaches the
        threshold.  `runs[i]` is the duplicate run after row `i`. */
    method ProcessRows(rows: seq<(Item, Processor.FetchOracle)>, pageNum: int, disk: Disk)
      returns (handled: nat, runs: seq<int>)
      requires Valid()
      modifies processor, checkpoint, dedup`seenHashes, dedup`seenItems, collected, stats
      ensures Valid()
      ensures handled <= |rows| && |runs| == handled
      ensures forall i :: 0 <= i < handled - 1 ==> runs[i] < processor.earlyExitThreshold
      ensures handled < |rows| ==> handled > 0 && runs[handled - 1] >= processor.earlyExitThreshold
      ensures handled > 0 ==> runs[handled - 1] == processor.consecutiveDuplicates
      ensures processor.consecutiveDuplicates >= processor.earlyExitThreshold ==> handled > 0 || |rows| == 0
      ensures stats.errors >= old(stats.errors) && stats.pagesCrawled == old(stats.pagesCrawled)
      ensures handled == 0 ==> processor.consecutiveDuplicates == old(processor.consecutiveDuplicates)
      // Every handled row went through the processor: each one moves exactly
      // one of the skip, extract and error counters by one.
      ensures Handled(stats) == old(Handled(stats)) + handled
    {
      handled := 0;
      runs := [];
      while handled < |rows|
        invariant Valid()
        invariant handled <= |rows| && |runs| == handled
        invariant forall i :: 0 <= i < handled ==> runs[i] < processor.earlyExitThreshold
        invariant handled > 0 ==> runs[handled - 1] == processor.consecutiveDuplicates
        invariant stats.errors >= old(stats.errors) && stats.pagesCrawled == old(stats.pagesCrawled)
        invariant handled == 0 ==> processor.consecutiveDuplicates == old(processor.consecutiveDuplicates)
        invariant Handled(stats) == old(Handled(stats)) + handled
        decreases |rows| - handled
      {
        processor.ProcessNotice(rows[handled].0, pageNum, rows[handled].1, Processor.Env(disk.now, disk.checkpointWriteOk));
        runs := runs + [processor.consecutiveDuplicates];
        handled := handled + 1;
        if processor.consecutiveDuplicates >= processor.earlyExitThreshold {
          return;
        }
      }
    }

    /** A successful page turn: the local counter goes up by one, the
        checkpoint page is set to it and then advanced once more. */
    method TurnPage(currentPageNum: int) returns (next: int)
      modifies checkpoint`currentPage, checkpoint`statistics
      ensures next == currentPageNum + 1
      ensures checkpoint.currentPage == next + 1
      ensures checkpoint.statistics == old(checkpoint.statistics)["pages_crawled" := Int(next)]
    {
      next := currentPageNum + 1;
      checkpoint.currentPage := next;
      checkpoint.AdvancePage();
    }

    /** `_crawl_list_pages`.  The loop runs until the browser's pages run out
        in the model (`VisitsExhausted`) or one of the source's exits.  `used`
        is the number of visits consumed; `nums[i]` is the page number the loop
        was on for visit `i`; `errs[0]` is the error count before the loop and
        `errs[i + 1]` the count after visit `i` (see `Trace`). */
    method CrawlListPages(visits: seq<PageVisit>, disk: Disk)
      returns (exit: LoopExit, pages: seq<int>, ghost used: nat, ghost nums: seq<int>, ghost errs: seq<int>)
      requires Valid()
      modifies processor, checkpoint, dedup`seenHashes, dedup`seenItems, collected, stats
      ensures Valid()
      ensures forall i :: 0 <= i < |pages| ==> maxPages <= 0 || pages[i] <= maxPages
      ensures forall i :: 0 < i < |pages| ==> pages[i - 1] < pages[i]
      ensures pages != [] ==> pages[0] >= old(checkpoint.currentPage)
      ensures stats.pagesCrawled == old(stats.pagesCrawled) + |pages|
      ensures stats.errors >= old(stats.errors)
      ensures exit == TooManyErrors ==> stats.errors > MaxErrors
      ensures exit == EarlyExit ==> processor.consecutiveDuplicates >= processor.earlyExitThreshold
      ensures exit == MaxPagesReached ==> maxPages > 0
      // Every visit but the last let the loop go on to the next page number.
      ensures Trace(visits, used, nums, errs)
      ensures errs[0] == old(stats.errors) && errs[used] == stats.errors
      ensures used > 0 ==> nums[0] == old(checkpoint.currentPage)
      ensures exit == VisitsExhausted ==> used == |visits|
      // The last visit decides the exit.
      ensures used > 0 && Raised(visits[used - 1]) && exit != EarlyExit ==> errs[used] >= errs[used - 1] + 1
      ensures exit == Interrupt <==> used > 0 && visits[used - 1].Interrupted?
      ensures used > 0 && visits[used - 1].Loaded? && visits[used - 1].turn == NoNextPage ==>
        exit == NoMorePages || exit == EarlyExit
      ensures used > 0 && visits[used - 1].Loaded? && visits[used - 1].turn == TurnFailed ==>
        exit == NavigationFailed || exit == EarlyExit
      ensures exit == NoMorePages ==> used > 0 && visits[used - 1].Loaded? && visits[used - 1].turn == NoNextPage
      ensures exit == NavigationFailed ==> used > 0 && visits[used - 1].Loaded? && visits[used - 1].turn == TurnFailed
      ensures exit == EarlyExit ==> used > 0 && visits[used - 1].Loaded?
      ensures exit == TooManyErrors <==> used > 0 && Raised(visits[used - 1]) && exit != EarlyExit && errs[used] > MaxErrors
      ensures used > 0 && EarlyExitDue(visits[used - 1]) ==> exit == EarlyExit
    {
      pages := [];
      var currentPageNum := checkpoint.currentPage;
      ghost var start := currentPageNum;
      var v := 0;
      nums, errs := [], [stats.errors];
      while true
        invariant Valid()
        invariant Trace(visits, v, nums, errs) && Continues(visits, v, errs)
        invariant errs[0] == old(stats.errors) && errs[v] == stats.errors
        invariant forall i :: 0 <= i < |pages| ==> (maxPages <= 0 || pages[i] <= maxPages) && pages[i] < currentPageNum
        invariant forall i :: 0 < i < |pages| ==> pages[i - 1] < pages[i]
        invariant pages != [] ==> pages[0] >= start
        invariant currentPageNum >= start
        invariant stats.pagesCrawled == old(stats.pagesCrawled) + |pages|
        invariant stats.errors >= old(stats.errors)
        invariant v == 0 ==> currentPageNum == start
        invariant v > 0 ==> nums[0] == start && currentPageNum == nums[v - 1] + 1
        invariant v > 0 ==> !EarlyExitDue(visits[v - 1])
        decreases |visits| - v
      {
        if maxPages > 0 && currentPageNum > maxPages {
          return MaxPagesReached, pages, v, nums, errs;
        }
        if v == |visits| {
          return VisitsExhausted, pages, v, nums, errs;
        }
        var visit := visits[v];
        if visit.Loaded? {
          pages := pages + [currentPageNum];
        }
        var step := VisitPage(visit, currentPageNum, disk);
        TraceExtend(visits, v, nums, errs, currentPageNum, stats.errors);
        nums := nums + [currentPageNum];
        errs := errs + [stats.errors];
        v := v + 1;
        if step.Stop? {
          return step.exit, pages, v, nums, errs;
        }
        currentPageNum := step.next;
      }
    }

    /** One pass of the page loop: go on to the next page number, or stop. */
    method VisitPage(visit: PageVisit, currentPageNum: int, disk: Disk) returns (step: Step)
      requires Valid()
      modifies processor, checkpoint, dedup`seenHashes, dedup`seenItems, collected, stats
      ensures Valid()
      ensures stats.pagesCrawled == old(stats.pagesCrawled) + (if visit.Loaded? then 1 else 0)
      ensures stats.errors >= old(stats.errors)
      ensures Raised(visit) && step != Stop(EarlyExit) ==> stats.errors >= old(stats.errors) + 1
      ensures visit.LoadRaised? ==> stats.errors == old(stats.errors) + 1
      ensures step.Continue? ==> step.next == currentPageNum + 1 && !Ends(visit)
      ensures step.Continue? && Raised(visit) ==> stats.errors <= MaxErrors
      ensures step.Stop? ==> step.exit != MaxPagesReached && step.exit != VisitsExhausted
      ensures step == Stop(Interrupt) <==> visit.Interrupted?
      ensures visit.Loaded? && visit.turn == NoNextPage ==> step == Stop(NoMorePages) || step == Stop(EarlyExit)
      ensures visit.Loaded? && visit.turn == TurnFailed ==> step == Stop(NavigationFailed) || step == Stop(EarlyExit)
      ensures step == Stop(NoMorePages) ==> visit.Loaded? && visit.turn == NoNextPage
      ensures step == Stop(NavigationFailed) ==> visit.Loaded? && visit.turn == TurnFailed
      ensures step == Stop(EarlyExit) ==> visit.Loaded? && processor.consecutiveDuplicates >= processor.earlyExitThreshold
      ensures step == Stop(TooManyErrors) <==> Raised(visit) && step != Stop(EarlyExit) && stats.errors > MaxErrors
      ensures EarlyExitDue(visit) ==> step == Stop(EarlyExit)
    {
      match visit
      case Interrupted =>
        return Stop(Interrupt);
      case LoadRaised =>
        var stop := PageError();
        if stop {
          return Stop(TooManyErrors);
        }
        return Continue(currentPageNum + 1);
      case Loaded(rows, turn) =>
        stats.pagesCrawled := stats.pagesCrawled + 1;
        var handled, runs := ProcessRows(rows, currentPageNum, disk);
        if processor.consecutiveDuplicates >= processor.earlyExitThreshold && handled > 0 {
          return Stop(EarlyExit);
        }
        match turn
        case Turned =>
          var next := TurnPage(currentPageNum);
          return Continue(next);
        case NoNextPage =>
          return Stop(NoMorePages);
        case TurnFailed =>
          return Stop(NavigationFailed);
        case TurnRaised =>
          var stop := PageError();
          if stop {
            return Stop(TooManyErrors);
          }
          return Continue(currentPageNum + 1);
    }

    /** A page-level exception: one more error on the shared counter (which
        item failures also raise), and a stop once it passes the ceiling. */
    method PageError() returns (stop: bool)
      modifies stats`errors
      ensures stats.errors == old(stats.errors) + 1
      ensures stop <==> stats.errors > MaxErrors
    {
      stats.errors := stats.errors + 1;
      stop := stats.errors > MaxErrors;
    }

    /** `_save_data`: nothing for an empty collection; otherwise the collection
        is sorted newest first in place and offered to every sink in turn, a
        failing sink (`sinkOk[i]` false) not stopping the later ones. */
    method SaveData(sinkOk: seq<bool>) returns (saved: seq<nat>)
      modifies collected`notices
      ensures old(collected.notices) == [] ==> collected.notices == [] && saved == []
      ensures old(collected.notices) != [] ==>
        SortedDescending(collected.notices) && multiset(collected.notices) == multiset(old(collected.notices))
        && (forall i :: i in saved <==> 0 <= i < |sinkOk| && sinkOk[i])
      ensures forall i :: 0 < i < |saved| ==> saved[i - 1] < saved[i]
    {
      saved := [];
      if collected.notices == [] {
        return;
      }
      collected.notices := SortDescending(collected.notices);
      for i := 0 to |sinkOk|
        invariant forall k :: k in saved <==> 0 <= k < i && sinkOk[k]
        invariant forall k :: 0 < k < |saved| ==> saved[k - 1] < saved[k]
        invariant forall k :: 0 <= k < |saved| ==> saved[k] < i
      {
        if sinkOk[i] {
          saved := saved + [i];
        }
      }
    }

    /** `run`: resume from the checkpoint when asked and one loads, otherwise
        start afresh; crawl; then complete, save the data and the dedup store.
        An interrupt pauses and force-saves before re-raising; any other error
        counts, fails the crawl and is re-raised. */
    method Run(resume: bool, metadata: Item, browserOk: bool, visits: seq<PageVisit>,
               sinkOk: seq<bool>, disk: Disk)
      returns (result: RunResult, initialized: bool, saved: seq<nat>, ghost crawled: seq<Schema.BidNotice>)
      requires Valid()
      modifies processor, checkpoint, dedup, collected, stats
      ensures Valid()
      ensures initialized <==> !(resume && old(checkpoint.file).Stored? && Checkpoint.Decode(old(checkpoint.file).doc).Some?)
      ensures result == Finished ==> checkpoint.state == Checkpoint.Completed
      ensures result == RaisedInterrupt ==> checkpoint.state == Checkpoint.Paused
      ensures result == RaisedInterrupt && disk.checkpointWriteOk ==>
        checkpoint.file == Checkpoint.Stored(Checkpoint.Encode(checkpoint.Current(), disk.now))
      ensures result.RaisedError? ==> checkpoint.state == Checkpoint.Failed && stats.errors >= old(stats.errors) + 1
      ensures !browserOk ==> result.RaisedError?
      ensures browserOk && listUrl == "" ==> result == RaisedError("List page URL not configured")
      // A normal end and an interrupt both write the dedup store as it stands
      // at the end; a failed run does not touch the dedup file.
      ensures result == Finished || result == RaisedInterrupt ==>
        (dedup.enabled && old(dedup.storage).Some? && disk.dedupWrite == Dedup.WriteOk ==>
           dedup.storage == Some(Dedup.Written(Dedup.StoreDoc(Some(dedup.keyFields), Some(dedup.seenItems)))))
        && (dedup.enabled && old(dedup.storage).Some? && disk.dedupWrite == Dedup.FailWhileWriting ==>
           dedup.storage == Some(Dedup.Unreadable))
        && (!dedup.enabled || old(dedup.storage).None? || disk.dedupWrite == Dedup.FailBeforeOpen ==>
           dedup.storage == old(dedup.storage))
      ensures result.RaisedError? ==> dedup.storage == old(dedup.storage)
      // A normal end saves the collection `crawled`: sorted newest first and
      // offered to every sink; an empty collection saves nothing.
      ensures result == Finished && crawled == [] ==> collected.notices == [] && saved == []
      ensures result == Finished && crawled != [] ==>
        SortedDescending(collected.notices) && multiset(collected.notices) == multiset(crawled)
        && (forall i :: i in saved <==> 0 <= i < |sinkOk| && sinkOk[i])
      ensures result != Finished ==> saved == []
      ensures result == RaisedInterrupt ==> collected.notices == crawled
    {
      saved := [];
      crawled := collected.notices;
      initialized := false;
      var loaded := false;
      if resume {
        loaded := checkpoint.LoadCheckpoint();
      }
      if !loaded {
        checkpoint.InitializeCrawl(Some(metadata), disk.now);
        initialized := true;
      }
      if !browserOk {
        result := Fail("browser failed", disk);
        return;
      }
      if listUrl == "" {
        result := Fail("List page URL not configured", disk);
        return;
      }
      var exit, pages, used, nums, errs := CrawlListPages(visits, disk);
      crawled := collected.notices;
      if exit == Interrupt {
        checkpoint.SetState(Checkpoint.Paused);
        checkpoint.SaveCheckpoint(true, disk.now, disk.checkpointWriteOk);
        dedup.Save(disk.dedupWrite);
        return RaisedInterrupt, initialized, saved, crawled;
      }
      checkpoint.CompleteCrawl(true, disk.now, disk.checkpointWriteOk);
      saved := SaveData(sinkOk);
      dedup.Save(disk.dedupWrite);
      result := Finished;
    }

    /** The `except Exception` branch of `run`. */
    method Fail(message: string, disk: Disk) returns (result: RunResult)
      modifies checkpoint, stats`errors
      ensures result == RaisedError(message)
      ensures checkpoint.state == Checkpoint.Failed && stats.errors == old(stats.errors) + 1
      ensures checkpoint.processedItems == old(checkpoint.processedItems)
      ensures checkpoint.failedItems == old(checkpoint.failedItems)
      ensures disk.checkpointWriteOk ==> checkpoint.file == Checkpoint.Stored(Checkpoint.Encode(checkpoint.Current(), disk.now))
    {
      stats.errors := stats.errors + 1;
      checkpoint.CompleteCrawl(false, disk.now, disk.checkpointWriteOk);
      result := RaisedError(message);
    }
  }
}
