/** The per-notice workflow: skip what was processed or seen, fetch the detail
    page through the reset ladder, build the notice (with a fallback record),
    apply the quality gate, then commit to the collection, the dedup store and
    the checkpoint.  The browser is an oracle. */
module Processor {
  import opened Wrappers
  import opened Text
  import opened Values
  import Schema
  import Checkpoint
  import Dedup
  import DetailParser
  import Navigator

  /** The crawl counters shared by the engine and the processor. */
  class Stats {
    var pagesCrawled: int
    var itemsExtracted: int
    var itemsSkipped: int
    var errors: int

    constructor ()
      ensures pagesCrawled == 0 && itemsExtracted == 0 && itemsSkipped == 0 && errors == 0
    {
      pagesCrawled := 0;
      itemsExtracted := 0;
      itemsSkipped := 0;
      errors := 0;
    }
  }

  /** The id the checkpoint records for a notice: its number, "" when absent.
      A non-string number is recorded as its `str()`. */
  function IdOf(notice: Item): string {
    if "bid_notice_number" !in notice then "" else Show(notice["bid_notice_number"])
  }

  /** The id a failure is recorded under: the number, 'unknown' when absent. */
  function FailedIdOf(notice: Item): string {
    if "bid_notice_number" !in notice then "unknown" else Show(notice["bid_notice_number"])
  }

  // ---------------------------------------------------------------------
  // Fetching the detail page

  /** What the browser does while a detail page is fetched: whether the row is
      visible at first, after the soft reset and after the hard reset; the
      pagination bars met by the two restores; whether the name link is
      visible; and the detail page that opens in a new tab, in a modal or in
      place (with the base-price tab, when there is one). */
  datatype FetchOracle = FetchOracle(
    rowVisible: bool,
    rowAfterSoftReset: bool,
    rowAfterHardReset: bool,
    softPager: Navigator.PagerOracle,
    hardPager: Navigator.PagerOracle,
    linkVisible: bool,
    newTab: Option<DetailParser.DetailPage>,
    modal: Option<DetailParser.DetailPage>,
    inPage: Option<DetailParser.DetailPage>,
    basePriceTab: Option<DetailParser.DetailPage>)

  /** How `fetch_detail_page` ends: handing back the list row's own dict, a
      parsed copy, or an exception with its message. */
  datatype Fetched = BaseUnchanged | Parsed(data: Item) | FetchFailed(message: string)

  /** The recovery steps taken while looking for the row. */
  datatype RecoveryStep = SoftReset | HardReset | Restore(page: int, outcome: Navigator.RestoreOutcome)

  function ValidationFailedMessage(bidNo: Value): string {
    "Validation Failed: opening_date is missing/invalid for " + Show(bidNo)
  }

  function TriedAllMessage(bidNo: Value): string {
    "Failed to open detail page for " + Show(bidNo) + " (tried all methods)"
  }

  predicate HasOpeningDate(data: Item) {
    Truthy(Get(data, "opening_date", Null))
  }

  /** Methods 1 to 3 once the link is clicked.  A parse that lacks an opening
      date after a new tab or a modal is reported as "tried all methods"; only
      the in-page method reports the validation failure itself. */
  function OpenDetail(base: Item, bidNo: Value, oracle: FetchOracle): (r: Fetched)
    ensures r.Parsed? ==> HasOpeningDate(r.data)
    ensures !r.BaseUnchanged?
    ensures oracle.newTab.Some? ==>
      r == (var d := DetailParser.ParsePage(base, oracle.newTab.value);
            if HasOpeningDate(d) then Parsed(d) else FetchFailed(TriedAllMessage(bidNo)))
    ensures oracle.newTab.None? && oracle.modal.Some? ==>
      r == (var d := DetailParser.ParsePage(base, oracle.modal.value);
            if HasOpeningDate(d) then Parsed(d) else FetchFailed(TriedAllMessage(bidNo)))
    ensures oracle.newTab.None? && oracle.modal.None? && oracle.inPage.None? ==> r == FetchFailed(TriedAllMessage(bidNo))
    ensures oracle.newTab.None? && oracle.modal.None? && oracle.inPage.Some? && r.FetchFailed? ==>
      r.message == ValidationFailedMessage(bidNo)
  {
    if oracle.newTab.Some? then
      var d := DetailParser.ParsePage(base, oracle.newTab.value);
      if HasOpeningDate(d) then Parsed(d) else FetchFailed(TriedAllMessage(bidNo))
    else if oracle.modal.Some? then
      var d := DetailParser.ParsePage(base, oracle.modal.value);
      if HasOpeningDate(d) then Parsed(d) else FetchFailed(TriedAllMessage(bidNo))
    else if oracle.inPage.Some? then
      var main := DetailParser.ParsePage(base, oracle.inPage.value);
      var d := if oracle.basePriceTab.Some? then main + DetailParser.ParsePage(base, oracle.basePriceTab.value) else main;
      if HasOpeningDate(d) then Parsed(d) else FetchFailed(ValidationFailedMessage(bidNo))
    else FetchFailed(TriedAllMessage(bidNo))
  }

  /** The row is found at some rung of the ladder. */
  predicate RowFound(oracle: FetchOracle) {
    oracle.rowVisible || oracle.rowAfterSoftReset || oracle.rowAfterHardReset
  }

  /** What `fetch_detail_page` returns. */
  function FetchOutcome(base: Item, oracle: FetchOracle): (r: Fetched)
    ensures !Truthy(Get(base, "bid_notice_number", Null)) ==> r == BaseUnchanged
    ensures !RowFound(oracle) ==> r == BaseUnchanged
    ensures r.Parsed? ==> HasOpeningDate(r.data)
  {
    var bidNo := Get(base, "bid_notice_number", Null);
    if !Truthy(bidNo) || !RowFound(oracle) || !oracle.linkVisible then BaseUnchanged
    else OpenDetail(base, bidNo, oracle)
  }

  predicate IsReset(s: RecoveryStep) {
    s == SoftReset || s == HardReset
  }

  /** `restore_pagination` runs only for a page past the first, right after a reset. */
  predicate RestoresFollowResets(steps: seq<RecoveryStep>, currentPage: int) {
    (forall i :: 0 <= i < |steps| && steps[i].Restore? ==>
       steps[i].page == currentPage && currentPage > 1 && i > 0 && IsReset(steps[i - 1]))
    && (currentPage > 1 ==> forall i :: 0 <= i < |steps| && IsReset(steps[i]) ==>
          i + 1 < |steps| && steps[i + 1].Restore?)
  }

  /** `fetch_detail_page`: looks for the row, escalating to a soft reset and
      then a hard reset (each followed by a restore of page `currentPage` when
      it is past the first, whose failure is only logged); hands back the list
      dict when no row or link is found; otherwise opens the detail. */
  method FetchDetailPage(base: Item, currentPage: int, oracle: FetchOracle)
    returns (r: Fetched, steps: seq<RecoveryStep>)
    ensures r == FetchOutcome(base, oracle)
    ensures !Truthy(Get(base, "bid_notice_number", Null)) ==> steps == []
    ensures SoftReset in steps <==> Truthy(Get(base, "bid_notice_number", Null)) && !oracle.rowVisible
    ensures HardReset in steps <==>
      Truthy(Get(base, "bid_notice_number", Null)) && !oracle.rowVisible && !oracle.rowAfterSoftReset
    ensures steps != [] ==> steps[0] == SoftReset
    ensures RestoresFollowResets(steps, currentPage)
  {
    steps := [];
    var bidNo := Get(base, "bid_notice_number", Null);
    if !Truthy(bidNo) {
      return BaseUnchanged, steps;
    }
    var row := oracle.rowVisible;
    if !row {
      steps := steps + [SoftReset];
      if currentPage > 1 {
        var outcome, actions := Navigator.RestorePagination(currentPage, oracle.softPager);
        steps := steps + [Restore(currentPage, outcome)];
      }
      row := oracle.rowAfterSoftReset;
    }
    ghost var afterSoft := steps;
    assert RestoresFollowResets(steps, currentPage);
    if !row {
      steps := steps + [HardReset];
      if currentPage > 1 {
        var outcome, actions := Navigator.RestorePagination(currentPage, oracle.hardPager);
        steps := steps + [Restore(currentPage, outcome)];
      }
      row := oracle.rowAfterHardReset;
      assert HardReset !in afterSoft;
    }
    if !row {
      return BaseUnchanged, steps;
    }
    if !oracle.linkVisible {
      return BaseUnchanged, steps;
    }
    r := OpenDetail(base, bidNo, oracle);
  }

  // ---------------------------------------------------------------------
  // Building the notice

  /** `additional_info` of the fallback record: the raw dict and the error. */
  function FallbackInfo(full: Item, error: string): Item {
    map["raw_data" := Dict(full), "parse_error" := Str(error)]
  }

  /** The fallback record: the list row's number, name and agency (defaulting
      to 'Unknown') with the raw data as `additional_info`. */
  function FallbackData(notice: Item, full: Item, error: string): Item {
    map["bid_notice_number" := Get(notice, "bid_notice_number", Str("")),
        "bid_notice_name" := Get(notice, "bid_notice_name", Str("Unknown")),
        "announcement_agency" := Get(notice, "announcement_agency", Str("Unknown")),
        "additional_info" := Dict(FallbackInfo(full, error))]
  }

  /** The row holds no value under `key`, or a string. */
  predicate TextOrAbsent(notice: Item, key: string) {
    key !in notice || notice[key].Str?
  }

  /** The string under `key`, or `default` when there is none. */
  function TextOr(notice: Item, key: string, default: string): string {
    if key in notice && notice[key].Str? then notice[key].s else default
  }

  /** `BidNotice(**full_data)`, and on failure the fallback record. */
  function Construct(notice: Item, full: Item, now: string): (r: Result<Schema.BidNotice, string>)
    ensures Schema.Build(full, now).Ok? ==> r == Schema.Build(full, now)
    ensures Schema.Build(full, now).Err? ==> r == Schema.Build(FallbackData(notice, full, Schema.Build(full, now).error), now)
    // The fallback record: the row's number, its name and agency or 'Unknown',
    // no files, and the raw dict with the error as `additional_info`.
    ensures Schema.Build(full, now).Err? && FallbackTexts(notice) ==>
      r.Ok?
      && r.value == FallbackNotice(notice, full, Schema.Build(full, now).error, now)
    // A name or agency the row holds as something other than a string fails the fallback too.
    ensures Schema.Build(full, now).Err? && !FallbackTexts(notice) ==> r.Err?
  {
    match Schema.Build(full, now)
    case Ok(b) => Ok(b)
    case Err(e) =>
      FallbackBuilds(notice, full, e, now);
      Schema.Build(FallbackData(notice, full, e), now)
  }

  /** The number, name and agency of the row are absent or strings. */
  predicate FallbackTexts(notice: Item) {
    TextOrAbsent(notice, "bid_notice_number") && TextOrAbsent(notice, "bid_notice_name")
    && TextOrAbsent(notice, "announcement_agency")
  }

  /** The notice built from the fallback dict. */
  function FallbackNotice(notice: Item, full: Item, error: string, now: string): Schema.BidNotice {
    Schema.BidNotice(map["bid_notice_number" := TextOr(notice, "bid_notice_number", ""),
                         "bid_notice_name" := TextOr(notice, "bid_notice_name", "Unknown"),
                         "announcement_agency" := TextOr(notice, "announcement_agency", "Unknown")],
                     [], now, Some(FallbackInfo(full, error)))
  }

  /** The fallback dict always validates when the row's texts are strings. */
  lemma FallbackBuilds(notice: Item, full: Item, error: string, now: string)
    ensures FallbackTexts(notice) ==>
              Schema.Build(FallbackData(notice, full, error), now) == Ok(FallbackNotice(notice, full, error, now))
    ensures !FallbackTexts(notice) ==> Schema.Build(FallbackData(notice, full, error), now).Err?
  {
    if !FallbackTexts(notice) {
      FallbackRejected(notice, full, error);
    } else {
      var d := FallbackData(notice, full, error);
      FallbackValidates(notice, full, error);
      var r := Schema.Build(d, now);
      FallbackText(notice, full, error);
      FallbackTextMap(notice, full, error, r.value.text);
      assert Schema.AttachedFilesOf(Schema.ParseAttachedFiles(Get(d, "attached_files", Null)).elems) == Some([]);
    }
  }

  lemma FallbackTextMap(notice: Item, full: Item, error: string, m: map<string, string>)
    requires FallbackTexts(notice)
    requires forall f :: f in m <==> f in Schema.RequiredFields
    requires forall f :: f in m ==> Some(m[f]) == Schema.TextValue(FallbackData(notice, full, error), f)
    ensures m == FallbackNotice(notice, full, error, "").text
  {
    var text := FallbackNotice(notice, full, error, "").text;
    assert m.Keys == text.Keys;
  }

  lemma FallbackRejected(notice: Item, full: Item, error: string)
    requires !FallbackTexts(notice)
    ensures !Schema.Validates(FallbackData(notice, full, error))
  {
    var d := FallbackData(notice, full, error);
    if !TextOrAbsent(notice, "bid_notice_number") {
      assert "bid_notice_number" in Schema.TextFields && !Schema.FieldAccepted(d, "bid_notice_number");
    } else if !TextOrAbsent(notice, "bid_notice_name") {
      assert "bid_notice_name" in Schema.TextFields && !Schema.FieldAccepted(d, "bid_notice_name");
    } else {
      assert "announcement_agency" in Schema.TextFields && !Schema.FieldAccepted(d, "announcement_agency");
    }
  }

  lemma FallbackValidates(notice: Item, full: Item, error: string)
    requires FallbackTexts(notice)
    ensures Schema.Validates(FallbackData(notice, full, error))
  {
    var d := FallbackData(notice, full, error);
    Schema.FlatKeysDistinct();
    assert "attached_files" !in d;
    forall f | f in Schema.TextFields ensures Schema.FieldAccepted(d, f) {
      if f !in Schema.RequiredFields {
        assert f !in d;
      }
    }
  }

  lemma FallbackText(notice: Item, full: Item, error: string)
    requires FallbackTexts(notice)
    ensures forall f :: f in Schema.TextFields && Schema.TextValue(FallbackData(notice, full, error), f).Some? <==>
                        f in Schema.RequiredFields
  {
    var d := FallbackData(notice, full, error);
    forall f ensures f in Schema.TextFields && Schema.TextValue(d, f).Some? <==> f in Schema.RequiredFields {
      if f in Schema.RequiredFields {
        assert f in Schema.TextFields;
        assert f !in Schema.ValidatedDateFields;
        assert f in d && d[f].Str?;
      } else if f in d {
        assert f == "additional_info";
      }
    }
  }

  /** The fields whose absence counts against a notice. */
  const CriticalFields: seq<string> := ["budget_amount", "base_price", "opening_date", "pre_qualification", "contract_bond"]

  /** `not getattr(notice, field)` for a text field. */
  predicate FieldEmpty(n: Schema.BidNotice, field: string) {
    field !in n.text || n.text[field] == ""
  }

  /** The number of empty fields among `fields`. */
  function EmptyCount(n: Schema.BidNotice, fields: seq<string>): (k: nat)
    ensures k <= |fields|
  {
    if fields == [] then 0
    else EmptyCount(n, fields[..|fields| - 1]) + (if FieldEmpty(n, fields[|fields| - 1]) then 1 else 0)
  }

  /** The count is the size of the set of positions holding an empty field. */
  lemma {:induction false} EmptyCountPositions(n: Schema.BidNotice, fields: seq<string>)
    ensures EmptyCount(n, fields) == |set i | 0 <= i < |fields| && FieldEmpty(n, fields[i])|
  {
    if fields != [] {
      var init := fields[..|fields| - 1];
      EmptyCountPositions(n, init);
      var s := set i | 0 <= i < |init| && FieldEmpty(n, init[i]);
      var t := set i | 0 <= i < |fields| && FieldEmpty(n, fields[i]);
      assert forall i :: 0 <= i < |init| ==> init[i] == fields[i];
      if FieldEmpty(n, fields[|fields| - 1]) {
        assert t == s + {|fields| - 1};
      } else {
        assert t == s;
      }
    }
  }

  /** The counting loop of the quality gate. */
  method CountEmptyCritical(n: Schema.BidNotice) returns (nullCount: nat)
    ensures nullCount == EmptyCount(n, CriticalFields)
  {
    nullCount := 0;
    var fields := CriticalFields;
    for i := 0 to |fields|
      invariant nullCount == EmptyCount(n, fields[..i])
    {
      assert fields[..i + 1][..i] == fields[..i];
      if FieldEmpty(n, fields[i]) {
        nullCount := nullCount + 1;
      }
    }
    assert fields[..|fields|] == fields;
  }

  /** The quality gate: at least four empty critical fields and no notes. */
  predicate TooSparse(n: Schema.BidNotice) {
    EmptyCount(n, CriticalFields) >= 4 && FieldEmpty(n, "notes")
  }

  function TooSparseMessage(nullCount: nat): string {
    "Too many missing fields (" + NatToString(nullCount) + "/5 critical fields null). Treating as failure for retry."
  }

  /** What happens to a notice that was neither processed nor a duplicate. */
  datatype ItemOutcome = Collected(notice: Schema.BidNotice) | FailedWith(error: string)

  /** The dict the fetch stage hands on. */
  function FullData(notice: Item, fetched: Fetched): Item
    requires !fetched.FetchFailed?
  {
    if fetched.Parsed? then fetched.data else notice
  }

  /** The outcome of the fetch, build and gate stages. */
  function Outcome(notice: Item, fetched: Fetched, now: string): (r: ItemOutcome)
    ensures fetched.FetchFailed? ==> r == FailedWith(fetched.message)
    ensures r.Collected? ==> !TooSparse(r.notice)
    ensures !fetched.FetchFailed? && Construct(notice, FullData(notice, fetched), now).Ok? ==>
      var b := Construct(notice, FullData(notice, fetched), now).value;
      r == if TooSparse(b) then FailedWith(TooSparseMessage(EmptyCount(b, CriticalFields))) else Collected(b)
    ensures !fetched.FetchFailed? && Construct(notice, FullData(notice, fetched), now).Err? ==>
      r == FailedWith(Construct(notice, FullData(notice, fetched), now).error)
  {
    if fetched.FetchFailed? then FailedWith(fetched.message)
    else match Construct(notice, FullData(notice, fetched), now)
      case Err(e) => FailedWith(e)
      case Ok(b) =>
        if TooSparse(b) then FailedWith(TooSparseMessage(EmptyCount(b, CriticalFields))) else Collected(b)
  }

  /** The dict `mark_as_seen` receives.  When no detail copy was made the
      fetch stage handed on the list row's own dict, so the fallback's
      `additional_info` assignment is visible in it. */
  function SeenData(notice: Item, fetched: Fetched, now: string): Item {
    if fetched.BaseUnchanged? && Schema.Build(notice, now).Err? then
      notice["additional_info" := Dict(FallbackInfo(notice, Schema.Build(notice, now).error))]
    else notice
  }

  /** The detail page is fetched when the row has a detail link or the detail flag. */
  predicate WantsDetail(notice: Item) {
    Truthy(Get(notice, "detail_link", Null)) || Truthy(Get(notice, "has_detail", Bool(false)))
  }

  /** The outcome of `fetch_detail_page`, or the row itself when no fetch happens. */
  function FetchedFor(notice: Item, oracle: FetchOracle): Fetched {
    if WantsDetail(notice) then FetchOutcome(notice, oracle) else BaseUnchanged
  }

  /** The disk and clock as one notice sees them. */
  datatype Env = Env(now: string, writeOk: bool)

  /** Turns list rows into collected notices for one crawl. */
  class NoticeProcessor {
    const checkpoint: Checkpoint.CheckpointManager
    const dedup: Dedup.DeduplicationManager
    const collected: Schema.NoticeList
    const stats: Stats
    var consecutiveDuplicates: int
    /** Fixed at 30; not read from the configuration. */
    const earlyExitThreshold: int

    constructor (checkpoint: Checkpoint.CheckpointManager, dedup: Dedup.DeduplicationManager,
                 collected: Schema.NoticeList, stats: Stats)
      ensures this.checkpoint == checkpoint && this.dedup == dedup
      ensures this.collected == collected && this.stats == stats
      ensures consecutiveDuplicates == 0 && earlyExitThreshold == 30
    {
      this.checkpoint := checkpoint;
      this.dedup := dedup;
      this.collected := collected;
      this.stats := stats;
      consecutiveDuplicates := 0;
      earlyExitThreshold := 30;
    }

    /** `process_notice`; it never raises: every failure becomes a failed
        checkpoint entry and one more error. */
    method ProcessNotice(notice: Item, currentPage: int, oracle: FetchOracle, env: Env)
      requires dedup.Valid()
      modifies this, checkpoint, dedup`seenHashes, dedup`seenItems, collected, stats
      ensures dedup.Valid()
      ensures stats.pagesCrawled == old(stats.pagesCrawled)
      // Already processed: only the skip counter moves.
      ensures old(checkpoint.IsItemProcessed(IdOf(notice))) ==>
        stats.itemsSkipped == old(stats.itemsSkipped) + 1
        && stats.itemsExtracted == old(stats.itemsExtracted) && stats.errors == old(stats.errors)
        && consecutiveDuplicates == old(consecutiveDuplicates)
        && collected.notices == old(collected.notices) && collected.totalCount == old(collected.totalCount)
        && dedup.seenItems == old(dedup.seenItems)
        && checkpoint.processedItems == old(checkpoint.processedItems)
        && checkpoint.failedItems == old(checkpoint.failedItems)
      // A duplicate: skipped, counted as a consecutive duplicate, marked processed.
      ensures !old(checkpoint.IsItemProcessed(IdOf(notice))) && old(dedup.IsDuplicate(notice)) ==>
        stats.itemsSkipped == old(stats.itemsSkipped) + 1
        && stats.itemsExtracted == old(stats.itemsExtracted) && stats.errors == old(stats.errors)
        && consecutiveDuplicates == old(consecutiveDuplicates) + 1
        && collected.notices == old(collected.notices) && collected.totalCount == old(collected.totalCount)
        && dedup.seenItems == old(dedup.seenItems)
        && checkpoint.processedItems == old(checkpoint.processedItems) + [IdOf(notice)]
        && checkpoint.failedItems == old(checkpoint.failedItems)
      // A new notice resets the duplicate run, whatever happens next.
      ensures !old(checkpoint.IsItemProcessed(IdOf(notice))) && !old(dedup.IsDuplicate(notice)) ==>
        consecutiveDuplicates == 0 && stats.itemsSkipped == old(stats.itemsSkipped)
      // Collected: appended, counted, seen and processed.
      ensures !old(checkpoint.IsItemProcessed(IdOf(notice))) && !old(dedup.IsDuplicate(notice))
              && Outcome(notice, FetchedFor(notice, oracle), env.now).Collected? ==>
        collected.notices == old(collected.notices) + [Outcome(notice, FetchedFor(notice, oracle), env.now).notice]
        && collected.totalCount == |collected.notices|
        && stats.itemsExtracted == old(stats.itemsExtracted) + 1 && stats.errors == old(stats.errors)
        && (dedup.enabled ==> dedup.seenItems == old(dedup.seenItems)[
              dedup.fingerprint(SeenData(notice, FetchedFor(notice, oracle), env.now)) :=
              Dedup.KeyInfo(SeenData(notice, FetchedFor(notice, oracle), env.now), dedup.keyFields)])
        && (!dedup.enabled ==> dedup.seenItems == old(dedup.seenItems))
        && checkpoint.processedItems == old(checkpoint.processedItems) + [IdOf(notice)]
        && checkpoint.failedItems == old(checkpoint.failedItems)
      // Failed: nothing collected, seen or processed; one failed entry and one error.
      ensures !old(checkpoint.IsItemProcessed(IdOf(notice))) && !old(dedup.IsDuplicate(notice))
              && Outcome(notice, FetchedFor(notice, oracle), env.now).FailedWith? ==>
        collected.notices == old(collected.notices)
        && stats.itemsExtracted == old(stats.itemsExtracted) && stats.errors == old(stats.errors) + 1
        && dedup.seenItems == old(dedup.seenItems)
        && checkpoint.processedItems == old(checkpoint.processedItems)
        && checkpoint.failedItems == old(checkpoint.failedItems) +
             [Checkpoint.FailedEntry(FailedIdOf(notice), Outcome(notice, FetchedFor(notice, oracle), env.now).error, env.now, None)]
    {
      var bidNoticeNumber := IdOf(notice);
      if checkpoint.IsItemProcessed(bidNoticeNumber) {
        stats.itemsSkipped := stats.itemsSkipped + 1;
        return;
      }
      if dedup.IsDuplicate(notice) {
        stats.itemsSkipped := stats.itemsSkipped + 1;
        checkpoint.MarkItemProcessed(bidNoticeNumber, env.now, env.writeOk);
        consecutiveDuplicates := consecutiveDuplicates + 1;
        return;
      }
      consecutiveDuplicates := 0;
      var fetched := BaseUnchanged;
      if WantsDetail(notice) {
        var steps;
        fetched, steps := FetchDetailPage(notice, currentPage, oracle);
      }
      assert fetched == FetchedFor(notice, oracle);
      if fetched.FetchFailed? {
        FailNotice(notice, fetched.message, env.now);
        return;
      }
      var bidNotice := Construct(notice, FullData(notice, fetched), env.now);
      if bidNotice.Err? {
        FailNotice(notice, bidNotice.error, env.now);
        return;
      }
      CommitNotice(notice, SeenData(notice, fetched, env.now), bidNotice.value, env);
    }

    /** The exception boundary of `process_notice`. */
    method FailNotice(notice: Item, error: string, now: string)
      modifies checkpoint, stats
      ensures checkpoint.failedItems == old(checkpoint.failedItems) + [Checkpoint.FailedEntry(FailedIdOf(notice), error, now, None)]
      ensures checkpoint.processedItems == old(checkpoint.processedItems)
      ensures stats.errors == old(stats.errors) + 1
      ensures stats.itemsExtracted == old(stats.itemsExtracted) && stats.itemsSkipped == old(stats.itemsSkipped)
      ensures stats.pagesCrawled == old(stats.pagesCrawled)
    {
      checkpoint.MarkItemFailed(FailedIdOf(notice), error, None, now);
      stats.errors := stats.errors + 1;
    }

    /** Adding to the collection, the quality gate, and the commit. */
    method CommitNotice(notice: Item, seen: Item, bidNotice: Schema.BidNotice, env: Env)
      requires dedup.Valid()
      modifies checkpoint, dedup`seenHashes, dedup`seenItems, collected, stats
      ensures dedup.Valid()
      ensures stats.pagesCrawled == old(stats.pagesCrawled) && stats.itemsSkipped == old(stats.itemsSkipped)
      ensures TooSparse(bidNotice) ==>
        collected.notices == old(collected.notices)
        && collected.totalCount == |old(collected.notices)| + 1
        && stats.itemsExtracted == old(stats.itemsExtracted) && stats.errors == old(stats.errors) + 1
        && dedup.seenItems == old(dedup.seenItems)
        && checkpoint.processedItems == old(checkpoint.processedItems)
        && checkpoint.failedItems == old(checkpoint.failedItems) +
             [Checkpoint.FailedEntry(FailedIdOf(notice), TooSparseMessage(EmptyCount(bidNotice, CriticalFields)), env.now, None)]
      ensures !TooSparse(bidNotice) ==>
        collected.notices == old(collected.notices) + [bidNotice]
        && collected.totalCount == |collected.notices|
        && stats.itemsExtracted == old(stats.itemsExtracted) + 1 && stats.errors == old(stats.errors)
        && (dedup.enabled ==> dedup.seenItems == old(dedup.seenItems)[dedup.fingerprint(seen) := Dedup.KeyInfo(seen, dedup.keyFields)])
        && (!dedup.enabled ==> dedup.seenItems == old(dedup.seenItems))
        && checkpoint.processedItems == old(checkpoint.processedItems) + [IdOf(notice)]
        && checkpoint.failedItems == old(checkpoint.failedItems)
    {
      collected.AddNotice(bidNotice);
      ghost var added := collected.notices;
      var nullCount := CountEmptyCritical(bidNotice);
      if nullCount >= 4 && FieldEmpty(bidNotice, "notes") {
        var dropped := collected.PopLast();
        assert collected.notices == added[..|added| - 1] == old(collected.notices);
        FailNotice(notice, TooSparseMessage(nullCount), env.now);
        return;
      }
      stats.itemsExtracted := stats.itemsExtracted + 1;
      var h := dedup.MarkAsSeen(seen);
      checkpoint.MarkItemProcessed(IdOf(notice), env.now, env.writeOk);
    }
  }
}
