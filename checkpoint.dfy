/** The checkpoint manager of the crawler: the crawl state machine, the page
    cursor, the processed and failed item lists, the statistics, and the
    persisted checkpoint file that lets an interrupted crawl resume. */
module Checkpoint {
  import opened Wrappers
  import opened Values

  datatype CrawlState = Initialized | InProgress | Paused | Completed | Failed

  /** The `value` of each state, as written to the checkpoint file. */
  function StateName(s: CrawlState): string {
    match s
    case Initialized => "initialized"
    case InProgress => "in_progress"
    case Paused => "paused"
    case Completed => "completed"
    case Failed => "failed"
  }

  /** `CrawlState(name)`: `None` stands for the `ValueError` of an unknown name. */
  function StateOf(name: string): (r: Option<CrawlState>)
    ensures r.Some? ==> StateName(r.value) == name
  {
    if name == "initialized" then Some(Initialized)
    else if name == "in_progress" then Some(InProgress)
    else if name == "paused" then Some(Paused)
    else if name == "completed" then Some(Completed)
    else if name == "failed" then Some(Failed)
    else None
  }

  lemma StateNameRoundTrip(s: CrawlState)
    ensures StateOf(StateName(s)) == Some(s)
  {
  }

  /** One entry of the failed-items list. */
  datatype FailedEntry = FailedEntry(itemId: string, error: string, timestamp: string, details: Option<Item>)

  /** The JSON object in the checkpoint file; a key missing from the file is `None`. */
  datatype Document = Document(
    state: Option<string>,
    currentPage: Option<int>,
    processedItems: Option<seq<string>>,
    failedItems: Option<seq<FailedEntry>>,
    statistics: Option<Item>,
    metadata: Option<Item>,
    lastUpdated: Option<string>)

  /** What lies on disk at the checkpoint path. */
  datatype CheckpointFile = Missing | Unreadable | Stored(doc: Document)

  /** The part of the manager's state a checkpoint carries. */
  datatype Progress = Progress(
    state: CrawlState,
    currentPage: int,
    processedItems: seq<string>,
    failedItems: seq<FailedEntry>,
    statistics: Item,
    metadata: Item)

  /** The document `save_checkpoint` writes for `p` at time `now`. */
  function Encode(p: Progress, now: string): (d: Document)
    ensures d.lastUpdated == Some(now)
  {
    Document(Some(StateName(p.state)), Some(p.currentPage), Some(p.processedItems),
      Some(p.failedItems), Some(p.statistics), Some(p.metadata), Some(now))
  }

  /** What `load_checkpoint` takes from a document, each missing key replaced by its
      default; `None` when the stored state name is not a crawl state. */
  function Decode(d: Document): (r: Option<Progress>)
    ensures r.Some? <==> (d.state.None? || StateOf(d.state.value).Some?)
    ensures r.Some? ==> r.value.currentPage == d.currentPage.GetOr(1)
    ensures r.Some? ==> r.value.processedItems == d.processedItems.GetOr([])
  {
    var state := if d.state.Some? then StateOf(d.state.value) else Some(Initialized);
    if state.None? then None
    else Some(Progress(state.value, d.currentPage.GetOr(1), d.processedItems.GetOr([]),
      d.failedItems.GetOr([]), d.statistics.GetOr(map[]), d.metadata.GetOr(map[])))
  }

  /** A checkpoint written by a save is read back exactly. */
  lemma DecodeEncode(p: Progress, now: string)
    ensures Decode(Encode(p, now)) == Some(p)
  {
    StateNameRoundTrip(p.state);
  }

  /** Keeps, in order, the entries whose id differs from `itemId`. */
  function WithoutId(entries: seq<FailedEntry>, itemId: string): (r: seq<FailedEntry>)
    ensures |r| <= |entries|
    ensures forall e :: e in r <==> e in entries && e.itemId != itemId
    ensures (exists i :: 0 <= i < |entries| && entries[i].itemId == itemId) <==> |r| < |entries|
  {
    if entries == [] then []
    else if entries[0].itemId == itemId then WithoutId(entries[1..], itemId)
    else [entries[0]] + WithoutId(entries[1..], itemId)
  }

  /** `WithoutId` filters piecewise: the entries kept from a front part come
      before those kept from the rest, each part in its own order. */
  lemma {:induction false} WithoutIdAppend(front: seq<FailedEntry>, back: seq<FailedEntry>, itemId: string)
    ensures WithoutId(front + back, itemId) == WithoutId(front, itemId) + WithoutId(back, itemId)
    decreases |front|
  {
    if front != [] {
      assert (front + back)[1..] == front[1..] + back;
      WithoutIdAppend(front[1..], back, itemId);
    } else {
      assert front + back == back;
    }
  }

  /** The dict `get_resume_info` returns. */
  datatype ResumeInfo = ResumeInfo(state: string, currentPage: int, totalProcessed: nat, totalFailed: nat, canResume: bool)

  /** Saves, page cursor and item bookkeeping of one crawl.  `file` is the
      checkpoint on disk; the clock is passed in as `now` and the outcome of
      the disk write as `writeOk`. */
  class CheckpointManager {
    const saveInterval: int
    var state: CrawlState
    var currentPage: int
    var processedItems: seq<string>
    var failedItems: seq<FailedEntry>
    var statistics: Item
    var metadata: Item
    var lastSaveTime: Option<string>
    var itemsSinceSave: int
    var file: CheckpointFile

    /** Everything a save writes. */
    function Current(): Progress
      reads this
    {
      Progress(state, currentPage, processedItems, failedItems, statistics, metadata)
    }

    /** A manager over an existing checkpoint path; nothing is read yet. */
    constructor (saveInterval: int, file: CheckpointFile)
      ensures this.saveInterval == saveInterval && this.file == file
      ensures state == Initialized && currentPage == 1
      ensures processedItems == [] && failedItems == []
      ensures statistics == map[] && metadata == map[]
      ensures lastSaveTime == None && itemsSinceSave == 0
    {
      this.saveInterval := saveInterval;
      this.file := file;
      state := Initialized;
      currentPage := 1;
      processedItems := [];
      failedItems := [];
      statistics := map[];
      metadata := map[];
      lastSaveTime := None;
      itemsSinceSave := 0;
    }

    /** Starts a new crawl session from page 1 with zeroed counters. */
    method InitializeCrawl(metadata: Option<Item>, now: string)
      modifies this
      ensures state == InProgress && currentPage == 1
      ensures processedItems == [] && failedItems == []
      ensures statistics == map["start_time" := Str(now), "total_processed" := Int(0),
                                "total_failed" := Int(0), "pages_crawled" := Int(0)]
      ensures this.metadata == metadata.GetOr(map[])
      ensures itemsSinceSave == 0
      ensures file == old(file) && lastSaveTime == old(lastSaveTime)
    {
      state := InProgress;
      currentPage := 1;
      processedItems := [];
      failedItems := [];
      statistics := map["start_time" := Str(now), "total_processed" := Int(0),
                        "total_failed" := Int(0), "pages_crawled" := Int(0)];
      this.metadata := if metadata.Some? then metadata.value else map[];
      itemsSinceSave := 0;
    }

    /** Reads the checkpoint file into the manager.  A missing or unreadable file,
        or an unknown state name, gives `false` and changes nothing. */
    method LoadCheckpoint() returns (loaded: bool)
      modifies this
      ensures loaded <==> file.Stored? && Decode(file.doc).Some?
      ensures loaded ==> Current() == Decode(file.doc).value
      ensures !loaded ==> Current() == old(Current())
      ensures file == old(file) && itemsSinceSave == old(itemsSinceSave) && lastSaveTime == old(lastSaveTime)
    {
      if file.Missing? || file.Unreadable? {
        return false;
      }
      var restored := Decode(file.doc);
      if restored.None? {
        return false;
      }
      var p := restored.value;
      state := p.state;
      currentPage := p.currentPage;
      processedItems := p.processedItems;
      failedItems := p.failedItems;
      statistics := p.statistics;
      metadata := p.metadata;
      loaded := true;
    }

    /** Writes the whole state to a temporary file and moves it over the checkpoint
        in one step.  Unforced saves are skipped until `saveInterval` items have
        been processed since the last save; a failed write is only logged. */
    method SaveCheckpoint(force: bool, now: string, writeOk: bool)
      modifies this
      ensures Current() == old(Current())
      ensures !force && old(itemsSinceSave) < saveInterval ==>
        file == old(file) && itemsSinceSave == old(itemsSinceSave) && lastSaveTime == old(lastSaveTime)
      ensures (force || old(itemsSinceSave) >= saveInterval) && writeOk ==>
        file == Stored(Encode(Current(), now)) && itemsSinceSave == 0 && lastSaveTime == Some(now)
      ensures (force || old(itemsSinceSave) >= saveInterval) && !writeOk ==>
        file == old(file) && itemsSinceSave == old(itemsSinceSave) && lastSaveTime == old(lastSaveTime)
    {
      if !force && itemsSinceSave < saveInterval {
        return;
      }
      var data := Encode(Current(), now);
      if writeOk {
        file := Stored(data);
        lastSaveTime := Some(now);
        itemsSinceSave := 0;
      }
    }

    /** Appends an id (no uniqueness check) and saves once `saveInterval` ids
        have been processed since the last save. */
    method MarkItemProcessed(itemId: string, now: string, writeOk: bool)
      modifies this
      ensures processedItems == old(processedItems) + [itemId]
      ensures statistics == old(statistics)["total_processed" := Int(|processedItems|)]
      ensures state == old(state) && currentPage == old(currentPage)
      ensures failedItems == old(failedItems) && metadata == old(metadata)
      ensures old(itemsSinceSave) + 1 < saveInterval ==>
        itemsSinceSave == old(itemsSinceSave) + 1 && file == old(file) && lastSaveTime == old(lastSaveTime)
      ensures old(itemsSinceSave) + 1 >= saveInterval && writeOk ==>
        itemsSinceSave == 0 && file == Stored(Encode(Current(), now)) && lastSaveTime == Some(now)
      ensures old(itemsSinceSave) + 1 >= saveInterval && !writeOk ==>
        itemsSinceSave == old(itemsSinceSave) + 1 && file == old(file) && lastSaveTime == old(lastSaveTime)
    {
      processedItems := processedItems + [itemId];
      statistics := statistics["total_processed" := Int(|processedItems|)];
      itemsSinceSave := itemsSinceSave + 1;
      if itemsSinceSave >= saveInterval {
        SaveCheckpoint(false, now, writeOk);
      }
    }

    /** Appends a failed entry; the details are kept only when non-empty.  Never saves. */
    method MarkItemFailed(itemId: string, error: string, details: Option<Item>, now: string)
      modifies this
      ensures failedItems == old(failedItems) +
        [FailedEntry(itemId, error, now, if details.Some? && details.value != map[] then details else None)]
      ensures statistics == old(statistics)["total_failed" := Int(|failedItems|)]
      ensures state == old(state) && currentPage == old(currentPage) && processedItems == old(processedItems)
      ensures metadata == old(metadata) && itemsSinceSave == old(itemsSinceSave)
      ensures file == old(file) && lastSaveTime == old(lastSaveTime)
    {
      var kept := if details.Some? && details.value != map[] then details else None;
      failedItems := failedItems + [FailedEntry(itemId, error, now, kept)];
      statistics := statistics["total_failed" := Int(|failedItems|)];
    }

    /** Drops every failed entry with this id; only when something was dropped are
        the statistics updated and a save forced. */
    method RemoveFailedItem(itemId: string, now: string, writeOk: bool)
      modifies this
      ensures failedItems == WithoutId(old(failedItems), itemId)
      ensures state == old(state) && currentPage == old(currentPage) && processedItems == old(processedItems)
      ensures metadata == old(metadata)
      ensures |failedItems| == |old(failedItems)| ==>
        statistics == old(statistics) && file == old(file)
        && itemsSinceSave == old(itemsSinceSave) && lastSaveTime == old(lastSaveTime)
      ensures |failedItems| < |old(failedItems)| ==>
        statistics == old(statistics)["total_failed" := Int(|failedItems|)]
      ensures |failedItems| < |old(failedItems)| && writeOk ==>
        file == Stored(Encode(Current(), now)) && itemsSinceSave == 0
      ensures |failedItems| < |old(failedItems)| && !writeOk ==> file == old(file)
    {
      var initialCount := |failedItems|;
      failedItems := WithoutId(failedItems, itemId);
      if |failedItems| < initialCount {
        statistics := statistics["total_failed" := Int(|failedItems|)];
        SaveCheckpoint(true, now, writeOk);
      }
    }

    /** `item_id in processed_items` */
    predicate IsItemProcessed(itemId: string)
      reads this
    {
      itemId in processedItems
    }

    /** Moves the cursor one page on and records the number of pages crawled. */
    method AdvancePage()
      modifies this`currentPage, this`statistics
      ensures currentPage == old(currentPage) + 1
      ensures statistics == old(statistics)["pages_crawled" := Int(currentPage - 1)]
    {
      currentPage := currentPage + 1;
      statistics := statistics["pages_crawled" := Int(currentPage - 1)];
    }

    method SetState(s: CrawlState)
      modifies this`state
      ensures state == s
    {
      state := s;
    }

    /** Ends the crawl as COMPLETED or FAILED, stamps the end time and forces a save. */
    method CompleteCrawl(success: bool, now: string, writeOk: bool)
      modifies this
      ensures state == (if success then Completed else Failed)
      ensures statistics == old(statistics)["end_time" := Str(now)]
      ensures currentPage == old(currentPage) && processedItems == old(processedItems)
      ensures failedItems == old(failedItems) && metadata == old(metadata)
      ensures writeOk ==> file == Stored(Encode(Current(), now)) && itemsSinceSave == 0
      ensures !writeOk ==> file == old(file) && itemsSinceSave == old(itemsSinceSave)
    {
      state := if success then Completed else Failed;
      statistics := statistics["end_time" := Str(now)];
      SaveCheckpoint(true, now, writeOk);
    }

    /** `statistics.update(stats)`: the new values win. */
    method UpdateStatistics(stats: Item)
      modifies this`statistics
      ensures statistics.Keys == old(statistics).Keys + stats.Keys
      ensures forall k :: k in stats ==> statistics[k] == stats[k]
      ensures forall k :: k in old(statistics) && k !in stats ==> statistics[k] == old(statistics)[k]
    {
      statistics := statistics + stats;
    }

    /** What a caller needs in order to decide whether to resume. */
    function GetResumeInfo(): (r: ResumeInfo)
      reads this
      ensures r.canResume <==> state == InProgress || state == Paused
      ensures r.currentPage == currentPage
      ensures r.totalProcessed == |processedItems| && r.totalFailed == |failedItems|
      ensures StateOf(r.state) == Some(state)
    {
      ResumeInfo(StateName(state), currentPage, |processedItems|, |failedItems|,
        state in {InProgress, Paused})
    }

    /** Deletes the checkpoint file if there is one; a failed delete is only logged. */
    method ClearCheckpoint(deleteOk: bool)
      modifies this`file
      ensures file == if deleteOk then Missing else old(file)
    {
      if file != Missing && deleteOk {
        file := Missing;
      }
    }
  }

  /** A forced save followed by a load in a fresh manager over the same file gives
      back the page and the processed ids. */
  method ResumeAfterForcedSave(start: CheckpointFile, now: string) returns (page: int, ids: seq<string>)
    ensures page == 5 && ids == ["item1", "item2"]
  {
    var m := new CheckpointManager(10, start);
    m.InitializeCrawl(None, now);
    m.currentPage := 5;
    m.MarkItemProcessed("item1", now, true);
    m.MarkItemProcessed("item2", now, true);
    m.SaveCheckpoint(true, now, true);
    var m2 := new CheckpointManager(10, m.file);
    DecodeEncode(m.Current(), now);
    var loaded := m2.LoadCheckpoint();
    assert loaded;
    page, ids := m2.currentPage, m2.processedItems;
  }

  /** With a save interval of 3 and no checkpoint on disk, two processed items leave
      the disk empty and the third writes the checkpoint. */
  method AutoSaveAtInterval(now: string) returns (savedAfterTwo: bool, savedAfterThree: bool)
    ensures !savedAfterTwo && savedAfterThree
  {
    var m := new CheckpointManager(3, Missing);
    m.InitializeCrawl(None, now);
    m.MarkItemProcessed("a", now, true);
    m.MarkItemProcessed("b", now, true);
    savedAfterTwo := m.file.Stored?;
    m.MarkItemProcessed("c", now, true);
    savedAfterThree := m.file.Stored?;
  }
}
