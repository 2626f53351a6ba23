/** The retry replayer: one pass over the failed items of the last checkpoint,
    each looked up through the list's search box and handed to the notice
    processor when a result row carries its number.  What the search shows is
    an oracle. */
module RetryManager {
  import opened Wrappers
  import opened Text
  import opened Values
  import Checkpoint
  import Dedup
  import Processor

  /** What searching for one bid number shows: no search box at all, an
      exception somewhere between filling the box and reading the grid, or
      the result rows (with the browser's behaviour while the chosen row's
      detail is fetched). */
  datatype SearchView =
    | NoSearchBox
    | SearchRaised
    | Results(rows: seq<Item>, fetch: Processor.FetchOracle)

  /** The number cell `notice.get('bid_notice_number', '')` as a string; `None`
      when it is not a string, where `bid_no in ...` raises. */
  function NumberText(notice: Item): Option<string> {
    if "bid_notice_number" !in notice then Some("")
    else match notice["bid_notice_number"]
      case Str(s) => Some(s)
      case _ => None
  }

  /** A result row whose number contains `bidNo`. */
  predicate Matches(bidNo: string, notice: Item) {
    NumberText(notice).Some? && Contains(NumberText(notice).value, bidNo)
  }

  /** How the scan of the result rows ends. */
  datatype Selection = Target(notice: Item) | NoMatch | ScanRaised

  /** Every row before `i` has a string number that does not contain `bidNo`. */
  predicate PassedOver(bidNo: string, rows: seq<Item>, i: int)
    requires 0 <= i <= |rows|
  {
    forall j :: 0 <= j < i ==> NumberText(rows[j]).Some? && !Matches(bidNo, rows[j])
  }

  /** The first row whose number contains `bidNo`; the scan stops at a row
      whose number is not a string. */
  function SelectTarget(bidNo: string, rows: seq<Item>): Selection {
    if rows == [] then NoMatch
    else if NumberText(rows[0]).None? then ScanRaised
    else if Contains(NumberText(rows[0]).value, bidNo) then Target(rows[0])
    else SelectTarget(bidNo, rows[1..])
  }

  /** The target is the first matching row, reached without the scan raising;
      no match means every row was passed over. */
  lemma {:induction false} SelectTargetFirst(bidNo: string, rows: seq<Item>)
    ensures SelectTarget(bidNo, rows).Target? <==>
      exists i :: 0 <= i < |rows| && PassedOver(bidNo, rows, i) && Matches(bidNo, rows[i])
    ensures forall i :: 0 <= i < |rows| && PassedOver(bidNo, rows, i) && Matches(bidNo, rows[i]) ==>
      SelectTarget(bidNo, rows) == Target(rows[i])
    ensures SelectTarget(bidNo, rows) == NoMatch <==> PassedOver(bidNo, rows, |rows|)
  {
    if rows != [] {
      var tail := rows[1..];
      SelectTargetFirst(bidNo, tail);
      assert forall j :: 1 <= j < |rows| ==> rows[j] == tail[j - 1];
      forall i | 1 <= i <= |rows| ensures PassedOver(bidNo, rows, i) <==>
        NumberText(rows[0]).Some? && !Matches(bidNo, rows[0]) && PassedOver(bidNo, tail, i - 1)
      {
        if PassedOver(bidNo, rows, i) {
          forall j | 0 <= j < i - 1 ensures NumberText(tail[j]).Some? && !Matches(bidNo, tail[j]) {
            assert tail[j] == rows[j + 1];
          }
        }
      }
      if NumberText(rows[0]).Some? && !Matches(bidNo, rows[0]) {
        if SelectTarget(bidNo, tail).Target? {
          var k :| 0 <= k < |tail| && PassedOver(bidNo, tail, k) && Matches(bidNo, tail[k]);
          assert PassedOver(bidNo, rows, k + 1) && Matches(bidNo, rows[k + 1]);
        }
        forall i | 0 <= i < |rows| && PassedOver(bidNo, rows, i) && Matches(bidNo, rows[i])
          ensures SelectTarget(bidNo, rows) == Target(rows[i])
        {
          assert i != 0;
          assert PassedOver(bidNo, tail, i - 1) && tail[i - 1] == rows[i];
        }
      }
    }
  }

  /** The search for `bidNo` finds a row to process. */
  predicate Found(bidNo: string, view: SearchView) {
    view.Results? && SelectTarget(bidNo, view.rows).Target?
  }

  /** The failed entries the pass tries: those with a non-empty id, in order. */
  function RetriedIds(entries: seq<Checkpoint.FailedEntry>): (ids: seq<string>)
    ensures |ids| <= |entries|
    ensures forall x :: x in ids ==> x != ""
    ensures forall e :: e in entries && e.itemId != "" ==> e.itemId in ids
  {
    if entries == [] then []
    else (if entries[0].itemId == "" then [] else [entries[0].itemId]) + RetriedIds(entries[1..])
  }

  /** The replayer works on the processor's own checkpoint and store. */
  class Replayer {
    const checkpoint: Checkpoint.CheckpointManager
    const dedup: Dedup.DeduplicationManager
    const processor: Processor.NoticeProcessor

    predicate Valid()
      reads this, processor, dedup
    {
      processor.checkpoint == checkpoint && processor.dedup == dedup && dedup.Valid()
    }

    constructor (processor: Processor.NoticeProcessor)
      requires processor.dedup.Valid()
      ensures Valid() && this.processor == processor
    {
      this.processor := processor;
      checkpoint := processor.checkpoint;
      dedup := processor.dedup;
    }

    /** The scan of the result rows, stopping at the first hit. */
    static method FindTarget(bidNo: string, rows: seq<Item>) returns (sel: Selection)
      ensures sel == SelectTarget(bidNo, rows)
    {
      sel := NoMatch;
      var i := 0;
      while i < |rows|
        invariant 0 <= i <= |rows|
        invariant SelectTarget(bidNo, rows) == SelectTarget(bidNo, rows[i..])
      {
        assert rows[i..][1..] == rows[i + 1..];
        var number := NumberText(rows[i]);
        if number.None? {
          return ScanRaised;
        }
        if Contains(number.value, bidNo) {
          return Target(rows[i]);
        }
        i := i + 1;
      }
    }

    /** `search_and_process_item`: `true` exactly when a result row carries
        the number, after that row was handed to the processor on page 1,
        whatever the processor made of it.  Otherwise nothing changes. */
    method SearchAndProcess(bidNo: string, view: SearchView, env: Processor.Env)
      returns (ok: bool, target: Option<Item>)
      requires Valid()
      modifies processor, checkpoint, dedup`seenHashes, dedup`seenItems, processor.collected, processor.stats
      ensures Valid()
      ensures ok <==> Found(bidNo, view)
      ensures ok ==> target == Some(SelectTarget(bidNo, view.rows).notice)
      ensures !ok ==> (target == None
        && checkpoint.Current() == old(checkpoint.Current()) && checkpoint.file == old(checkpoint.file)
        && dedup.seenItems == old(dedup.seenItems)
        && processor.collected.notices == old(processor.collected.notices)
        && processor.stats.errors == old(processor.stats.errors))
    {
      target := None;
      if !view.Results? || view.rows == [] {
        return false, target;
      }
      var sel := FindTarget(bidNo, view.rows);
      if !sel.Target? {
        return false, target;
      }
      processor.ProcessNotice(sel.notice, 1, view.fetch, env);
      return true, Some(sel.notice);
    }

    /** One successful retry: the entry's search, then the removal of every
        failed entry with that id, including one the processor may just have
        added, then a save of the dedup store. */
    method RetryOne(bidNo: string, view: SearchView, env: Processor.Env, dedupWrite: Dedup.WriteOutcome)
      returns (ok: bool)
      requires Valid()
      modifies processor, checkpoint, dedup, processor.collected, processor.stats
      ensures Valid()
      ensures ok <==> Found(bidNo, view)
      ensures ok ==> forall e :: e in checkpoint.failedItems ==> e.itemId != bidNo
      ensures !ok ==> checkpoint.Current() == old(checkpoint.Current()) && checkpoint.file == old(checkpoint.file)
      // A successful retry writes the dedup store as it stands after the
      // processing; an unsuccessful one leaves the dedup file alone.
      ensures ok && dedup.enabled && old(dedup.storage).Some? && dedupWrite == Dedup.WriteOk ==>
        dedup.storage == Some(Dedup.Written(Dedup.StoreDoc(Some(dedup.keyFields), Some(dedup.seenItems))))
      ensures ok && dedup.enabled && old(dedup.storage).Some? && dedupWrite == Dedup.FailWhileWriting ==>
        dedup.storage == Some(Dedup.Unreadable)
      ensures !ok || !dedup.enabled || old(dedup.storage).None? || dedupWrite == Dedup.FailBeforeOpen ==>
        dedup.storage == old(dedup.storage)
    {
      var target;
      ok, target := SearchAndProcess(bidNo, view, env);
      if ok {
        checkpoint.RemoveFailedItem(bidNo, env.now, env.writeOk);
        dedup.Save(dedupWrite);
      }
    }

    /** `process_retries`: with a loadable checkpoint holding failed items, one
        pass over a snapshot of them (entries without an id skipped), and one
        save request at the end.  `views(i)` is what the search for the
        `i`-th entry of the snapshot shows. */
    method ProcessRetries(views: nat -> SearchView, env: Processor.Env, dedupWrite: Dedup.WriteOutcome)
      returns (tried: seq<string>, succeeded: seq<bool>, saveRequested: bool)
      requires Valid()
      modifies processor, checkpoint, dedup, processor.collected, processor.stats
      ensures Valid()
      ensures var f := old(checkpoint.file);
        var snapshot := if f.Stored? && Checkpoint.Decode(f.doc).Some? then Checkpoint.Decode(f.doc).value.failedItems else [];
        saveRequested == (snapshot != [])
        && tried == RetriedIds(snapshot)
      ensures |succeeded| == |tried|
      ensures !saveRequested ==> (processor.collected.notices == old(processor.collected.notices)
        && dedup.seenItems == old(dedup.seenItems))
    {
      tried := [];
      succeeded := [];
      saveRequested := false;
      var loaded := checkpoint.LoadCheckpoint();
      if !loaded {
        return;
      }
      var snapshot := checkpoint.failedItems;
      assert snapshot == Checkpoint.Decode(checkpoint.file.doc).value.failedItems;
      if snapshot == [] {
        return;
      }
      for i := 0 to |snapshot|
        invariant Valid()
        invariant tried == RetriedIds(snapshot[..i])
        invariant |succeeded| == |tried|
      {
        assert snapshot[..i + 1] == snapshot[..i] + [snapshot[i]];
        RetriedIdsAppend(snapshot[..i], snapshot[i]);
        var bidNo := snapshot[i].itemId;
        if bidNo == "" {
          continue;
        }
        var ok := RetryOne(bidNo, views(i), env, dedupWrite);
        tried := tried + [bidNo];
        succeeded := succeeded + [ok];
      }
      assert snapshot[..|snapshot|] == snapshot;
      saveRequested := true;
    }
  }

  lemma RetriedIdsAppend(entries: seq<Checkpoint.FailedEntry>, e: Checkpoint.FailedEntry)
    ensures RetriedIds(entries + [e]) == RetriedIds(entries) + (if e.itemId == "" then [] else [e.itemId])
    decreases |entries|
  {
    if entries == [] {
      assert [e][1..] == [];
    } else {
      assert (entries + [e])[1..] == entries[1..] + [e];
      RetriedIdsAppend(entries[1..], e);
    }
  }
}
