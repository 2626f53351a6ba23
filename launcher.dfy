/** The command-line entry point: whether a run resumes, the "smart resume"
    that starts afresh after a completed crawl, clearing the checkpoint, and
    the choice between one run and the scheduled mode. */
module Launcher {
  import opened Values
  import Checkpoint

  /** The command-line flags that steer a launch. */
  datatype Args = Args(noResume: bool, scheduled: bool, dryRun: bool, clearCheckpoint: bool)

  /** A checkpoint file that `load_checkpoint` accepts. */
  predicate Loadable(file: Checkpoint.CheckpointFile) {
    file.Stored? && Checkpoint.Decode(file.doc).Some?
  }

  /** A loadable checkpoint whose crawl completed. */
  predicate CompletedIn(file: Checkpoint.CheckpointFile) {
    Loadable(file) && Checkpoint.Decode(file.doc).value.state == Checkpoint.Completed
  }

  /** The `resume` that `run_crawler` hands to the engine: a requested resume
      is dropped when the last crawl completed; the checkpoint is read only
      when a resume was requested. */
  function EffectiveResume(resume: bool, file: Checkpoint.CheckpointFile): (r: bool)
    ensures r <==> resume && !CompletedIn(file)
  {
    if resume then
      if Loadable(file) then Checkpoint.Decode(file.doc).value.state != Checkpoint.Completed
      else true
    else false
  }

  /** Without a resume request the checkpoint makes no difference. */
  lemma NoResumeIgnoresCheckpoint(f1: Checkpoint.CheckpointFile, f2: Checkpoint.CheckpointFile)
    ensures EffectiveResume(false, f1) == EffectiveResume(false, f2) == false
  {
  }

  /** Together with the engine's resume branch: the crawl continues from the
      checkpoint exactly when a resume was requested and the checkpoint
      loads and holds a crawl that did not complete (paused, in progress,
      failed or only initialised); otherwise it starts from page 1. */
  lemma ContinuesExactlyWhenUnfinished(resume: bool, file: Checkpoint.CheckpointFile)
    ensures (EffectiveResume(resume, file) && Loadable(file)) <==>
      resume && Loadable(file) && Checkpoint.Decode(file.doc).value.state in
        {Checkpoint.Initialized, Checkpoint.InProgress, Checkpoint.Paused, Checkpoint.Failed}
  {
    if Loadable(file) {
      var s := Checkpoint.Decode(file.doc).value.state;
      assert s != Checkpoint.Completed <==>
        s in {Checkpoint.Initialized, Checkpoint.InProgress, Checkpoint.Paused, Checkpoint.Failed};
    }
  }

  /** What `main` goes on to do. */
  datatype Launch =
    | DryRunOnly
    | Crawl(scheduled: bool, resume: bool, checkpointFile: Checkpoint.CheckpointFile)

  /** `main`: a dry run stops after reporting the configuration; otherwise the
      checkpoint is cleared when asked (a failed delete leaves it), a resume is
      requested unless `--no-resume`, and the scheduled mode is chosen by
      `--scheduled` or a truthy `scheduler.enabled`. */
  function Main(args: Args, schedulerConfig: Item, deleteOk: bool, file: Checkpoint.CheckpointFile): (l: Launch)
    ensures args.dryRun <==> l == DryRunOnly
    ensures l.Crawl? ==> l.resume == !args.noResume
    ensures l.Crawl? ==> (l.scheduled <==> args.scheduled || Truthy(Get(schedulerConfig, "enabled", Bool(false))))
    ensures l.Crawl? ==> l.checkpointFile == (if args.clearCheckpoint && deleteOk then Checkpoint.Missing else file)
  {
    if args.dryRun then DryRunOnly
    else
      var cleared := if args.clearCheckpoint && file != Checkpoint.Missing && deleteOk then Checkpoint.Missing else file;
      var resume := !args.noResume;
      Crawl(args.scheduled || Truthy(Get(schedulerConfig, "enabled", Bool(false))), resume, cleared)
  }

  /** A cleared checkpoint always means a fresh start. */
  lemma ClearedStartsFresh(args: Args, schedulerConfig: Item, file: Checkpoint.CheckpointFile)
    requires !args.dryRun && args.clearCheckpoint
    ensures var l := Main(args, schedulerConfig, true, file);
      !Loadable(l.checkpointFile) && EffectiveResume(l.resume, l.checkpointFile) == l.resume
  {
  }

  /** A completed crawl is followed by a fresh one even when resuming was asked for. */
  lemma CompletedThenFresh(file: Checkpoint.CheckpointFile)
    requires CompletedIn(file)
    ensures !EffectiveResume(true, file)
  {
  }
}
