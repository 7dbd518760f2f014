/**
 The writer, the recovery reader, the replicator and its saved progress joined over one store: any
 sequence of appends, ticks, closes, crashes, replicator turns, stops and restarts.
 */
module Pipeline {
  import opened Outcomes
  import opened Bytes
  import opened WalCodec
  import opened WalKeys
  import opened WalLog
  import opened WalReading
  import opened ReplicatorLoop

  /** What one replicator run sent, and the position it started from. */
  datatype SentRun = SentRun(start: nat, entries: seq<Entry>) {
    function End(): nat { start + |entries| }
  }

  /** Every run sent the log after its start, entry by entry. */
  ghost predicate Consecutive(runs: seq<SentRun>, log: seq<Entry>) {
    forall i :: 0 <= i < |runs| ==> runs[i].entries == Slice(log, runs[i].start, |runs[i].entries|)
  }

  predicate Sends(run: SentRun, n: nat) { run.start < n <= run.End() }

  predicate WasSent(runs: seq<SentRun>, n: nat) {
    exists i :: 0 <= i < |runs| && Sends(runs[i], n)
  }

  ghost predicate Covered(runs: seq<SentRun>, resume: nat, upTo: nat) {
    forall n :: resume < n <= upTo ==> WasSent(runs, n)
  }

  lemma ConsecutiveStays(runs: seq<SentRun>, log: seq<Entry>, longer: seq<Entry>)
    requires Consecutive(runs, log) && log <= longer
    ensures Consecutive(runs, longer)
  {
    hide Slice;
    forall i | 0 <= i < |runs|
      ensures runs[i].entries == Slice(longer, runs[i].start, |runs[i].entries|)
    {
      SliceKept(log, longer, runs[i].start, |runs[i].entries|);
    }
  }

  /** The current run, the last one, sends some more. */
  function Extended(runs: seq<SentRun>, sent: seq<Entry>): seq<SentRun>
    requires runs != []
  {
    var last := runs[|runs| - 1];
    runs[..|runs| - 1] + [last.(entries := last.entries + sent)]
  }

  lemma ExtendedIsConsecutive(runs: seq<SentRun>, log: seq<Entry>, sent: seq<Entry>)
    requires runs != [] && Consecutive(runs, log) && sent == Slice(log, runs[|runs| - 1].End(), |sent|)
    ensures Consecutive(Extended(runs, sent), log)
  {
    hide Slice;
    var last := runs[|runs| - 1];
    SlicesJoin(log, last.start, last.entries, sent, |sent|);
  }

  lemma StillSent(runs: seq<SentRun>, after: seq<SentRun>, n: nat)
    requires WasSent(runs, n) && |runs| <= |after|
    requires forall i, m :: 0 <= i < |runs| && Sends(runs[i], m) ==> Sends(after[i], m)
    ensures WasSent(after, n)
  {
    var i :| 0 <= i < |runs| && Sends(runs[i], n);
    assert Sends(after[i], n);
  }

  lemma ExtendedCovers(runs: seq<SentRun>, resume: nat, sent: seq<Entry>, upTo: nat)
    requires runs != [] && Covered(runs, resume, upTo)
    ensures Covered(Extended(runs, sent), resume, upTo)
    ensures upTo == runs[|runs| - 1].End() ==> Covered(Extended(runs, sent), resume, upTo + |sent|)
  {
    var after := Extended(runs, sent);
    forall n | resume < n <= upTo
      ensures WasSent(after, n)
    {
      StillSent(runs, after, n);
    }
    forall n | runs[|runs| - 1].End() < n <= runs[|runs| - 1].End() + |sent|
      ensures WasSent(after, n)
    {
      assert Sends(after[|runs| - 1], n);
    }
  }

  /** A new run has sent nothing yet. */
  lemma StartedCovers(runs: seq<SentRun>, start: nat, resume: nat, from: nat, mark: nat)
    requires Covered(runs, from, mark) && resume <= from && start == Max(resume, mark)
    ensures Covered(runs + [SentRun(start, [])], from, mark) && Covered(runs + [SentRun(start, [])], from, start)
  {
    var after := runs + [SentRun(start, [])];
    forall n | from < n <= Max(start, mark)
      ensures WasSent(after, n)
    {
      StillSent(runs, after, n);
    }
  }

  /** What a turn of the current run leaves covered. */
  lemma TurnCovers(
    runs: seq<SentRun>, objects: Objects, cfg: Config, log: seq<Entry>, resume: nat,
    sent: seq<Entry>, mark: nat, mark': nat)
    requires Holds(objects, cfg, log) && runs != [] && Consecutive(runs, log)
    requires Covered(runs, resume, mark) && Covered(runs, resume, runs[|runs| - 1].End())
    requires sent == Slice(log, runs[|runs| - 1].End(), |sent|)
    requires if sent == [] then mark' == mark else mark' <= Max(mark, sent[|sent| - 1].sequence)
    ensures var after, since := Extended(runs, sent), runs[|runs| - 1].End();
      && Consecutive(after, log) && Covered(after, resume, mark') && Covered(after, resume, since + |sent|)
      && (sent != [] ==> sent[|sent| - 1].sequence == since + |sent|)
  {
    hide Holds, Slice, Covered, Consecutive;
    SentNumbers(objects, cfg, log, runs[|runs| - 1].End(), sent);
    ExtendedIsConsecutive(runs, log, sent);
    ExtendedCovers(runs, resume, sent, mark);
    ExtendedCovers(runs, resume, sent, runs[|runs| - 1].End());
    CoveredBelow(Extended(runs, sent), resume, Max(mark, runs[|runs| - 1].End() + |sent|), mark');
  }

  lemma CoveredBelow(runs: seq<SentRun>, resume: nat, upTo: nat, mark: nat)
    requires Covered(runs, resume, upTo) && mark <= upTo
    ensures Covered(runs, resume, mark)
  {
    hide WasSent;
  }

  datatype PathOp = WriterOp(op: Op) | RestartOp | TurnOp | StopOp

  class Path {
    const session: Session
    const replicator: Replicator
    const resume: nat
    /** Where the first run starts: the configured resume point, or the progress saved before. */
    ghost const from: nat
    /** The position of the running replicator. */
    var since: Option<nat>
    ghost var runs: seq<SentRun>

    ghost predicate Valid()
      reads this, session, session.store, session.writer, session.writer.pending, session.reader, replicator.progress
    {
      && session.Valid() && replicator.reader.store == session.store && replicator.reader.cfg == session.cfg
      && Consecutive(runs, session.log) && resume <= from
      && Covered(runs, from, replicator.progress.Mark(replicator.pair))
      && (since.Some? ==> runs != [] && since.value == runs[|runs| - 1].End() && Covered(runs, from, since.value))
    }

    constructor (session: Session, replicator: Replicator, resume: nat)
      requires session.Valid() && replicator.reader.store == session.store && replicator.reader.cfg == session.cfg
      ensures Valid() && this.session == session && this.replicator == replicator && this.resume == resume
      ensures since == None && runs == [] && from == Max(resume, replicator.progress.Mark(replicator.pair))
    {
      this.session, this.replicator, this.resume, since, runs := session, replicator, resume, None, [];
      from := Max(resume, replicator.progress.Mark(replicator.pair));
    }

    /** Runtime.Start: the run resumes at the larger of the configured and the saved sequence. */
    method Restart()
      requires Valid()
      modifies this
      ensures Valid() && |runs| <= |old(runs)| + 1 && old(runs) <= runs
    {
      hide Session.Valid, Slice, Covered;
      var resumed := replicator.progress.ResumeFrom(replicator.pair, resume);
      since := resumed;
      if resumed.Some? {
        StartedCovers(runs, resumed.value, resume, from, replicator.progress.Mark(replicator.pair));
        EmptySlice(session.log, resumed.value);
        runs := runs + [SentRun(resumed.value, [])];
      }
    }

    /** One turn of the running replicator; an error ends the run. */
    method Turn()
      requires Valid()
      modifies this, replicator.progress
      ensures Valid() && |runs| == |old(runs)|
      ensures old(replicator.progress.Mark(replicator.pair)) <= replicator.progress.Mark(replicator.pair)
    {
      hide Session.Valid, Slice, Covered, Consecutive, Holds, Contiguous, IsReading, Config.EntryKey;
      if since.None? {
        return;
      }
      ghost var log, mark := session.log, replicator.progress.Mark(replicator.pair);
      var stopped, next, sent := replicator.Turn(since.value, log);
      TurnCovers(runs, session.store.objects, session.cfg, log, from, sent, mark,
          replicator.progress.Mark(replicator.pair));
      runs := Extended(runs, sent);
      since := if stopped then None else Some(next);
    }

    method Stop()
      requires Valid()
      modifies this`since
      ensures Valid() && since == None && runs == old(runs)
    {
      since := None;
    }

    /** A step of the writer side leaves what was sent as it is. */
    method Write(op: Op)
      requires Valid()
      modifies session, session.writer, session.store, session.reader
      ensures Valid() && old(session.log) <= session.log
      ensures session.writer == old(session.writer) || fresh(session.writer)
      ensures forall c :: c in session.writer.pending ==> c in old(session.writer.pending) || fresh(c)
    {
      hide Session.Valid, Slice, Covered, Consecutive;
      ghost var log := session.log;
      session.Step(op);
      ConsecutiveStays(runs, log, session.log);
    }
  }

  /**
   Any run of appends, flusher ticks, closes and crashes of the writer, replicator turns, stops and
   restarts: the log stays gap-free, each replicator run sends consecutive entries of it, and every
   sequence above the first position (the configured resume point, or the progress saved before) and up to
   the saved progress was sent.
   */
  method RunPath(cfg: Config, writerBatch: nat, store: ObjectStore, progress: ProgressStore, pair: Pair, batchSize: nat,
                 ops: seq<PathOp>, resume: nat, ghost before: seq<Entry>)
    returns (ghost runs: seq<SentRun>, ghost log: seq<Entry>)
    requires cfg.Valid() && cfg.Clean() && Holds(store.objects, cfg, before)
    modifies store, progress
    ensures Holds(store.objects, cfg, log) && before <= log
    ensures Consecutive(runs, log) && Covered(runs, Max(resume, old(progress.Mark(pair))), progress.Mark(pair))
  {
    hide Holds, Slice, Consistent, Covered, Consecutive, Config.Clean;
    var session := new Session(cfg, writerBatch, store, 0, before);
    var reader := new RecoveryReader(cfg, store);
    assert reader.cfg == cfg by {
      CleanIsUntrimmed(cfg);
    }
    var replicator := new Replicator(reader, progress, pair, batchSize);
    ghost var from := Max(resume, progress.Mark(pair));
    var path := new Path(session, replicator, resume);
    for k := 0 to |ops|
      invariant path.Valid() && path.from == from && path.session == session && path.replicator == replicator
      invariant session.store == store && session.cfg == cfg && before <= session.log
      invariant fresh(path) && fresh(session) && fresh(session.reader) && fresh(session.writer)
      invariant forall c :: c in session.writer.pending ==> fresh(c)
    {
      hide Path.Valid, Session.Valid;
      match ops[k] {
        case WriterOp(op) => path.Write(op);
        case RestartOp => path.Restart();
        case TurnOp => path.Turn();
        case StopOp => path.Stop();
      }
    }
    return path.runs, session.log;
  }

  lemma CleanIsUntrimmed(cfg: Config)
    requires cfg.Clean()
    ensures TrimSlash(cfg.prefix) == cfg.prefix
  {
  }

  /** What is sent carries the sequences right after the position. */
  lemma SentNumbers(objects: Objects, cfg: Config, log: seq<Entry>, since: nat, sent: seq<Entry>)
    requires Holds(objects, cfg, log) && sent == Slice(log, since, |sent|)
    ensures sent != [] ==> sent[|sent| - 1].sequence == since + |sent|
  {
    hide Encode, Config.EntryKey;
    if sent != [] {
      assert Places(cfg, log[since + |sent| - 1], since + |sent|);
    }
  }
}
