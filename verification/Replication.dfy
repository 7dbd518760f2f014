/**
 The whole delivery path as one interleaved system: the writer numbering, buffering and storing entries,
 any number of replicator runs that list, fetch, check and push them and save their progress, and the
 receiving service admitting the pushes. Every call to storage, the network or the database is a step of
 its own and can fail either way; the writer and the runs crash and restart at any point.
 */
module Replication {
  import opened Outcomes
  import opened Bytes
  import opened WalCodec
  import opened WalKeys
  import opened WalLog
  import opened WalReading
  import opened Sorting
  import opened ReplicatorLoop
  import Admission
  import Runs

  /** The log's configuration, the target region and the configured resume sequence. */
  datatype Deployment = Deployment(cfg: Config, peer: ByteString, resume: nat) {
    /** What the recovery reader makes of the configuration. */
    function ReaderConfig(): Config { Config(TrimSlash(cfg.prefix), cfg.region) }

    function RowKey(e: Entry): Admission.Key {
      Admission.Key(cfg.region, peer, e.jobId, if e.sequence < 0 then 0 else e.sequence)
    }

    function RowContent(e: Entry): Admission.Content {
      Admission.Content(if e.epoch < 0 then 0 else e.epoch, e.checkpointUri, e.crc)
    }
  }

  /** The writer process; `flushing` is the index of the next put while it holds its lock to flush. */
  datatype WriterState = Down | Up(pending: seq<Entry>, sequence: Int64, flushing: Option<nat>)

  /**
   Between reads; fetching what a listing named; holding a batch whose first entry is next; waiting for
   a push of it; its push acknowledged.
   */
  datatype Stage =
    | Idle
    | Fetching(sequences: seq<int>, entries: seq<Entry>)
    | Working(batch: seq<Entry>)
    | Awaiting(batch: seq<Entry>, push: nat)
    | Sent(batch: seq<Entry>)

  /** One replicator run: where it started, its position, and what it sent successfully. */
  datatype ReplicatorRun = ReplicatorRun(start: nat, since: nat, stage: Stage, sent: seq<Entry>)

  datatype State = State(
    d: Deployment, objects: Objects, writer: WriterState, progress: nat, runs: map<nat, ReplicatorRun>,
    receiver: Admission.State)

  datatype Event =
    /** append, up to its flush: number the entry, check that it marshals, buffer it. */
    | Enqueue(e: Entry, now: Int64)
    | BeginFlush
    /** One put of a flush, which may fail with or without having stored its object. */
    | PutNext(stored: bool, ok: bool)
    /** The process ends, with whatever is in its buffer. */
    | StopWriter
    /** A new process resumes from a listing of the store. */
    | StartWriter(keys: seq<ByteString>)
    /** Other components store objects outside the region. */
    | ForeignPut(key: ByteString, data: ByteString)
    /** Runtime.Start: resume at the larger of the configured and the saved sequence. */
    | Launch(id: nat)
    /** ReadEntries: the listing, then one fetch per sequence, in any state the store is in by then. */
    | ListKeys(id: nat, keys: seq<ByteString>)
    | FetchNext(id: nat, answered: bool)
    /** Sorting, the contiguity check and the cut to the batch size. */
    | CheckBatch(id: nat, batchSize: nat)
    /** The sender's request reaches the receiver; the encoder refuses a negative epoch. */
    | SendHead(id: nat, push: nat)
    /** Any step of any push at the receiver, including pushes of other senders. */
    | Receive(step: Admission.Event)
    /** The answer, or giving up on it: a push that was not acknowledged is tried again. */
    | Answer(id: nat)
    | Abandon(id: nat)
    /** SaveReplicationProgress with the sequence of the entry that was sent. */
    | Save(id: nat, applied: bool, reported: bool)
    /** The run ends: an error, shutdown or a crash. */
    | Stop(id: nat)

  function Init(d: Deployment): State { State(d, map[], Down, 0, map[], Admission.Init) }

  // ----- the writer

  function Enqueued(d: Deployment, w: WriterState, e: Entry, now: Int64): WriterState
    requires w.Up?
  {
    var numbered := e.(sequence := NextSequence(w.sequence), region := d.cfg.region, timestamp := now);
    if (e.region != [] && e.region != d.cfg.region) || !Marshals(numbered) then w
    else w.(pending := w.pending + [Stamped(numbered)], sequence := numbered.sequence)
  }

  function AfterPut(s: State, stored: bool, ok: bool): State
    requires s.writer.Up? && s.writer.flushing.Some?
  {
    var w, k := s.writer, s.writer.flushing.value;
    if k >= |w.pending| || !Marshals(w.pending[k]) then s.(writer := w.(flushing := None))
    else
      var e := w.pending[k];
      s.(objects := if stored || ok then s.objects[s.d.cfg.EntryKey(e.sequence) := Encode(e)] else s.objects,
         writer := if !ok then w.(flushing := None)
                   else if k + 1 == |w.pending| then w.(pending := [], flushing := None)
                   else w.(flushing := Some(k + 1)))
  }

  // ----- a run of the replicator

  function Staged(s: State, id: nat, stage: Stage): State
    requires id in s.runs
  {
    s.(runs := s.runs[id := s.runs[id].(stage := stage)])
  }

  function Stopped(s: State, id: nat): State { s.(runs := s.runs - {id}) }

  /** An error from storage, an undecodable object or one that is not what its key says ends the run. */
  function AfterFetch(s: State, id: nat, answered: bool): State
    requires id in s.runs && s.runs[id].stage.Fetching?
  {
    var cfg, stage := s.d.ReaderConfig(), s.runs[id].stage;
    if |stage.entries| >= |stage.sequences| then s else
    var n := stage.sequences[|stage.entries|];
    if !answered || n < 0 || cfg.EntryKey(n) !in s.objects then Stopped(s, id) else
    match Decode(s.objects[cfg.EntryKey(n)])
    case Err(_) => Stopped(s, id)
    case Ok(e) =>
      if !Reads(s.objects, cfg, n, e) then Stopped(s, id) else Staged(s, id, stage.(entries := stage.entries + [e]))
  }

  function AfterCheck(s: State, id: nat, batchSize: nat): State
    requires id in s.runs && s.runs[id].stage.Fetching?
  {
    var stage := s.runs[id].stage;
    if |stage.entries| < |stage.sequences| then s else
    var entries := Sorted(stage.entries, SequenceOf);
    if !Contiguous(s.runs[id].since, entries) then Stopped(s, id) else
    var batch := if |entries| > batchSize then entries[..batchSize] else entries;
    Staged(s, id, if batch == [] then Idle else Working(batch))
  }

  function AfterSend(s: State, id: nat, push: nat): State
    requires id in s.runs && s.runs[id].stage.Working?
  {
    var batch := s.runs[id].stage.batch;
    if push in s.receiver.pushes then s
    else if batch == [] || batch[0].sequence <= s.runs[id].since || batch[0].epoch < 0 then Stopped(s, id)
    else
      var begun := Admission.Next(s.receiver, Admission.Begin(push, s.d.RowKey(batch[0]), s.d.RowContent(batch[0])));
      Staged(s.(receiver := begun), id, Awaiting(batch, push))
  }

  function AfterSave(s: State, id: nat, applied: bool, reported: bool): State
    requires id in s.runs && s.runs[id].stage.Sent?
  {
    var r := s.runs[id];
    if r.stage.batch == [] || r.stage.batch[0].sequence < 0 then Stopped(s, id) else
    var n, rest := r.stage.batch[0].sequence, r.stage.batch[1..];
    var saved := s.(progress := if applied then Max(s.progress, n) else s.progress);
    if !(applied && reported) then Stopped(saved, id)
    else saved.(runs := s.runs[id := r.(since := n, stage := if rest == [] then Idle else Working(rest))])
  }

  ghost function Next(s: State, e: Event): State {
    match e
    case Enqueue(entry, now) =>
      if s.writer.Down? || s.writer.flushing.Some? then s else s.(writer := Enqueued(s.d, s.writer, entry, now))
    case BeginFlush =>
      if s.writer.Down? || s.writer.flushing.Some? || s.writer.pending == [] then s
      else s.(writer := s.writer.(flushing := Some(0)))
    case PutNext(stored, ok) => if s.writer.Down? || s.writer.flushing.None? then s else AfterPut(s, stored, ok)
    case StopWriter => s.(writer := Down)
    case StartWriter(keys) =>
      if s.writer.Up? || !Lists(keys, s.objects.Keys, s.d.cfg.prefix + [SLASH]) then s
      else s.(writer := Up([], HighestResumed(s.d.cfg, keys), None))
    case ForeignPut(key, data) => if s.d.cfg.RegionPrefix() <= key then s else s.(objects := s.objects[key := data])
    case Launch(id) =>
      if id in s.runs then s else
      var since := Max(s.d.resume, s.progress);
      s.(runs := s.runs[id := ReplicatorRun(since, since, Idle, [])])
    case ListKeys(id, keys) =>
      if id !in s.runs || !s.runs[id].stage.Idle?
         || !Lists(keys, s.objects.Keys, s.d.ReaderConfig().RegionPrefix()) then s else
      Staged(s, id, if Wanted(keys, s.runs[id].since) == [] then Idle else Fetching(Wanted(keys, s.runs[id].since), []))
    case FetchNext(id, answered) =>
      if id !in s.runs || !s.runs[id].stage.Fetching? then s else AfterFetch(s, id, answered)
    case CheckBatch(id, batchSize) =>
      if id !in s.runs || !s.runs[id].stage.Fetching? then s else AfterCheck(s, id, batchSize)
    case SendHead(id, push) => if id !in s.runs || !s.runs[id].stage.Working? then s else AfterSend(s, id, push)
    case Receive(step) => s.(receiver := Admission.Next(s.receiver, step))
    case Answer(id) =>
      if id !in s.runs || !s.runs[id].stage.Awaiting? then s else
      var r := s.runs[id];
      if r.stage.batch != [] && Admission.Stands(s.receiver, r.stage.push, Admission.Acknowledged) then
        s.(runs := s.runs[id := r.(stage := Sent(r.stage.batch), sent := r.sent + [r.stage.batch[0]])])
      else s
    case Abandon(id) =>
      if id !in s.runs || !s.runs[id].stage.Awaiting? then s else Staged(s, id, Working(s.runs[id].stage.batch))
    case Save(id, applied, reported) =>
      if id !in s.runs || !s.runs[id].stage.Sent? then s else AfterSave(s, id, applied, reported)
    case Stop(id) => Stopped(s, id)
  }

  ghost function Run(s: State, events: seq<Event>): State {
    Runs.Run(Next, s, events)
  }

  // ----- the store and the writer: a gap-free log and a consecutive buffer

  ghost predicate WriterOk(objects: Objects, cfg: Config, w: WriterState, log: seq<Entry>) {
    && Holds(objects, cfg, log)
    && (w.Up? ==> Consistent(objects, cfg, log, w.pending, w.sequence))
    && (w.Up? && w.flushing.Some? ==>
          w.flushing.value < |w.pending| && w.sequence - |w.pending| + w.flushing.value <= |log|)
  }

  lemma EnqueueKeepsWriter(s: State, log: seq<Entry>, e: Entry, now: Int64)
    requires WriterOk(s.objects, s.d.cfg, s.writer, log) && s.writer.Up? && s.writer.flushing.None?
    ensures WriterOk(s.objects, s.d.cfg, Enqueued(s.d, s.writer, e, now), log)
  {
    hide Holds, Consistent, Marshals, Stamped, Places;
    var w, numbered := s.writer,
      e.(sequence := NextSequence(s.writer.sequence), region := s.d.cfg.region, timestamp := now);
    if !(e.region != [] && e.region != s.d.cfg.region) && Marshals(numbered) {
      StampedPlaces(s.d.cfg, numbered);
      EnqueueStep(s.objects, s.d.cfg, log, w.pending, w.sequence, Stamped(numbered));
    }
  }

  /** The entry that a flush puts next is the right one for its key. */
  lemma NextPut(s: State, log: seq<Entry>)
    requires WriterOk(s.objects, s.d.cfg, s.writer, log) && s.writer.Up? && s.writer.flushing.Some?
    ensures var w, k := s.writer, s.writer.flushing.value; k < |w.pending| && Marshals(w.pending[k])
  {
    hide Holds;
    var w, k := s.writer, s.writer.flushing.value;
    assert Places(s.d.cfg, w.pending[k], w.sequence - |w.pending| + 1 + k);
  }

  lemma PutKeepsWriter(s: State, log: seq<Entry>, stored: bool, ok: bool) returns (log': seq<Entry>)
    requires WriterOk(s.objects, s.d.cfg, s.writer, log) && s.writer.Up? && s.writer.flushing.Some?
    ensures var t := AfterPut(s, stored, ok); WriterOk(t.objects, s.d.cfg, t.writer, log') && log <= log'
  {
    hide Places, Encode, Stamped, Config.EntryKey;
    NextPut(s, log);
    var w, k := s.writer, s.writer.flushing.value;
    log' := log;
    if stored || ok {
      hide Holds;
      log' := FlushStep(s.objects, s.d.cfg, log, w.pending, w.sequence, k);
      if ok && k + 1 == |w.pending| {
        FlushedIsConsistent(AfterPut(s, stored, ok).objects, s.d.cfg, log', w.pending, w.sequence);
      }
    }
  }

  lemma StartKeepsWriter(s: State, log: seq<Entry>, keys: seq<ByteString>)
    requires WriterOk(s.objects, s.d.cfg, s.writer, log) && s.d.cfg.Valid() && s.d.cfg.Clean()
    requires Lists(keys, s.objects.Keys, s.d.cfg.prefix + [SLASH])
    ensures WriterOk(s.objects, s.d.cfg, Up([], HighestResumed(s.d.cfg, keys), None), log)
  {
    hide Holds, HighestResumed, Lists, Config.Clean;
    ResumesAtEnd(s.objects, s.d.cfg, log, keys);
  }

  predicate OfWriter(e: Event) {
    e.Enqueue? || e.BeginFlush? || e.PutNext? || e.StopWriter? || e.StartWriter? || e.ForeignPut?
  }

  /** Steps of the writer and of others at the store keep the log gap-free, and only add to it. */
  lemma WriterStep(s: State, log: seq<Entry>, e: Event) returns (log': seq<Entry>)
    requires WriterOk(s.objects, s.d.cfg, s.writer, log) && s.d.cfg.Valid() && s.d.cfg.Clean() && OfWriter(e)
    ensures var t := Next(s, e); WriterOk(t.objects, s.d.cfg, t.writer, log') && log <= log'
    ensures Next(s, e) == s.(objects := Next(s, e).objects, writer := Next(s, e).writer)
  {
    hide Holds, Consistent, Enqueued, AfterPut, Lists, HighestResumed, Config.Clean, Config.RegionPrefix;
    log' := log;
    match e {
      case Enqueue(entry, now) =>
        if s.writer.Up? && s.writer.flushing.None? {
          EnqueueKeepsWriter(s, log, entry, now);
        }
      case PutNext(stored, ok) =>
        if s.writer.Up? && s.writer.flushing.Some? {
          log' := PutKeepsWriter(s, log, stored, ok);
          PutTouches(s, stored, ok);
        }
      case StartWriter(keys) =>
        if s.writer.Down? && Lists(keys, s.objects.Keys, s.d.cfg.prefix + [SLASH]) {
          StartKeepsWriter(s, log, keys);
        }
      case ForeignPut(key, data) =>
        if !(s.d.cfg.RegionPrefix() <= key) {
          ForeignKeepsWriter(s, log, key, data);
        }
      case BeginFlush => BeginKeepsWriter(s, log);
      case _ =>
    }
  }

  lemma PutTouches(s: State, stored: bool, ok: bool)
    requires s.writer.Up? && s.writer.flushing.Some?
    ensures AfterPut(s, stored, ok) ==
      s.(objects := AfterPut(s, stored, ok).objects, writer := AfterPut(s, stored, ok).writer)
  {
    hide Encode, Config.EntryKey;
  }

  lemma BeginKeepsWriter(s: State, log: seq<Entry>)
    requires WriterOk(s.objects, s.d.cfg, s.writer, log)
    ensures WriterOk(s.objects, s.d.cfg, Next(s, BeginFlush).writer, log)
  {
    hide Holds, Places;
  }

  lemma ForeignKeepsWriter(s: State, log: seq<Entry>, key: ByteString, data: ByteString)
    requires WriterOk(s.objects, s.d.cfg, s.writer, log) && !(s.d.cfg.RegionPrefix() <= key)
    ensures WriterOk(s.objects[key := data], s.d.cfg, s.writer, log)
  {
    hide Holds, Places, Config.RegionPrefix;
    ForeignPutKeepsLog(s.objects, s.d.cfg, log, key, data);
  }

  // ----- the delivery path: what is known of runs, progress and receiver, given the log

  /** Log entry n was read and its admission is committed at the receiver. */
  predicate Delivered(d: Deployment, log: seq<Entry>, rows: Admission.Rows, n: nat) {
    0 < n <= |log| && Decodable(log[n - 1]) && 0 <= log[n - 1].epoch &&
    Admission.AlreadyDelivered(rows, d.RowKey(log[n - 1]), d.RowContent(log[n - 1]))
  }

  predicate DeliveredThrough(d: Deployment, log: seq<Entry>, rows: Admission.Rows, p: nat) {
    forall n :: d.resume < n <= p ==> Delivered(d, log, rows, n)
  }

  /** The entries in hand are the next piece of the log. */
  predicate IsNext(log: seq<Entry>, since: nat, entries: seq<Entry>) {
    entries != [] ==>
      && since + |entries| <= |log| && entries == log[since..since + |entries|]
      && forall e :: e in entries ==> Decodable(e)
  }

  predicate StageOk(d: Deployment, log: seq<Entry>, receiver: Admission.State, r: ReplicatorRun) {
    match r.stage
    case Idle => true
    case Fetching(sequences, entries) =>
      sequences != [] && IsRunOf(sequences, r.since + 1, log) && IsNext(log, r.since, entries)
      && |entries| <= |sequences|
    case Working(batch) => batch != [] && IsNext(log, r.since, batch)
    case Awaiting(batch, push) =>
      && batch != [] && IsNext(log, r.since, batch) && push in receiver.pushes && 0 <= batch[0].epoch
      && receiver.pushes[push].key == d.RowKey(batch[0]) && receiver.pushes[push].content == d.RowContent(batch[0])
    case Sent(batch) => batch != [] && IsNext(log, r.since, batch) && Delivered(d, log, receiver.rows, r.since + 1)
  }

  /** What the run sent is the log right after where it started, in order, up to its position or one further. */
  predicate RunOk(d: Deployment, log: seq<Entry>, receiver: Admission.State, r: ReplicatorRun) {
    && d.resume <= r.start <= r.since
    && DeliveredThrough(d, log, receiver.rows, r.since)
    && StageOk(d, log, receiver, r)
    && |r.sent| == r.since - r.start + (if r.stage.Sent? then 1 else 0)
    && IsNext(log, r.start, r.sent)
  }

  ghost predicate PathOk(s: State, log: seq<Entry>) {
    && Admission.Inv(s.receiver)
    && DeliveredThrough(s.d, log, s.receiver.rows, s.progress)
    && (forall id :: id in s.runs ==> RunOk(s.d, log, s.receiver, s.runs[id]))
  }

  /** The log only grows, and the receiver forgets no push and no committed row. */
  ghost predicate Grows(log: seq<Entry>, receiver: Admission.State, log': seq<Entry>, receiver': Admission.State) {
    && log <= log'
    && Admission.KeepsCommitted(receiver.rows, receiver'.rows)
    && Admission.KeepsPushes(receiver.pushes, receiver'.pushes)
  }

  lemma DeliveredStays(
      d: Deployment, log: seq<Entry>, rows: Admission.Rows, log': seq<Entry>, rows': Admission.Rows, p: nat)
    requires log <= log' && Admission.KeepsCommitted(rows, rows') && DeliveredThrough(d, log, rows, p)
    ensures DeliveredThrough(d, log', rows', p)
  {
    hide Admission.Fingerprint, Decodable;
    forall n | d.resume < n <= p
      ensures Delivered(d, log', rows', n)
    {
      assert Delivered(d, log, rows, n);
    }
  }

  lemma IsNextStays(log: seq<Entry>, log': seq<Entry>, since: nat, entries: seq<Entry>)
    requires log <= log' && IsNext(log, since, entries)
    ensures IsNext(log', since, entries)
  {
    hide Decodable;
  }

  lemma StageStays(
      d: Deployment, log: seq<Entry>, receiver: Admission.State, log': seq<Entry>, receiver': Admission.State,
      r: ReplicatorRun)
    requires Grows(log, receiver, log', receiver') && StageOk(d, log, receiver, r)
    ensures StageOk(d, log', receiver', r)
  {
    hide Admission.Fingerprint, Decodable, IsNext;
    match r.stage
    case Idle =>
    case Fetching(_, entries) => IsNextStays(log, log', r.since, entries);
    case Working(batch) => IsNextStays(log, log', r.since, batch);
    case Awaiting(batch, _) => IsNextStays(log, log', r.since, batch);
    case Sent(batch) => IsNextStays(log, log', r.since, batch);
  }

  lemma RunStays(
      d: Deployment, log: seq<Entry>, receiver: Admission.State, log': seq<Entry>, receiver': Admission.State,
      r: ReplicatorRun)
    requires Grows(log, receiver, log', receiver') && RunOk(d, log, receiver, r)
    ensures RunOk(d, log', receiver', r)
  {
    hide StageOk, IsNext, DeliveredThrough, Admission.KeepsCommitted, Admission.KeepsPushes;
    StageStays(d, log, receiver, log', receiver', r);
    DeliveredStays(d, log, receiver.rows, log', receiver'.rows, r.since);
    IsNextStays(log, log', r.start, r.sent);
  }

  /** Everything known stays true when the log and the receiver grow and nothing else changes. */
  lemma PathStays(s: State, log: seq<Entry>, t: State, log': seq<Entry>)
    requires PathOk(s, log) && Grows(log, s.receiver, log', t.receiver) && Admission.Inv(t.receiver)
    requires t.d == s.d && t.progress == s.progress && t.runs == s.runs
    ensures PathOk(t, log')
  {
    hide RunOk, DeliveredThrough, Admission.Inv, Admission.KeepsCommitted, Admission.KeepsPushes;
    DeliveredStays(s.d, log, s.receiver.rows, log', t.receiver.rows, s.progress);
    forall id | id in t.runs
      ensures RunOk(t.d, log', t.receiver, t.runs[id])
    {
      RunStays(s.d, log, s.receiver, log', t.receiver, s.runs[id]);
    }
  }

  /** Only one run and the progress change: they have to be right. */
  lemma PathWith(s: State, log: seq<Entry>, t: State, id: nat)
    requires PathOk(s, log) && t.d == s.d && t.receiver == s.receiver
    requires t.progress == s.progress || DeliveredThrough(s.d, log, s.receiver.rows, t.progress)
    requires id in t.runs ==> RunOk(s.d, log, s.receiver, t.runs[id])
    requires forall other :: other in t.runs && other != id ==> other in s.runs && t.runs[other] == s.runs[other]
    ensures PathOk(t, log)
  {
    hide RunOk, DeliveredThrough, Admission.Inv;
  }

  // ----- one lemma per kind of step

  lemma ReceiveKeepsPath(s: State, log: seq<Entry>, step: Admission.Event)
    requires PathOk(s, log)
    ensures PathOk(s.(receiver := Admission.Next(s.receiver, step)), log)
    ensures Grows(log, s.receiver, log, Admission.Next(s.receiver, step))
  {
    hide RunOk, DeliveredThrough, Admission.Inv, Admission.Next, Admission.KeepsCommitted, Admission.KeepsPushes;
    Admission.NextKeepsInv(s.receiver, step);
    Admission.NextKeepsPushes(s.receiver, step);
    PathStays(s, log, s.(receiver := Admission.Next(s.receiver, step)), log);
  }

  lemma LaunchKeepsPath(s: State, log: seq<Entry>, id: nat)
    requires PathOk(s, log) && id !in s.runs
    ensures PathOk(Next(s, Launch(id)), log)
  {
    hide Admission.Inv, Delivered;
    PathWith(s, log, Next(s, Launch(id)), id);
  }

  lemma ListingKeepsPath(s: State, log: seq<Entry>, id: nat, keys: seq<ByteString>)
    requires Holds(s.objects, s.d.cfg, log) && s.d.cfg.Clean() && PathOk(s, log)
    requires id in s.runs && s.runs[id].stage.Idle? && Lists(keys, s.objects.Keys, s.d.ReaderConfig().RegionPrefix())
    ensures PathOk(Next(s, ListKeys(id, keys)), log)
  {
    hide Holds, Admission.Inv, Delivered, Wanted, Lists, Config.RegionPrefix;
    var since := s.runs[id].since;
    ListsTheRest(s.objects, s.d.cfg, log, keys, since);
    PathWith(s, log, Next(s, ListKeys(id, keys)), id);
  }

  /** Over the writer's store, what is wanted after `since` is the rest of the log. */
  lemma ListsTheRest(objects: Objects, cfg: Config, log: seq<Entry>, keys: seq<ByteString>, since: nat)
    requires Holds(objects, cfg, log) && Lists(keys, objects.Keys, cfg.RegionPrefix())
    ensures IsRunOf(Wanted(keys, since), since + 1, log)
  {
    hide Holds, Lists, Sorted, Collected, Inverts;
    ScannersInvert(cfg);
    CollectsRun(PositiveSequenceOfKey, objects, cfg, log, keys, since + 1, true);
  }

  /** A fetch gives the log's next entry, or ends the run. */
  lemma FetchKeepsPath(s: State, log: seq<Entry>, id: nat, answered: bool)
    requires Holds(s.objects, s.d.cfg, log) && s.d.cfg.Clean() && PathOk(s, log)
    requires id in s.runs && s.runs[id].stage.Fetching?
    ensures PathOk(AfterFetch(s, id, answered), log)
  {
    hide Holds, Admission.Inv, Delivered, Decode, Config.EntryKey, Reads, Decodable;
    var t, r := AfterFetch(s, id, answered), s.runs[id];
    assert RunOk(s.d, log, s.receiver, r);
    if t != s && id in t.runs {
      var n, e := r.stage.sequences[|r.stage.entries|], t.runs[id].stage.entries[|r.stage.entries|];
      assert n == r.since + |r.stage.entries| + 1;
      LogIsRead(s.objects, s.d.cfg, log, n, e);
      assert t.runs[id].stage.entries == r.stage.entries + [log[n - 1]];
    }
    PathWith(s, log, t, id);
  }

  /** What was fetched ascends, so sorting leaves it alone. */
  lemma NextAscends(objects: Objects, cfg: Config, log: seq<Entry>, since: nat, entries: seq<Entry>)
    requires Holds(objects, cfg, log) && IsNext(log, since, entries)
    ensures Sorted(entries, SequenceOf) == entries
    ensures entries != [] ==> entries[0].sequence == since + 1
  {
    hide Sorted, Encode, Config.EntryKey, Decodable;
    forall i | 0 <= i < |entries|
      ensures entries[i].sequence == since + 1 + i
    {
      assert Places(cfg, log[since + i], since + i + 1);
    }
    SortedAlready(entries);
  }

  lemma CheckKeepsPath(s: State, log: seq<Entry>, id: nat, batchSize: nat)
    requires Holds(s.objects, s.d.cfg, log) && PathOk(s, log)
    requires id in s.runs && s.runs[id].stage.Fetching?
    ensures PathOk(AfterCheck(s, id, batchSize), log)
  {
    hide Holds, Admission.Inv, Delivered, Sorted, Contiguous, Decodable;
    var t, r := AfterCheck(s, id, batchSize), s.runs[id];
    assert RunOk(s.d, log, s.receiver, r);
    NextAscends(s.objects, s.d.cfg, log, r.since, r.stage.entries);
    PathWith(s, log, t, id);
  }

  lemma SendKeepsPath(s: State, log: seq<Entry>, id: nat, push: nat)
    requires PathOk(s, log) && id in s.runs && s.runs[id].stage.Working?
    ensures PathOk(AfterSend(s, id, push), log)
  {
    hide Admission.Inv, Delivered, IsNext;
    var t, r := AfterSend(s, id, push), s.runs[id];
    assert RunOk(s.d, log, s.receiver, r);
    if t != s && id in t.runs {
      var head := r.stage.batch[0];
      var begin := Admission.Begin(push, s.d.RowKey(head), s.d.RowContent(head));
      var mid := s.(receiver := Admission.Next(s.receiver, begin));
      ReceiveKeepsPath(s, log, begin);
      assert RunOk(s.d, log, mid.receiver, r);
      PathWith(mid, log, t, id);
    } else {
      PathWith(s, log, t, id);
    }
  }

  lemma Acknowledges(r: Admission.State, push: nat)
    requires Admission.Inv(r) && Admission.Stands(r, push, Admission.Acknowledged)
    ensures Admission.AlreadyDelivered(r.rows, r.pushes[push].key, r.pushes[push].content)
  {
    assert Admission.AckHolds(r, push);
  }

  lemma AnswerKeepsPath(s: State, log: seq<Entry>, id: nat)
    requires PathOk(s, log) && id in s.runs && s.runs[id].stage.Awaiting?
    ensures PathOk(Next(s, Answer(id)), log)
  {
    hide Admission.Inv, Admission.AlreadyDelivered, DeliveredThrough, Decodable;
    var t, r := Next(s, Answer(id)), s.runs[id];
    assert RunOk(s.d, log, s.receiver, r);
    if t != s {
      Acknowledges(s.receiver, r.stage.push);
      assert r.stage.batch[0] in r.stage.batch && r.stage.batch[0] == log[r.since];
      assert t.runs[id].sent == r.sent + [log[r.since]];
      PathWith(s, log, t, id);
    }
  }

  /** The sequence that is saved is the one after the position, by the numbering of the log. */
  lemma SaveKeepsPath(s: State, log: seq<Entry>, id: nat, applied: bool, reported: bool)
    requires Holds(s.objects, s.d.cfg, log) && PathOk(s, log) && id in s.runs && s.runs[id].stage.Sent?
    ensures PathOk(AfterSave(s, id, applied, reported), log)
    ensures s.progress <= AfterSave(s, id, applied, reported).progress
  {
    hide Holds, Admission.Inv, Delivered, Decodable, Sorted;
    var t, r := AfterSave(s, id, applied, reported), s.runs[id];
    assert RunOk(s.d, log, s.receiver, r);
    NextAscends(s.objects, s.d.cfg, log, r.since, r.stage.batch);
    assert DeliveredThrough(s.d, log, s.receiver.rows, r.since + 1);
    PathWith(s, log, t, id);
  }

  lemma AbandonKeepsPath(s: State, log: seq<Entry>, e: Event)
    requires PathOk(s, log) && (e.Abandon? || e.Stop?)
    ensures PathOk(Next(s, e), log)
  {
    hide Admission.Inv, Delivered, IsNext;
    PathWith(s, log, Next(s, e), e.id);
  }

  // ----- every run

  ghost predicate Inv(s: State, log: seq<Entry>) {
    s.d.cfg.Valid() && s.d.cfg.Clean() && WriterOk(s.objects, s.d.cfg, s.writer, log) && PathOk(s, log)
  }

  lemma PathStep(s: State, log: seq<Entry>, e: Event)
    requires Inv(s, log) && !OfWriter(e)
    ensures PathOk(Next(s, e), log) && s.progress <= Next(s, e).progress
    ensures Next(s, e).d == s.d && Next(s, e).objects == s.objects && Next(s, e).writer == s.writer
  {
    hide Holds, Consistent, PathOk, Config.Clean, Lists, AfterFetch, AfterCheck, AfterSend, AfterSave, Admission.Next;
    Untouched(s, e);
    match e {
      case Launch(id) => if id !in s.runs { LaunchKeepsPath(s, log, id); }
      case ListKeys(id, keys) =>
        if id in s.runs && s.runs[id].stage.Idle? && Lists(keys, s.objects.Keys, s.d.ReaderConfig().RegionPrefix()) {
          ListingKeepsPath(s, log, id, keys);
        }
      case FetchNext(id, answered) =>
        if id in s.runs && s.runs[id].stage.Fetching? { FetchKeepsPath(s, log, id, answered); }
      case CheckBatch(id, batchSize) =>
        if id in s.runs && s.runs[id].stage.Fetching? { CheckKeepsPath(s, log, id, batchSize); }
      case SendHead(id, push) => if id in s.runs && s.runs[id].stage.Working? { SendKeepsPath(s, log, id, push); }
      case Receive(step) => ReceiveKeepsPath(s, log, step);
      case Answer(id) => if id in s.runs && s.runs[id].stage.Awaiting? { AnswerKeepsPath(s, log, id); }
      case Save(id, applied, reported) =>
        if id in s.runs && s.runs[id].stage.Sent? { SaveKeepsPath(s, log, id, applied, reported); }
      case _ => AbandonKeepsPath(s, log, e);
    }
  }

  /** Replicators and receivers do not write to the log's store. */
  lemma Untouched(s: State, e: Event)
    requires !OfWriter(e)
    ensures Next(s, e).d == s.d && Next(s, e).objects == s.objects && Next(s, e).writer == s.writer
    ensures !e.Save? ==> Next(s, e).progress == s.progress
  {
    hide Lists, Wanted, Decode, Reads, Sorted, Contiguous, Admission.Next, Config.EntryKey, Config.RegionPrefix;
  }

  lemma NextKeepsInv(s: State, log: seq<Entry>, e: Event) returns (log': seq<Entry>)
    requires Inv(s, log)
    ensures Inv(Next(s, e), log') && log <= log' && s.progress <= Next(s, e).progress
    ensures Next(s, e).d == s.d
  {
    hide Next, PathOk, WriterOk, Config.Clean;
    if OfWriter(e) {
      log' := WriterStep(s, log, e);
      LogGrowsKeepsPath(s, log, Next(s, e), log');
    } else {
      log' := log;
      PathStep(s, log, e);
    }
  }

  lemma LogGrowsKeepsPath(s: State, log: seq<Entry>, t: State, log': seq<Entry>)
    requires PathOk(s, log) && log <= log' && t == s.(objects := t.objects, writer := t.writer)
    ensures PathOk(t, log')
  {
    hide RunOk, DeliveredThrough, Admission.Inv;
    PathStays(s, log, t, log');
  }

  lemma {:induction false} RunKeepsInv(s: State, log: seq<Entry>, events: seq<Event>) returns (log': seq<Entry>)
    requires Inv(s, log)
    ensures Inv(Run(s, events), log') && log <= log' && s.progress <= Run(s, events).progress && Run(s, events).d == s.d
    decreases |events|
  {
    hide Next, Inv;
    log' := log;
    if events != [] {
      var middle := NextKeepsInv(s, log, events[0]);
      log' := RunKeepsInv(Next(s, events[0]), middle, events[1..]);
    }
  }

  lemma InitIsInv(d: Deployment)
    requires d.cfg.Valid() && d.cfg.Clean()
    ensures Inv(Init(d), [])
  {
  }

  /**
   The stored entry n: its object is there and is read as an entry of that sequence and region, and the
   receiver holds a committed row for it with its epoch, URI and checksum.
   */
  predicate Arrived(s: State, n: nat) {
    && s.d.cfg.EntryKey(n) in s.objects
    && Decode(s.objects[s.d.cfg.EntryKey(n)]).Ok?
    && var e := Decode(s.objects[s.d.cfg.EntryKey(n)]).value;
    && e.sequence == n && e.region == s.d.cfg.region
    && var key := Admission.Key(s.d.cfg.region, s.d.peer, e.jobId, n);
    && key in s.receiver.rows && s.receiver.rows[key].committed
    && s.receiver.rows[key].content.epoch == e.epoch
    && s.receiver.rows[key].content.uri == e.checkpointUri
    && s.receiver.rows[key].content.crc == e.crc
  }

  lemma DeliveredArrived(s: State, log: seq<Entry>, n: nat)
    requires Inv(s, log) && Admission.CollisionFree() && Delivered(s.d, log, s.receiver.rows, n)
    ensures Arrived(s, n)
  {
    hide Consistent, Decode, Encode, Config.EntryKey, Admission.Fingerprint;
    var e := log[n - 1];
    LogIsRead(s.objects, s.d.cfg, log, n, e);
    assert Admission.Inv(s.receiver);
    var k := s.d.RowKey(e);
    Admission.FingerprintIdentifiesContent(k, s.receiver.rows[k].content, s.d.RowContent(e));
  }

  /**
   End to end, over any interleaving of appends, flushes that fail midway, crashes and restarts of the
   writer, replicator runs, crashes and retries: when the saved progress is p, for every sequence above
   the configured resume point and up to p the store holds the entry under its key, and the receiver
   has committed exactly its epoch, URI and checksum.
   */
  lemma SavedProgressIsDelivered(d: Deployment, events: seq<Event>, n: nat)
    requires Admission.CollisionFree() && d.cfg.Valid() && d.cfg.Clean()
    requires d.resume < n <= Run(Init(d), events).progress
    ensures Arrived(Run(Init(d), events), n)
  {
    hide Run, WriterOk, Arrived;
    InitIsInv(d);
    var log := RunKeepsInv(Init(d), [], events);
    var s := Run(Init(d), events);
    assert Delivered(s.d, log, s.receiver.rows, n);
    DeliveredArrived(s, log, n);
  }

  /**
   Each run sends strictly consecutive sequences from where it started, each the entry that the store
   holds under its key, and everything above the resume point up to its position has arrived: a restart
   never skips an entry.
   */
  lemma RunsSkipNothing(d: Deployment, events: seq<Event>, id: nat)
    requires Admission.CollisionFree() && d.cfg.Valid() && d.cfg.Clean() && id in Run(Init(d), events).runs
    ensures var s := Run(Init(d), events); var r := s.runs[id];
      && (forall i :: 0 <= i < |r.sent| ==> Reads(s.objects, d.cfg, r.start + 1 + i, r.sent[i]))
      && (forall n :: d.resume < n <= r.since ==> Arrived(s, n))
  {
    hide Run, WriterOk, Arrived, Reads, Delivered;
    InitIsInv(d);
    var log := RunKeepsInv(Init(d), [], events);
    var s := Run(Init(d), events);
    var r := s.runs[id];
    assert RunOk(s.d, log, s.receiver, r);
    forall i | 0 <= i < |r.sent|
      ensures Reads(s.objects, d.cfg, r.start + 1 + i, r.sent[i])
    {
      SentIsRead(s, log, r.start, r.sent, i);
    }
    forall n | d.resume < n <= r.since
      ensures Arrived(s, n)
    {
      assert Delivered(s.d, log, s.receiver.rows, n);
      DeliveredArrived(s, log, n);
    }
  }

  lemma SentIsRead(s: State, log: seq<Entry>, start: nat, sent: seq<Entry>, i: nat)
    requires Inv(s, log) && IsNext(log, start, sent) && i < |sent|
    ensures Reads(s.objects, s.d.cfg, start + 1 + i, sent[i])
  {
    hide Holds, Consistent, Decodable, Reads, PathOk;
    assert sent[i] in sent && sent[i] == log[start + i];
    LogIsRead(s.objects, s.d.cfg, log, start + 1 + i, sent[i]);
  }

  /** And the log itself is gap-free in every reachable state, with the buffer a consecutive run that ends it. */
  lemma LogIsAlwaysGapFree(d: Deployment, events: seq<Event>) returns (log: seq<Entry>)
    requires d.cfg.Valid() && d.cfg.Clean()
    ensures var s := Run(Init(d), events); WriterOk(s.objects, d.cfg, s.writer, log)
  {
    hide Run, WriterOk, PathOk;
    InitIsInv(d);
    log := RunKeepsInv(Init(d), [], events);
  }

  // ----- what each step does

  /**
   An entry is accepted if and only if it names no region or the writer's, has a URI, and its strings fit their
   lengths; it is buffered under the next sequence, with everything else as it was given.
   */
  lemma EnqueueAcceptsIff(d: Deployment, w: WriterState, e: Entry, now: Int64)
    requires w.Up?
    ensures var accepted :=
        && (e.region == [] || e.region == d.cfg.region) && 0 <= w.sequence < MAX_INT64 && e.checkpointUri != []
        && |e.jobId| <= 0xFFFF_FFFF && |e.checkpointUri| <= 0xFFFF_FFFF && |d.cfg.region| <= 0xFFFF_FFFF;
      var v := Enqueued(d, w, e, now);
      && (accepted ==>
            && v.Up? && v.sequence == w.sequence + 1 && |v.pending| == |w.pending| + 1 && w.pending <= v.pending
            && var n := v.pending[|w.pending|];
               n.sequence == w.sequence + 1 && n.region == d.cfg.region && n.timestamp == now && n.epoch == e.epoch
               && n.jobId == e.jobId && n.checkpointUri == e.checkpointUri)
      && (!accepted ==> v == w)
  {
    hide Encode, Body;
  }

  /** During a flush nothing is buffered and no other flush begins. */
  lemma FlushHoldsTheLock(s: State, e: Entry, now: Int64)
    requires s.writer.Up? && s.writer.flushing.Some?
    ensures Next(s, Enqueue(e, now)) == s && Next(s, BeginFlush) == s
  {
  }

  /** A put that fails ends the flush with the buffer kept; one that succeeds goes on, and the last drops the buffer. */
  lemma PutAdvances(s: State, stored: bool, ok: bool)
    requires s.writer.Up? && s.writer.flushing.Some? && s.writer.flushing.value < |s.writer.pending|
    requires Marshals(s.writer.pending[s.writer.flushing.value])
    ensures var t, w, k := AfterPut(s, stored, ok), s.writer, s.writer.flushing.value;
      && t == s.(objects := t.objects, writer := t.writer)
      && t.objects == (if stored || ok then s.objects[s.d.cfg.EntryKey(w.pending[k].sequence) := Encode(w.pending[k])]
                       else s.objects)
      && (!ok ==> t.writer == w.(flushing := None))
      && (ok && k + 1 < |w.pending| ==> t.writer == w.(flushing := Some(k + 1)))
      && (ok && k + 1 == |w.pending| ==> t.writer == w.(pending := [], flushing := None))
  {
  }

  /**
   A fetch goes on if and only if storage answers with an object that decodes to an entry of the sequence and
   the region asked for; otherwise the run ends.
   */
  lemma FetchGoesOnIff(s: State, id: nat, answered: bool)
    requires id in s.runs && s.runs[id].stage.Fetching?
    requires |s.runs[id].stage.entries| < |s.runs[id].stage.sequences|
    ensures var t, stage := AfterFetch(s, id, answered), s.runs[id].stage;
      var n, cfg := stage.sequences[|stage.entries|], s.d.ReaderConfig();
      && (id in t.runs <==>
            && answered && 0 <= n && cfg.EntryKey(n) in s.objects && Decode(s.objects[cfg.EntryKey(n)]).Ok?
            && Decode(s.objects[cfg.EntryKey(n)]).value.sequence == n
            && Decode(s.objects[cfg.EntryKey(n)]).value.region == s.d.cfg.region)
      && (id in t.runs ==> t == Staged(s, id,
            stage.(entries := stage.entries + [Decode(s.objects[cfg.EntryKey(n)]).value])))
      && (id !in t.runs ==> t == s.(runs := s.runs - {id}))
  {
    hide Decode, Config.EntryKey;
  }

  /** When all is fetched, the run goes on with up to a batch of it if and only if it has no gap. */
  lemma CheckGoesOnIff(s: State, id: nat, batchSize: nat)
    requires id in s.runs && s.runs[id].stage.Fetching?
    requires |s.runs[id].stage.entries| == |s.runs[id].stage.sequences|
    ensures var t, got := AfterCheck(s, id, batchSize), Sorted(s.runs[id].stage.entries, SequenceOf);
      && (id in t.runs <==>
            && (got != [] ==> s.runs[id].since < got[0].sequence)
            && forall i :: 0 < i < |got| ==> got[i].sequence == got[0].sequence + i)
      && (id in t.runs ==>
            var batch := if |got| <= batchSize then got else got[..batchSize];
            t == Staged(s, id, if batch == [] then Idle else Working(batch)))
      && (id !in t.runs ==> t == s.(runs := s.runs - {id}))
  {
    hide Sorted;
  }

  /**
   The head of a batch is pushed if and only if it is after the position and its epoch is not negative; the push
   carries its region, job, sequence, epoch, URI and checksum.
   */
  lemma HeadIsPushedIff(s: State, id: nat, push: nat)
    requires id in s.runs && s.runs[id].stage.Working? && s.runs[id].stage.batch != [] && push !in s.receiver.pushes
    ensures var t, batch := AfterSend(s, id, push), s.runs[id].stage.batch;
      && (id in t.runs <==> s.runs[id].since < batch[0].sequence && 0 <= batch[0].epoch)
      && (id in t.runs ==>
            && t.runs[id].stage == Awaiting(batch, push) && push in t.receiver.pushes
            && t.receiver.pushes[push] == Admission.Push(
                 Admission.Key(s.d.cfg.region, s.d.peer, batch[0].jobId, batch[0].sequence),
                 Admission.Content(batch[0].epoch, batch[0].checkpointUri, batch[0].crc), Admission.Claiming))
      && (id !in t.runs ==> t == s.(runs := s.runs - {id}))
  {
  }

  /** An entry counts as sent if and only if its push is acknowledged; until then nothing changes. */
  lemma SentIffAcknowledged(s: State, id: nat)
    requires id in s.runs && s.runs[id].stage.Awaiting? && s.runs[id].stage.batch != []
    ensures var t, stage := Next(s, Answer(id)), s.runs[id].stage;
      && (t != s <==> Admission.Stands(s.receiver, stage.push, Admission.Acknowledged))
      && (t != s ==> t == s.(runs := s.runs[id := s.runs[id].(
            stage := Sent(stage.batch), sent := s.runs[id].sent + [stage.batch[0]])]))
  {
    assert s.runs[id].stage != Sent(s.runs[id].stage.batch);
  }

  /** The run goes on behind the entry if and only if saving its sequence succeeded; the mark never falls. */
  lemma SaveGoesOnIff(s: State, id: nat, applied: bool, reported: bool)
    requires id in s.runs && s.runs[id].stage.Sent? && s.runs[id].stage.batch != []
    requires 0 <= s.runs[id].stage.batch[0].sequence
    ensures var t, batch := AfterSave(s, id, applied, reported), s.runs[id].stage.batch;
      && t.progress == (if applied && s.progress < batch[0].sequence then batch[0].sequence else s.progress)
      && (id in t.runs <==> applied && reported)
      && (id in t.runs ==> t.runs == s.runs[id := s.runs[id].(since := batch[0].sequence,
            stage := if |batch| == 1 then Idle else Working(batch[1..]))])
      && (id !in t.runs ==> t.runs == s.runs - {id})
  {
  }
}
