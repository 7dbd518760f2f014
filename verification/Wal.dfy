/**
 The write-ahead log over object storage (control-plane/replication/wal/wal.go):
 the writer with its pending buffer, partial flushes and restart, and the
 gap-checking reader.
 */
module WalLog {
  import opened Outcomes
  import opened Bytes
  import opened WalCodec
  import opened WalKeys

  type Objects = map<ByteString, ByteString>

  /** e is the stored form of sequence n of this region. */
  predicate Places(cfg: Config, e: Entry, n: int) {
    Marshals(e) && e.sequence == n && e.region == cfg.region && Stamped(e) == e
  }

  lemma StampedPlaces(cfg: Config, e: Entry)
    requires Marshals(e) && e.region == cfg.region
    ensures Places(cfg, Stamped(e), e.sequence) && e.sequence > 0
    ensures Stamped(e) == e.(crc := Stamped(e).crc)
  {
  }

  /** The region's objects are exactly the entries 1..|log|, each under its own key. */
  ghost predicate Holds(objects: Objects, cfg: Config, log: seq<Entry>) {
    && |log| <= MAX_INT64
    && (forall i :: 0 <= i < |log| ==> Places(cfg, log[i], i + 1))
    && (forall n: nat {:trigger cfg.EntryKey(n)} :: 0 < n <= |log| ==>
          cfg.EntryKey(n) in objects && objects[cfg.EntryKey(n)] == Encode(log[n - 1]))
    && (forall key :: key in objects && cfg.RegionPrefix() <= key ==> IsEntryKey(cfg, key, |log|))
  }

  ghost predicate IsEntryKey(cfg: Config, key: ByteString, d: nat) {
    exists n: nat :: 0 < n <= d && key == cfg.EntryKey(n)
  }

  lemma PutExtendsLog(objects: Objects, cfg: Config, log: seq<Entry>, e: Entry)
    requires Holds(objects, cfg, log) && |log| < MAX_INT64 && Places(cfg, e, |log| + 1)
    ensures Holds(objects[cfg.EntryKey(|log| + 1) := Encode(e)], cfg, log + [e])
  {
    hide Config.EntryKey, Config.RegionPrefix, Encode;
    var key, log' := cfg.EntryKey(|log| + 1), log + [e];
    var objects' := objects[key := Encode(e)];
    forall n: nat | 0 < n <= |log'|
      ensures cfg.EntryKey(n) in objects' && objects'[cfg.EntryKey(n)] == Encode(log'[n - 1])
    {
      if n <= |log| {
        EntryKeysDiffer(cfg, n, |log| + 1);
      }
    }
    forall k | k in objects' && cfg.RegionPrefix() <= k
      ensures IsEntryKey(cfg, k, |log'|)
    {
      if k != key {
        var n: nat :| 0 < n <= |log| && k == cfg.EntryKey(n);
      }
    }
  }

  /** Writing a stored entry again changes nothing. */
  lemma PutRepeatsLog(objects: Objects, cfg: Config, log: seq<Entry>, n: nat)
    requires Holds(objects, cfg, log) && 0 < n <= |log|
    ensures objects[cfg.EntryKey(n) := Encode(log[n - 1])] == objects
  {
  }

  /** What another region or component writes outside this region's prefix leaves the log alone. */
  lemma ForeignPutKeepsLog(objects: Objects, cfg: Config, log: seq<Entry>, key: ByteString, data: ByteString)
    requires Holds(objects, cfg, log) && !(cfg.RegionPrefix() <= key)
    ensures Holds(objects[key := data], cfg, log)
  {
    forall n: nat | 0 < n <= |log|
      ensures cfg.EntryKey(n) != key
    {
      assert cfg.RegionPrefix() <= cfg.EntryKey(n);
    }
  }

  /** Object storage: an operation may fail, and a failed put may still have stored its object. */
  class ObjectStore {
    var objects: Objects

    constructor ()
      ensures objects == map[]
    {
      objects := map[];
    }

    method Put(key: ByteString, data: ByteString) returns (ok: bool)
      modifies this
      ensures ok ==> objects == old(objects)[key := data]
      ensures objects == old(objects) || objects == old(objects)[key := data]
    {
      if * {
        objects := objects[key := data];
      }
      ok := *;
      if ok {
        objects := objects[key := data];
      }
    }

    method Get(key: ByteString) returns (r: Option<ByteString>)
      ensures r.Some? ==> key in objects && r.value == objects[key]
    {
      if * {
        return None;
      }
      return if key in objects then Some(objects[key]) else None;
    }

    /** Every key with the prefix, once, in no particular order. */
    method List(prefix: ByteString) returns (r: Option<seq<ByteString>>)
      ensures r.Some? ==> Lists(r.value, objects.Keys, prefix)
    {
      if * {
        return None;
      }
      var found: seq<ByteString>, rest := [], objects.Keys;
      while rest != {}
        invariant rest <= objects.Keys
        invariant Lists(found, objects.Keys - rest, prefix)
        decreases rest
      {
        var key :| key in rest;
        if prefix <= key {
          found := found + [key];
        }
        rest := rest - {key};
      }
      assert objects.Keys - rest == objects.Keys;
      return Some(found);
    }
  }

  ghost predicate Lists(listed: seq<ByteString>, keys: set<ByteString>, prefix: ByteString) {
    && (forall key :: key in listed <==> key in keys && prefix <= key)
    && (forall i, j :: 0 <= i < j < |listed| ==> listed[i] != listed[j])
  }

  predicate ResumedAtMost(cfg: Config, key: ByteString, m: int) {
    ResumedSequence(cfg, key).Some? ==> ResumedSequence(cfg, key).value <= m
  }

  /** No key in the store makes a restarting writer resume beyond the log. */
  lemma BoundsResumed(objects: Objects, cfg: Config, log: seq<Entry>, key: ByteString)
    requires cfg.Valid() && Holds(objects, cfg, log) && key in objects && cfg.prefix + [SLASH] <= key
    ensures ResumedAtMost(cfg, key, |log|)
    ensures !cfg.Clean() ==> ResumedSequence(cfg, key).None?
  {
    if !cfg.Clean() {
      UncleanNeverResumes(cfg, key);
    } else if ResumedSequence(cfg, key).Some? {
      ResumedKeyIsOfRegion(cfg, key);
      var n: nat :| 0 < n <= |log| && key == cfg.EntryKey(n);
      CleanKeyIsResumed(cfg, n);
    }
  }

  /** The last stored entry is among the listed keys, so the highest number found reaches it. */
  lemma ResumesAtLast(objects: Objects, cfg: Config, log: seq<Entry>, keys: seq<ByteString>, maxSeq: int)
    requires cfg.Clean() && Holds(objects, cfg, log) && log != []
    requires Lists(keys, objects.Keys, cfg.prefix + [SLASH])
    requires forall j :: 0 <= j < |keys| ==> ResumedAtMost(cfg, keys[j], maxSeq)
    ensures |log| <= maxSeq
  {
    var last := cfg.EntryKey(|log|);
    assert cfg.prefix + [SLASH] <= last;
    CleanKeyIsResumed(cfg, |log|);
    assert last in keys;
  }

  /** The highest sequence that a restarting writer reads from the listed keys, or 0. */
  function HighestResumed(cfg: Config, keys: seq<ByteString>): (sequence: Int64)
    ensures sequence >= 0
  {
    if keys == [] then 0 else
    var before := HighestResumed(cfg, keys[..|keys| - 1]);
    var parsed := ResumedSequence(cfg, keys[|keys| - 1]);
    if parsed.Some? && parsed.value > before then parsed.value else before
  }

  lemma {:induction false} HighestBounds(objects: Objects, cfg: Config, log: seq<Entry>, keys: seq<ByteString>)
    requires cfg.Valid() && Holds(objects, cfg, log)
    requires forall j :: 0 <= j < |keys| ==> keys[j] in objects && cfg.prefix + [SLASH] <= keys[j]
    ensures 0 <= HighestResumed(cfg, keys) <= |log| && (!cfg.Clean() ==> HighestResumed(cfg, keys) == 0)
    ensures forall j :: 0 <= j < |keys| ==> ResumedAtMost(cfg, keys[j], HighestResumed(cfg, keys))
  {
    hide ResumedSequence, Holds, Config.Clean, Config.Valid;
    if keys != [] {
      var front, last := keys[..|keys| - 1], keys[|keys| - 1];
      HighestBounds(objects, cfg, log, front);
      BoundsResumed(objects, cfg, log, last);
      assert forall j :: 0 <= j < |front| ==> front[j] == keys[j];
    }
  }

  /** The end of the log if the configuration is clean, and 0 otherwise. */
  lemma ResumesAtEnd(objects: Objects, cfg: Config, log: seq<Entry>, keys: seq<ByteString>)
    requires cfg.Valid() && Holds(objects, cfg, log) && Lists(keys, objects.Keys, cfg.prefix + [SLASH])
    ensures HighestResumed(cfg, keys) == if cfg.Clean() then |log| else 0
  {
    hide ResumedSequence, Holds, Config.Clean, HighestResumed;
    forall j | 0 <= j < |keys|
      ensures keys[j] in objects && cfg.prefix + [SLASH] <= keys[j]
    {
      assert keys[j] in keys;
    }
    HighestBounds(objects, cfg, log, keys);
    if cfg.Clean() && log != [] {
      ResumesAtLast(objects, cfg, log, keys, HighestResumed(cfg, keys));
    }
  }

  /** A *Entry: the writer keeps the caller's object in its buffer. */
  class EntryCell {
    var e: Entry
    constructor (e: Entry)
      ensures this.e == e
    {
      this.e := e;
    }
  }

  datatype WriteError = ErrClosed | NilEntry | MismatchedRegion | MarshalFailed | FlushFailed

  datatype Appended = Success | Failure(error: WriteError) {
    /** The entry is in the log or in the buffer, whatever the caller was told. */
    predicate Accepted() { Success? || error.FlushFailed? }
  }

  /** Sequence numbers are int64: after the largest one comes the smallest. */
  function NextSequence(n: Int64): Int64 {
    if n == MAX_INT64 then -MAX_INT64 - 1 else n + 1
  }

  /** The entries in a buffer of cells, read now. */
  ghost function Values(cells: seq<EntryCell>): (entries: seq<Entry>)
    reads cells
    ensures |entries| == |cells| && forall i :: 0 <= i < |cells| ==> entries[i] == cells[i].e
  {
    seq(|cells|, i requires 0 <= i < |cells| reads cells => cells[i].e)
  }

  /**
   The store holds the gap-free prefix 1..d; the buffer is a consecutive run ending at
   `sequence` and starting at or before d + 1, and agrees with the store where they overlap.
   */
  ghost predicate Consistent(objects: Objects, cfg: Config, log: seq<Entry>, buffer: seq<Entry>, sequence: int) {
    var flushed := sequence - |buffer|;
    && Holds(objects, cfg, log)
    && 0 <= flushed <= |log| <= sequence
    && (forall i :: 0 <= i < |buffer| ==> Places(cfg, buffer[i], flushed + 1 + i))
    && (forall i :: 0 <= i < |buffer| && flushed + i < |log| ==> buffer[i] == log[flushed + i])
  }

  /** Every accepted entry in order: the durable ones, then those only in the buffer. */
  ghost function Intended(log: seq<Entry>, buffer: seq<Entry>, sequence: int): (all: seq<Entry>)
    requires 0 <= sequence - |buffer| <= |log| <= sequence
    ensures |all| == sequence && log <= all
  {
    log + buffer[|log| - (sequence - |buffer|)..]
  }

  /** One put of a flush: the k-th buffered entry, everything before it being durable already. */
  lemma FlushStep(objects: Objects, cfg: Config, log: seq<Entry>, buffer: seq<Entry>, sequence: int, k: nat)
    returns (log': seq<Entry>)
    requires Consistent(objects, cfg, log, buffer, sequence) && sequence <= MAX_INT64
    requires k < |buffer| && sequence - |buffer| + k <= |log|
    ensures Consistent(objects[cfg.EntryKey(buffer[k].sequence) := Encode(buffer[k])], cfg, log', buffer, sequence)
    ensures log <= log' && |log'| >= sequence - |buffer| + k + 1
    ensures Intended(log', buffer, sequence) == Intended(log, buffer, sequence)
  {
    hide Encode, Stamped, Config.EntryKey, Config.RegionPrefix;
    var n: nat := sequence - |buffer| + k + 1;
    if n <= |log| {
      PutRepeatsLog(objects, cfg, log, n);
      log' := log;
    } else {
      PutExtendsLog(objects, cfg, log, buffer[k]);
      log' := log + [buffer[k]];
      assert buffer[k..] == [buffer[k]] + buffer[k + 1..];
    }
  }

  /** After the last put of a flush the buffer may be dropped. */
  lemma FlushedIsConsistent(objects: Objects, cfg: Config, log: seq<Entry>, buffer: seq<Entry>, sequence: int)
    requires Consistent(objects, cfg, log, buffer, sequence) && |log| >= sequence
    ensures |log| == sequence && Consistent(objects, cfg, log, [], sequence)
    ensures Intended(log, [], sequence) == Intended(log, buffer, sequence) == log
  {
    hide Holds, Places;
  }

  lemma EnqueueStep(objects: Objects, cfg: Config, log: seq<Entry>, buffer: seq<Entry>, sequence: int, e: Entry)
    requires Consistent(objects, cfg, log, buffer, sequence) && Places(cfg, e, sequence + 1)
    ensures Consistent(objects, cfg, log, buffer + [e], sequence + 1)
    ensures Intended(log, buffer + [e], sequence + 1) == Intended(log, buffer, sequence) + [e]
  {
    hide Holds, Places;
    var from := |log| - (sequence - |buffer|);
    assert (buffer + [e])[from..] == buffer[from..] + [e];
  }

  lemma EmptyBufferIsDurable(objects: Objects, cfg: Config, log: seq<Entry>, buffer: seq<Entry>, sequence: int)
    requires Consistent(objects, cfg, log, buffer, sequence) && buffer == []
    ensures |log| == sequence
  {
  }

  lemma RenumberedBufferIsInconsistent(
    objects: Objects, cfg: Config, log: seq<Entry>, buffer: seq<Entry>, sequence: int, i: nat)
    requires i < |buffer| - 1 && buffer[i].sequence == sequence
    ensures !Consistent(objects, cfg, log, buffer, sequence)
  {
    hide Holds;
    assert !Places(cfg, buffer[i], sequence - |buffer| + 1 + i);
  }

  class Writer {
    const cfg: Config
    const batchSize: nat
    const store: ObjectStore
    var closed: bool
    var closing: bool
    var sequence: Int64
    var pending: seq<EntryCell>
    /** The durable entries. */
    ghost var log: seq<Entry>

    ghost predicate Valid()
      reads this, store, pending
      ensures Valid() ==> Holds(store.objects, cfg, log) && 0 <= sequence - |pending| <= |log| <= sequence
    {
      Consistent(store.objects, cfg, log, Values(pending), sequence)
    }

    ghost function All(): (all: seq<Entry>)
      requires Valid()
      reads this, store, pending
      ensures |all| == sequence && log <= all
    {
      Intended(log, Values(pending), sequence)
    }

    constructor (cfg: Config, batchSize: nat, store: ObjectStore, ghost log: seq<Entry>)
      ensures this.cfg == cfg && this.batchSize == batchSize && this.store == store && this.log == log
      ensures !closed && !closing && sequence == 0 && pending == []
    {
      this.cfg, this.batchSize, this.store, this.log := cfg, batchSize, store, log;
      closed, closing, sequence, pending := false, false, 0, [];
    }

    /**
     Finds the highest sequence among the listed keys. The writer continues at d + 1 exactly
     when the region holds no '/' and the prefix does not end in one; otherwise it starts over
     at 1, on top of whatever the log holds.
     */
    method ResumeSequence() returns (ok: bool)
      requires cfg.Valid() && Holds(store.objects, cfg, log) && sequence == 0 && pending == []
      modifies this`sequence
      ensures !ok ==> sequence == 0
      ensures ok ==> sequence == if cfg.Clean() then |log| else 0
      ensures ok ==> (Valid() <==> cfg.Clean() || log == [])
    {
      hide ResumedSequence, Config.EntryKey, Places, Encode;
      var listed := store.List(cfg.prefix + [SLASH]);
      if listed.None? {
        return false;
      }
      var keys := listed.value;
      var maxSeq := 0;
      for k := 0 to |keys|
        invariant maxSeq == HighestResumed(cfg, keys[..k])
      {
        assert keys[..k + 1][..k] == keys[..k];
        var parsed := ResumedSequence(cfg, keys[k]);
        if parsed.Some? && parsed.value > maxSeq {
          maxSeq := parsed.value;
        }
      }
      assert keys[..|keys|] == keys;
      ResumesAtEnd(store.objects, cfg, log, keys);
      sequence := maxSeq;
      return true;
    }

    /** Writes the buffer out in order; whatever happens, no accepted entry is lost, reordered or changed. */
    method FlushLocked() returns (ok: bool)
      modifies this`pending, this`log, store
      ensures pending == if ok then [] else old(pending)
      ensures old(Valid()) ==> Valid() && old(log) <= log && All() == old(All())
      ensures old(Valid()) && ok ==> |log| == sequence
    {
      hide Consistent, Intended, Holds, Places, Encode, Stamped, Config.EntryKey;
      ghost var good, buffer := Valid(), Values(pending);
      for k := 0 to |pending|
        invariant pending == old(pending) && Values(pending) == buffer
        invariant good ==> Valid() && old(log) <= log && All() == old(All())
        invariant good ==> sequence - |pending| + k <= |log|
      {
        var data, stamped := MarshalBinary(pending[k].e);
        if data.Err? {
          return false;
        }
        ghost var before := store.objects;
        var put := store.Put(cfg.EntryKey(pending[k].e.sequence), data.value);
        if good && (put || store.objects != before) {
          log := FlushStep(before, cfg, log, buffer, sequence, k);
        }
        if !put {
          return false;
        }
      }
      if good {
        FlushedIsConsistent(store.objects, cfg, log, buffer, sequence);
      }
      pending := [];
      assert Values(pending) == [];
      return true;
    }

    /**
     The part of append before the flush: number the entry, check that it marshals, and buffer it.
     Buffering an object that is still in the buffer renumbers the buffered entry, so the writer
     stays consistent exactly when the object is new.
     */
    method Enqueue(entry: EntryCell?, now: Int64) returns (r: Appended)
      requires Valid()
      modifies this`sequence, this`pending, entry
      ensures r.Failure? ==> !r.error.FlushFailed? && sequence == old(sequence) && pending == old(pending)
      ensures r.Failure? && (entry == null || entry !in pending) ==> Valid()
      ensures r == Failure(ErrClosed) <==> closed || closing
      ensures r == Failure(NilEntry) <==> !closed && !closing && entry == null
      ensures r == Failure(MismatchedRegion) <==>
        !closed && !closing && entry != null && old(entry.e.region) != [] && old(entry.e.region) != cfg.region
      ensures r.Success? ==> entry != null && sequence == old(sequence) + 1 && pending == old(pending) + [entry]
      ensures r.Success? ==> Places(cfg, entry.e, sequence)
      ensures r.Success? ==>
        entry.e == old(entry.e).(sequence := sequence, region := cfg.region, timestamp := now, crc := entry.e.crc)
      ensures r.Success? ==> (Valid() <==> entry !in old(pending))
      ensures r.Success? && Valid() ==> All() == old(All()) + [entry.e]
    {
      hide Consistent, Intended, Holds, Places, Marshals, Stamped, Encode;
      if closed || closing {
        return Failure(ErrClosed);
      }
      if entry == null {
        return Failure(NilEntry);
      }
      if entry.e.region != [] && entry.e.region != cfg.region {
        return Failure(MismatchedRegion);
      }
      ghost var buffer := Values(pending);
      var next := NextSequence(sequence);
      entry.e := entry.e.(sequence := next, region := cfg.region, timestamp := now);
      var data, stamped := MarshalBinary(entry.e);
      if data.Err? {
        entry.e := entry.e.(sequence := 0);
        assert entry !in pending ==> Values(pending) == buffer;
        return Failure(MarshalFailed);
      }
      StampedPlaces(cfg, entry.e);
      entry.e := stamped;
      sequence := next;
      pending := pending + [entry];
      if entry !in old(pending) {
        assert Values(pending) == buffer + [entry.e];
        EnqueueStep(store.objects, cfg, log, buffer, old(sequence), entry.e);
      } else {
        var i :| 0 <= i < |old(pending)| && old(pending)[i] == entry;
        assert pending[i] == entry;
        RenumberedBufferIsInconsistent(store.objects, cfg, log, Values(pending), sequence, i);
      }
      return Success;
    }

    /**
     append. An entry object that is not already in the buffer is either refused, leaving the
     log as it was, or becomes the next entry for good, even when the caller is told that the
     flush failed. A successful durable append leaves every accepted entry in the store.
     */
    method Append(entry: EntryCell?, durable: bool, now: Int64) returns (r: Appended)
      requires Valid()
      modifies this`sequence, this`pending, this`log, store, entry
      ensures entry == null || entry !in old(pending) ==> Valid() && old(log) <= log
      ensures forall c :: c in pending ==> c in old(pending) || c == entry
      ensures !r.Accepted() ==> sequence == old(sequence) && pending == old(pending) && log == old(log)
      ensures !r.Accepted() ==> store.objects == old(store.objects)
      ensures r.Accepted() ==> entry != null && sequence == old(sequence) + 1 && Places(cfg, entry.e, sequence)
      ensures r.Accepted() ==>
        entry.e == old(entry.e).(sequence := sequence, region := cfg.region, timestamp := now, crc := entry.e.crc)
      ensures r.Accepted() && entry !in old(pending) ==> All() == old(All()) + [entry.e]
      ensures r.Success? && entry !in old(pending) && durable ==> pending == [] && log == All()
      ensures r.Success? ==> pending == [] || |pending| < batchSize
      ensures r.Success? && !durable && |old(pending)| + 1 < batchSize ==>
        pending == old(pending) + [entry] && store.objects == old(store.objects)
      ensures closed || closing ==> r == Failure(ErrClosed)
    {
      hide Consistent;
      r := Enqueue(entry, now);
      if r.Success? && (durable || |pending| >= batchSize) {
        var ok := FlushLocked();
        if !ok {
          r := Failure(FlushFailed);
        }
      }
    }

    /** One tick of the background flusher. */
    method Tick()
      requires Valid()
      modifies this`pending, this`log, store
      ensures Valid() && old(log) <= log && All() == old(All())
      ensures pending == [] || pending == old(pending)
      ensures closed ==> pending == old(pending) && store.objects == old(store.objects)
    {
      if !closed && |pending| > 0 {
        var _ := FlushLocked();
      }
    }

    /** Close, up to the point where it waits for the flusher without the lock. */
    method BeginClose() returns (proceed: bool)
      modifies this`closing
      ensures proceed == !old(closed || closing)
      ensures closing == (old(closing) || proceed)
    {
      proceed := !(closed || closing);
      if proceed {
        closing := true;
      }
    }

    /** The rest of Close: a writer that closed successfully has nothing left in its buffer. */
    method FinishClose() returns (ok: bool)
      requires Valid() && closing
      modifies this`pending, this`log, this`closed, this`closing, store
      ensures Valid() && old(log) <= log && All() == old(All())
      ensures !closing && closed == if ok then true else old(closed)
      ensures pending == [] || pending == old(pending)
      ensures ok ==> log == All()
    {
      hide Consistent;
      ok := true;
      if |pending| > 0 {
        ok := FlushLocked();
      } else {
        EmptyBufferIsDurable(store.objects, cfg, log, Values(pending), sequence);
      }
      if ok {
        closed := true;
      }
      closing := false;
    }
  }
}
