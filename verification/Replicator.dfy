/**
 The replicator's loop (control-plane/replication/runtime/replicator.go) over the recovery reader,
 and the saved progress it advances (control-plane/replication/adapters/progress.go).
 */
module ReplicatorLoop {
  import opened Outcomes
  import opened Bytes
  import opened WalCodec
  import opened WalKeys
  import opened WalLog
  import opened WalReading
  import opened Sorting

  function Max(a: int, b: int): int { if a >= b then a else b }

  datatype Pair = Pair(source: ByteString, target: ByteString)

  class ProgressStore {
    var acknowledged: map<Pair, nat>

    ghost function Mark(pair: Pair): nat
      reads this
    {
      if pair in acknowledged then acknowledged[pair] else 0
    }

    /** Upsert with GREATEST: the mark never falls; an error leaves it unknown which value it has. */
    method SaveReplicationProgress(pair: Pair, sequence: int) returns (ok: bool)
      modifies this
      ensures Mark(pair) == old(Mark(pair)) || Mark(pair) == Max(old(Mark(pair)), sequence)
      ensures ok ==> sequence >= 0 && Mark(pair) == Max(old(Mark(pair)), sequence)
      ensures forall other :: other != pair ==> Mark(other) == old(Mark(other))
    {
      if sequence < 0 {
        return false;
      }
      ok := *;
      var applied: bool := *;
      if ok || applied {
        acknowledged := acknowledged[pair :=
          if pair in acknowledged then Max(acknowledged[pair], sequence) else sequence];
      }
    }

    method LoadReplicationProgress(pair: Pair) returns (stored: Option<nat>)
      ensures stored.Some? ==> stored.value == Mark(pair)
    {
      if * {
        return None;
      }
      return Some(if pair in acknowledged then acknowledged[pair] else 0);
    }

    /** The resume decision of Runtime.Start: the larger of the configured and the saved sequence. */
    method ResumeFrom(pair: Pair, configured: nat) returns (since: Option<nat>)
      ensures since.Some? ==> since.value == Max(configured, Mark(pair))
    {
      var stored := LoadReplicationProgress(pair);
      if stored.None? {
        return None;
      }
      return Some(if stored.value > configured then stored.value else configured);
    }
  }

  function SequenceOf(e: Entry): int { e.sequence }

  lemma {:induction false} SortedAlready(entries: seq<Entry>)
    requires forall i, j :: 0 <= i < j < |entries| ==> entries[i].sequence < entries[j].sequence
    ensures Sorted(entries, SequenceOf) == entries
  {
    if entries != [] {
      var rest := entries[1..];
      SortedAlready(rest);
      assert rest != [] ==> SequenceOf(entries[0]) <= SequenceOf(rest[0]);
      assert Insert(entries[0], rest, SequenceOf) == [entries[0]] + rest;
      assert Sorted(entries, SequenceOf) == Insert(entries[0], Sorted(rest, SequenceOf), SequenceOf);
    }
  }

  /** Consecutive numbers, all above `since`. */
  predicate Contiguous(since: int, entries: seq<Entry>) {
    && (entries != [] ==> entries[0].sequence > since)
    && forall i :: 0 <= i < |entries| ==> entries[i].sequence == entries[0].sequence + i
  }

  class Replicator {
    const reader: RecoveryReader
    const progress: ProgressStore
    const pair: Pair
    const batchSize: nat

    constructor (reader: RecoveryReader, progress: ProgressStore, pair: Pair, batchSize: nat)
      ensures this.reader == reader && this.progress == progress && this.pair == pair && this.batchSize == batchSize
    {
      this.reader, this.progress, this.pair, this.batchSize := reader, progress, pair, batchSize;
    }

    /** The check inside Run: entries of one read have no gap between them. Nothing ties the first one to `since`. */
    method GapFree(entries: seq<Entry>, since: int) returns (ok: bool)
      ensures ok <==> Contiguous(since, entries)
    {
      for i := 0 to |entries|
        invariant forall j :: 0 <= j < i ==> entries[j].sequence == entries[0].sequence + j
        invariant i > 0 ==> entries[0].sequence > since
      {
        if entries[i].sequence <= since || (i > 0 && entries[i].sequence != entries[i - 1].sequence + 1) {
          return false;
        }
      }
      return true;
    }

    /**
     One turn of Run's outer loop. What is sent is consecutive and above `since`; over the writer's
     store it is exactly the next piece of the log, so nothing is skipped. Over any store it starts
     right after `since` if and only if the next object is there. The new position is the last
     entry whose progress was saved, and the saved mark never passes what was sent. A turn that does not stop
     has sent everything there is to read, or a full batch, and saved its progress.
     */
    method Turn(since: nat, ghost log: seq<Entry>) returns (stopped: bool, next: nat, sent: seq<Entry>)
      modifies progress
      ensures Contiguous(since, sent) && |sent| <= batchSize
      ensures !stopped && |sent| > 0 ==>
        progress.Mark(pair) == Max(old(progress.Mark(pair)), next) && next == sent[|sent| - 1].sequence
      ensures !stopped && |sent| < batchSize ==> IsReading(reader.store.objects, reader.cfg, since, sent)
      ensures |sent| == 0 ==> next == since && progress.Mark(pair) == old(progress.Mark(pair))
      ensures |sent| > 0 ==> next == sent[|sent| - 1].sequence || (stopped && next < sent[|sent| - 1].sequence)
      ensures |sent| > 0 ==> progress.Mark(pair) <= Max(old(progress.Mark(pair)), sent[|sent| - 1].sequence)
      ensures old(progress.Mark(pair)) <= progress.Mark(pair)
      ensures Holds(reader.store.objects, reader.cfg, log) ==> sent == Slice(log, since, |sent|)
      ensures |sent| > 0 && since < MAX_INT64 ==>
        (sent[0].sequence == since + 1 <==> reader.cfg.EntryKey(since + 1) in reader.store.objects)
    {
      hide Holds, Sorted, ReadsSlice, Slice, StrictlyAfter, IsReading, Config.EntryKey;
      var read := reader.ReadEntries(since, log);
      if read.Failed? {
        EmptySlice(log, since);
        return true, since, [];
      }
      var entries := read.value;
      if since < MAX_INT64 {
        FirstIsNextIff(reader.store.objects, reader.cfg, since, entries);
      }
      AlreadySorted(since, entries);
      entries := Sorted(entries, SequenceOf);
      var ok := GapFree(entries, since);
      if !ok {
        EmptySlice(log, since);
        return true, since, [];
      }
      if |entries| > batchSize {
        entries := entries[..batchSize];
      }
      stopped, next, sent := SendAll(entries, since);
      if Holds(reader.store.objects, reader.cfg, log) {
        PrefixOfSlice(read, log, since, sent);
      }
    }

    method SendAll(entries: seq<Entry>, since: nat) returns (stopped: bool, next: nat, sent: seq<Entry>)
      requires Contiguous(since, entries)
      modifies progress
      ensures sent <= entries && (!stopped ==> sent == entries)
      ensures !stopped && |sent| > 0 ==> progress.Mark(pair) == Max(old(progress.Mark(pair)), next)
      ensures |sent| == 0 ==> next == since && progress.Mark(pair) == old(progress.Mark(pair))
      ensures |sent| > 0 ==> next == sent[|sent| - 1].sequence || (stopped && next < sent[|sent| - 1].sequence)
      ensures |sent| > 0 ==> progress.Mark(pair) <= Max(old(progress.Mark(pair)), sent[|sent| - 1].sequence)
      ensures old(progress.Mark(pair)) <= progress.Mark(pair)
    {
      next, sent := since, [];
      for i := 0 to |entries|
        invariant sent == entries[..i]
        invariant next == if i == 0 then since else entries[i - 1].sequence
        invariant old(progress.Mark(pair)) <= progress.Mark(pair)
        invariant i == 0 ==> progress.Mark(pair) == old(progress.Mark(pair))
        invariant i > 0 ==> progress.Mark(pair) == Max(old(progress.Mark(pair)), next)
      {
        if entries[i].sequence <= next {
          return true, next, sent;
        }
        var delivered: bool := *;
        if !delivered {
          return true, next, sent;
        }
        sent := sent + [entries[i]];
        var saved := progress.SaveReplicationProgress(pair, entries[i].sequence);
        if !saved {
          return true, next, sent;
        }
        next := entries[i].sequence;
      }
      return false, next, sent;
    }
  }

  lemma AlreadySorted(since: int, entries: seq<Entry>)
    requires StrictlyAfter(since, entries)
    ensures Sorted(entries, SequenceOf) == entries
  {
    SortedAlready(entries);
  }

  lemma PrefixOfSlice(read: Read<seq<Entry>>, log: seq<Entry>, since: nat, sent: seq<Entry>)
    requires read.Done? && ReadsSlice(read, Slice(log, since, |log|)) && sent <= read.value
    ensures sent == Slice(log, since, |sent|)
  {
  }

  lemma WantsTheOnly(cfg: Config, since: nat, n: nat)
    requires since < n <= MAX_INT64
    ensures Wanted([cfg.EntryKey(n)], since) == [n]
  {
    hide PositiveSequenceOfKey, Config.EntryKey;
    var keys, one: seq<int> := [cfg.EntryKey(n)], [n];
    KeyIsScanned(cfg, n);
    assert keys[..0] == [] && Collected(PositiveSequenceOfKey, keys, since + 1, true) == one;
    assert one[1..] == [] && Sorted(one, Self) == one;
  }

  lemma SomeEntry(cfg: Config, n: nat) returns (e: Entry)
    requires |cfg.region| <= MAX_FIELD && 0 < n <= MAX_INT64
    ensures Places(cfg, e, n) && Decodable(e)
  {
    hide Encode, Body;
    var plain := Entry(n, cfg.region, 0, [0x61, 0x62, 0x63, 0x64], [], 0, 0);
    StampedPlaces(cfg, plain);
    e := Stamped(plain);
  }

  lemma OnlyOneListed(cfg: Config, n: nat, data: ByteString)
    ensures Lists([cfg.EntryKey(n)], map[cfg.EntryKey(n) := data].Keys, cfg.RegionPrefix())
  {
    assert cfg.RegionPrefix() <= cfg.EntryKey(n);
    hide Config.RegionPrefix, Config.EntryKey;
  }

  /**
   For every configuration and position, a store that holds a later entry n and not the next one: entry
   n is read, passes the contiguity check, and would be sent with the entries before it skipped.
   */
  lemma GapBeforeFirstPasses(cfg: Config, since: nat, n: nat) returns (objects: Objects, entries: seq<Entry>)
    requires |cfg.region| <= MAX_FIELD && since + 1 < n <= MAX_INT64
    ensures cfg.EntryKey(n) in objects && cfg.EntryKey(since + 1) !in objects
    ensures IsReading(objects, cfg, since, entries) && Contiguous(since, entries)
    ensures |entries| == 1 && entries[0].sequence == n
  {
    hide Encode, Decode, Stamped, Config.EntryKey, Config.RegionPrefix, Wanted, Lists;
    var key := cfg.EntryKey(n);
    var e := SomeEntry(cfg, n);
    objects, entries := map[key := Encode(e)], [e];
    DecodeOfEncode(e);
    EntryKeysDiffer(cfg, since + 1, n);
    WantsTheOnly(cfg, since, n);
    OnlyOneListed(cfg, n, Encode(e));
    assert Fetches(objects, cfg, Wanted([key], since), entries);
  }
}
