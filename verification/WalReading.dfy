/**
 The two readers of the log: the sequential WAL reader (control-plane/replication/wal/wal.go)
 and the recovery adapter the replicator uses (control-plane/replication/adapters/adapters.go).
 */
module WalReading {
  import opened Outcomes
  import opened Bytes
  import opened WalCodec
  import opened WalKeys
  import opened WalLog
  import opened Sorting

  datatype ReadError = Io | Gap | Corrupt(cause: WalCodec.Error) | BadArgument

  datatype Read<+T> = Done(value: T) | Failed(error: ReadError)

  /** At most `count` entries of the log after sequence `after`. */
  function Slice(log: seq<Entry>, after: nat, count: nat): (entries: seq<Entry>)
    ensures |entries| <= count
  {
    if after >= |log| then []
    else if after + count >= |log| then log[after..]
    else log[after..after + count]
  }

  // ----- collecting sequence numbers from listed keys

  type Scanner = ByteString -> Option<int>

  function ReaderScan(key: ByteString): Option<int> { Some(SequenceOfKey(key)) }

  /** The numbers scanned from the keys that are at least `floor`, each once if `once`. */
  function Collected(scan: Scanner, keys: seq<ByteString>, floor: int, once: bool): seq<int> {
    if keys == [] then [] else
    var found := Collected(scan, keys[..|keys| - 1], floor, once);
    var n := scan(keys[|keys| - 1]);
    if n.None? || n.value < floor || (once && n.value in found) then found else found + [n.value]
  }

  ghost predicate Inverts(scan: Scanner, cfg: Config) {
    forall n: nat {:trigger cfg.EntryKey(n)} :: 0 < n <= MAX_INT64 ==> scan(cfg.EntryKey(n)) == Some(n)
  }

  lemma ScannersInvert(cfg: Config)
    ensures Inverts(ReaderScan, cfg) && Inverts(PositiveSequenceOfKey, cfg)
  {
    hide SequenceOfKey, PositiveSequenceOfKey, Config.EntryKey;
    forall n: nat | 0 < n <= MAX_INT64
      ensures ReaderScan(cfg.EntryKey(n)) == Some(n) && PositiveSequenceOfKey(cfg.EntryKey(n)) == Some(n)
    {
      KeyIsScanned(cfg, n);
    }
  }

  /** From distinct entry keys, every number at or above the floor is collected exactly once. */
  lemma {:induction false} CollectsKeys(
    scan: Scanner, cfg: Config, d: nat, keys: seq<ByteString>, floor: int, once: bool)
    requires Inverts(scan, cfg) && d <= MAX_INT64 && floor > 0
    requires forall i :: 0 <= i < |keys| ==> IsEntryKey(cfg, keys[i], d)
    requires Distinct(keys)
    ensures var found := Collected(scan, keys, floor, once);
      Distinct(found) && forall n: int :: n in found <==> floor <= n <= d && cfg.EntryKey(n) in keys
  {
    hide Config.EntryKey;
    if keys != [] {
      var last, front := keys[|keys| - 1], keys[..|keys| - 1];
      CollectsKeys(scan, cfg, d, front, floor, once);
      var m: nat :| 0 < m <= d && last == cfg.EntryKey(m);
      assert scan(last) == Some(m);
      assert last !in front;
      forall n: int | floor <= n <= d
        ensures cfg.EntryKey(n) in keys <==> cfg.EntryKey(n) in front || n == m
      {
        assert keys == front + [last];
        assert scan(cfg.EntryKey(n)) == Some(n);
      }
    }
  }

  /** Over the writer's store, sorting what was collected gives floor, floor+1, …, d. */
  lemma CollectsRun(
    scan: Scanner, objects: Objects, cfg: Config, log: seq<Entry>, keys: seq<ByteString>, floor: int, once: bool)
    requires Inverts(scan, cfg) && Holds(objects, cfg, log) && floor > 0
    requires Lists(keys, objects.Keys, cfg.RegionPrefix())
    ensures Sorted(Collected(scan, keys, floor, once), Self) == Run(floor, |log| + 1)
  {
    hide Sorted, Collected, Config.EntryKey, Places, Encode;
    var found := Collected(scan, keys, floor, once);
    forall i | 0 <= i < |keys|
      ensures IsEntryKey(cfg, keys[i], |log|)
    {
      assert keys[i] in keys;
    }
    CollectsKeys(scan, cfg, |log|, keys, floor, once);
    forall n: int
      ensures n in found <==> floor <= n < |log| + 1
    {
      if floor <= n <= |log| {
        EntryKeyIsListed(objects, cfg, log, keys, n);
      }
    }
    SortsToRun(found, floor, if floor <= |log| + 1 then |log| + 1 else floor);
  }

  lemma EntryKeyIsListed(objects: Objects, cfg: Config, log: seq<Entry>, keys: seq<ByteString>, n: nat)
    requires Holds(objects, cfg, log) && 0 < n <= |log| && Lists(keys, objects.Keys, cfg.RegionPrefix())
    ensures cfg.EntryKey(n) in keys
  {
    assert cfg.RegionPrefix() <= cfg.EntryKey(n);
  }

  method CollectLoop(scan: Scanner, keys: seq<ByteString>, floor: int, once: bool) returns (found: seq<int>)
    ensures found == Collected(scan, keys, floor, once)
  {
    found := [];
    for k := 0 to |keys|
      invariant found == Collected(scan, keys[..k], floor, once)
    {
      assert keys[..k + 1][..k] == keys[..k];
      var n := scan(keys[k]);
      if n.Some? && n.value >= floor && !(once && n.value in found) {
        found := found + [n.value];
      }
    }
    assert keys[..|keys|] == keys;
  }

  // ----- reading single entries

  /** What reading the object of sequence n gives when storage answers. */
  function Decoded(e: Entry): Read<Entry>
    requires Marshals(e)
  {
    if Decodable(e) then Done(Stamped(e)) else Failed(Corrupt(DataTooShort))
  }

  method ReadEntry(store: ObjectStore, cfg: Config, sequence: nat, ghost log: seq<Entry>) returns (r: Read<Entry>)
    ensures r.Failed? ==> r.error.Io? || r.error.Corrupt?
    ensures r.Done? ==> cfg.EntryKey(sequence) in store.objects
    ensures r.Done? ==> Decode(store.objects[cfg.EntryKey(sequence)]) == Ok(r.value)
    ensures Holds(store.objects, cfg, log) && 0 < sequence <= |log| ==>
      r == Failed(Io) || r == Decoded(log[sequence - 1])
  {
    hide Encode, Stamped, Config.EntryKey, Decode;
    var data := store.Get(cfg.EntryKey(sequence));
    if data.None? {
      return Failed(Io);
    }
    var e := UnmarshalBinary(data.value);
    if Holds(store.objects, cfg, log) && 0 < sequence <= |log| {
      DecodeOfEncode(log[sequence - 1]);
    }
    match e
    case Err(cause) => return Failed(Corrupt(cause));
    case Ok(entry) => return Done(entry);
  }

  /** The object of sequence n is there and holds the entry. */
  predicate Reads(objects: Objects, cfg: Config, n: int, e: Entry) {
    && n >= 0 && cfg.EntryKey(n) in objects && Decode(objects[cfg.EntryKey(n)]) == Ok(e)
    && e.sequence == n && e.region == cfg.region
  }

  predicate Fetches(objects: Objects, cfg: Config, sequences: seq<int>, entries: seq<Entry>) {
    |entries| == |sequences| && forall i :: 0 <= i < |entries| ==> Reads(objects, cfg, sequences[i], entries[i])
  }

  /** The sequences after `since` that the recovery reader finds in a listing, in order. */
  function Wanted(keys: seq<ByteString>, since: int): seq<int> {
    Sorted(Collected(PositiveSequenceOfKey, keys, since + 1, true), Self)
  }

  /** What the recovery reader returns when storage answers: the entries of every listed sequence after `since`. */
  ghost predicate IsReading(objects: Objects, cfg: Config, since: int, entries: seq<Entry>) {
    exists keys :: Lists(keys, objects.Keys, cfg.RegionPrefix()) && Fetches(objects, cfg, Wanted(keys, since), entries)
  }

  /** Entries read in a row: consecutive numbers after `after`, all of the reader's region. */
  predicate ReadInOrder(cfg: Config, after: int, entries: seq<Entry>) {
    forall i :: 0 <= i < |entries| ==> entries[i].sequence == after + 1 + i && entries[i].region == cfg.region
  }

  /** start, start+1, … without passing the end of the log. */
  predicate IsRunOf(sequences: seq<int>, start: int, log: seq<Entry>) {
    sequences == Run(start, start + |sequences|) && (sequences == [] || start + |sequences| <= |log| + 1)
  }

  /** Cutting the run of stored numbers to a count selects the same slice of the log. */
  lemma TruncatedRun(log: seq<Entry>, after: nat, count: nat, sequences: seq<int>)
    requires var all := Run(after + 1, |log| + 1);
      sequences == if |all| > count then all[..count] else all
    ensures IsRunOf(sequences, after + 1, log)
    ensures Slice(log, after, |sequences|) == Slice(log, after, count)
  {
  }

  class Reader {
    const cfg: Config
    const store: ObjectStore
    var lastReadSeq: nat

    constructor (cfg: Config, store: ObjectStore, resumeFrom: nat)
      ensures this.cfg == cfg && this.store == store && lastReadSeq == resumeFrom
    {
      this.cfg, this.store, lastReadSeq := cfg, store, resumeFrom;
    }

    /**
     The next entries of the log. Whatever the store holds, a batch that is returned continues the
     region's numbering without a gap, and a batch that is not leaves the position alone. Over the
     writer's store the batch is the next piece of the log; a gap is never reported, and the only
     failures are storage itself and an entry too short to decode.
     */
    method ReadBatch(maxCount: int, ghost log: seq<Entry>) returns (r: Read<seq<Entry>>)
      modifies this
      ensures r.Failed? ==> lastReadSeq == old(lastReadSeq)
      ensures r.Done? ==> ReadInOrder(cfg, old(lastReadSeq), r.value)
      ensures r.Done? ==> lastReadSeq == old(lastReadSeq) + |r.value|
      ensures Holds(store.objects, cfg, log) ==>
        ReadsSlice(r, Slice(log, old(lastReadSeq), if maxCount < 0 then 0 else maxCount))
    {
      hide Sorted, Collected, Holds, ReadsSlice, Lists, Inverts, Slice, Run, Config.RegionPrefix, Config.EntryKey;
      NothingRead(log, lastReadSeq, if maxCount < 0 then 0 else maxCount);
      if maxCount <= 0 {
        return Done([]);
      }
      var start := lastReadSeq + 1;
      var listed := store.List(cfg.RegionPrefix());
      if listed.None? {
        return Failed(Io);
      }
      var sequences := CollectLoop(ReaderScan, listed.value, start, false);
      sequences := Sorted(sequences, Self);
      if |sequences| > maxCount {
        sequences := sequences[..maxCount];
      }
      if Holds(store.objects, cfg, log) {
        ScannersInvert(cfg);
        CollectsRun(ReaderScan, store.objects, cfg, log, listed.value, start, false);
        TruncatedRun(log, lastReadSeq, maxCount, sequences);
      }
      r := ReadSequences(sequences, start, log);
      if r.Done? && |r.value| > 0 {
        lastReadSeq := r.value[|r.value| - 1].sequence;
      }
    }

    /** The loop of ReadBatch over the chosen sequence numbers. */
    method ReadSequences(sequences: seq<int>, start: nat, ghost log: seq<Entry>) returns (r: Read<seq<Entry>>)
      requires start > 0
      ensures r.Done? ==> ReadInOrder(cfg, start - 1, r.value)
      ensures r.Done? ==> |r.value| == |sequences|
      ensures Holds(store.objects, cfg, log) && IsRunOf(sequences, start, log) ==>
        ReadsSlice(r, Slice(log, start - 1, |sequences|))
    {
      hide Holds, Encode, Stamped, Decode, Config.EntryKey;
      var entries: seq<Entry> := [];
      ghost var good := Holds(store.objects, cfg, log) && IsRunOf(sequences, start, log);
      for k := 0 to |sequences|
        invariant |entries| == k && ReadInOrder(cfg, start - 1, entries)
        invariant good && k > 0 ==> entries == log[start - 1..start - 1 + k]
        invariant good ==> forall e :: e in entries ==> Decodable(e)
      {
        var n := sequences[k];
        if n != start + |entries| {
          return Failed(Gap);
        }
        var read := ReadEntry(store, cfg, n, log);
        if good {
          LogEntryPlaces(store.objects, cfg, log, n);
        }
        if read.Failed? {
          return Failed(read.error);
        }
        if read.value.sequence != n || read.value.region != cfg.region {
          return Failed(Gap);
        }
        entries := entries + [read.value];
      }
      return Done(entries);
    }

    /** ReadNext: the entry after the last one read, or an unchanged position. */
    method ReadNext(ghost log: seq<Entry>) returns (r: Read<Entry>)
      modifies this
      ensures r.Failed? ==> lastReadSeq == old(lastReadSeq)
      ensures r.Done? ==> lastReadSeq == old(lastReadSeq) + 1 == r.value.sequence && r.value.region == cfg.region
      ensures Holds(store.objects, cfg, log) && old(lastReadSeq) < |log| ==>
        r == Failed(Io) || r == Decoded(log[old(lastReadSeq)])
    {
      hide Encode, Stamped;
      var start := lastReadSeq + 1;
      var read := ReadEntry(store, cfg, start, log);
      if Holds(store.objects, cfg, log) && start <= |log| {
        LogEntryPlaces(store.objects, cfg, log, start);
      }
      if read.Failed? {
        return Failed(read.error);
      }
      if read.value.sequence != start || read.value.region != cfg.region {
        return Failed(Gap);
      }
      lastReadSeq := read.value.sequence;
      return Done(read.value);
    }
  }

  lemma FetchedAscend(objects: Objects, cfg: Config, since: int, sequences: seq<int>, entries: seq<Entry>)
    requires Fetches(objects, cfg, sequences, entries)
    requires forall i, j :: 0 <= i < j < |sequences| ==> sequences[i] < sequences[j]
    requires forall n :: n in sequences ==> n > since
    ensures StrictlyAfter(since, entries)
  {
    hide Decode, Config.EntryKey;
    assert forall i :: 0 <= i < |sequences| ==> sequences[i] in sequences;
  }

  /** Over the writer's store the object of a sequence of the log holds its entry, if that can be decoded. */
  lemma LogIsRead(objects: Objects, cfg: Config, log: seq<Entry>, n: nat, e: Entry)
    requires Holds(objects, cfg, log) && 0 < n <= |log|
    ensures Reads(objects, cfg, n, e) <==> e == log[n - 1] && Decodable(e)
  {
    hide Decode, Encode, Config.EntryKey;
    DecodeOfEncode(log[n - 1]);
  }

  lemma FetchedIsSlice(
      objects: Objects, cfg: Config, log: seq<Entry>, since: nat, sequences: seq<int>, entries: seq<Entry>)
    requires Holds(objects, cfg, log) && IsRunOf(sequences, since + 1, log) && Fetches(objects, cfg, sequences, entries)
    ensures ReadsSlice(Done(entries), Slice(log, since, |sequences|))
  {
    hide Holds, Reads;
    forall i | 0 <= i < |entries|
      ensures entries[i] == log[since + i] && Decodable(entries[i])
    {
      assert sequences[i] == since + 1 + i;
      LogIsRead(objects, cfg, log, since + 1 + i, entries[i]);
    }
    assert entries == Slice(log, since, |sequences|);
  }

  lemma FailureIsInSlice(
    objects: Objects, cfg: Config, log: seq<Entry>, since: nat, sequences: seq<int>, k: nat, error: ReadError)
    requires Holds(objects, cfg, log) && IsRunOf(sequences, since + 1, log) && k < |sequences|
    requires 0 < sequences[k] <= |log| ==> error == Io || Failed(error) == Decoded(log[sequences[k] - 1])
    ensures ReadsSlice(Failed(error), Slice(log, since, |sequences|))
  {
    hide Encode;
    assert sequences[k] == since + 1 + k;
    assert Slice(log, since, |sequences|)[k] == log[since + k];
  }

  /** The replicator's reader: it cuts one trailing slash from the configured prefix. */
  class RecoveryReader {
    const cfg: Config
    const store: ObjectStore

    constructor (configured: Config, store: ObjectStore)
      ensures this.store == store && cfg == Config(TrimSlash(configured.prefix), configured.region)
      ensures TrimSlash(configured.prefix) == configured.prefix ==> cfg == configured
    {
      this.cfg, this.store := Config(TrimSlash(configured.prefix), configured.region), store;
    }

    /**
     ReadEntries: everything after `since`. Whatever the store holds, the numbers returned are
     strictly increasing and above `since`; over the writer's store they are the rest of the log.
     Nothing here refuses a gap: that the first entry is since + 1 rests on the writer.
     */
    method ReadEntries(since: int, ghost log: seq<Entry>) returns (r: Read<seq<Entry>>)
      ensures since < 0 ==> r == Failed(BadArgument)
      ensures r.Done? ==> StrictlyAfter(since, r.value) && IsReading(store.objects, cfg, since, r.value)
      ensures since >= 0 && Holds(store.objects, cfg, log) ==> ReadsSlice(r, Slice(log, since, |log|))
    {
      hide Sorted, Collected, Holds, Lists, Inverts, Slice, Config.RegionPrefix;
      if since < 0 {
        return Failed(BadArgument);
      }
      var listed := store.List(cfg.RegionPrefix());
      if listed.None? {
        return Failed(Io);
      }
      var found := CollectLoop(PositiveSequenceOfKey, listed.value, since + 1, true);
      var sequences := Sorted(found, Self);
      assert sequences == Wanted(listed.value, since);
      WantedAscends(listed.value, since);
      if Holds(store.objects, cfg, log) {
        ScannersInvert(cfg);
        CollectsRun(PositiveSequenceOfKey, store.objects, cfg, log, listed.value, since + 1, true);
        TruncatedRun(log, since, |log|, sequences);
      }
      hide Wanted, Fetches;
      r := FetchEntries(sequences, since, log);
    }

    method FetchEntries(sequences: seq<int>, since: nat, ghost log: seq<Entry>) returns (r: Read<seq<Entry>>)
      requires forall i, j :: 0 <= i < j < |sequences| ==> sequences[i] < sequences[j]
      requires forall n :: n in sequences ==> n > since
      ensures r.Done? ==> StrictlyAfter(since, r.value) && Fetches(store.objects, cfg, sequences, r.value)
      ensures Holds(store.objects, cfg, log) && IsRunOf(sequences, since + 1, log) ==>
        ReadsSlice(r, Slice(log, since, |sequences|))
    {
      hide Holds, IsRunOf, Reads, Decoded, Slice, ReadsSlice;
      var entries: seq<Entry> := [];
      ghost var good := Holds(store.objects, cfg, log) && IsRunOf(sequences, since + 1, log);
      for k := 0 to |sequences|
        invariant Fetches(store.objects, cfg, sequences[..k], entries)
      {
        var n := sequences[k];
        assert n in sequences;
        var read := FetchEntry(n, log);
        if read.Failed? {
          if good {
            FailureIsInSlice(store.objects, cfg, log, since, sequences, k, read.error);
          }
          return Failed(read.error);
        }
        assert sequences[..k + 1] == sequences[..k] + [n];
        entries := entries + [read.value];
      }
      assert sequences[..|sequences|] == sequences;
      FetchedAscend(store.objects, cfg, since, sequences, entries);
      if good {
        FetchedIsSlice(store.objects, cfg, log, since, sequences, entries);
      }
      return Done(entries);
    }

    /** One entry, refused unless it is the one its key promises. */
    method FetchEntry(sequence: nat, ghost log: seq<Entry>) returns (r: Read<Entry>)
      ensures r.Done? ==> Reads(store.objects, cfg, sequence, r.value)
      ensures Holds(store.objects, cfg, log) && 0 < sequence <= |log| ==>
        r == Failed(Io) || r == Decoded(log[sequence - 1])
    {
      hide Holds, Encode, Stamped, Decode, Config.EntryKey;
      r := ReadEntry(store, cfg, sequence, log);
      if Holds(store.objects, cfg, log) && 0 < sequence <= |log| {
        LogEntryPlaces(store.objects, cfg, log, sequence);
      }
      if r.Done? && (r.value.sequence != sequence || r.value.region != cfg.region) {
        r := Failed(Gap);
      }
    }
  }

  predicate StrictlyAfter(since: int, entries: seq<Entry>) {
    && (forall i :: 0 <= i < |entries| ==> entries[i].sequence > since)
    && (forall i, j :: 0 <= i < j < |entries| ==> entries[i].sequence < entries[j].sequence)
  }

  lemma {:induction false} CollectedOnce(scan: Scanner, keys: seq<ByteString>, floor: int)
    ensures Distinct(Collected(scan, keys, floor, true))
    ensures forall n :: n in Collected(scan, keys, floor, true) ==> n >= floor
  {
    if keys != [] {
      CollectedOnce(scan, keys[..|keys| - 1], floor);
    }
  }

  lemma SortedStrictly(s: seq<int>)
    requires Distinct(s)
    ensures forall i, j :: 0 <= i < j < |Sorted(s, Self)| ==> Sorted(s, Self)[i] < Sorted(s, Self)[j]
    ensures forall n :: n in Sorted(s, Self) ==> n in s
  {
    hide Sorted;
    var r := Sorted(s, Self);
    DistinctByMultiset(s, r);
    forall i, j | 0 <= i < j < |r|
      ensures r[i] < r[j]
    {
      assert Self(r[i]) <= Self(r[j]);
    }
    forall n | n in r
      ensures n in s
    {
      assert n in multiset(r);
    }
  }

  /** What is wanted ascends strictly and lies above `since`. */
  lemma WantedAscends(keys: seq<ByteString>, since: int)
    ensures forall i, j :: 0 <= i < j < |Wanted(keys, since)| ==> Wanted(keys, since)[i] < Wanted(keys, since)[j]
    ensures forall n :: n in Wanted(keys, since) ==> n > since
  {
    hide Sorted, Collected;
    CollectedOnce(PositiveSequenceOfKey, keys, since + 1);
    SortedStrictly(Collected(PositiveSequenceOfKey, keys, since + 1, true));
  }

  lemma {:induction false} CollectsListed(keys: seq<ByteString>, floor: int, key: ByteString, n: int)
    requires key in keys && PositiveSequenceOfKey(key) == Some(n) && floor <= n
    ensures n in Collected(PositiveSequenceOfKey, keys, floor, true)
  {
    hide PositiveSequenceOfKey;
    var front, last := keys[..|keys| - 1], keys[|keys| - 1];
    if key != last {
      assert keys == front + [last];
      CollectsListed(front, floor, key, n);
    }
  }

  /**
   Over any store, what is read starts right after `since` if and only if the object of the next
   sequence is there. Nothing else notices that it is missing.
   */
  lemma FirstIsNextIff(objects: Objects, cfg: Config, since: nat, entries: seq<Entry>)
    requires IsReading(objects, cfg, since, entries) && since < MAX_INT64
    ensures cfg.EntryKey(since + 1) in objects <==> entries != [] && entries[0].sequence == since + 1
  {
    hide Wanted, Fetches, Config.EntryKey, Config.RegionPrefix;
    var keys :| Lists(keys, objects.Keys, cfg.RegionPrefix()) && Fetches(objects, cfg, Wanted(keys, since), entries);
    FirstOfListing(objects, cfg, since, keys, entries);
  }

  lemma FirstOfListing(objects: Objects, cfg: Config, since: nat, keys: seq<ByteString>, entries: seq<Entry>)
    requires Lists(keys, objects.Keys, cfg.RegionPrefix()) && Fetches(objects, cfg, Wanted(keys, since), entries)
    requires since < MAX_INT64
    ensures cfg.EntryKey(since + 1) in objects <==> entries != [] && entries[0].sequence == since + 1
  {
    hide Decode, Wanted, Collected, PositiveSequenceOfKey;
    assert cfg.RegionPrefix() <= cfg.EntryKey(since + 1);
    hide Config.EntryKey, Config.RegionPrefix;
    if cfg.EntryKey(since + 1) in objects {
      KeyIsScanned(cfg, since + 1);
      CollectsListed(keys, since + 1, cfg.EntryKey(since + 1), since + 1);
      FirstIsWanted(keys, since);
    }
  }

  lemma FirstIsWanted(keys: seq<ByteString>, since: int)
    requires since + 1 in Collected(PositiveSequenceOfKey, keys, since + 1, true)
    ensures Wanted(keys, since) != [] && Wanted(keys, since)[0] == since + 1
  {
    hide Sorted, Collected;
    var found, wanted := Collected(PositiveSequenceOfKey, keys, since + 1, true), Wanted(keys, since);
    assert since + 1 in multiset(found) && since + 1 in multiset(wanted);
    WantedAscends(keys, since);
    var i :| 0 <= i < |wanted| && wanted[i] == since + 1;
    assert wanted[0] in wanted;
  }

  /** Reading `expected` succeeds with it, or fails for storage or because of an undecodable entry in it. */
  predicate ReadsSlice(r: Read<seq<Entry>>, expected: seq<Entry>) {
    match r
    case Done(entries) => entries == expected && forall e :: e in expected ==> Decodable(e)
    case Failed(Io) => true
    case Failed(Corrupt(cause)) => cause == DataTooShort && exists e :: e in expected && !Decodable(e)
    case Failed(_) => false
  }

  lemma NothingRead(log: seq<Entry>, since: nat, count: nat)
    ensures ReadsSlice(Done([]), Slice(log, since, 0)) && ReadsSlice(Failed(Io), Slice(log, since, count))
  {
  }

  lemma LogEntryPlaces(objects: Objects, cfg: Config, log: seq<Entry>, n: nat)
    requires Holds(objects, cfg, log) && 0 < n <= |log|
    ensures Places(cfg, log[n - 1], n) && Stamped(log[n - 1]) == log[n - 1]
  {
  }

  /**
   A prefix that ends in '/' is written under `p//region/…` but read from `p/region/…`: the recovery
   reader asks for the object of an entry under the writer's key if and only if there is no slash to cut.
   */
  lemma RecoveryReaderSeesLogIff(cfg: Config, n: nat)
    ensures TrimSlash(cfg.prefix) == cfg.prefix <==>
      exists m: nat :: Config(TrimSlash(cfg.prefix), cfg.region).EntryKey(m) == cfg.EntryKey(n)
  {
    var read := Config(TrimSlash(cfg.prefix), cfg.region);
    hide TrimSuffix, Padded;
    forall m: nat | read.EntryKey(m) == cfg.EntryKey(n)
      ensures |read.prefix| == |cfg.prefix|
    {
      PaddedHasNoSlash(m);
      PaddedHasNoSlash(n);
      BaseOf(read.RegionPrefix(), Padded(m) + DOT_WAL);
      BaseOf(cfg.RegionPrefix(), Padded(n) + DOT_WAL);
    }
    if TrimSlash(cfg.prefix) == cfg.prefix {
      assert read.EntryKey(n) == cfg.EntryKey(n);
    }
  }

  // ----- whole runs

  lemma EmptySlice(log: seq<Entry>, after: nat)
    ensures Slice(log, after, 0) == []
  {
  }

  /** Two batches in a row are one longer batch. */
  lemma SlicesJoin(log: seq<Entry>, after: nat, read: seq<Entry>, batch: seq<Entry>, count: nat)
    requires read == Slice(log, after, |read|) && batch == Slice(log, after + |read|, count)
    ensures read + batch == Slice(log, after, |read + batch|)
  {
  }

  /** What was read stays what it was when the log grows. */
  lemma SliceKept(log: seq<Entry>, longer: seq<Entry>, after: nat, count: nat)
    requires log <= longer && |Slice(log, after, count)| == count
    ensures Slice(longer, after, count) == Slice(log, after, count)
  {
  }

  datatype Op =
    | AppendOp(entry: Entry, durable: bool, now: Int64)
    | TickOp
    | BeginCloseOp
    | FinishCloseOp
    | CrashOp
    | ReadOp(count: int)

  /** One store, the current writer process, and one reader with everything it has returned. */
  class Session {
    const cfg: Config
    const batchSize: nat
    const store: ObjectStore
    const reader: Reader
    const resumeFrom: nat
    var writer: Writer
    var up: bool
    var read: seq<Entry>
    ghost var log: seq<Entry>

    ghost predicate Valid()
      reads this, store, writer, writer.pending, reader
      ensures Valid() ==> Holds(store.objects, cfg, log)
    {
      && cfg.Valid() && cfg.Clean() && Holds(store.objects, cfg, log)
      && reader.store == store && reader.cfg == cfg
      && reader.lastReadSeq == resumeFrom + |read| && read == Slice(log, resumeFrom, |read|)
      && writer.store == store && writer.cfg == cfg
      && (up ==> writer.Valid() && writer.log == log)
    }

    constructor (cfg: Config, batchSize: nat, store: ObjectStore, resumeFrom: nat, ghost log: seq<Entry>)
      requires cfg.Valid() && cfg.Clean() && Holds(store.objects, cfg, log)
      ensures Valid() && fresh(writer) && fresh(reader) && writer.pending == []
      ensures this.cfg == cfg && this.store == store && this.resumeFrom == resumeFrom
      ensures read == [] && this.log == log
    {
      this.cfg, this.batchSize, this.store, this.resumeFrom := cfg, batchSize, store, resumeFrom;
      reader := new Reader(cfg, store, resumeFrom);
      var w := new Writer(cfg, batchSize, store, log);
      var ok := w.ResumeSequence();
      writer, up, read, this.log := w, ok, [], log;
      EmptySlice(log, resumeFrom);
    }

    method Append(entry: Entry, durable: bool, now: Int64)
      requires Valid()
      modifies this, writer, store
      ensures Valid() && writer == old(writer) && old(log) <= log && read == old(read)
      ensures forall c :: c in writer.pending ==> c in old(writer.pending) || fresh(c)
    {
      hide Holds, Slice, Consistent;
      if up {
        var cell := new EntryCell(entry);
        var _ := writer.Append(cell, durable, now);
        SliceKept(log, writer.log, resumeFrom, |read|);
        log := writer.log;
      }
    }

    method Tick()
      requires Valid()
      modifies this, writer, store
      ensures Valid() && writer == old(writer) && old(log) <= log && read == old(read)
      ensures forall c :: c in writer.pending ==> c in old(writer.pending)
    {
      hide Holds, Slice, Consistent;
      if up {
        writer.Tick();
        SliceKept(log, writer.log, resumeFrom, |read|);
        log := writer.log;
      }
    }

    /** The two critical sections of Close, with appends and ticks possible in between. */
    method BeginClose()
      requires Valid()
      modifies writer
      ensures Valid() && writer.pending == old(writer.pending) && log == old(log) && read == old(read)
    {
      hide Holds, Slice, Consistent;
      var _ := writer.BeginClose();
    }

    /** A close that succeeds leaves every accepted entry in the store, whatever failed before. */
    method FinishClose() returns (ok: bool)
      requires Valid()
      modifies this, writer, store
      ensures Valid() && writer == old(writer) && old(log) <= log && read == old(read)
      ensures forall c :: c in writer.pending ==> c in old(writer.pending)
      ensures ok ==> old(writer.Valid()) && writer.Valid() && writer.closed && log == writer.All() == old(writer.All())
    {
      hide Holds, Slice, Consistent;
      ok := false;
      if up && writer.closing {
        ok := writer.FinishClose();
        SliceKept(log, writer.log, resumeFrom, |read|);
        log := writer.log;
      }
    }

    /** The process dies with its buffer; a new one resumes from the store, unless listing fails. */
    method Crash()
      requires Valid()
      modifies this
      ensures Valid() && fresh(writer) && writer.pending == [] && log == old(log) && read == old(read)
      ensures up ==> writer.sequence == |log|
    {
      hide Holds, Slice;
      var w := new Writer(cfg, batchSize, store, log);
      var ok := w.ResumeSequence();
      writer, up := w, ok;
    }

    method Read(count: int)
      requires Valid()
      modifies this, reader
      ensures Valid() && writer == old(writer) && writer.pending == old(writer.pending)
      ensures log == old(log) && old(read) <= read
    {
      hide Holds, Slice, Consistent;
      var r := reader.ReadBatch(count, log);
      if r.Done? {
        SlicesJoin(log, resumeFrom, read, r.value, if count < 0 then 0 else count);
        read := read + r.value;
      }
    }

    /** Any one of these. */
    method Step(op: Op)
      requires Valid()
      modifies this, writer, store, reader
      ensures Valid() && old(log) <= log && old(read) <= read
      ensures writer == old(writer) || fresh(writer)
      ensures forall c :: c in writer.pending ==> c in old(writer.pending) || fresh(c)
    {
      hide Valid;
      match op {
        case AppendOp(e, durable, now) => Append(e, durable, now);
        case TickOp => Tick();
        case BeginCloseOp => BeginClose();
        case FinishCloseOp => var _ := FinishClose();
        case CrashOp => Crash();
        case ReadOp(count) => Read(count);
      }
    }
  }

  /**
   Any run of appends, flusher ticks, closes, crashes with restart, and batch reads over one store: the log
   only grows, stays gap-free at every step, and what has been read is exactly the log after the
   resume point, each entry once and in order.
   */
  method RunLog(
      cfg: Config, batchSize: nat, store: ObjectStore, ops: seq<Op>, resumeFrom: nat, ghost before: seq<Entry>)
    returns (read: seq<Entry>, ghost log: seq<Entry>)
    requires cfg.Valid() && cfg.Clean() && Holds(store.objects, cfg, before)
    modifies store
    ensures Holds(store.objects, cfg, log) && before <= log
    ensures read == Slice(log, resumeFrom, |read|)
  {
    hide Holds, Slice, Consistent;
    var s := new Session(cfg, batchSize, store, resumeFrom, before);
    for k := 0 to |ops|
      invariant s.Valid() && s.cfg == cfg && s.store == store && s.resumeFrom == resumeFrom && before <= s.log
      invariant fresh(s) && fresh(s.reader) && fresh(s.writer) && forall c :: c in s.writer.pending ==> fresh(c)
    {
      s.Step(ops[k]);
    }
    return s.read, s.log;
  }
}
