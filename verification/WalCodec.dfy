/**
 The binary form of a WAL entry (control-plane/replication/wal/wal.go).
 The checksum is an arbitrary function of the bytes it covers.
 */
module WalCodec {
  import opened Outcomes
  import opened Bytes

  /** CRC-32C over a byte sequence; nothing here depends on which checksum it is. */
  const Checksum: ByteString -> UInt32

  datatype Entry = Entry(
    sequence: Int64,
    region: ByteString,
    epoch: Int64,
    checkpointUri: ByteString,
    jobId: ByteString,
    timestamp: Int64,
    crc: UInt32)

  datatype Error =
    EmptySequence | InvalidCheckpoint | FieldTooLong | DataTooShort | Truncated | TrailingData | CrcMismatch

  type Result<+T> = Fallible<T, Error>

  const MAX_FIELD := 0xFFFF_FFFF
  const MIN_DECODED := 44

  /** The entries MarshalBinary accepts. */
  predicate Marshals(e: Entry) {
    && e.sequence > 0
    && e.checkpointUri != []
    && |e.jobId| <= MAX_FIELD && |e.region| <= MAX_FIELD && |e.checkpointUri| <= MAX_FIELD
  }

  function Field(s: ByteString): (b: ByteString)
    requires |s| <= MAX_FIELD
  {
    LittleEndian(4, |s|) + s
  }

  /** The three length-prefixed strings, followed by `tail`. */
  function Strings(jobId: ByteString, region: ByteString, uri: ByteString, tail: ByteString): (b: ByteString)
    requires |jobId| <= MAX_FIELD && |region| <= MAX_FIELD && |uri| <= MAX_FIELD
    ensures |b| == 12 + |jobId| + |region| + |uri| + |tail|
  {
    Field(jobId) + (Field(region) + (Field(uri) + tail))
  }

  /** The two leading words, followed by `tail`. */
  function Words(sequence: Int64, epoch: Int64, tail: ByteString): (b: ByteString)
    ensures |b| == 16 + |tail|
  {
    LittleEndian(8, Unsigned(sequence)) + (LittleEndian(8, Unsigned(epoch)) + tail)
  }

  /** The whole layout up to the checksum, followed by `tail`. */
  function Layout(e: Entry, tail: ByteString): (b: ByteString)
    requires Marshals(e)
    ensures |b| == 36 + |e.jobId| + |e.region| + |e.checkpointUri| + |tail|
  {
    Words(e.sequence, e.epoch,
          Strings(e.jobId, e.region, e.checkpointUri, LittleEndian(8, Unsigned(e.timestamp)) + tail))
  }

  /** Everything but the trailing checksum. */
  function Body(e: Entry): (b: ByteString)
    requires Marshals(e)
  {
    Layout(e, [])
  }

  function Encode(e: Entry): (b: ByteString)
    requires Marshals(e)
    ensures |b| == 40 + |e.jobId| + |e.region| + |e.checkpointUri|
  {
    Layout(e, LittleEndian(4, Checksum(Body(e))))
  }

  lemma StringsThenTail(jobId: ByteString, region: ByteString, uri: ByteString, mid: ByteString, tail: ByteString)
    requires |jobId| <= MAX_FIELD && |region| <= MAX_FIELD && |uri| <= MAX_FIELD
    ensures Strings(jobId, region, uri, mid + tail) == Strings(jobId, region, uri, mid) + tail
  {
    var f1, f2, f3 := Field(jobId), Field(region), Field(uri);
    assert f3 + (mid + tail) == (f3 + mid) + tail;
    assert f2 + ((f3 + mid) + tail) == (f2 + (f3 + mid)) + tail;
    assert f1 + ((f2 + (f3 + mid)) + tail) == (f1 + (f2 + (f3 + mid))) + tail;
  }

  lemma WordsThenTail(sequence: Int64, epoch: Int64, mid: ByteString, tail: ByteString)
    ensures Words(sequence, epoch, mid + tail) == Words(sequence, epoch, mid) + tail
  {
    var w1, w2 := LittleEndian(8, Unsigned(sequence)), LittleEndian(8, Unsigned(epoch));
    assert w2 + (mid + tail) == (w2 + mid) + tail;
    assert w1 + ((w2 + mid) + tail) == (w1 + (w2 + mid)) + tail;
  }

  lemma LayoutThenTail(e: Entry, tail: ByteString)
    requires Marshals(e)
    ensures Layout(e, tail) == Body(e) + tail
  {
    var ts := LittleEndian(8, Unsigned(e.timestamp));
    assert ts + [] == ts;
    StringsThenTail(e.jobId, e.region, e.checkpointUri, ts, tail);
    WordsThenTail(e.sequence, e.epoch, Strings(e.jobId, e.region, e.checkpointUri, ts), tail);
  }

  /** The entry with the checksum that encoding it produces. */
  function Stamped(e: Entry): (r: Entry)
    requires Marshals(e)
    ensures Marshals(r) && Encode(r) == Encode(e)
  {
    e.(crc := Checksum(Body(e)))
  }

  /** Marshalling has long-enough output to be read back: the decoder's size guard is 44. */
  predicate Decodable(e: Entry) {
    Marshals(e) && |e.jobId| + |e.region| + |e.checkpointUri| >= MIN_DECODED - 40
  }

  // ----- the layout, byte by byte

  /** The number that the bytes at an offset spell, lowest first. */
  function WordAt(b: ByteString, at: nat, width: nat): nat
    requires at + width <= |b|
    decreases width
  {
    if width == 0 then 0 else b[at] + 256 * WordAt(b, at + 1, width - 1)
  }

  lemma {:induction false} WordIsThere(front: ByteString, width: nat, n: nat, back: ByteString)
    requires n < Pow256(width)
    ensures WordAt(front + LittleEndian(width, n) + back, |front|, width) == n
    decreases width
  {
    if width > 0 {
      var word := LittleEndian(width, n);
      assert word == [n % 256] + LittleEndian(width - 1, n / 256);
      assert front + word + back == front + [n % 256] + LittleEndian(width - 1, n / 256) + back;
      assert n / 256 < Pow256(width - 1);
      WordIsThere(front + [n % 256], width - 1, n / 256, back);
    }
  }

  /** A length-prefixed string at an offset. */
  lemma FieldIsThere(b: ByteString, at: nat, s: ByteString)
    requires |s| <= MAX_FIELD && at + 4 + |s| <= |b| && b[at..at + 4 + |s|] == Field(s)
    ensures WordAt(b, at, 4) == |s| && b[at + 4..at + 4 + |s|] == s
  {
    hide LittleEndian, WordAt, Pow256;
    var word := LittleEndian(4, |s|);
    assert b[at..at + 4] == b[at..at + 4 + |s|][..4] == word;
    assert b[at + 4..at + 4 + |s|] == b[at..at + 4 + |s|][4..];
    assert b == b[..at] + word + b[at + 4..];
    WordIsThere(b[..at], 4, |s|, b[at + 4..]);
  }

  function Bits(x: Int64): nat { if x < 0 then 0x1_0000_0000_0000_0000 + x else x }

  /**
   Where each part of an encoded entry is: sequence, epoch, the three strings with their lengths, the timestamp
   and the checksum of everything before it.
   */
  lemma LayoutByOffset(e: Entry)
    requires Marshals(e)
    ensures var b, j, r, u := Encode(e), |e.jobId|, |e.region|, |e.checkpointUri|;
      && |b| == 40 + j + r + u
      && WordAt(b, 0, 8) == e.sequence && WordAt(b, 8, 8) == Bits(e.epoch)
      && WordAt(b, 16, 4) == j && b[20..20 + j] == e.jobId
      && WordAt(b, 20 + j, 4) == r && b[24 + j..24 + j + r] == e.region
      && WordAt(b, 24 + j + r, 4) == u && b[28 + j + r..28 + j + r + u] == e.checkpointUri
      && WordAt(b, 28 + j + r + u, 8) == Bits(e.timestamp)
      && WordAt(b, 36 + j + r + u, 4) == Checksum(b[..36 + j + r + u])
  {
    hide LittleEndian, WordAt, Encode, Layout, Pow256;
    WordsByOffset(e);
    StringsByOffset(e);
    EndByOffset(e);
  }

  lemma WordsByOffset(e: Entry)
    requires Marshals(e)
    ensures WordAt(Encode(e), 0, 8) == e.sequence && WordAt(Encode(e), 8, 8) == Bits(e.epoch)
  {
    hide LittleEndian, WordAt, Encode, Layout, Pow256;
    var b, w1 := Encode(e), LittleEndian(8, Unsigned(e.sequence));
    EncodedParts(e);
    var rest := b[8..];
    assert b == [] + w1 + rest;
    WordIsThere([], 8, Unsigned(e.sequence), rest);
    assert b == w1 + LittleEndian(8, Unsigned(e.epoch)) + b[16..];
    WordIsThere(w1, 8, Unsigned(e.epoch), b[16..]);
  }

  lemma StringsByOffset(e: Entry)
    requires Marshals(e)
    ensures var b, j, r, u := Encode(e), |e.jobId|, |e.region|, |e.checkpointUri|;
      && WordAt(b, 16, 4) == j && b[20..20 + j] == e.jobId
      && WordAt(b, 20 + j, 4) == r && b[24 + j..24 + j + r] == e.region
      && WordAt(b, 24 + j + r, 4) == u && b[28 + j + r..28 + j + r + u] == e.checkpointUri
  {
    hide LittleEndian, WordAt, Encode, Layout, Field, Pow256;
    var j, r, u := |e.jobId|, |e.region|, |e.checkpointUri|;
    EncodedParts(e);
    FieldIsThere(Encode(e), 16, e.jobId);
    FieldIsThere(Encode(e), 20 + j, e.region);
    FieldIsThere(Encode(e), 24 + j + r, e.checkpointUri);
  }

  lemma EndByOffset(e: Entry)
    requires Marshals(e)
    ensures var b, end := Encode(e), 28 + |e.jobId| + |e.region| + |e.checkpointUri|;
      && WordAt(b, end, 8) == Bits(e.timestamp) && WordAt(b, end + 8, 4) == Checksum(b[..end + 8])
  {
    hide LittleEndian, WordAt, Layout, Field, Pow256;
    var b, end, sum := Encode(e), 28 + |e.jobId| + |e.region| + |e.checkpointUri|, LittleEndian(4, Checksum(Body(e)));
    EncodedParts(e);
    assert b == b[..end] + LittleEndian(8, Unsigned(e.timestamp)) + sum;
    WordIsThere(b[..end], 8, Unsigned(e.timestamp), sum);
    LayoutThenTail(e, sum);
    assert b == Body(e) + sum + [] && b[..end + 8] == Body(e);
    WordIsThere(Body(e), 4, Checksum(Body(e)), []);
  }

  lemma EncodedParts(e: Entry)
    requires Marshals(e)
    ensures var w1, w2, w3 := LittleEndian(8, Unsigned(e.sequence)), LittleEndian(8, Unsigned(e.epoch)),
        LittleEndian(8, Unsigned(e.timestamp));
      var f1, f2, f3 := Field(e.jobId), Field(e.region), Field(e.checkpointUri);
      && Encode(e) == w1 + w2 + f1 + f2 + f3 + w3 + LittleEndian(4, Checksum(Body(e)))
      && |f1| == 4 + |e.jobId| && |f2| == 4 + |e.region| && |f3| == 4 + |e.checkpointUri|
  {
    hide LittleEndian, Body;
  }

  // ----- decoding, as a parser over the remaining bytes

  function TakeUint(width: nat, data: ByteString): (r: Result<(nat, ByteString)>)
    ensures r.Ok? ==> r.value.0 < Pow256(width)
    ensures r.Ok? ==> LittleEndian(width, r.value.0) + r.value.1 == data
    ensures r.Ok? <==> |data| >= width
    ensures r.Err? ==> r.error == Truncated
  {
    if |data| < width then Err(Truncated) else
    WritesWhatWasRead(data[..width]);
    Ok((FromLittleEndian(data[..width]), data[width..]))
  }

  function TakeField(data: ByteString): (r: Result<(ByteString, ByteString)>)
    ensures r.Ok? ==> |r.value.0| <= MAX_FIELD && Field(r.value.0) + r.value.1 == data
    ensures r.Err? ==> r.error == Truncated
  {
    var (n, rest) :- TakeUint(4, data);
    if |rest| < n then Err(Truncated) else
    Ok((rest[..n], rest[n..]))
  }

  function TakeWords(data: ByteString): (r: Result<(Int64, Int64, ByteString)>)
    ensures r.Ok? ==> Words(r.value.0, r.value.1, r.value.2) == data
    ensures r.Err? ==> r.error == Truncated
  {
    var (sequence, r1) :- TakeUint(8, data);
    var (epoch, r2) :- TakeUint(8, r1);
    Ok((Signed(sequence), Signed(epoch), r2))
  }

  datatype Text = Text(jobId: ByteString, region: ByteString, uri: ByteString, rest: ByteString)

  function TakeStrings(data: ByteString): (r: Result<Text>)
    ensures r.Ok? ==>
      var t := r.value;
      && |t.jobId| <= MAX_FIELD && |t.region| <= MAX_FIELD && |t.uri| <= MAX_FIELD
      && Strings(t.jobId, t.region, t.uri, t.rest) == data
    ensures r.Err? ==> r.error == Truncated
  {
    var (jobId, r1) :- TakeField(data);
    var (region, r2) :- TakeField(r1);
    var (uri, r3) :- TakeField(r2);
    Ok(Text(jobId, region, uri, r3))
  }

  function Decode(data: ByteString): (r: Result<Entry>)
  {
    if |data| < MIN_DECODED then Err(DataTooShort) else
    var (sequence, epoch, r1) :- TakeWords(data);
    var t :- TakeStrings(r1);
    var (timestamp, r2) :- TakeUint(8, t.rest);
    if |r2| != 4 then Err(if |r2| < 4 then Truncated else TrailingData) else
    var crc: UInt32 := FromLittleEndian(r2);
    if crc != Checksum(data[..|data| - 4]) then Err(CrcMismatch)
    else if sequence <= 0 then Err(EmptySequence)
    else if t.uri == [] then Err(InvalidCheckpoint)
    else Ok(Entry(sequence, t.region, epoch, t.uri, t.jobId, Signed(timestamp), crc))
  }

  // ----- the two directions

  lemma TakesWhatWasPut(width: nat, n: nat, rest: ByteString)
    requires n < Pow256(width)
    ensures TakeUint(width, LittleEndian(width, n) + rest) == Ok((n, rest))
  {
    var data := LittleEndian(width, n) + rest;
    assert data[..width] == LittleEndian(width, n) && data[width..] == rest;
    ReadsWhatWasWritten(width, n);
  }

  lemma TakesFieldThatWasPut(s: ByteString, rest: ByteString)
    requires |s| <= MAX_FIELD
    ensures TakeField(Field(s) + rest) == Ok((s, rest))
  {
    assert Field(s) + rest == LittleEndian(4, |s|) + (s + rest);
    TakesWhatWasPut(4, |s|, s + rest);
    assert (s + rest)[..|s|] == s && (s + rest)[|s|..] == rest;
  }

  lemma TakesWordsThatWerePut(sequence: Int64, epoch: Int64, tail: ByteString)
    ensures TakeWords(Words(sequence, epoch, tail)) == Ok((sequence, epoch, tail))
  {
    TakesWhatWasPut(8, Unsigned(sequence), LittleEndian(8, Unsigned(epoch)) + tail);
    TakesWhatWasPut(8, Unsigned(epoch), tail);
  }

  lemma TakesStringsThatWerePut(jobId: ByteString, region: ByteString, uri: ByteString, tail: ByteString)
    requires |jobId| <= MAX_FIELD && |region| <= MAX_FIELD && |uri| <= MAX_FIELD
    ensures TakeStrings(Strings(jobId, region, uri, tail)) == Ok(Text(jobId, region, uri, tail))
  {
    TakesFieldThatWasPut(jobId, Field(region) + (Field(uri) + tail));
    TakesFieldThatWasPut(region, Field(uri) + tail);
    TakesFieldThatWasPut(uri, tail);
  }

  /**
   An entry that marshals reads back, checksum included, exactly when its three strings
   hold at least four bytes between them; a shorter one is refused as too short.
   */
  lemma DecodeOfEncode(e: Entry)
    requires Marshals(e)
    ensures Decodable(e) ==> Decode(Encode(e)) == Ok(Stamped(e))
    ensures !Decodable(e) ==> Decode(Encode(e)) == Err(DataTooShort)
  {
    hide LittleEndian, FromLittleEndian, TakeUint, TakeField, TakeWords, TakeStrings, Words, Strings, Field;
    if Decodable(e) {
      var crc := LittleEndian(4, Checksum(Body(e)));
      var r2 := LittleEndian(8, Unsigned(e.timestamp)) + crc;
      TakesWordsThatWerePut(e.sequence, e.epoch, Strings(e.jobId, e.region, e.checkpointUri, r2));
      TakesStringsThatWerePut(e.jobId, e.region, e.checkpointUri, r2);
      TakesWhatWasPut(8, Unsigned(e.timestamp), crc);
      ReadsWhatWasWritten(4, Checksum(Body(e)));
      LayoutThenTail(e, crc);
      assert Encode(e)[..|Encode(e)| - 4] == Body(e);
    }
  }

  /** A concrete entry that is written and can never be read: region "a", URI "b", no job. */
  lemma ShortEntryIsWrittenButUnreadable()
    ensures exists e :: Marshals(e) && Decode(Encode(e)).Err?
  {
    var e := Entry(1, [0x61], 0, [0x62], [], 0, 0);
    DecodeOfEncode(e);
    assert Marshals(e) && Decode(Encode(e)).Err?;
  }

  /** Whatever bytes decode are the encoding of the decoded entry, so no two byte strings decode alike. */
  lemma EncodeOfDecode(data: ByteString)
    requires Decode(data).Ok?
    ensures var e := Decode(data).value; Decodable(e) && Encode(e) == data && Stamped(e) == e
  {
    var e := Decode(data).value;
    var r1 := TakeWords(data).value.2;
    var t := TakeStrings(r1).value;
    var r2 := TakeUint(8, t.rest).value.1;
    assert data == Layout(e, r2);
    LayoutThenTail(e, r2);
    assert data[..|data| - 4] == Body(e);
    WritesWhatWasRead(r2);
  }

  /** Decoding succeeds on exactly the encodings of decodable entries. */
  lemma DecodesExactlyEncodings(data: ByteString)
    ensures Decode(data).Ok? <==> exists e :: Decodable(e) && Encode(e) == data
  {
    if Decode(data).Ok? {
      EncodeOfDecode(data);
    }
    forall e | Decodable(e) && Encode(e) == data ensures Decode(data).Ok? {
      DecodeOfEncode(e);
    }
  }

  // ----- the buffer-filling and offset-reading code

  method PutUint(buf: array<Byte>, offset: nat, width: nat, n: nat)
    requires offset + width <= buf.Length
    modifies buf
    ensures buf[..offset + width] == old(buf[..offset]) + LittleEndian(width, n)
  {
    var i, rest := 0, n;
    ghost var before := buf[..offset];
    while i < width
      invariant 0 <= i <= width
      invariant buf[..offset + i] + LittleEndian(width - i, rest) == before + LittleEndian(width, n)
    {
      buf[offset + i] := rest % 256;
      assert buf[..offset + i + 1] == buf[..offset + i] + [rest % 256];
      i, rest := i + 1, rest / 256;
    }
    assert buf[..offset + width] == buf[..offset + i] + LittleEndian(0, rest);
  }

  method Copy(buf: array<Byte>, offset: nat, s: ByteString)
    requires offset + |s| <= buf.Length
    modifies buf
    ensures buf[..offset + |s|] == old(buf[..offset]) + s
  {
    for i := 0 to |s|
      invariant buf[..offset + i] == old(buf[..offset]) + s[..i]
    {
      buf[offset + i] := s[i];
      assert buf[..offset + i + 1] == buf[..offset + i] + [s[i]];
    }
    assert s[..|s|] == s;
  }

  method PutField(buf: array<Byte>, offset: nat, s: ByteString) returns (next: nat)
    requires |s| <= MAX_FIELD && offset + 4 + |s| <= buf.Length
    modifies buf
    ensures next == offset + 4 + |s|
    ensures buf[..next] == old(buf[..offset]) + Field(s)
  {
    PutUint(buf, offset, 4, |s|);
    Copy(buf, offset + 4, s);
    next := offset + 4 + |s|;
  }

  method PutStrings(buf: array<Byte>, offset: nat, jobId: ByteString, region: ByteString, uri: ByteString)
    returns (next: nat)
    requires |jobId| <= MAX_FIELD && |region| <= MAX_FIELD && |uri| <= MAX_FIELD
    requires offset + 12 + |jobId| + |region| + |uri| <= buf.Length
    modifies buf
    ensures next == offset + 12 + |jobId| + |region| + |uri|
    ensures buf[..next] == old(buf[..offset]) + Strings(jobId, region, uri, [])
  {
    ghost var start := buf[..offset];
    next := PutField(buf, offset, jobId);
    next := PutField(buf, next, region);
    next := PutField(buf, next, uri);
    ghost var f1, f2, f3 := Field(jobId), Field(region), Field(uri);
    assert ((start + f1) + f2) + f3 == start + (f1 + (f2 + (f3 + [])));
  }

  /** Fills everything but the checksum. */
  method PutBody(buf: array<Byte>, e: Entry)
    requires Marshals(e) && buf.Length == |Encode(e)|
    modifies buf
    ensures buf[..buf.Length - 4] == Body(e)
  {
    PutUint(buf, 0, 8, Unsigned(e.sequence));
    PutUint(buf, 8, 8, Unsigned(e.epoch));
    ghost var words := buf[..16];
    assert words == Words(e.sequence, e.epoch, []);
    var offset := PutStrings(buf, 16, e.jobId, e.region, e.checkpointUri);
    ghost var text := Strings(e.jobId, e.region, e.checkpointUri, []);
    PutUint(buf, offset, 8, Unsigned(e.timestamp));
    ghost var ts := LittleEndian(8, Unsigned(e.timestamp));
    assert buf[..buf.Length - 4] == (words + text) + ts;
    BodyInPieces(e, words, text, ts);
  }

  lemma BodyInPieces(e: Entry, words: ByteString, text: ByteString, ts: ByteString)
    requires Marshals(e)
    requires words == Words(e.sequence, e.epoch, [])
    requires text == Strings(e.jobId, e.region, e.checkpointUri, [])
    requires ts == LittleEndian(8, Unsigned(e.timestamp))
    ensures (words + text) + ts == Body(e)
  {
    assert ts + [] == ts == [] + ts && [] + (text + ts) == text + ts;
    StringsThenTail(e.jobId, e.region, e.checkpointUri, [], ts);
    WordsThenTail(e.sequence, e.epoch, [], text + ts);
    assert (words + text) + ts == words + (text + ts);
  }

  /** MarshalBinary: the entry's encoding, and the first violated requirement otherwise. */
  method MarshalBinary(e: Entry) returns (r: Result<ByteString>, stamped: Entry)
    ensures r.Ok? <==> Marshals(e)
    ensures r.Ok? ==> r.value == Encode(e) && stamped == Stamped(e)
    ensures r.Err? ==> stamped == e
    ensures e.sequence <= 0 ==> r == Err(EmptySequence)
    ensures e.sequence > 0 && e.checkpointUri == [] ==> r == Err(InvalidCheckpoint)
    ensures e.sequence > 0 && e.checkpointUri != [] && !Marshals(e) ==> r == Err(FieldTooLong)
  {
    stamped := e;
    if e.sequence <= 0 {
      return Err(EmptySequence), stamped;
    }
    if e.checkpointUri == [] {
      return Err(InvalidCheckpoint), stamped;
    }
    if |e.jobId| > MAX_FIELD || |e.region| > MAX_FIELD || |e.checkpointUri| > MAX_FIELD {
      return Err(FieldTooLong), stamped;
    }
    var total := 8 + 8 + 4 + |e.jobId| + 4 + |e.region| + 4 + |e.checkpointUri| + 8 + 4;
    var buf := new Byte[total](_ => 0);
    PutBody(buf, e);
    stamped := e.(crc := Checksum(buf[..total - 4]));
    PutUint(buf, total - 4, 4, stamped.crc);
    LayoutThenTail(e, LittleEndian(4, stamped.crc));
    assert buf[..] == buf[..total - 4 + 4];
    return Ok(buf[..]), stamped;
  }

  /** One length-prefixed string at `offset`; next is -1 when the data ends too early. */
  method ReadField(data: ByteString, offset: nat) returns (s: ByteString, next: int)
    requires offset <= |data|
    ensures next == -1 <==> TakeField(data[offset..]).Err?
    ensures next != -1 ==> offset <= next <= |data| && TakeField(data[offset..]) == Ok((s, data[next..]))
  {
    if |data| - offset < 4 {
      return [], -1;
    }
    var n := FromLittleEndian(data[offset..offset + 4]);
    assert data[offset..][..4] == data[offset..offset + 4] && data[offset..][4..] == data[offset + 4..];
    if offset + 4 > |data| - n {
      return [], -1;
    }
    assert data[offset + 4..][..n] == data[offset + 4..offset + 4 + n];
    assert data[offset + 4..][n..] == data[offset + 4 + n..];
    return data[offset + 4..offset + 4 + n], offset + 4 + n;
  }

  method ReadUint(data: ByteString, offset: nat, width: nat) returns (n: nat)
    requires offset + width <= |data|
    ensures TakeUint(width, data[offset..]) == Ok((n, data[offset + width..]))
  {
    n := FromLittleEndian(data[offset..offset + width]);
    assert data[offset..][..width] == data[offset..offset + width];
    assert data[offset..][width..] == data[offset + width..];
  }

  /** The three strings starting at `offset`; next is -1 when the data ends too early. */
  method ReadStrings(data: ByteString, offset: nat)
    returns (jobId: ByteString, region: ByteString, uri: ByteString, next: int)
    requires offset <= |data|
    ensures next == -1 <==> TakeStrings(data[offset..]).Err?
    ensures next != -1 ==>
      offset <= next <= |data| && TakeStrings(data[offset..]) == Ok(Text(jobId, region, uri, data[next..]))
  {
    region, uri := [], [];
    jobId, next := ReadField(data, offset);
    if next < 0 {
      return;
    }
    region, next := ReadField(data, next);
    if next < 0 {
      return;
    }
    uri, next := ReadField(data, next);
  }

  /** UnmarshalBinary, reading by offset; a length field that does not fit is a truncation. */
  method UnmarshalBinary(data: ByteString) returns (r: Result<Entry>)
    ensures r == Decode(data)
  {
    if |data| < 44 {
      return Err(DataTooShort);
    }
    var sequence := ReadUint(data, 0, 8);
    assert data[0..] == data;
    var epoch := ReadUint(data, 8, 8);
    var jobId, region, uri, offset := ReadStrings(data, 16);
    if offset < 0 || |data| - offset < 8 {
      return Err(Truncated);
    }
    var timestamp := ReadUint(data, offset, 8);
    offset := offset + 8;
    if offset + 4 != |data| {
      return Err(if |data| < offset + 4 then Truncated else TrailingData);
    }
    var stored: UInt32 := FromLittleEndian(data[offset..]);
    if stored != Checksum(data[..|data| - 4]) {
      return Err(CrcMismatch);
    }
    if Signed(sequence) <= 0 {
      return Err(EmptySequence);
    }
    if uri == [] {
      return Err(InvalidCheckpoint);
    }
    return Ok(Entry(Signed(sequence), region, Signed(epoch), uri, jobId, Signed(timestamp), stored));
  }
}
