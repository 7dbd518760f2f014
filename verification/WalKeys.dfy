/**
 Object keys of WAL entries: printing, the two sequence scanners, and the
 path-splitting filter a restarting writer applies to listed keys.
 */
module WalKeys {
  import opened Outcomes
  import opened Bytes

  const SLASH: Byte := 0x2F
  const ZERO: Byte := 0x30
  const MINUS: Byte := 0x2D
  const PLUS: Byte := 0x2B
  const DOT_WAL: ByteString := [0x2E, 0x77, 0x61, 0x6C]
  const MAX_INT64 := 0x7FFF_FFFF_FFFF_FFFF

  datatype Config = Config(prefix: ByteString, region: ByteString) {
    /** What a key of this region starts with. */
    function RegionPrefix(): ByteString {
      prefix + [SLASH] + region + [SLASH]
    }

    /** `<prefix>/<region>/%016d.wal` */
    function EntryKey(n: nat): ByteString {
      RegionPrefix() + (Padded(n) + DOT_WAL)
    }

    /** NewWriter and NewReader refuse an empty region or prefix. */
    predicate Valid() {
      prefix != [] && region != []
    }

    /** The path parts of every key of this region are those of the prefix, the region and the number. */
    predicate Clean() {
      SLASH !in region && TrimSlash(prefix) == prefix
    }
  }

  // ----- decimal numbers

  function Decimal(n: nat): (b: ByteString)
    ensures |b| > 0
  {
    if n < 10 then [ZERO + n] else Decimal(n / 10) + [ZERO + n % 10]
  }

  function Zeros(k: nat): (b: ByteString)
    ensures |b| == k
    ensures forall i :: 0 <= i < k ==> b[i] == ZERO
  {
    seq(k, _ => ZERO)
  }

  function Padded(n: nat): ByteString {
    Zeros(if |Decimal(n)| < 16 then 16 - |Decimal(n)| else 0) + Decimal(n)
  }

  predicate IsDigit(c: Byte) { ZERO <= c <= ZERO + 9 }

  predicate AllDigits(b: ByteString) {
    forall i :: 0 <= i < |b| ==> IsDigit(b[i])
  }

  function Value(b: ByteString): nat
    requires AllDigits(b)
  {
    if b == [] then 0 else 10 * Value(b[..|b| - 1]) + (b[|b| - 1] - ZERO)
  }

  lemma {:induction false} DecimalIsRead(n: nat, k: nat)
    ensures AllDigits(Zeros(k) + Decimal(n)) && Value(Zeros(k) + Decimal(n)) == n
  {
    var b := Zeros(k) + Decimal(n);
    if n < 10 {
      assert b[..|b| - 1] == Zeros(k);
      ZerosAreZero(k);
    } else {
      assert b[..|b| - 1] == Zeros(k) + Decimal(n / 10);
      DecimalIsRead(n / 10, k);
    }
  }

  lemma {:induction false} ZerosAreZero(k: nat)
    ensures AllDigits(Zeros(k)) && Value(Zeros(k)) == 0
  {
    if k > 0 {
      assert Zeros(k)[..k - 1] == Zeros(k - 1);
      ZerosAreZero(k - 1);
    }
  }

  lemma PaddedIsRead(n: nat)
    ensures AllDigits(Padded(n)) && |Padded(n)| >= 16 && Value(Padded(n)) == n
  {
    DecimalIsRead(n, if |Decimal(n)| < 16 then 16 - |Decimal(n)| else 0);
  }

  function Pow10(k: nat): nat { if k == 0 then 1 else 10 * Pow10(k - 1) }

  lemma {:induction false} DecimalLength(n: nat, k: nat)
    requires 0 < k && n < Pow10(k)
    ensures |Decimal(n)| <= k
  {
    if n >= 10 {
      DecimalLength(n / 10, k - 1);
    }
  }

  /** A key is the prefix, the region and sixteen digits, between slashes, with `.wal` at the end. */
  lemma KeyFormat(cfg: Config, n: nat)
    requires n < 10_000_000_000_000_000
    ensures var key, at := cfg.EntryKey(n), |cfg.prefix| + |cfg.region| + 2;
      && |key| == at + 20 && key[..|cfg.prefix|] == cfg.prefix && key[|cfg.prefix|] == 0x2F
      && key[|cfg.prefix| + 1..at - 1] == cfg.region && key[at - 1] == 0x2F
      && AllDigits(key[at..at + 16]) && Value(key[at..at + 16]) == n
      && key[at + 16..] == [0x2E, 0x77, 0x61, 0x6C]
  {
    hide Decimal, Value;
    assert Pow10(4) == 10_000 && Pow10(8) == 100_000_000;
    assert Pow10(12) == 1_000_000_000_000 && Pow10(16) == 10_000_000_000_000_000;
    DecimalLength(n, 16);
    PaddedIsRead(n);
    var key, at := cfg.EntryKey(n), |cfg.prefix| + |cfg.region| + 2;
    assert key[at..at + 16] == Padded(n);
  }

  // ----- scanning numbers

  function DigitRun(b: ByteString): (k: nat)
    ensures k <= |b| && AllDigits(b[..k])
    ensures k < |b| ==> !IsDigit(b[k])
  {
    if b == [] || !IsDigit(b[0]) then 0 else
    var k := DigitRun(b[1..]);
    assert b[..1 + k] == [b[0]] + b[1..][..k];
    1 + k
  }

  predicate Signed?(b: ByteString) { b != [] && (b[0] == MINUS || b[0] == PLUS) }

  /** fmt.Sscanf(b, "%d", …): an optional sign and the longest run of digits, within int64. */
  function Scan(b: ByteString): Option<int> {
    var digits := if Signed?(b) then b[1..] else b;
    var k := DigitRun(digits);
    var magnitude: int := Value(digits[..k]);
    var v := if Signed?(b) && b[0] == MINUS then -magnitude else magnitude;
    if k == 0 || !(-MAX_INT64 - 1 <= v <= MAX_INT64) then None else Some(v)
  }

  /** strconv.ParseInt(b, 10, 64): the same, but nothing may follow the digits. */
  function ParseInt(b: ByteString): Option<int> {
    if DigitRun(if Signed?(b) then b[1..] else b) == |b| - (if Signed?(b) then 1 else 0) then Scan(b) else None
  }

  lemma ScansPadded(n: nat)
    requires n <= MAX_INT64
    ensures Scan(Padded(n)) == Some(n) && ParseInt(Padded(n)) == Some(n)
  {
    PaddedIsRead(n);
    assert IsDigit(Padded(n)[0]);
    assert DigitRun(Padded(n)) == |Padded(n)|;
    assert Padded(n)[..|Padded(n)|] == Padded(n);
  }

  // ----- suffixes and path parts

  function TrimSuffix(s: ByteString, suffix: ByteString): (r: ByteString)
    ensures r <= s
  {
    if |s| >= |suffix| && s[|s| - |suffix|..] == suffix then s[..|s| - |suffix|] else s
  }

  function TrimSlash(s: ByteString): ByteString { TrimSuffix(s, [SLASH]) }

  lemma TrimsOwnSuffix(s: ByteString, suffix: ByteString)
    ensures TrimSuffix(s + suffix, suffix) == s
  {
    assert (s + suffix)[|s|..] == suffix;
  }

  /** Index of the last '/', or -1. */
  function LastSlash(s: ByteString): (i: int)
    ensures -1 <= i < |s|
    ensures i >= 0 ==> s[i] == SLASH
    ensures forall j :: i < j < |s| ==> s[j] != SLASH
  {
    if s == [] then -1
    else if s[|s| - 1] == SLASH then |s| - 1
    else LastSlash(s[..|s| - 1])
  }

  function Base(s: ByteString): ByteString { s[LastSlash(s) + 1..] }

  lemma BaseOf(dir: ByteString, name: ByteString)
    requires dir != [] && dir[|dir| - 1] == SLASH && SLASH !in name
    ensures Base(dir + name) == name && LastSlash(dir + name) == |dir| - 1
  {
    var s := dir + name;
    assert s[|dir| - 1] == SLASH;
    assert forall j :: |dir| <= j < |s| ==> s[j] == name[j - |dir|];
    assert s[|dir|..] == name;
  }

  /** strings.Split(s, "/") */
  function Split(s: ByteString): (parts: seq<ByteString>)
    ensures |parts| > 0
  {
    if s == [] then [[]] else Prepend(s[0], Split(s[1..]))
  }

  /** One more byte in front: a slash opens a new part, anything else joins the first one. */
  function Prepend(c: Byte, parts: seq<ByteString>): (r: seq<ByteString>)
    requires parts != []
    ensures |r| == |parts| + (if c == SLASH then 1 else 0)
  {
    if c == SLASH then [[]] + parts else [[c] + parts[0]] + parts[1..]
  }

  lemma PrependToFirst(c: Byte, p: seq<ByteString>, q: seq<ByteString>)
    requires p != []
    ensures Prepend(c, p + q) == Prepend(c, p) + q
  {
    assert (p + q)[1..] == p[1..] + q;
  }

  /** strings.Join(parts, "/") */
  function Join(parts: seq<ByteString>): ByteString {
    if parts == [] then []
    else if |parts| == 1 then parts[0]
    else parts[0] + [SLASH] + Join(parts[1..])
  }

  lemma {:induction false} SplitOfPath(a: ByteString, b: ByteString)
    ensures Split(a + [SLASH] + b) == Split(a) + Split(b)
  {
    var s := a + [SLASH] + b;
    if a == [] {
      assert s[1..] == b;
    } else {
      hide Prepend;
      assert s[1..] == a[1..] + [SLASH] + b;
      SplitOfPath(a[1..], b);
      PrependToFirst(a[0], Split(a[1..]), Split(b));
    }
  }

  lemma {:induction false} SplitOfName(a: ByteString)
    ensures |Split(a)| == 1 <==> SLASH !in a
    ensures SLASH !in a ==> Split(a) == [a]
  {
    if a != [] {
      SplitOfName(a[1..]);
      assert a == [a[0]] + a[1..];
    }
  }

  lemma {:induction false} PartsHaveNoSlash(s: ByteString)
    ensures forall i :: 0 <= i < |Split(s)| ==> SLASH !in Split(s)[i]
  {
    if s != [] {
      PartsHaveNoSlash(s[1..]);
    }
  }

  lemma {:induction false} JoinOfSplit(s: ByteString)
    ensures Join(Split(s)) == s
  {
    if s != [] {
      JoinOfSplit(s[1..]);
      var rest := Split(s[1..]);
      var parts := Split(s);
      if s[0] == SLASH {
        assert parts[1..] == rest;
      } else {
        assert parts[1..] == rest[1..];
        if |rest| > 1 {
          assert Join(parts) == ([s[0]] + rest[0]) + [SLASH] + Join(rest[1..]);
        }
      }
      assert s == [s[0]] + s[1..];
    }
  }

  lemma {:induction false} JoinOfConcat(p: seq<ByteString>, q: seq<ByteString>)
    requires p != [] && q != []
    ensures Join(p + q) == Join(p) + [SLASH] + Join(q)
  {
    if |p| == 1 {
      assert (p + q)[1..] == q;
    } else {
      JoinOfConcat(p[1..], q);
      assert (p + q)[1..] == p[1..] + q;
      assert (p + q)[0] == p[0];
    }
  }

  // ----- the scanners applied to keys

  /** parseSequenceFromKey of the WAL reader: 0 for anything that is not `…/<number>.wal`. */
  function SequenceOfKey(key: ByteString): int {
    if |key| < 4 || key[|key| - 4..] != DOT_WAL then 0 else
    var name := key[..|key| - 4];
    if LastSlash(name) < 0 then 0 else
    match Scan(Base(name)) case Some(v) => v case None => 0
  }

  /** sequenceFromKey of the recovery adapter: the suffix is optional, the number must be positive. */
  function PositiveSequenceOfKey(key: ByteString): Option<int> {
    match Scan(TrimSuffix(Base(key), DOT_WAL))
    case Some(v) => if v <= 0 then None else Some(v)
    case None => None
  }

  method ParseSequenceFromKey(key: ByteString) returns (sequence: int)
    ensures sequence == SequenceOfKey(key)
  {
    if |key| < 4 || key[|key| - 4..] != DOT_WAL {
      return 0;
    }
    var name := key[..|key| - 4];
    var i := |name| - 1;
    while i >= 0 && name[i] != SLASH
      invariant -1 <= i < |name|
      invariant forall j :: i < j < |name| ==> name[j] != SLASH
    {
      i := i - 1;
    }
    if i < 0 {
      return 0;
    }
    match Scan(name[i + 1..])
    case Some(v) => return v;
    case None => return 0;
  }

  /** The filter of resumeSequence, and the number it reads from a key that passes. */
  function ResumedSequence(cfg: Config, key: ByteString): Option<int> {
    var parts := Split(TrimSuffix(key, DOT_WAL));
    var prefixParts := Split(TrimSlash(cfg.prefix));
    var n := |prefixParts|;
    if |parts| != n + 2 || Join(parts[..n]) != Join(prefixParts) || parts[n] != cfg.region then None
    else ParseInt(parts[|parts| - 1])
  }

  lemma PaddedHasNoSlash(n: nat)
    ensures SLASH !in Padded(n) && SLASH !in DOT_WAL && SLASH !in Padded(n) + DOT_WAL
  {
    PaddedIsRead(n);
  }

  lemma PathIsScanned(name: ByteString)
    requires LastSlash(name) >= 0
    ensures SequenceOfKey(name + DOT_WAL) == match Scan(Base(name)) case Some(v) => v case None => 0
  {
    var key := name + DOT_WAL;
    assert key[|key| - 4..] == DOT_WAL && key[..|key| - 4] == name;
  }

  lemma KeyIsScannedByReader(cfg: Config, n: nat)
    requires 0 < n <= MAX_INT64
    ensures SequenceOfKey(cfg.EntryKey(n)) == n
  {
    ScansPadded(n);
    PaddedHasNoSlash(n);
    BaseOf(cfg.RegionPrefix(), Padded(n));
    PathIsScanned(cfg.RegionPrefix() + Padded(n));
    assert cfg.EntryKey(n) == cfg.RegionPrefix() + Padded(n) + DOT_WAL;
  }

  lemma KeyIsScannedByAdapter(cfg: Config, n: nat)
    requires 0 < n <= MAX_INT64
    ensures PositiveSequenceOfKey(cfg.EntryKey(n)) == Some(n)
  {
    ScansPadded(n);
    PaddedHasNoSlash(n);
    BaseOf(cfg.RegionPrefix(), Padded(n) + DOT_WAL);
    TrimsOwnSuffix(Padded(n), DOT_WAL);
  }

  /** Printing a sequence into a key and scanning it back are inverse, for both scanners. */
  lemma KeyIsScanned(cfg: Config, n: nat)
    requires 0 < n <= MAX_INT64
    ensures SequenceOfKey(cfg.EntryKey(n)) == n
    ensures PositiveSequenceOfKey(cfg.EntryKey(n)) == Some(n)
  {
    KeyIsScannedByReader(cfg, n);
    KeyIsScannedByAdapter(cfg, n);
  }

  lemma EntryKeysDiffer(cfg: Config, m: nat, n: nat)
    requires 0 < m <= MAX_INT64 && 0 < n <= MAX_INT64 && m != n
    ensures cfg.EntryKey(m) != cfg.EntryKey(n)
  {
    KeyIsScanned(cfg, m);
    KeyIsScanned(cfg, n);
  }

  /** A restarting writer with a clean configuration reads back the number in its own keys. */
  lemma CleanKeyIsResumed(cfg: Config, n: nat)
    requires cfg.Clean() && n <= MAX_INT64
    ensures ResumedSequence(cfg, cfg.EntryKey(n)) == Some(n)
  {
    var name := cfg.prefix + [SLASH] + (cfg.region + [SLASH] + Padded(n));
    assert cfg.EntryKey(n) == name + DOT_WAL;
    TrimsOwnSuffix(name, DOT_WAL);
    PaddedHasNoSlash(n);
    SplitOfPath(cfg.region, Padded(n));
    SplitOfPath(cfg.prefix, cfg.region + [SLASH] + Padded(n));
    SplitOfName(cfg.region);
    SplitOfName(Padded(n));
    ScansPadded(n);
    assert Split(name) == Split(cfg.prefix) + [cfg.region, Padded(n)];
  }

  lemma JoinOfTwo(a: ByteString, b: ByteString)
    ensures Join([a, b]) == a + [SLASH] + b
  {
    assert [a, b][1..] == [b];
  }

  /** Any key a writer resumes from lies under its region, with one trailing slash cut from the prefix. */
  lemma ResumedKeyIsOfRegion(cfg: Config, key: ByteString)
    requires ResumedSequence(cfg, key).Some?
    ensures SLASH !in cfg.region
    ensures Config(TrimSlash(cfg.prefix), cfg.region).RegionPrefix() <= key
  {
    var name, stem := TrimSuffix(key, DOT_WAL), TrimSlash(cfg.prefix);
    var parts, n := Split(name), |Split(stem)|;
    var last := parts[n + 1];
    PartsHaveNoSlash(name);
    assert parts == parts[..n] + [cfg.region, last];
    JoinOfConcat(parts[..n], [cfg.region, last]);
    JoinOfSplit(name);
    JoinOfSplit(stem);
    JoinOfTwo(cfg.region, last);
    PathInPieces(stem, cfg.region, last);
  }

  lemma PathInPieces(stem: ByteString, region: ByteString, last: ByteString)
    ensures stem + [SLASH] + (region + [SLASH] + last) == Config(stem, region).RegionPrefix() + last
  {
  }

  /** With a prefix ending in '/' or a region holding one, no listed key passes the filter at all. */
  lemma UncleanNeverResumes(cfg: Config, key: ByteString)
    requires cfg.Valid() && !cfg.Clean() && cfg.prefix + [SLASH] <= key
    ensures ResumedSequence(cfg, key).None?
  {
    if SLASH !in cfg.region {
      assert cfg.prefix == TrimSlash(cfg.prefix) + [SLASH];
      LiesOutside(TrimSlash(cfg.prefix), cfg.region, key);
    }
    if ResumedSequence(cfg, key).Some? {
      ResumedKeyIsOfRegion(cfg, key);
    }
  }

  lemma LiesOutside(stem: ByteString, region: ByteString, key: ByteString)
    requires region != [] && SLASH !in region && stem + [SLASH] + [SLASH] <= key
    ensures !(Config(stem, region).RegionPrefix() <= key)
  {
    assert key[|stem| + 1] == (stem + [SLASH] + [SLASH])[|stem| + 1];
    assert Config(stem, region).RegionPrefix()[|stem| + 1] == region[0];
  }
}
