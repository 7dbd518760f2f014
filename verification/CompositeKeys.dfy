/** Map keys made of parts joined by NUL bytes (control-plane/connection/memory/repository.go). */
module CompositeKeys {
  import opened ConnectionStore

  function Nuls(s: string): nat {
    if s == "" then 0 else (if s[0] == '\0' then 1 else 0) + Nuls(s[1..])
  }

  lemma {:induction false} NulsOfBoth(a: string, b: string)
    ensures Nuls(a + b) == Nuls(a) + Nuls(b)
  {
    if a == "" {
      assert a + b == b;
    } else {
      assert (a + b)[1..] == a[1..] + b;
      NulsOfBoth(a[1..], b);
    }
  }

  lemma {:induction false} NulsCount(s: string)
    ensures Nuls(s) == 0 <==> '\0' !in s
  {
    if s != "" {
      assert s == [s[0]] + s[1..];
      NulsCount(s[1..]);
    }
  }

  function Joined(a: string, b: string): string { a + "\0" + b }

  lemma NulsOfJoined(a: string, b: string)
    ensures Nuls(Joined(a, b)) == Nuls(a) + 1 + Nuls(b)
  {
    NulsOfBoth(a + "\0", b);
    NulsOfBoth(a, "\0");
    assert Nuls("\0") == 1 + Nuls("\0"[1..]);
  }

  /** The last part is found again if it has no NUL. */
  lemma LastPart(a: string, b: string, c: string, d: string)
    requires '\0' !in b && '\0' !in d && Joined(a, b) == Joined(c, d)
    ensures a == c && b == d
  {
    var s := Joined(a, b);
    assert s[|a|] == '\0' && s[|c|] == '\0';
    assert |a| == |c|;
    assert a == s[..|a|] && c == s[..|c|];
    assert b == s[|a| + 1..] && d == s[|c| + 1..];
  }

  /** Names are DNS labels, so no two connections share a key. */
  lemma ResourceKeysDiffer(tenantId: string, name: string, otherTenant: string, otherName: string)
    requires '\0' !in name && '\0' !in otherName && ResourceKey(tenantId, name) == ResourceKey(otherTenant, otherName)
    ensures tenantId == otherTenant && name == otherName
  {
    LastPart(tenantId, name, otherTenant, otherName);
  }

  // ----- idempotency keys

  function ScopeOf(m: Mutation): Scope { Scope(m.tenantId, m.identity.actorId, m.identity.method_) }

  datatype Scope = Scope(tenantId: string, actorId: string, method_: string) {
    function Text(): string { Joined(Joined(tenantId, actorId), method_) }

    predicate Clean() { '\0' !in tenantId && '\0' !in actorId && '\0' !in method_ }
  }

  lemma KeyIsScopeAndFingerprint(m: Mutation)
    ensures IdempotencyKey(m) == Joined(ScopeOf(m).Text(), m.identity.keyFingerprint)
  {
    assert IdempotencyKey(m) ==
      m.tenantId + "\0" + m.identity.actorId + "\0" + m.identity.method_ + "\0" + m.identity.keyFingerprint;
  }

  /** Fingerprints are digests, without NUL: equal keys mean equal fingerprints and equal scope texts. */
  lemma SameKey(m: Mutation, n: Mutation)
    requires '\0' !in m.identity.keyFingerprint && '\0' !in n.identity.keyFingerprint
    requires IdempotencyKey(m) == IdempotencyKey(n)
    ensures m.identity.keyFingerprint == n.identity.keyFingerprint && ScopeOf(m).Text() == ScopeOf(n).Text()
  {
    hide IdempotencyKey, Scope.Text, Joined;
    KeyIsScopeAndFingerprint(m);
    KeyIsScopeAndFingerprint(n);
    LastPart(ScopeOf(m).Text(), m.identity.keyFingerprint, ScopeOf(n).Text(), n.identity.keyFingerprint);
  }

  lemma NulsOfText(s: Scope)
    ensures Nuls(s.Text()) == Nuls(s.tenantId) + Nuls(s.actorId) + Nuls(s.method_) + 2
  {
    hide Joined;
    NulsOfJoined(Joined(s.tenantId, s.actorId), s.method_);
    NulsOfJoined(s.tenantId, s.actorId);
  }

  lemma CleanIsUnambiguous(s: Scope, t: Scope)
    requires s.Clean() && s.Text() == t.Text()
    ensures s == t
  {
    hide Joined;
    NulsOfText(s);
    NulsOfText(t);
    NulsCount(s.tenantId);
    NulsCount(s.actorId);
    NulsCount(s.method_);
    NulsCount(t.tenantId);
    NulsCount(t.actorId);
    NulsCount(t.method_);
    LastPart(Joined(s.tenantId, s.actorId), s.method_, Joined(t.tenantId, t.actorId), t.method_);
    LastPart(s.tenantId, s.actorId, t.tenantId, t.actorId);
  }

  lemma CutAtNul(s: string) returns (before: string, after: string)
    requires '\0' in s
    ensures s == Joined(before, after)
  {
    var i :| 0 <= i < |s| && s[i] == '\0';
    before, after := s[..i], s[i + 1..];
  }

  lemma JoinedInTwo(a: string, b: string, c: string)
    ensures Joined(Joined(a, b), c) == Joined(a, Joined(b, c)) && |Joined(a, b)| == |a| + 1 + |b|
  {
    assert Joined(Joined(a, b), c) == a + "\0" + b + "\0" + c;
    assert Joined(a, Joined(b, c)) == a + "\0" + b + "\0" + c;
  }

  /** With a NUL in one of its parts, another scope has the same text. */
  lemma UncleanIsAmbiguous(s: Scope) returns (t: Scope)
    requires !s.Clean()
    ensures t != s && t.Text() == s.Text()
  {
    hide Joined;
    if '\0' in s.tenantId {
      var x, y := CutAtNul(s.tenantId);
      t := Scope(x, y, Joined(s.actorId, s.method_));
      JoinedInTwo(Joined(x, y), s.actorId, s.method_);
      JoinedInTwo(x, y, s.actorId);
    } else if '\0' in s.actorId {
      var x, y := CutAtNul(s.actorId);
      t := Scope(s.tenantId, x, Joined(y, s.method_));
      JoinedInTwo(s.tenantId, x, y);
      JoinedInTwo(Joined(s.tenantId, x), y, s.method_);
    } else {
      var x, y := CutAtNul(s.method_);
      t := Scope(Joined(s.tenantId, s.actorId), x, y);
      JoinedInTwo(s.tenantId, s.actorId, x);
      JoinedInTwo(Joined(s.tenantId, s.actorId), x, y);
    }
  }

  /**
   A caller's idempotency keys are its own, equal only for the same tenant, actor, method and fingerprint, if
   and only if none of the first three contains a NUL.
   */
  lemma ScopeIsItsOwnIff(m: Mutation)
    requires '\0' !in m.identity.keyFingerprint
    ensures ScopeOf(m).Clean() <==> forall n: Mutation ::
      '\0' !in n.identity.keyFingerprint && IdempotencyKey(n) == IdempotencyKey(m) ==>
        ScopeOf(n) == ScopeOf(m) && n.identity.keyFingerprint == m.identity.keyFingerprint
  {
    hide IdempotencyKey, Scope.Text, Joined, Scope.Clean;
    if ScopeOf(m).Clean() {
      forall n: Mutation | '\0' !in n.identity.keyFingerprint && IdempotencyKey(n) == IdempotencyKey(m)
        ensures ScopeOf(n) == ScopeOf(m) && n.identity.keyFingerprint == m.identity.keyFingerprint
      {
        SameKey(m, n);
        CleanIsUnambiguous(ScopeOf(m), ScopeOf(n));
      }
    } else {
      var t := UncleanIsAmbiguous(ScopeOf(m));
      var n := m.(tenantId := t.tenantId, identity := m.identity.(actorId := t.actorId, method_ := t.method_));
      KeyIsScopeAndFingerprint(m);
      KeyIsScopeAndFingerprint(n);
      assert ScopeOf(n) == t;
    }
  }
}
