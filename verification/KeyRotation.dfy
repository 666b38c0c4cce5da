/**
 Signing-key rotation and token verification (`internal/auth/rotator.go`, `internal/auth/jwt.go`)
 with an ideal MAC: a signature checks out under a key exactly when it was made with that key.

 Time is in nanoseconds; token times are truncated to seconds, as NumericDate values are
 (section 2 of RFC 7519).  A key identifier made from a timestamp names its second, so two
 rotations within one second share it.
 */
module KeyRotation {

  type Secret = string

  datatype Kid = NoKid | Named(second: int)

  /** The empty secret stands for an absent key. */
  datatype KeySet = KeySet(activeKid: Kid, activeSecret: Secret, previousKid: Kid, previousSecret: Secret)

  const SECOND := 1_000_000_000

  function Truncated(t: int): int { t - t % SECOND }

  function TimeKid(t: int): Kid { Named(t / SECOND) }

  const ISSUER := "nous"

  /** A token as its header, signature and claims determine its fate. */
  datatype Token = Token(kid: Kid, signedWith: Secret, issuer: string, notBefore: int, expiresAt: int)

  datatype Issued = NoSubject | NoSigningKey | Minted(token: Token)

  const HOUR := 3600 * SECOND

  function Lifetime(ttl: int, preset: int): int {
    if ttl > 0 then ttl else if preset > 0 then preset else HOUR
  }

  function Issue(keys: KeySet, subject: string, ttl: int, preset: int, now: int): Issued {
    if subject == "" then NoSubject
    else if keys.activeSecret == "" then NoSigningKey
    else Minted(Token(keys.activeKid, keys.activeSecret, ISSUER, Truncated(now), Truncated(now + Lifetime(ttl, preset))))
  }

  datatype Verdict = Accepted | NoKeys | Unverifiable | BadSignature | Expired | NotYetValid | WrongIssuer

  datatype Chosen = Key(secret: Secret) | NoKey

  /** The key the token's `kid` selects; the cases are tried in this order. */
  function ChooseKey(keys: KeySet, kid: Kid): Chosen {
    if kid == keys.activeKid then Key(keys.activeSecret)
    else if kid == keys.previousKid then
      if keys.previousSecret == "" then NoKey else Key(keys.previousSecret)
    else if kid == NoKid then Key(keys.activeSecret)
    else NoKey
  }

  function Parse(secret: Secret, tok: Token, now: int): Verdict {
    if tok.signedWith != secret then BadSignature
    else if now >= tok.expiresAt then Expired
    else if now < tok.notBefore then NotYetValid
    else Accepted
  }

  function Verify(keys: KeySet, tok: Token, now: int): Verdict {
    if keys.activeSecret == "" && keys.previousSecret == "" then NoKeys else
    var chosen := ChooseKey(keys, tok.kid);
    if chosen.NoKey? then Unverifiable else
    var first := Parse(chosen.secret, tok, now);
    var parsed := if first == BadSignature && keys.previousSecret != ""
                  then Parse(keys.previousSecret, tok, now) else first;
    if parsed != Accepted then parsed
    else if tok.issuer != "" && tok.issuer != ISSUER then WrongIssuer
    else Accepted
  }

  /** Exactly which tokens a key set accepts, and when. */
  lemma AcceptedIff(keys: KeySet, tok: Token, now: int)
    ensures Verify(keys, tok, now) == Accepted <==>
              && (keys.activeSecret != "" || keys.previousSecret != "")
              && (tok.kid in {keys.activeKid, NoKid} || tok.kid == keys.previousKid)
              && (tok.kid == keys.previousKid != keys.activeKid ==> keys.previousSecret != "")
              && (|| (tok.signedWith == keys.previousSecret != "")
                  || (tok.signedWith == keys.activeSecret && (tok.kid == keys.activeKid || tok.kid != keys.previousKid)))
              && tok.notBefore <= now < tok.expiresAt
              && (tok.issuer == "" || tok.issuer == ISSUER)
  {}

  /** Why a token is refused: no keys at all, no key for its name, a wrong signature, its times, its issuer. */
  lemma RefusedBecause(keys: KeySet, tok: Token, now: int)
    requires tok.kid != NoKid
    ensures var v := Verify(keys, tok, now);
            var signed := || (tok.kid == keys.activeKid && tok.signedWith == keys.activeSecret)
                          || (keys.previousSecret != "" && tok.signedWith == keys.previousSecret);
            && (v == NoKeys <==> keys.activeSecret == "" && keys.previousSecret == "")
            && (v == Unverifiable <==>
                  && (keys.activeSecret != "" || keys.previousSecret != "") && tok.kid != keys.activeKid
                  && (tok.kid == keys.previousKid ==> keys.previousSecret == ""))
            && (v in {BadSignature, Expired, NotYetValid, WrongIssuer, Accepted} ==>
                  && (v == BadSignature <==> !signed)
                  && (v == Expired <==> signed && now >= tok.expiresAt)
                  && (v == NotYetValid <==> signed && now < tok.expiresAt && now < tok.notBefore)
                  && (v == WrongIssuer <==> signed && tok.notBefore <= now < tok.expiresAt && tok.issuer !in {"", "nous"}))
  {}

  /** The lifetime a token gets, in nanoseconds: what was asked for, else the issuer's own, else an hour. */
  function EffectiveLife(ttl: int, preset: int): int {
    if ttl > 0 then ttl else if preset > 0 then preset else 3_600_000_000_000
  }

  /**
   A token needs a subject and a signing key.  Under its own key set it verifies from the second it
   was issued in up to, and not including, the second its lifetime ends in.
   */
  lemma TokenWindow(keys: KeySet, subject: string, ttl: int, preset: int, t: int, v: int)
    ensures var issued := Issue(keys, subject, ttl, preset, t);
            var end := t + EffectiveLife(ttl, preset);
            && (issued.Minted? <==> subject != "" && keys.activeSecret != "")
            && (issued.Minted? ==>
                  && issued.token.kid == keys.activeKid
                  && (Verify(keys, issued.token, v) == Accepted <==>
                        t - t % 1_000_000_000 <= v < end - end % 1_000_000_000))
  {}

  // ---------- the rotator ----------

  function Rotated(keys: KeySet, drawn: Secret, now: int): KeySet {
    KeySet(TimeKid(now), drawn, keys.activeKid, keys.activeSecret)
  }

  /** The key is named after the second that `now` falls in. */
  predicate NamesSecondOf(kid: Kid, now: int) {
    kid.Named? && kid.second * 1_000_000_000 <= now < (kid.second + 1) * 1_000_000_000
  }

  class Rotator {
    var keys: KeySet
    const period: int
    const overlap: int

    constructor (initial: Secret, period: int, overlap: int, now: int)
      requires 0 < overlap <= period && initial != ""
      ensures this.period == period && this.overlap == overlap
      ensures keys == KeySet(TimeKid(now), initial, NoKid, "")
    {
      this.period, this.overlap := period, overlap;
      keys := KeySet(TimeKid(now), initial, NoKid, "");
    }

    /** `drawn` is what the random source delivers; an empty one is its failure. */
    method RotateNow(drawn: Secret, now: int) returns (ok: bool)
      modifies this
      ensures ok <==> drawn != ""
      ensures keys == if ok then Rotated(old(keys), drawn, now) else old(keys)
      ensures ok ==> NamesSecondOf(keys.activeKid, now)
    {
      if drawn == "" {
        return false;
      }
      keys := KeySet(TimeKid(now), drawn, keys.activeKid, keys.activeSecret);
      return true;
    }

    method Snapshot() returns (out: KeySet)
      ensures out == keys
    {
      out := keys;
    }
  }

  /** `NewRotator`: a bad configuration or a dry random source makes none. */
  method NewRotator(initial: Secret, generated: Secret, period: int, overlap: int, now: int) returns (r: Rotator?)
    ensures r == null <==> period <= 0 || overlap <= 0 || overlap > period || (initial == "" && generated == "")
    ensures r != null ==> fresh(r) && r.period == period && r.overlap == overlap && NamesSecondOf(r.keys.activeKid, now)
    ensures r != null ==> r.keys == KeySet(TimeKid(now), if initial == "" then generated else initial, NoKid, "")
  {
    if period <= 0 || overlap <= 0 {
      return null;
    }
    if overlap > period {
      return null;
    }
    var seed := initial;
    if seed == "" {
      seed := generated;
      if seed == "" {
        return null;
      }
    }
    r := new Rotator(seed, period, overlap, now);
  }

  // ---------- timed runs ----------

  datatype Rotation = Rotation(at: int, secret: Secret)

  datatype Run = Run(initial: Secret, start: int, rotations: seq<Rotation>)

  function KeysAfter(run: Run, n: nat): KeySet
    requires n <= |run.rotations|
  {
    if n == 0 then KeySet(TimeKid(run.start), run.initial, NoKid, "")
    else Rotated(KeysAfter(run, n - 1), run.rotations[n - 1].secret, run.rotations[n - 1].at)
  }

  /** Keys are never empty and rotations are at least a period apart. */
  ghost predicate WellTimed(run: Run, period: int) {
    && run.initial != ""
    && (forall i :: 0 <= i < |run.rotations| ==> run.rotations[i].secret != "" && run.start <= run.rotations[i].at)
    && (forall i :: 0 < i < |run.rotations| ==> run.rotations[i].at >= run.rotations[i - 1].at + period)
  }

  /** At time `t` the first `n` rotations have happened; at a shared instant either order is possible. */
  ghost predicate Current(run: Run, n: nat, t: int)
    requires n <= |run.rotations|
  {
    && run.start <= t
    && (forall i :: 0 <= i < n ==> run.rotations[i].at <= t)
    && (forall i :: n <= i < |run.rotations| ==> t <= run.rotations[i].at)
  }

  lemma {:induction false} ActiveAfter(run: Run, n: nat, period: int)
    requires n <= |run.rotations| && WellTimed(run, period)
    ensures KeysAfter(run, n).activeSecret == (if n == 0 then run.initial else run.rotations[n - 1].secret) != ""
    ensures KeysAfter(run, n).activeKid.Named?
  {
    if n > 0 {
      assert run.rotations[n - 1].secret != "";
    }
  }

  /** While a token lives, at most one rotation can come in between. */
  lemma AtMostOneRotation(run: Run, period: int, n: nat, issuedAt: int, m: nat, v: int, ttl: int)
    requires n <= m <= |run.rotations| && WellTimed(run, period) && ttl <= period
    requires Current(run, n, issuedAt) && Current(run, m, v) && v < Truncated(issuedAt + ttl)
    ensures m <= n + 1
  {
    if m >= n + 2 {
      TwoRotationsTakeAPeriod(run, period, n, issuedAt, m, v);
    }
  }

  lemma TwoRotationsTakeAPeriod(run: Run, period: int, n: nat, t: int, m: nat, v: int)
    requires n + 2 <= m <= |run.rotations| && WellTimed(run, period) && Current(run, n, t) && Current(run, m, v)
    ensures t + period <= v
  {
    assert t <= run.rotations[n].at;
    assert run.rotations[n + 1].at >= run.rotations[n].at + period;
    assert run.rotations[n + 1].at <= v;
  }

  /** A token minted from the n-th key set is good under it and under the next one, even if their names coincide. */
  lemma GoodForTwoKeySets(run: Run, period: int, n: nat, m: nat, tok: Token, now: int)
    requires n <= m <= |run.rotations| && m <= n + 1 && WellTimed(run, period)
    requires tok.kid == KeysAfter(run, n).activeKid && tok.signedWith == KeysAfter(run, n).activeSecret
    requires tok.issuer == ISSUER && tok.notBefore <= now < tok.expiresAt
    ensures Verify(KeysAfter(run, m), tok, now) == Accepted
  {
    ActiveAfter(run, n, period);
    ActiveAfter(run, m, period);
    if m == n + 1 {
      assert KeysAfter(run, m).previousSecret == KeysAfter(run, n).activeSecret;
      assert KeysAfter(run, m).previousKid == KeysAfter(run, n).activeKid;
    }
    AcceptedIff(KeysAfter(run, m), tok, now);
  }

  /** Everything that can be asked of a token: where it is issued and where it is presented. */
  datatype Episode = Episode(run: Run, n: nat, issuedAt: int, m: nat, v: int)

  ghost predicate Possible(e: Episode, period: int) {
    && e.n <= e.m <= |e.run.rotations| && WellTimed(e.run, period)
    && Current(e.run, e.n, e.issuedAt) && Current(e.run, e.m, e.v)
    && e.issuedAt <= e.v
  }

  ghost predicate Lives(e: Episode, period: int, life: int) {
    Possible(e, period) && e.v < Truncated(e.issuedAt + life)
  }

  ghost predicate Honoured(e: Episode, subject: string, ttl: int, preset: int)
    requires e.n <= e.m <= |e.run.rotations|
  {
    var issued := Issue(KeysAfter(e.run, e.n), subject, ttl, preset, e.issuedAt);
    issued.Minted? && Verify(KeysAfter(e.run, e.m), issued.token, e.v) == Accepted
  }

  /**
   Rotation never drops a live token: with rotations at least a period apart, a token whose lifetime
   is at most the overlap (itself at most the period) verifies at every instant before it expires.
   */
  lemma LiveTokensVerify(e: Episode, period: int, overlap: int, subject: string, ttl: int, preset: int)
    requires subject != "" && EffectiveLife(ttl, preset) <= overlap <= period && Lives(e, period, EffectiveLife(ttl, preset))
    ensures Honoured(e, subject, ttl, preset)
  {
    ActiveAfter(e.run, e.n, period);
    AtMostOneRotation(e.run, period, e.n, e.issuedAt, e.m, e.v, EffectiveLife(ttl, preset));
    var issued := Issue(KeysAfter(e.run, e.n), subject, ttl, preset, e.issuedAt);
    GoodForTwoKeySets(e.run, period, e.n, e.m, issued.token, e.v);
  }

  /** No rotation gives a token a longer life: once its lifetime is over it is refused in every episode. */
  lemma DeadTokensRefused(e: Episode, period: int, subject: string, ttl: int, preset: int)
    requires Possible(e, period)
    requires var end := e.issuedAt + EffectiveLife(ttl, preset); e.v >= end - end % 1_000_000_000
    ensures !Honoured(e, subject, ttl, preset)
  {
    var issued := Issue(KeysAfter(e.run, e.n), subject, ttl, preset, e.issuedAt);
    if issued.Minted? {
      AcceptedIff(KeysAfter(e.run, e.m), issued.token, e.v);
    }
  }

  /** With a lifetime of at most a period, a token verifies exactly until the second its lifetime ends in. */
  lemma HonouredIffAlive(e: Episode, period: int, subject: string, ttl: int, preset: int)
    requires subject != "" && EffectiveLife(ttl, preset) <= period && Possible(e, period)
    ensures var end := e.issuedAt + EffectiveLife(ttl, preset);
            Honoured(e, subject, ttl, preset) <==> e.v < end - end % 1_000_000_000
  {
    var end := e.issuedAt + EffectiveLife(ttl, preset);
    if e.v < end - end % 1_000_000_000 {
      LiveTokensVerify(e, period, period, subject, ttl, preset);
    } else {
      DeadTokensRefused(e, period, subject, ttl, preset);
    }
  }

  /** A run in which a token that outlives the period is dropped while still alive. */
  function LongLivedEpisode(period: int, ttl: int): Episode {
    var issuedAt := SECOND - ttl % SECOND;
    Episode(Run("first", 0, [Rotation(issuedAt, "second"), Rotation(issuedAt + period, "third")]),
            0, issuedAt, 2, issuedAt + period)
  }

  lemma LongLivedTokenDropped(period: int, ttl: int)
    requires 0 < period < ttl
    ensures Lives(LongLivedEpisode(period, ttl), period, ttl) && !Honoured(LongLivedEpisode(period, ttl), "s", ttl, 0)
  {
    var e := LongLivedEpisode(period, ttl);
    assert Truncated(e.issuedAt + ttl) == e.issuedAt + ttl;
    var k1, k2 := KeysAfter(e.run, 1), KeysAfter(e.run, 2);
    assert k2.activeSecret == "third" && k2.previousSecret == k1.activeSecret == "second";
    var tok := Issue(KeysAfter(e.run, 0), "s", ttl, 0, e.issuedAt).token;
    assert tok.signedWith == "first";
    assert "first"[0] != "second"[0] && "first"[0] != "third"[0];
    AcceptedIff(k2, tok, e.v);
  }

  /** The guarantee holds for a lifetime exactly when it is no longer than the period; the overlap itself never matters. */
  lemma NeverDroppedIff(period: int, ttl: int)
    requires 0 < period && 0 < ttl
    ensures ttl <= period <==> forall e :: Lives(e, period, ttl) ==> Honoured(e, "s", ttl, 0)
  {
    if ttl <= period {
      forall e | Lives(e, period, ttl)
        ensures Honoured(e, "s", ttl, 0)
      {
        LiveTokensVerify(e, period, period, "s", ttl, 0);
      }
    } else {
      LongLivedTokenDropped(period, ttl);
    }
  }

  ghost predicate SecretsDiffer(run: Run) {
    && (forall i :: 0 <= i < |run.rotations| ==> run.rotations[i].secret != run.initial)
    && (forall i, j :: 0 <= i < j < |run.rotations| ==> run.rotations[i].secret != run.rotations[j].secret)
  }

  /** Two rotations retire a token for good, whatever its expiry says. */
  lemma RefusedAfterTwoRotations(run: Run, period: int, n: nat, m: nat, tok: Token, now: int)
    requires n + 2 <= m <= |run.rotations| && WellTimed(run, period) && SecretsDiffer(run)
    requires tok.signedWith == KeysAfter(run, n).activeSecret
    ensures Verify(KeysAfter(run, m), tok, now) != Accepted
  {
    ActiveAfter(run, n, period);
    ActiveAfter(run, m, period);
    ActiveAfter(run, m - 1, period);
    assert KeysAfter(run, m).previousSecret == KeysAfter(run, m - 1).activeSecret;
    AcceptedIff(KeysAfter(run, m), tok, now);
  }
}
