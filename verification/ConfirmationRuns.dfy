/**
 Whole runs of mints and verifications against one ledger, in any interleaving
 (apps/admin/lib/confirmation-proof.ts).
 */
module ConfirmationRuns {
  import opened Options
  import opened ConfirmationProof

  datatype Event =
    | Mint(key: string, owner: string, nonce: string, now: int)
    | Verify(token: Option<string>, key: string, session: Option<string>, now: int)

  function Examined(c: Crypto, e: Event): Examination
    requires e.Verify?
  {
    Examine(c, e.token, e.key, e.session, e.now)
  }

  function Step(c: Crypto, ledger: Ledger, e: Event): Ledger {
    if e.Mint? then ledger else LedgerAfter(ledger, Examined(c, e), e.now)
  }

  /** The ledger, empty at first, after the first k events. */
  function LedgerAt(c: Crypto, run: seq<Event>, k: nat): Ledger
    requires k <= |run|
    decreases k
  {
    if k == 0 then map[] else Step(c, LedgerAt(c, run, k - 1), run[k - 1])
  }

  predicate AcceptedAt(c: Crypto, run: seq<Event>, i: nat)
    requires i < |run|
  {
    run[i].Verify? && VerdictOf(LedgerAt(c, run, i), Examined(c, run[i]), run[i].now) == Accepted
  }

  function PayloadAt(c: Crypto, run: seq<Event>, i: nat): Payload
    requires i < |run| && AcceptedAt(c, run, i)
  {
    Examined(c, run[i]).payload
  }

  /** The clock never goes backwards. */
  ghost predicate Chronological(run: seq<Event>) {
    forall i, j :: 0 <= i <= j < |run| ==> run[i].now <= run[j].now
  }

  function MintedAt(c: Crypto, e: Event): Payload
    requires e.Mint?
  {
    MintedPayload(c, e.key, e.owner, e.nonce, e.now)
  }

  ghost predicate MintedBefore(c: Crypto, run: seq<Event>, i: nat, encoded: string)
    requires i <= |run|
  {
    exists j :: 0 <= j < i && run[j].Mint? && c.encode(MintedAt(c, run[j])) == encoded
  }

  /** Only what was minted carries a valid signature. */
  ghost predicate Unforged(c: Crypto, run: seq<Event>) {
    forall i :: 0 <= i < |run| && run[i].Verify? && run[i].token.Some? && SignedPart(c, run[i].token.value).Some?
      ==> MintedBefore(c, run, i, SignedPart(c, run[i].token.value).value)
  }

  // ---- single use ----

  /** A verification that reached the ledger with the clock at or past an instant: it forgets what expires by then. */
  predicate ForgetsBy(c: Crypto, e: Event, expiry: int) {
    e.Verify? && Examined(c, e).Good? && expiry <= e.now
  }

  /** Some event strictly between i and k forgets what expires by the given instant. */
  predicate ForgottenBetween(c: Crypto, run: seq<Event>, i: nat, k: nat, expiry: int)
    requires k <= |run|
  {
    exists m :: i < m < k && ForgetsBy(c, run[m], expiry)
  }

  /** No verification strictly between i and k spends the nonce again. */
  predicate NotSpentBetween(c: Crypto, run: seq<Event>, i: nat, k: nat, nonce: string)
    requires k <= |run|
  {
    forall m :: i < m < k && AcceptedAt(c, run, m) ==> PayloadAt(c, run, m).n != nonce
  }

  /** With any clock: a spent nonce is in the ledger exactly until an event forgets its expiry. */
  lemma {:induction false} RememberedExactly(c: Crypto, run: seq<Event>, i: nat, k: nat)
    requires i < k <= |run| && AcceptedAt(c, run, i)
    requires NotSpentBetween(c, run, i, k, PayloadAt(c, run, i).n)
    ensures var p := PayloadAt(c, run, i);
            && (p.n in LedgerAt(c, run, k) <==> !ForgottenBetween(c, run, i, k, p.e))
            && (p.n in LedgerAt(c, run, k) ==> LedgerAt(c, run, k)[p.n] == p.e)
    decreases k
  {
    if k > i + 1 {
      var p := PayloadAt(c, run, i);
      RememberedExactly(c, run, i, k - 1);
      assert ForgottenBetween(c, run, i, k, p.e)
             <==> ForgottenBetween(c, run, i, k - 1, p.e) || ForgetsBy(c, run[k - 1], p.e);
      assert AcceptedAt(c, run, k - 1) ==> PayloadAt(c, run, k - 1).n != p.n;
    }
  }

  /**
   Exactly when a spent nonce is accepted again, whatever the clock does: when a verification since
   the last acceptance, or this one, reached the ledger with the clock at or past the spent proof's
   expiry.
   */
  lemma AcceptedAgainExactly(c: Crypto, run: seq<Event>, i: nat, j: nat)
    requires i < j < |run| && AcceptedAt(c, run, i)
    requires run[j].Verify? && Examined(c, run[j]).Good? && Examined(c, run[j]).payload.n == PayloadAt(c, run, i).n
    requires NotSpentBetween(c, run, i, j, PayloadAt(c, run, i).n)
    ensures AcceptedAt(c, run, j) <==> ForgottenBetween(c, run, i, j + 1, PayloadAt(c, run, i).e)
  {
    var p := PayloadAt(c, run, i);
    RememberedExactly(c, run, i, j);
    assert ForgottenBetween(c, run, i, j + 1, p.e)
           <==> ForgottenBetween(c, run, i, j, p.e) || ForgetsBy(c, run[j], p.e);
  }

  /** A token sent again is accepted again exactly when the clock passed its expiry in between and went back. */
  lemma ReplayedExactly(c: Crypto, run: seq<Event>, i: nat, j: nat)
    requires i < j < |run| && AcceptedAt(c, run, i)
    requires run[j].Verify? && Examined(c, run[j]) == Good(PayloadAt(c, run, i))
    requires NotSpentBetween(c, run, i, j, PayloadAt(c, run, i).n)
    ensures AcceptedAt(c, run, j) <==> ForgottenBetween(c, run, i, j, PayloadAt(c, run, i).e)
  {
    var p := PayloadAt(c, run, i);
    AcceptedAgainExactly(c, run, i, j);
    GoodIsSigned(c, run[j].token, run[j].key, run[j].session, run[j].now);
    assert ForgottenBetween(c, run, i, j + 1, p.e)
           <==> ForgottenBetween(c, run, i, j, p.e) || ForgetsBy(c, run[j], p.e);
  }

  /** The first verification after i, up to j, that spends the nonce again. */
  lemma {:induction false} FirstSpentAgain(c: Crypto, run: seq<Event>, i: nat, j: nat, nonce: string) returns (k: nat)
    requires i < j < |run| && AcceptedAt(c, run, j) && PayloadAt(c, run, j).n == nonce
    ensures i < k <= j && AcceptedAt(c, run, k) && PayloadAt(c, run, k).n == nonce
    ensures NotSpentBetween(c, run, i, k, nonce)
    decreases j
  {
    if NotSpentBetween(c, run, i, j, nonce) {
      k := j;
    } else {
      var m :| i < m < j && AcceptedAt(c, run, m) && PayloadAt(c, run, m).n == nonce;
      k := FirstSpentAgain(c, run, i, m, nonce);
    }
  }

  /**
   With a clock that never goes back no payload, hence no token, is accepted twice in any run. Needs
   nothing of the signatures or the nonces.
   */
  lemma SingleUse(c: Crypto, run: seq<Event>, i: nat, j: nat)
    requires Chronological(run)
    requires i < j < |run| && AcceptedAt(c, run, i) && AcceptedAt(c, run, j)
    ensures PayloadAt(c, run, i) != PayloadAt(c, run, j)
    ensures run[i].token != run[j].token
  {
    GoodIsSigned(c, run[i].token, run[i].key, run[i].session, run[i].now);
    GoodIsSigned(c, run[j].token, run[j].key, run[j].session, run[j].now);
    if PayloadAt(c, run, i).n == PayloadAt(c, run, j).n {
      var k := FirstSpentAgain(c, run, i, j, PayloadAt(c, run, i).n);
      AcceptedAgainExactly(c, run, i, k);
      var m :| i < m < k + 1 && ForgetsBy(c, run[m], PayloadAt(c, run, i).e);
      assert run[m].now <= run[j].now;
    }
  }

  /** The ledger along such a run: the second token's verification forgets the first nonce. */
  lemma RollbackLedgers(c: Crypto, run: seq<Event>, a: Payload, b: Payload)
    requires |run| == 5 && run[0].Mint? && run[1].Verify? && run[2].Mint? && run[3].Verify? && run[4].Verify?
    requires run[1].now == run[4].now == 0 && run[3].now == TTL_MS == a.e && a.n == "a" && b.n == "b" && b.e > TTL_MS
    requires Examine(c, run[1].token, run[1].key, run[1].session, run[1].now) == Good(a)
    requires Examine(c, run[3].token, run[3].key, run[3].session, run[3].now) == Good(b)
    requires Examine(c, run[4].token, run[4].key, run[4].session, run[4].now) == Good(a)
    ensures AcceptedAt(c, run, 1) && AcceptedAt(c, run, 4)
  {
    var spentA: Ledger := map["a" := a.e];
    assert LedgerAt(c, run, 1) == map[];
    assert AcceptedAt(c, run, 1);
    assert LedgerAt(c, run, 2) == spentA;
    assert LedgerAt(c, run, 3) == spentA;
    assert "b" !in Live(spentA, TTL_MS) && Live(spentA, TTL_MS) == map[];
    assert LedgerAt(c, run, 4) == map["b" := b.e];
    assert "a" !in Live(LedgerAt(c, run, 4), 0);
  }

  /** Each token verified in such a run was minted in it. */
  lemma RollbackUnforged(c: Crypto, run: seq<Event>, a: Payload, b: Payload)
    requires |run| == 5 && run[0].Mint? && run[1].Verify? && run[2].Mint? && run[3].Verify? && run[4].Verify?
    requires MintedAt(c, run[0]) == a && MintedAt(c, run[2]) == b
    requires run[1].token.Some? && run[3].token.Some? && run[4].token.Some?
    requires SignedPart(c, run[1].token.value) == Some(c.encode(a))
    requires SignedPart(c, run[3].token.value) == Some(c.encode(b))
    requires SignedPart(c, run[4].token.value) == Some(c.encode(a))
    ensures Unforged(c, run)
  {
    assert MintedBefore(c, run, 1, c.encode(a)) && MintedBefore(c, run, 4, c.encode(a));
    assert MintedBefore(c, run, 3, c.encode(b));
  }

  /** With a clock that goes back, a run can accept one token twice. */
  lemma ClockRollbackReplays(c: Crypto, key: string, session: string)
    requires CryptoOk(c) && session != ""
    ensures exists run: seq<Event> ::
              && |run| == 5
              && Unforged(c, run)
              && AcceptedAt(c, run, 1) && AcceptedAt(c, run, 4)
              && run[1].token == run[4].token
  {
    var late := TTL_MS;
    var a, b := MintedPayload(c, key, session, "a", 0), MintedPayload(c, key, session, "b", late);
    var tokenA, tokenB := Some(Token(c, a)), Some(Token(c, b));
    var run := [
      Mint(key, session, "a", 0), Verify(tokenA, key, Some(session), 0),
      Mint(key, session, "b", late), Verify(tokenB, key, Some(session), late),
      Verify(tokenA, key, Some(session), 0)];
    MintedIsGood(c, a, session, key, 0);
    MintedIsGood(c, b, session, key, late);
    RollbackLedgers(c, run, a, b);
    RollbackUnforged(c, run, a, b);
  }

  // ---- conservation ----

  /** The mint an accepted verification spends. */
  lemma AcceptedWasMinted(c: Crypto, run: seq<Event>, i: nat) returns (j: nat)
    requires CryptoOk(c) && Unforged(c, run)
    requires i < |run| && AcceptedAt(c, run, i)
    ensures j < i && run[j].Mint? && MintedAt(c, run[j]) == PayloadAt(c, run, i)
  {
    var e := run[i];
    GoodIsSigned(c, e.token, e.key, e.session, e.now);
    j :| 0 <= j < i && run[j].Mint? && c.encode(MintedAt(c, run[j])) == SignedPart(c, e.token.value).value;
    assert c.decode(c.encode(MintedAt(c, run[j]))) == Proof(MintedAt(c, run[j]));
  }

  /**
   An accepted verification spends a proof minted earlier, for the same key and a session of the
   same fingerprint, less than one TTL ago.
   */
  lemma AcceptedInTime(c: Crypto, run: seq<Event>, i: nat) returns (j: nat)
    requires CryptoOk(c) && Unforged(c, run) && Chronological(run)
    requires i < |run| && AcceptedAt(c, run, i)
    ensures j < i && run[j].Mint? && MintedAt(c, run[j]) == PayloadAt(c, run, i)
    ensures run[j].key == run[i].key
    ensures run[i].session.Some? && c.fingerprint(run[j].owner) == c.fingerprint(run[i].session.value)
    ensures run[j].now <= run[i].now < run[j].now + TTL_MS
  {
    j := AcceptedWasMinted(c, run, i);
    GoodIsSigned(c, run[i].token, run[i].key, run[i].session, run[i].now);
  }

  ghost function AcceptedFor(c: Crypto, run: seq<Event>, key: string, mark: string): set<nat> {
    set i: nat | i < |run| && AcceptedAt(c, run, i) && PayloadAt(c, run, i).k == key && PayloadAt(c, run, i).s == mark
  }

  ghost function MintsFor(c: Crypto, run: seq<Event>, key: string, mark: string): set<nat> {
    set j: nat | j < |run| && run[j].Mint? && run[j].key == key && c.fingerprint(run[j].owner) == mark
  }

  /** A set with an injection into another is no larger. */
  lemma {:induction false} InjectionBound(a: set<nat>, b: set<nat>, f: map<nat, nat>)
    requires f.Keys == a && f.Values <= b
    requires forall x, y :: x in a && y in a && x != y ==> f[x] != f[y]
    ensures |a| <= |b|
  {
    if a != {} {
      var x :| x in a;
      var g := f - {x};
      assert forall y :: y in g.Values ==> y in b && y != f[x];
      InjectionBound(a - {x}, b - {f[x]}, g);
    }
  }

  /** The verifications accepted for a key and session never outnumber the proofs minted for them. */
  lemma Conservation(c: Crypto, run: seq<Event>, key: string, mark: string)
    requires CryptoOk(c) && Unforged(c, run) && Chronological(run)
    ensures |AcceptedFor(c, run, key, mark)| <= |MintsFor(c, run, key, mark)|
  {
    var accepted, mints := AcceptedFor(c, run, key, mark), MintsFor(c, run, key, mark);
    forall i | i in accepted ensures exists j :: j in mints && MintedAt(c, run[j]) == PayloadAt(c, run, i) {
      var j := AcceptedWasMinted(c, run, i);
      assert j in mints;
    }
    var f := map i | i in accepted :: var j :| j in mints && MintedAt(c, run[j]) == PayloadAt(c, run, i); j;
    forall x, y | x in accepted && y in accepted && x != y ensures f[x] != f[y] {
      if x < y { SingleUse(c, run, x, y); } else { SingleUse(c, run, y, x); }
    }
    InjectionBound(accepted, mints, f);
  }

  // ---- the ledger ----

  ghost predicate MintedNonce(c: Crypto, run: seq<Event>, k: nat, nonce: string, expiry: int)
    requires k <= |run|
  {
    exists j :: 0 <= j < k && run[j].Mint? && run[j].nonce == nonce && run[j].now + TTL_MS == expiry
  }

  /** Every entry of the ledger comes from a mint. */
  lemma {:induction false} LedgerFromMints(c: Crypto, run: seq<Event>, k: nat)
    requires CryptoOk(c) && Unforged(c, run)
    requires k <= |run|
    ensures forall n :: n in LedgerAt(c, run, k) ==> MintedNonce(c, run, k, n, LedgerAt(c, run, k)[n])
    decreases k
  {
    if k > 0 {
      LedgerFromMints(c, run, k - 1);
      var before, after := LedgerAt(c, run, k - 1), LedgerAt(c, run, k);
      forall n | n in after ensures MintedNonce(c, run, k, n, after[n]) {
        if n in before && before[n] == after[n] {
          assert MintedNonce(c, run, k - 1, n, after[n]);
        } else {
          var j := AcceptedWasMinted(c, run, k - 1);
          assert run[j].nonce == n;
        }
      }
    }
  }

  /**
   After a verification that reaches the ledger, it holds only unexpired nonces, each of a proof
   minted less than one TTL ago.
   */
  lemma LedgerStaysSmall(c: Crypto, run: seq<Event>, i: nat, n: string)
    requires CryptoOk(c) && Unforged(c, run) && Chronological(run)
    requires i < |run| && run[i].Verify? && Examined(c, run[i]).Good?
    requires n in LedgerAt(c, run, i + 1)
    ensures run[i].now < LedgerAt(c, run, i + 1)[n]
    ensures exists j :: 0 <= j <= i && run[j].Mint? && run[j].nonce == n && run[i].now - TTL_MS < run[j].now <= run[i].now
  {
    LedgerFromMints(c, run, i + 1);
    var expiry := LedgerAt(c, run, i + 1)[n];
    assert MintedNonce(c, run, i + 1, n, expiry);
    var j :| 0 <= j < i + 1 && run[j].Mint? && run[j].nonce == n && run[j].now + TTL_MS == expiry;
    GoodIsSigned(c, run[i].token, run[i].key, run[i].session, run[i].now);
    assert run[j].now <= run[i].now;
  }
}
