/**
 A confirmation proof and the ledger of spent nonces (apps/admin/lib/confirmation-proof.ts).
 The HMAC, the SHA-256 fingerprint, JSON and base64url are functions nothing is known of but
 the laws in CryptoOk.
 */
module ConfirmationProof {
  import opened Options
  import opened Text

  const TTL_MS := 120000

  datatype Payload = Payload(k: string, s: string, n: string, e: int)

  /** What JSON.parse of the decoded first part yields: an exception, another shape, or a payload. */
  datatype Decoded = NotJson | WrongShape | Proof(payload: Payload)

  datatype Crypto = Crypto(
    sign: string -> string,
    fingerprint: string -> string,
    encode: Payload -> string,
    decode: string -> Decoded)

  /** Decoding inverts encoding; both parts of a token are base64url text, so without a dot. */
  ghost predicate CryptoOk(c: Crypto) {
    && (forall p :: c.decode(c.encode(p)) == Proof(p) && c.encode(p) != "" && Free(c.encode(p), '.'))
    && (forall x :: c.sign(x) != "" && Free(c.sign(x), '.'))
  }

  function Token(c: Crypto, payload: Payload): string {
    c.encode(payload) + "." + c.sign(c.encode(payload))
  }

  function MintedPayload(c: Crypto, key: string, session: string, nonce: string, now: int): Payload {
    Payload(key, c.fingerprint(session), nonce, now + TTL_MS)
  }

  function MintProof(c: Crypto, key: string, session: string, nonce: string, now: int): string {
    Token(c, MintedPayload(c, key, session, nonce, now))
  }

  datatype Refusal = Missing | Malformed | Signature | Scope | Session | Expired | Replayed

  datatype Verdict = Accepted | Refused(reason: Refusal)

  /** The first part of a token whose second part signs it. */
  function SignedPart(c: Crypto, token: string): Option<string> {
    var parts := Split(token, '.');
    if |parts| == 2 && parts[0] != "" && parts[1] != "" && parts[1] == c.sign(parts[0]) then Some(parts[0]) else None
  }

  /** The checks made before the ledger is looked at: a refusal, or the payload to spend. */
  datatype Examination = Bad(reason: Refusal) | Good(payload: Payload)

  function Examine(c: Crypto, token: Option<string>, key: string, session: Option<string>, now: int): Examination {
    if token.None? || token.value == "" then Bad(Missing)
    else
      var parts := Split(token.value, '.');
      if |parts| != 2 || parts[0] == "" || parts[1] == "" then Bad(Malformed)
      else if c.sign(parts[0]) != parts[1] then Bad(Signature)
      else
        match c.decode(parts[0])
        case NotJson => Bad(Malformed)
        case WrongShape => Bad(Malformed)
        case Proof(p) =>
          if p.k != key then Bad(Scope)
          else if session.None? || session.value == "" || p.s != c.fingerprint(session.value) then Bad(Session)
          else if p.e <= now then Bad(Expired)
          else Good(p)
  }

  type Ledger = map<string, int>

  /** The entries not yet expired. */
  function Live(ledger: Ledger, now: int): Ledger {
    map n | n in ledger && ledger[n] > now :: ledger[n]
  }

  function VerdictOf(ledger: Ledger, examined: Examination, now: int): Verdict {
    match examined
    case Bad(reason) => Refused(reason)
    case Good(p) => if p.n in Live(ledger, now) then Refused(Replayed) else Accepted
  }

  function LedgerAfter(ledger: Ledger, examined: Examination, now: int): Ledger {
    match examined
    case Bad(_) => ledger
    case Good(p) => if p.n in Live(ledger, now) then Live(ledger, now) else Live(ledger, now)[p.n := p.e]
  }

  /** The process's store: the key material and the nonces already spent. */
  class ProofStore {
    const crypto: Crypto
    var ledger: Ledger

    constructor (crypto: Crypto)
      ensures this.crypto == crypto && ledger == map[]
    {
      this.crypto := crypto;
      ledger := map[];
    }

    method PruneLedger(now: int)
      modifies this`ledger
      ensures ledger == Live(old(ledger), now)
    {
      var pending := ledger.Keys;
      while pending != {}
        invariant pending <= ledger.Keys <= old(ledger).Keys
        invariant forall n :: n in ledger ==> ledger[n] == old(ledger)[n]
        invariant forall n :: n in old(ledger) && n !in pending ==> (n in ledger <==> old(ledger)[n] > now)
        decreases pending
      {
        var nonce :| nonce in pending;
        if ledger[nonce] <= now {
          ledger := ledger - {nonce};
        }
        pending := pending - {nonce};
      }
    }

    /** verifyAndSpendProof */
    method VerifyAndSpend(token: Option<string>, key: string, session: Option<string>, now: int) returns (verdict: Verdict)
      modifies this`ledger
      ensures verdict == VerdictOf(old(ledger), Examine(crypto, token, key, session, now), now)
      ensures ledger == LedgerAfter(old(ledger), Examine(crypto, token, key, session, now), now)
    {
      if token.None? || token.value == "" {
        return Refused(Missing);
      }
      var parts := Split(token.value, '.');
      if |parts| != 2 || parts[0] == "" || parts[1] == "" {
        return Refused(Malformed);
      }
      var encoded, signature := parts[0], parts[1];
      if crypto.sign(encoded) != signature {
        return Refused(Signature);
      }
      var decoded := crypto.decode(encoded);
      if !decoded.Proof? {
        return Refused(Malformed);
      }
      var payload := decoded.payload;
      if payload.k != key {
        return Refused(Scope);
      }
      if session.None? || session.value == "" || payload.s != crypto.fingerprint(session.value) {
        return Refused(Session);
      }
      if payload.e <= now {
        return Refused(Expired);
      }
      PruneLedger(now);
      if payload.n in ledger {
        return Refused(Replayed);
      }
      ledger := ledger[payload.n := payload.e];
      return Accepted;
    }
  }

  // ---- what one verification does to the others ----

  /**
   A refused verification changes no verdict, now or later; neither does pruning, and after a
   verification that reached the ledger only unexpired nonces are left in it.
   */
  lemma RefusalDoesNotInterfere(ledger: Ledger, examined: Examination, now: int, other: Examination, later: int)
    requires VerdictOf(ledger, examined, now) != Accepted
    requires now <= later
    ensures VerdictOf(LedgerAfter(ledger, examined, now), other, later) == VerdictOf(ledger, other, later)
    ensures Live(LedgerAfter(ledger, examined, now), later) == Live(ledger, later)
    ensures examined.Good? ==> forall n :: n in LedgerAfter(ledger, examined, now) ==> LedgerAfter(ledger, examined, now)[n] > now
  {
    assert forall n :: n in Live(LedgerAfter(ledger, examined, now), later) <==> n in Live(ledger, later);
  }

  /** An accepted proof changes only the verdicts of tokens with its own nonce: those are replays until it expires. */
  lemma AcceptanceSpendsOneNonce(ledger: Ledger, p: Payload, now: int, other: Examination, later: int)
    requires VerdictOf(ledger, Good(p), now) == Accepted
    requires now <= later
    ensures var after := LedgerAfter(ledger, Good(p), now);
            && (other.Good? && other.payload.n == p.n && later < p.e ==> VerdictOf(after, other, later) == Refused(Replayed))
            && (other.Bad? || other.payload.n != p.n ==> VerdictOf(after, other, later) == VerdictOf(ledger, other, later))
  {
  }

  /** A minted proof passes every check in its own session, for its own key, until it expires. */
  lemma MintedIsGood(c: Crypto, p: Payload, session: string, key: string, now: int)
    requires CryptoOk(c)
    requires session != "" && p.s == c.fingerprint(session)
    ensures Examine(c, Some(Token(c, p)), key, Some(session), now)
            == if p.k != key then Bad(Scope) else if p.e <= now then Bad(Expired) else Good(p)
    ensures SignedPart(c, Token(c, p)) == Some(c.encode(p))
  {
    var encoded := c.encode(p);
    SplitFirst(encoded, '.', c.sign(encoded));
    SplitWhole(c.sign(encoded), '.');
    assert Split(Token(c, p), '.') == [encoded, c.sign(encoded)];
  }

  /** A token that passes the checks carries a signed part that decodes to its payload. */
  lemma GoodIsSigned(c: Crypto, token: Option<string>, key: string, session: Option<string>, now: int)
    requires Examine(c, token, key, session, now).Good?
    ensures token.Some? && SignedPart(c, token.value).Some?
    ensures var p := Examine(c, token, key, session, now).payload;
            && c.decode(SignedPart(c, token.value).value) == Proof(p)
            && p.k == key && session.Some? && p.s == c.fingerprint(session.value) && now < p.e
  {
  }

  /**
   A minted token anywhere: refused for its scope under another key, else for its session without one or
   in another, else as expired from its expiry on; only then does the ledger decide.
   */
  lemma MintedAnywhere(c: Crypto, p: Payload, session: Option<string>, key: string, now: int)
    requires CryptoOk(c)
    ensures Examine(c, Some(Token(c, p)), key, session, now)
            == if key != p.k then Bad(Scope)
               else if session == None || session == Some("") then Bad(Session)
               else if c.fingerprint(session.value) != p.s then Bad(Session)
               else if now >= p.e then Bad(Expired)
               else Good(p)
  {
    var encoded := c.encode(p);
    SplitFirst(encoded, '.', c.sign(encoded));
    SplitWhole(c.sign(encoded), '.');
    assert Split(Token(c, p), '.') == [encoded, c.sign(encoded)];
  }

  /** A text that is no token of two parts, or whose second part does not sign the first, is refused before it is read. */
  lemma UnsignedIsRefused(c: Crypto, first: string, second: string, key: string, session: Option<string>, now: int)
    requires Free(first, '.') && Free(second, '.')
    ensures Examine(c, None, key, session, now) == Bad(Missing) == Examine(c, Some(""), key, session, now)
    ensures first != "" ==> Examine(c, Some(first), key, session, now) == Bad(Malformed)
    ensures first == "" || second == "" ==> Examine(c, Some(first + "." + second), key, session, now) == Bad(Malformed)
    ensures first != "" && second != "" && second != c.sign(first) ==>
              Examine(c, Some(first + "." + second), key, session, now) == Bad(Signature)
    ensures first != "" && second != "" && second == c.sign(first) && !c.decode(first).Proof? ==>
              Examine(c, Some(first + "." + second), key, session, now) == Bad(Malformed)
  {
    SplitWhole(first, '.');
    SplitWhole(second, '.');
    SplitFirst(first, '.', second);
    assert first + "." + second == first + ['.'] + second;
  }

  /** More than two parts are malformed, signed or not. */
  lemma ThreePartsAreRefused(c: Crypto, first: string, second: string, rest: string, key: string, session: Option<string>, now: int)
    requires Free(first, '.') && Free(second, '.')
    ensures Examine(c, Some(first + "." + (second + "." + rest)), key, session, now) == Bad(Malformed)
  {
    SplitFirst(first, '.', second + "." + rest);
    SplitFirst(second, '.', rest);
    assert first + "." + (second + "." + rest) == first + ['.'] + (second + ['.'] + rest);
  }
}
