/**
 The gate in the page and the check in the action, end to end
 (apps/admin/components/confirm-gate.tsx, apps/admin/lib/confirmation-proof-server.ts).
 */
module ConfirmGate {
  import opened Options
  import opened Sequences
  import opened ConfirmationProof
  import opened ConfirmationServer

  const PROOF_FIELD := "__confirmationProof"

  /** A named control of the form, as it is submitted. */
  type Entry = (string, string)

  function Carriers(tokens: seq<string>): (r: seq<Entry>)
    ensures |r| == |tokens|
  {
    seq(|tokens|, i requires 0 <= i < |tokens| => (PROOF_FIELD, tokens[i]))
  }

  /** formData.getAll(name) */
  function AllValues(entries: seq<Entry>, name: string): seq<string>
    decreases |entries|
  {
    if entries == [] then []
    else (if entries[0].0 == name then [entries[0].1] else []) + AllValues(entries[1..], name)
  }

  function TokenTexts(results: seq<Option<string>>): (r: seq<string>)
    requires forall i :: 0 <= i < |results| ==> results[i].Some?
    ensures |r| == |results|
  {
    seq(|results|, i requires 0 <= i < |results| => results[i].value)
  }

  predicate AllMinted(results: seq<Option<string>>) {
    forall i :: 0 <= i < |results| ==> results[i].Some? && results[i].value != ""
  }

  /** What the form submits: its own entries, one carrier per token, and the submitter's if one is shadowed. */
  function Submission(before: seq<Entry>, tokens: seq<string>, shadowed: Option<Entry>, after: seq<Entry>): seq<Entry> {
    before + Carriers(tokens) + (if shadowed.Some? then [shadowed.value] else []) + after
  }

  /** The gate's mutable state, the form around its trigger, and what has been submitted so far. */
  class Gate {
    var confirming: bool
    var proofError: bool
    var before: seq<Entry>
    var after: seq<Entry>
    ghost var submissions: seq<seq<Entry>>

    constructor (before: seq<Entry>, after: seq<Entry>)
      ensures !confirming && !proofError && submissions == []
      ensures this.before == before && this.after == after
    {
      confirming, proofError := false, false;
      this.before, this.after := before, after;
      submissions := [];
    }

    /** confirm, up to its await: the keys to mint a proof for, unless a confirmation is under way. */
    method Confirm(proofs: Option<seq<string>>) returns (toMint: Option<seq<string>>)
      modifies this`confirming, this`proofError
      ensures toMint == if old(confirming) then None else proofs
      ensures confirming == (old(confirming) || proofs.Some?)
      ensures toMint.None? ==> proofError == old(proofError)
      ensures toMint.Some? ==> !proofError
    {
      if confirming || proofs.None? {
        return None;
      }
      confirming := true;
      proofError := false;
      toMint := proofs;
    }

    /**
     confirm, after its await: no result when a mint threw. All proofs or none: either the form is
     submitted once, with one carrier per proof just before the trigger, or an error is shown and
     nothing is submitted. The carriers are gone afterwards, and the gate can be pressed again.
     */
    method Settle(results: Option<seq<Option<string>>>, mounted: bool, shadowed: Option<Entry>)
      requires confirming
      modifies this
      ensures before == old(before) && after == old(after) && !confirming
      ensures var minted := results.Some? && AllMinted(results.value);
              && proofError == (old(proofError) || !minted)
              && submissions == old(submissions)
                 + (if minted && mounted then
                      [Submission(old(before), TokenTexts(results.value), shadowed, old(after))]
                    else [])
    {
      confirming := false;
      if results.None? || !AllMinted(results.value) {
        proofError := true;
        return;
      }
      if !mounted {
        return;
      }
      var tokens := TokenTexts(results.value);
      var own := |before|;
      for i := 0 to |tokens|
        invariant before == old(before) + Carriers(tokens[..i])
        invariant after == old(after) && submissions == old(submissions)
        invariant !confirming && proofError == old(proofError)
      {
        before := before + [(PROOF_FIELD, tokens[i])];
      }
      assert tokens[..|tokens|] == tokens;
      if shadowed.Some? {
        before := before + [shadowed.value];
      }
      assert before == old(before) + Carriers(tokens) + (if shadowed.Some? then [shadowed.value] else []);
      submissions := submissions + [before + after];
      while |before| > own
        invariant own <= |before|
        invariant before[..own] == old(before)
        invariant after == old(after) && !confirming && proofError == old(proofError)
        invariant submissions == old(submissions) + [Submission(old(before), tokens, shadowed, old(after))]
      {
        before := before[..|before| - 1];
      }
    }
  }

  lemma {:induction false} AllValuesAppend(a: seq<Entry>, b: seq<Entry>, name: string)
    ensures AllValues(a + b, name) == AllValues(a, name) + AllValues(b, name)
  {
    if a == [] {
      assert a + b == b;
    } else {
      AllValuesAppend(a[1..], b, name);
      assert (a + b)[1..] == a[1..] + b && (a + b)[0] == a[0];
    }
  }

  lemma {:induction false} CarriersAreValues(tokens: seq<string>)
    ensures AllValues(Carriers(tokens), PROOF_FIELD) == tokens
    decreases |tokens|
  {
    if tokens != [] {
      CarriersAreValues(tokens[1..]);
      assert Carriers(tokens)[1..] == Carriers(tokens[1..]);
    }
  }

  /** The action reads exactly the minted tokens from a submission whose other fields have other names. */
  lemma SubmissionCarriesTokens(before: seq<Entry>, tokens: seq<string>, shadowed: Option<Entry>, after: seq<Entry>)
    requires AllValues(before, PROOF_FIELD) == [] && AllValues(after, PROOF_FIELD) == []
    requires shadowed.Some? ==> shadowed.value.0 != PROOF_FIELD
    ensures AllValues(Submission(before, tokens, shadowed, after), PROOF_FIELD) == tokens
  {
    var own := if shadowed.Some? then [shadowed.value] else [];
    AllValuesAppend(before + Carriers(tokens) + own, after, PROOF_FIELD);
    AllValuesAppend(before + Carriers(tokens), own, PROOF_FIELD);
    AllValuesAppend(before, Carriers(tokens), PROOF_FIELD);
    CarriersAreValues(tokens);
  }

  /** One mint that answers nothing, or an empty text, and nothing is submitted whatever the others answer. */
  lemma OneMintMissing(before: seq<Option<string>>, after: seq<Option<string>>)
    ensures !AllMinted(before + [None] + after) && !AllMinted(before + [Some("")] + after)
  {
    assert (before + [None] + after)[|before|] == None && (before + [Some("")] + after)[|before|] == Some("");
  }

  /** The entries of other names. */
  function Others(entries: seq<Entry>): seq<Entry>
    decreases |entries|
  {
    if entries == [] then []
    else (if entries[0].0 == PROOF_FIELD then [] else [entries[0]]) + Others(entries[1..])
  }

  lemma {:induction false} OthersAppend(a: seq<Entry>, b: seq<Entry>)
    ensures Others(a + b) == Others(a) + Others(b)
    decreases |a|
  {
    if a == [] {
      assert a + b == b;
    } else {
      OthersAppend(a[1..], b);
      assert (a + b)[1..] == a[1..] + b;
    }
  }

  lemma {:induction false} CarriersAreNoOthers(tokens: seq<string>)
    ensures Others(Carriers(tokens)) == []
    decreases |tokens|
  {
    if tokens != [] {
      CarriersAreNoOthers(tokens[1..]);
      assert Carriers(tokens)[1..] == Carriers(tokens[1..]);
    }
  }

  lemma {:induction false} OthersAreAll(entries: seq<Entry>)
    requires AllValues(entries, PROOF_FIELD) == []
    ensures Others(entries) == entries
    decreases |entries|
  {
    if entries != [] { OthersAreAll(entries[1..]); }
  }

  /**
   The proofs aside, the form submits its own entries in their order, and a shadowed button's own entry
   where the button stands; the proofs stand just before that.
   */
  lemma SubmissionKeepsForm(before: seq<Entry>, tokens: seq<string>, shadowed: Option<Entry>, after: seq<Entry>)
    requires AllValues(before, PROOF_FIELD) == [] && AllValues(after, PROOF_FIELD) == []
    requires shadowed.Some? ==> shadowed.value.0 != PROOF_FIELD
    ensures Others(Submission(before, tokens, shadowed, after))
            == before + (match shadowed case None => [] case Some(own) => [own]) + after
    ensures forall i :: 0 <= i < |tokens| ==> Submission(before, tokens, shadowed, after)[|before| + i] == (PROOF_FIELD, tokens[i])
  {
    var own := if shadowed.Some? then [shadowed.value] else [];
    OwnEntry(shadowed);
    OthersOfFour(before, Carriers(tokens), own, after);
    OthersAreAll(before);
    OthersAreAll(after);
    CarriersAreNoOthers(tokens);
    WithoutCarriers(before, own, after);
  }

  lemma WithoutCarriers(a: seq<Entry>, b: seq<Entry>, c: seq<Entry>)
    ensures a + [] + b + c == a + b + c
  {
  }

  lemma OthersOfFour(a: seq<Entry>, b: seq<Entry>, c: seq<Entry>, d: seq<Entry>)
    ensures Others(a + b + c + d) == Others(a) + Others(b) + Others(c) + Others(d)
  {
    OthersAppend(a + b + c, d);
    OthersAppend(a + b, c);
    OthersAppend(a, b);
  }

  lemma OwnEntry(shadowed: Option<Entry>)
    requires shadowed.Some? ==> shadowed.value.0 != PROOF_FIELD
    ensures var own := if shadowed.Some? then [shadowed.value] else []; Others(own) == own
  {
  }

  // ---- from the gate to the action ----

  /** One confirmation: the keys, and the nonce and instant each was minted with, in one session. */
  datatype Minting = Minting(crypto: Crypto, session: string, keys: seq<string>, nonces: seq<string>, at: seq<int>) {

    ghost predicate Ok() {
      && CryptoOk(crypto) && session != ""
      && |nonces| == |keys| == |at|
      && forall i, j :: 0 <= i < j < |nonces| ==> nonces[i] != nonces[j]
    }

    function PayloadOf(i: nat): Payload
      requires i < |keys| == |nonces| == |at|
    {
      MintedPayload(crypto, keys[i], session, nonces[i], at[i])
    }

    /** The tokens, in the order of the keys. */
    function Tokens(): (r: seq<string>)
      requires |nonces| == |keys| == |at|
      ensures |r| == |keys|
    {
      seq(|keys|, i requires 0 <= i < |keys| => Token(crypto, PayloadOf(i)))
    }

    /** What the mints answered. */
    function Results(): (r: seq<Option<string>>)
      requires |nonces| == |keys| == |at|
      ensures |r| == |keys|
    {
      seq(|keys|, i requires 0 <= i < |keys| => Some(Tokens()[i]))
    }

    /** Proof i is one for the key and has not expired. */
    predicate Holds(i: nat, key: string, now: int)
      requires |keys| == |at|
    {
      i < |keys| && keys[i] == key && now < at[i] + TTL_MS
    }

    /** An unexpired proof was minted for the key. */
    ghost predicate HasProof(key: string, now: int)
      requires |keys| == |at|
    {
      exists i: nat :: Holds(i, key, now)
    }

    /** Proof i is the first of its key that has not expired. */
    predicate IsFirst(i: nat, now: int)
      requires i < |keys| == |at|
    {
      Holds(i, keys[i], now) && forall j :: 0 <= j < i ==> !Holds(j, keys[i], now)
    }

    /** None of its nonces has been spent. */
    predicate Unspent(now: int, ledger: Ledger) {
      forall i :: 0 <= i < |nonces| ==> nonces[i] !in Live(ledger, now)
    }

    function DeskAt(now: int, ledger: Ledger): Desk {
      Desk(crypto, Some(session), now, ledger)
    }
  }

  lemma TokenChecks(m: Minting, now: int, ledger: Ledger, i: nat, key: string)
    requires m.Ok() && i < |m.keys|
    ensures m.DeskAt(now, ledger).Check(m.Tokens()[i], key)
            == if m.keys[i] != key then Bad(Scope) else if m.at[i] + TTL_MS <= now then Bad(Expired) else Good(m.PayloadOf(i))
    ensures m.DeskAt(now, ledger).Accepts(m.Tokens()[i], key) <==> m.Holds(i, key, now) && m.nonces[i] !in Live(ledger, now)
  {
    MintedIsGood(m.crypto, m.PayloadOf(i), m.session, key, now);
  }

  lemma MintedNoncesDistinct(m: Minting, now: int, ledger: Ledger)
    requires m.Ok()
    ensures NoncesDistinct(m.DeskAt(now, ledger), m.Tokens())
  {
    var d, tokens := m.DeskAt(now, ledger), m.Tokens();
    forall t, u, k, l | t in tokens && u in tokens && d.Check(t, k).Good? && d.Check(u, l).Good?
      ensures d.Check(t, k).payload.n == d.Check(u, l).payload.n ==> d.Check(t, k).payload == d.Check(u, l).payload
    {
      var i :| 0 <= i < |tokens| && tokens[i] == t;
      var j :| 0 <= j < |tokens| && tokens[j] == u;
      TokenChecks(m, now, ledger, i, k);
      TokenChecks(m, now, ledger, j, l);
    }
  }

  lemma MintedCovers(m: Minting, now: int, ledger: Ledger, key: string)
    requires m.Ok() && m.Unspent(now, ledger)
    ensures m.DeskAt(now, ledger).Covers(m.Tokens(), key) <==> m.HasProof(key, now)
  {
    forall i | 0 <= i < |m.keys| ensures m.DeskAt(now, ledger).Accepts(m.Tokens()[i], key) <==> m.Holds(i, key, now) {
      TokenChecks(m, now, ledger, i, key);
    }
    if m.HasProof(key, now) {
      var i: nat :| m.Holds(i, key, now);
      assert m.DeskAt(now, ledger).Accepts(m.Tokens()[i], key);
    }
  }

  /**
   The tokens a confirmation minted satisfy the action exactly for the lists of keys that each still
   have an unexpired proof among them.
   */
  lemma GateOpensAction(m: Minting, now: int, ledger: Ledger, keys: seq<string>)
    requires m.Ok() && m.Unspent(now, ledger)
    ensures MatchAll(m.DeskAt(now, ledger), m.Tokens(), Distinct(keys)).0 <==> forall k :: k in keys ==> m.HasProof(k, now)
  {
    MintedNoncesDistinct(m, now, ledger);
    MatchingIsExact(m.DeskAt(now, ledger), m.Tokens(), Distinct(keys));
    forall k ensures m.DeskAt(now, ledger).Covers(m.Tokens(), k) <==> m.HasProof(k, now) {
      MintedCovers(m, now, ledger, k);
    }
  }

  lemma ResultsAreMinted(m: Minting)
    requires m.Ok()
    ensures AllMinted(m.Results()) && TokenTexts(m.Results()) == m.Tokens()
  {
    forall i | 0 <= i < |m.keys| ensures m.Tokens()[i] != "" {
      assert |m.Tokens()[i]| >= |m.crypto.encode(m.PayloadOf(i))|;
    }
  }

  /**
   From the answers of the mints to the action's check: what the gate then submits satisfies the action
   exactly for the lists of keys with an unexpired proof, whatever else the form and its button submit.
   */
  lemma SettledSubmissionOpens(m: Minting, before: seq<Entry>, shadowed: Option<Entry>, after: seq<Entry>,
                                                  now: int, ledger: Ledger, keys: seq<string>)
    requires m.Ok() && m.Unspent(now, ledger)
    requires AllValues(before, PROOF_FIELD) == [] && AllValues(after, PROOF_FIELD) == []
    requires shadowed.Some? ==> shadowed.value.0 != PROOF_FIELD
    ensures AllMinted(m.Results())
    ensures var submitted := Submission(before, TokenTexts(m.Results()), shadowed, after);
            MatchAll(m.DeskAt(now, ledger), AllValues(submitted, PROOF_FIELD), Distinct(keys)).0
            <==> forall k :: k in keys ==> m.HasProof(k, now)
  {
    ResultsAreMinted(m);
    SubmissionCarriesTokens(before, m.Tokens(), shadowed, after);
    GateOpensAction(m, now, ledger, keys);
  }

  /** The ledger a first, accepted submission leaves behind. */
  function LedgerAfterFirst(m: Minting, now: int, ledger: Ledger, keys: seq<string>): Ledger
    requires |m.nonces| == |m.keys| == |m.at|
  {
    MatchAll(m.DeskAt(now, ledger), m.Tokens(), Distinct(keys)).1.ledger
  }

  /** After it, the nonce of proof i is spent exactly when i is the first unexpired proof of a key that was asked for. */
  lemma SpentByFirst(m: Minting, now: int, ledger: Ledger, keys: seq<string>, i: nat)
    requires m.Ok() && m.Unspent(now, ledger)
    requires forall k :: k in keys ==> m.HasProof(k, now)
    requires i < |m.keys|
    ensures m.nonces[i] in Live(LedgerAfterFirst(m, now, ledger, keys), now) <==> m.keys[i] in keys && m.IsFirst(i, now)
    ensures m.nonces[i] in Live(LedgerAfterFirst(m, now, ledger, keys), now) ==>
              LedgerAfterFirst(m, now, ledger, keys)[m.nonces[i]] == m.PayloadOf(i).e
  {
    var d, tokens, distinct := m.DeskAt(now, ledger), m.Tokens(), Distinct(keys);
    MintedNoncesDistinct(m, now, ledger);
    MatchingIsExact(d, tokens, distinct);
    forall k ensures d.Covers(tokens, k) <==> m.HasProof(k, now) { MintedCovers(m, now, ledger, k); }
    assert distinct[..|distinct|] == distinct;
    SpentNonces(d, tokens, distinct, m.nonces[i]);
    forall k | k in distinct
      ensures SpendsNonce(d, tokens, k, m.nonces[i]) <==> k == m.keys[i] && m.IsFirst(i, now)
    {
      SpendsFirst(m, now, ledger, k, i);
    }
    if m.nonces[i] in d.Spent(tokens, distinct) {
      SpentExpiry(m, now, ledger, distinct, i);
    }
  }

  lemma SpendsFirst(m: Minting, now: int, ledger: Ledger, k: string, i: nat)
    requires m.Ok() && m.Unspent(now, ledger) && i < |m.keys| && m.HasProof(k, now)
    ensures SpendsNonce(m.DeskAt(now, ledger), m.Tokens(), k, m.nonces[i]) <==> k == m.keys[i] && m.IsFirst(i, now)
    ensures SpendsNonce(m.DeskAt(now, ledger), m.Tokens(), k, m.nonces[i]) ==>
              m.DeskAt(now, ledger).SpendFor(m.Tokens(), k) == m.PayloadOf(i)
  {
    MintedCovers(m, now, ledger, k);
    var f := FirstOfKey(m, now, ledger, k);
    if f < i {
      assert m.nonces[f] != m.nonces[i];
    } else if i < f {
      assert m.nonces[i] != m.nonces[f];
    }
  }

  /** The first good token of a key is the first unexpired one minted for it. */
  lemma FirstOfKey(m: Minting, now: int, ledger: Ledger, k: string) returns (f: nat)
    requires m.Ok() && m.Unspent(now, ledger) && m.HasProof(k, now)
    ensures m.DeskAt(now, ledger).Covers(m.Tokens(), k)
    ensures m.Holds(f, k, now) && forall j :: 0 <= j < f ==> !m.Holds(j, k, now)
    ensures m.DeskAt(now, ledger).SpendFor(m.Tokens(), k) == m.PayloadOf(f)
  {
    var d, tokens := m.DeskAt(now, ledger), m.Tokens();
    MintedCovers(m, now, ledger, k);
    f := d.FirstGood(tokens, k);
    TokenChecks(m, now, ledger, f, k);
    forall j | 0 <= j < |tokens| ensures d.Accepts(tokens[j], k) <==> m.Holds(j, k, now) {
      TokenChecks(m, now, ledger, j, k);
    }
  }

  lemma {:induction false} SpentExpiry(m: Minting, now: int, ledger: Ledger, keys: seq<string>, i: nat)
    requires m.Ok() && m.Unspent(now, ledger) && i < |m.keys|
    requires forall j :: 0 <= j < |keys| ==> m.HasProof(keys[j], now) && m.DeskAt(now, ledger).Covers(m.Tokens(), keys[j])
    requires m.nonces[i] in m.DeskAt(now, ledger).Spent(m.Tokens(), keys)
    ensures m.DeskAt(now, ledger).Spent(m.Tokens(), keys)[m.nonces[i]] == m.PayloadOf(i).e
    decreases |keys|
  {
    if keys != [] {
      SpendsFirst(m, now, ledger, keys[0], i);
      if m.DeskAt(now, ledger).SpendFor(m.Tokens(), keys[0]).n != m.nonces[i] {
        SpentExpiry(m, now, ledger, keys[1..], i);
      }
    }
  }

  /** Proof i is left for a second submission: unexpired then, and not the one the first submission spent. */
  predicate LeftOver(m: Minting, keys: seq<string>, i: nat, k: string, now: int, later: int)
    requires |m.keys| == |m.at|
  {
    m.Holds(i, k, later) && (k in keys ==> exists j :: 0 <= j < i && m.Holds(j, k, now))
  }

  /**
   Sending the same tokens again: the action is satisfied exactly by the lists whose every key has an
   unexpired proof left over - any, if the first submission did not ask for the key, else one minted
   after another that could be spent first.
   */
  lemma Resubmission(m: Minting, now: int, later: int, ledger: Ledger, keys: seq<string>, again: seq<string>)
    requires m.Ok() && now <= later && m.Unspent(now, ledger)
    requires forall k :: k in keys ==> m.HasProof(k, now)
    ensures MatchAll(m.DeskAt(later, LedgerAfterFirst(m, now, ledger, keys)), m.Tokens(), Distinct(again)).0
            <==> forall k :: k in again ==> exists i: nat :: LeftOver(m, keys, i, k, now, later)
  {
    var spent := LedgerAfterFirst(m, now, ledger, keys);
    var d := m.DeskAt(later, spent);
    MintedNoncesDistinct(m, later, spent);
    MatchingIsExact(d, m.Tokens(), Distinct(again));
    forall k ensures d.Covers(m.Tokens(), k) <==> exists i: nat :: LeftOver(m, keys, i, k, now, later) {
      CoveredAgain(m, now, later, ledger, keys, k);
    }
  }

  /** A token is accepted again exactly when its proof is left over. */
  lemma AcceptedAgain(m: Minting, now: int, later: int, ledger: Ledger, keys: seq<string>, k: string, i: nat)
    requires m.Ok() && now <= later && m.Unspent(now, ledger)
    requires forall k :: k in keys ==> m.HasProof(k, now)
    requires i < |m.keys|
    ensures m.DeskAt(later, LedgerAfterFirst(m, now, ledger, keys)).Accepts(m.Tokens()[i], k) <==> LeftOver(m, keys, i, k, now, later)
  {
    TokenChecks(m, later, LedgerAfterFirst(m, now, ledger, keys), i, k);
    SpentByFirst(m, now, ledger, keys, i);
  }

  lemma CoveredAgain(m: Minting, now: int, later: int, ledger: Ledger, keys: seq<string>, k: string)
    requires m.Ok() && now <= later && m.Unspent(now, ledger)
    requires forall k :: k in keys ==> m.HasProof(k, now)
    ensures m.DeskAt(later, LedgerAfterFirst(m, now, ledger, keys)).Covers(m.Tokens(), k)
            <==> exists i: nat :: LeftOver(m, keys, i, k, now, later)
  {
    var d, tokens := m.DeskAt(later, LedgerAfterFirst(m, now, ledger, keys)), m.Tokens();
    forall i | 0 <= i < |tokens|
      ensures d.Accepts(tokens[i], k) <==> LeftOver(m, keys, i, k, now, later)
    {
      AcceptedAgain(m, now, later, ledger, keys, k, i);
    }
    if i: nat :| LeftOver(m, keys, i, k, now, later) {
      assert d.Accepts(tokens[i], k);
    }
  }

  // ---- other submissions in between ----

  /** Somebody's submission: its tokens, the keys its action asks for, its session, and when it is checked. */
  datatype Request = Request(tokens: seq<string>, keys: seq<string>, session: Option<string>, now: int)

  function AfterRequest(c: Crypto, ledger: Ledger, r: Request): Ledger {
    MatchAll(Desk(c, r.session, r.now, ledger), r.tokens, Distinct(r.keys)).1.ledger
  }

  function AfterRequests(c: Crypto, ledger: Ledger, requests: seq<Request>): Ledger
    decreases |requests|
  {
    if requests == [] then ledger
    else AfterRequest(c, AfterRequests(c, ledger, requests[..|requests| - 1]), requests[|requests| - 1])
  }

  /** The clock does not go back from one request to the next. */
  ghost predicate InOrder(requests: seq<Request>, from: int, until: int) {
    && from <= until
    && (forall i :: 0 <= i < |requests| ==> from <= requests[i].now <= until)
    && forall i, j :: 0 <= i < j < |requests| ==> requests[i].now <= requests[j].now
  }

  /** From an instant on, the nonce is known as spent until it expires. */
  ghost predicate Remembers(ledger: Ledger, nonce: string, expiry: int, from: int) {
    from < expiry ==> nonce in ledger && ledger[nonce] == expiry
  }

  lemma CheckRemembers(d: Desk, token: string, key: string, nonce: string, expiry: int, from: int)
    requires Remembers(d.ledger, nonce, expiry, from) && from <= d.now
    ensures Remembers(d.After(token, key).ledger, nonce, expiry, d.now)
  {
  }

  lemma {:induction false} TryingRemembers(d: Desk, tokens: seq<string>, key: string, nonce: string, expiry: int, from: int)
    requires Remembers(d.ledger, nonce, expiry, from) && from <= d.now
    ensures Remembers(TryEach(d, tokens, key).1.ledger, nonce, expiry, d.now)
    decreases |tokens|
  {
    if tokens != [] {
      CheckRemembers(d, tokens[0], key, nonce, expiry, from);
      if !d.Accepts(tokens[0], key) {
        TryingRemembers(d.After(tokens[0], key), tokens[1..], key, nonce, expiry, d.now);
      }
    }
  }

  lemma {:induction false} MatchingRemembers(d: Desk, unused: seq<string>, keys: seq<string>, nonce: string, expiry: int, from: int)
    requires Remembers(d.ledger, nonce, expiry, from) && from <= d.now
    ensures Remembers(MatchAll(d, unused, keys).1.ledger, nonce, expiry, d.now)
    decreases |keys|
  {
    if keys != [] {
      var (found, after) := TryEach(d, unused, keys[0]);
      TryingRemembers(d, unused, keys[0], nonce, expiry, from);
      if found.Some? {
        MatchingRemembers(after, Without(unused, found.value), keys[1..], nonce, expiry, d.now);
      }
    }
  }

  /** Whatever is submitted meanwhile, a spent nonce stays spent until it expires. */
  lemma {:induction false} RequestsRemember(c: Crypto, ledger: Ledger, requests: seq<Request>, nonce: string, expiry: int, from: int, until: int)
    requires Remembers(ledger, nonce, expiry, from) && InOrder(requests, from, until)
    ensures Remembers(AfterRequests(c, ledger, requests), nonce, expiry, until)
    ensures requests != [] ==> Remembers(AfterRequests(c, ledger, requests), nonce, expiry, requests[|requests| - 1].now)
    decreases |requests|
  {
    if requests != [] {
      var n := |requests| - 1;
      var r := requests[n];
      RequestsRemember(c, ledger, requests[..n], nonce, expiry, from, r.now);
      MatchingRemembers(Desk(c, r.session, r.now, AfterRequests(c, ledger, requests[..n])), r.tokens, Distinct(r.keys), nonce, expiry, r.now);
    }
  }

  /**
   A confirmation that names no key twice opens its action once: with a clock that never goes back and
   any other submissions in between, sending it again meets no list already met - unexpired or not.
   */
  lemma NoSecondSubmission(m: Minting, now: int, ledger: Ledger, keys: seq<string>,
                                              between: seq<Request>, later: int, again: seq<string>)
    requires m.Ok() && NoRepeats(m.keys) && m.Unspent(now, ledger)
    requires forall k :: k in keys ==> m.HasProof(k, now)
    requires InOrder(between, now, later)
    requires again != [] && forall k :: k in again ==> k in keys
    ensures var spent := AfterRequests(m.crypto, LedgerAfterFirst(m, now, ledger, keys), between);
            !MatchAll(m.DeskAt(later, spent), m.Tokens(), Distinct(again)).0
  {
    var spent := AfterRequests(m.crypto, LedgerAfterFirst(m, now, ledger, keys), between);
    MintedNoncesDistinct(m, later, spent);
    MatchingIsExact(m.DeskAt(later, spent), m.Tokens(), Distinct(again));
    forall i | 0 <= i < |m.keys|
      ensures !m.DeskAt(later, spent).Accepts(m.Tokens()[i], again[0])
    {
      RefusedForGood(m, now, ledger, keys, between, later, again[0], i);
    }
    assert again[0] in again && !m.DeskAt(later, spent).Covers(m.Tokens(), again[0]);
  }

  /** The only proof of a key that was asked for is not accepted again. */
  lemma RefusedForGood(m: Minting, now: int, ledger: Ledger, keys: seq<string>,
                                          between: seq<Request>, later: int, k: string, i: nat)
    requires m.Ok() && NoRepeats(m.keys) && m.Unspent(now, ledger)
    requires forall k :: k in keys ==> m.HasProof(k, now)
    requires InOrder(between, now, later) && k in keys && i < |m.keys|
    ensures !m.DeskAt(later, AfterRequests(m.crypto, LedgerAfterFirst(m, now, ledger, keys), between)).Accepts(m.Tokens()[i], k)
  {
    var first := LedgerAfterFirst(m, now, ledger, keys);
    var spent := AfterRequests(m.crypto, first, between);
    TokenChecks(m, later, spent, i, k);
    if m.Holds(i, k, later) {
      assert m.IsFirst(i, now);
      SpentByFirst(m, now, ledger, keys, i);
      RequestsRemember(m.crypto, first, between, m.nonces[i], m.PayloadOf(i).e, now, later);
    }
  }

  /** A confirmation that names one key twice: sent twice before it expires, its tokens are accepted twice. */
  lemma RepeatedKeyIsAcceptedTwice(m: Minting, k: string, now: int, later: int, ledger: Ledger)
    requires m.Ok() && now <= later && m.keys == [k, k] && m.Unspent(now, ledger)
    requires later < m.at[0] + TTL_MS && later < m.at[1] + TTL_MS
    ensures MatchAll(m.DeskAt(now, ledger), m.Tokens(), Distinct([k])).0
    ensures MatchAll(m.DeskAt(later, LedgerAfterFirst(m, now, ledger, [k])), m.Tokens(), Distinct([k])).0
  {
    assert m.Holds(0, k, now) && m.Holds(1, k, later);
    assert LeftOver(m, [k], 1, k, now, later);
    GateOpensAction(m, now, ledger, [k]);
    Resubmission(m, now, later, ledger, [k], [k]);
  }
}
