/**
 A submission that needs several confirmations at once (apps/admin/lib/confirmation-proof-server.ts):
 greedy matching of the submitted tokens to the keys asked for, at one instant of the clock.
 */
module ConfirmationServer {
  import opened Options
  import opened Sequences
  import opened ConfirmationProof

  /** Everything one verification depends on but the token and the key. */
  datatype Desk = Desk(crypto: Crypto, session: Option<string>, now: int, ledger: Ledger) {

    function Check(token: string, key: string): Examination {
      Examine(crypto, Some(token), key, session, now)
    }

    /** A good proof for the key whose nonce is not spent. */
    predicate Accepts(token: string, key: string) {
      VerdictOf(ledger, Check(token, key), now) == Accepted
    }

    function After(token: string, key: string): Desk {
      this.(ledger := LedgerAfter(ledger, Check(token, key), now))
    }

    /** Some submitted token is a good, unspent proof for the key. */
    predicate Covers(tokens: seq<string>, key: string) {
      exists i :: 0 <= i < |tokens| && Accepts(tokens[i], key)
    }

    /** The first such token. */
    function FirstGood(tokens: seq<string>, key: string): (i: nat)
      requires Covers(tokens, key)
      ensures i < |tokens| && Accepts(tokens[i], key)
      ensures forall j :: 0 <= j < i ==> !Accepts(tokens[j], key)
      decreases |tokens|
    {
      if Accepts(tokens[0], key) then 0
      else
        var rest := tokens[1..];
        assert forall j :: 0 < j < |tokens| ==> tokens[j] == rest[j - 1];
        1 + FirstGood(rest, key)
    }

    /** What that token puts in the ledger. */
    function SpendFor(tokens: seq<string>, key: string): (p: Payload)
      requires Covers(tokens, key)
      ensures p.k == key
    {
      Check(tokens[FirstGood(tokens, key)], key).payload
    }

    /** How many of the keys, from the first, are covered. */
    function CoveredKeys(tokens: seq<string>, keys: seq<string>): (m: nat)
      ensures m <= |keys|
      ensures forall i :: 0 <= i < m ==> Covers(tokens, keys[i])
      ensures m < |keys| ==> !Covers(tokens, keys[m])
      decreases |keys|
    {
      if keys == [] || !Covers(tokens, keys[0]) then 0
      else
        var rest := keys[1..];
        assert forall j :: 0 < j < |keys| ==> keys[j] == rest[j - 1];
        1 + CoveredKeys(tokens, rest)
    }

    /** The entries a list of covered keys spends: the first good token of each. */
    function Spent(tokens: seq<string>, keys: seq<string>): Ledger
      requires forall i :: 0 <= i < |keys| ==> Covers(tokens, keys[i])
      decreases |keys|
    {
      if keys == [] then map[]
      else
        var p := SpendFor(tokens, keys[0]);
        Spent(tokens, keys[1..])[p.n := p.e]
    }
  }

  /** new Set(keys), in insertion order. */
  function Distinct(keys: seq<string>): (d: seq<string>)
    ensures forall k :: k in d <==> k in keys
    ensures NoRepeats(d)
    decreases |keys|
  {
    if keys == [] then []
    else
      var front := Distinct(keys[..|keys| - 1]);
      var last := keys[|keys| - 1];
      assert keys == keys[..|keys| - 1] + [last];
      if last in front then front else front + [last]
  }

  function Without(tokens: seq<string>, i: nat): (rest: seq<string>)
    requires i < |tokens|
    ensures |rest| == |tokens| - 1
    ensures forall j :: 0 <= j < |rest| ==> rest[j] == tokens[if j < i then j else j + 1]
  {
    tokens[..i] + tokens[i + 1..]
  }

  /** Trying the tokens in turn for one key: the index that verified, and the desk afterwards. */
  function TryEach(d: Desk, tokens: seq<string>, key: string): (r: (Option<nat>, Desk))
    ensures r.0.Some? ==> r.0.value < |tokens|
    ensures r.1 == d.(ledger := r.1.ledger)
    decreases |tokens|
  {
    if tokens == [] then (None, d)
    else if d.Accepts(tokens[0], key) then (Some(0), d.After(tokens[0], key))
    else
      var (found, after) := TryEach(d.After(tokens[0], key), tokens[1..], key);
      (if found.Some? then Some(found.value + 1) else None, after)
  }

  /** Key after key, each taking its token out of those still unused. */
  function MatchAll(d: Desk, unused: seq<string>, keys: seq<string>): (bool, Desk)
    decreases |keys|
  {
    if keys == [] then (true, d)
    else
      var (found, after) := TryEach(d, unused, keys[0]);
      if found.None? then (false, after)
      else MatchAll(after, Without(unused, found.value), keys[1..])
  }

  /** The server's entry points on the process's proof store. */
  class ConfirmationGuard {
    const store: ProofStore

    constructor (crypto: Crypto)
      ensures fresh(store) && store.crypto == crypto && store.ledger == map[]
    {
      store := new ProofStore(crypto);
    }

    function DeskNow(session: Option<string>, now: int): Desk
      reads store
    {
      Desk(store.crypto, session, now, store.ledger)
    }

    /**
     issueConfirmationProof; the nonce is drawn at random. Without a session there is no token. The
     token passes every check up to the ledger for its own key, in its own session, until one
     lifetime after now, carrying the nonce; for another key or later it is refused; and it passes in
     no session of another fingerprint.
     */
    method Issue(key: string, session: Option<string>, now: int, nonce: string) returns (token: Option<string>)
      ensures token.None? <==> session.None? || session.value == ""
      ensures token.Some? && CryptoOk(store.crypto) ==> forall k, later ::
                Examine(store.crypto, token, k, session, later)
                == if k != key then Bad(Scope)
                   else if now + TTL_MS <= later then Bad(Expired)
                   else Good(Payload(key, store.crypto.fingerprint(session.value), nonce, now + TTL_MS))
      ensures token.Some? && CryptoOk(store.crypto) ==> forall k, s, later ::
                Examine(store.crypto, token, k, Some(s), later).Good? ==>
                  store.crypto.fingerprint(s) == store.crypto.fingerprint(session.value)
    {
      if session.None? || session.value == "" {
        return None;
      }
      ghost var p := MintedPayload(store.crypto, key, session.value, nonce, now);
      token := Some(MintProof(store.crypto, key, session.value, nonce, now));
      if CryptoOk(store.crypto) {
        forall k, later
          ensures Examine(store.crypto, token, k, session, later)
                  == if k != key then Bad(Scope) else if now + TTL_MS <= later then Bad(Expired) else Good(p)
        {
          MintedIsGood(store.crypto, p, session.value, k, later);
        }
        forall k, s, later | Examine(store.crypto, token, k, Some(s), later).Good?
          ensures store.crypto.fingerprint(s) == store.crypto.fingerprint(session.value)
        {
          MintedIsGood(store.crypto, p, session.value, key, now);
          GoodIsSigned(store.crypto, token, k, Some(s), later);
        }
      }
    }

    /** The inner loop of hasConfirmationProofs. */
    method SpendFirst(unused: seq<string>, key: string, session: Option<string>, now: int) returns (matched: int)
      modifies store`ledger
      ensures var (found, after) := TryEach(old(DeskNow(session, now)), unused, key);
              && matched == (if found.Some? then found.value else -1)
              && DeskNow(session, now) == after
    {
      ghost var start := DeskNow(session, now);
      for index := 0 to |unused|
        invariant var (found, after) := TryEach(DeskNow(session, now), unused[index..], key);
                  TryEach(start, unused, key) == (if found.Some? then Some(found.value + index) else None, after)
      {
        assert unused[index..][1..] == unused[index + 1..];
        var verdict := store.VerifyAndSpend(Some(unused[index]), key, session, now);
        if verdict == Accepted {
          return index;
        }
      }
      matched := -1;
    }

    /** hasConfirmationProofs, at one instant. */
    method HasConfirmationProofs(tokens: seq<string>, keys: seq<string>, session: Option<string>, now: int) returns (ok: bool)
      modifies store`ledger
      ensures (ok, DeskNow(session, now)) == MatchAll(old(DeskNow(session, now)), tokens, Distinct(keys))
    {
      ghost var start := DeskNow(session, now);
      var unused := tokens;
      var distinct := Distinct(keys);
      for k := 0 to |distinct|
        invariant MatchAll(start, tokens, distinct) == MatchAll(DeskNow(session, now), unused, distinct[k..])
      {
        assert distinct[k..][1..] == distinct[k + 1..];
        var matched := SpendFirst(unused, distinct[k], session, now);
        if matched < 0 {
          return false;
        }
        unused := Without(unused, matched);
      }
      ok := true;
    }
  }

  // ---- the greedy matching is exact ----

  /** Submitted tokens that pass the checks and share a nonce carry one payload: minted nonces are distinct. */
  ghost predicate NoncesDistinct(d: Desk, tokens: seq<string>) {
    forall t, u, k, l | t in tokens && u in tokens && d.Check(t, k).Good? && d.Check(u, l).Good? ::
      d.Check(t, k).payload.n == d.Check(u, l).payload.n ==> d.Check(t, k).payload == d.Check(u, l).payload
  }

  lemma {:induction false} FirstGoodIs(d: Desk, tokens: seq<string>, key: string, i: nat)
    requires i < |tokens| && d.Accepts(tokens[i], key)
    requires forall j :: 0 <= j < i ==> !d.Accepts(tokens[j], key)
    ensures d.Covers(tokens, key) && d.FirstGood(tokens, key) == i
    decreases |tokens|
  {
    if i > 0 {
      var rest := tokens[1..];
      assert rest[i - 1] == tokens[i];
      assert forall j :: 0 <= j < i - 1 ==> rest[j] == tokens[j + 1];
      FirstGoodIs(d, rest, key, i - 1);
    }
  }

  /** Two desks that accept the same tokens for a key, and differ in one token that neither accepts. */
  lemma SameCover(d: Desk, tokens: seq<string>, e: Desk, i: nat, key: string)
    requires i < |tokens| && !d.Accepts(tokens[i], key)
    requires forall j :: 0 <= j < |tokens| ==> d.Accepts(tokens[j], key) == e.Accepts(tokens[j], key)
    ensures e.Covers(Without(tokens, i), key) <==> d.Covers(tokens, key)
    ensures d.Covers(tokens, key) ==>
              Without(tokens, i)[e.FirstGood(Without(tokens, i), key)] == tokens[d.FirstGood(tokens, key)]
  {
    var rest := Without(tokens, i);
    if d.Covers(tokens, key) {
      var f := d.FirstGood(tokens, key);
      var g := if f < i then f else f - 1;
      assert rest[g] == tokens[f];
      FirstGoodIs(e, rest, key, g);
    }
  }

  /** Trying each token finds the first good one, and spends that and nothing else. */
  lemma {:induction false} TryEachFinds(d: Desk, tokens: seq<string>, key: string)
    ensures var (found, after) := TryEach(d, tokens, key);
            && (found.Some? <==> d.Covers(tokens, key))
            && (found.Some? ==>
                  && found.value == d.FirstGood(tokens, key)
                  && Live(after.ledger, d.now)
                     == Live(d.ledger, d.now)[d.SpendFor(tokens, key).n := d.SpendFor(tokens, key).e])
            && (found.None? ==> Live(after.ledger, d.now) == Live(d.ledger, d.now))
    decreases |tokens|
  {
    if tokens != [] {
      if d.Accepts(tokens[0], key) {
        FirstGoodIs(d, tokens, key, 0);
      } else {
        TryEachFinds(d.After(tokens[0], key), tokens[1..], key);
        RefusedChangesNothing(d, tokens[0], key);
        FirstAfterRefused(d, tokens, key);
      }
    }
  }

  /** After a refused first token the key is covered by the same token of the rest. */
  lemma FirstAfterRefused(d: Desk, tokens: seq<string>, key: string)
    requires tokens != [] && !d.Accepts(tokens[0], key)
    ensures var next, rest := d.After(tokens[0], key), tokens[1..];
            && (next.Covers(rest, key) <==> d.Covers(tokens, key))
            && (d.Covers(tokens, key) ==> d.FirstGood(tokens, key) == next.FirstGood(rest, key) + 1
                                          && d.SpendFor(tokens, key) == next.SpendFor(rest, key))
  {
    var next, rest := d.After(tokens[0], key), tokens[1..];
    RefusedChangesNothing(d, tokens[0], key);
    assert forall j :: 0 <= j < |rest| ==> rest[j] == tokens[j + 1];
    assert d.Covers(tokens, key) ==> next.Covers(rest, key) by {
      if d.Covers(tokens, key) {
        assert rest[d.FirstGood(tokens, key) - 1] == tokens[d.FirstGood(tokens, key)];
      }
    }
    if next.Covers(rest, key) {
      FirstGoodIs(d, tokens, key, next.FirstGood(rest, key) + 1);
    }
  }

  lemma RefusedChangesNothing(d: Desk, token: string, key: string)
    requires !d.Accepts(token, key)
    ensures Live(d.After(token, key).ledger, d.now) == Live(d.ledger, d.now)
    ensures forall t, k :: d.After(token, key).Accepts(t, k) == d.Accepts(t, k)
  {
    RefusalDoesNotInterfere(d.ledger, d.Check(token, key), d.now, d.Check(token, key), d.now);
  }

  /** Spending the token of one key leaves the tokens of every other key as they were. */
  lemma OtherKeysUntouched(d: Desk, tokens: seq<string>, key: string, after: Desk, token: string, other: string)
    requires NoncesDistinct(d, tokens) && token in tokens && other != key
    requires d.Covers(tokens, key)
    requires after == d.(ledger := after.ledger)
    requires Live(after.ledger, d.now) == Live(d.ledger, d.now)[d.SpendFor(tokens, key).n := d.SpendFor(tokens, key).e]
    ensures after.Accepts(token, other) == d.Accepts(token, other)
  {
    var spent := tokens[d.FirstGood(tokens, key)];
    assert spent in tokens && d.Check(spent, key).Good?;
    if d.Check(token, other).Good? {
      assert d.Check(token, other).payload.k == other && d.Check(spent, key).payload.k == key;
      assert d.Check(token, other).payload.n != d.Check(spent, key).payload.n;
    }
  }

  lemma KeyStepsAside(d: Desk, tokens: seq<string>, key: string, after: Desk, other: string)
    requires NoncesDistinct(d, tokens) && other != key
    requires d.Covers(tokens, key)
    requires after == d.(ledger := after.ledger)
    requires Live(after.ledger, d.now) == Live(d.ledger, d.now)[d.SpendFor(tokens, key).n := d.SpendFor(tokens, key).e]
    ensures var rest := Without(tokens, d.FirstGood(tokens, key));
            && (after.Covers(rest, other) <==> d.Covers(tokens, other))
            && (d.Covers(tokens, other) ==> after.SpendFor(rest, other) == d.SpendFor(tokens, other))
  {
    forall j | 0 <= j < |tokens| ensures d.Accepts(tokens[j], other) == after.Accepts(tokens[j], other) {
      OtherKeysUntouched(d, tokens, key, after, tokens[j], other);
    }
    SameCover(d, tokens, after, d.FirstGood(tokens, key), other);
  }

  /** At the later desk, with fewer tokens, the keys are covered by the same tokens as before. */
  ghost predicate Aside(d: Desk, tokens: seq<string>, after: Desk, rest: seq<string>, others: seq<string>) {
    && after.CoveredKeys(rest, others) == d.CoveredKeys(tokens, others)
    && after.Spent(rest, others[..d.CoveredKeys(tokens, others)]) == d.Spent(tokens, others[..d.CoveredKeys(tokens, others)])
  }

  lemma AsideStep(d: Desk, tokens: seq<string>, after: Desk, rest: seq<string>, others: seq<string>)
    requires others != [] && Aside(d, tokens, after, rest, others[1..])
    requires after.Covers(rest, others[0]) <==> d.Covers(tokens, others[0])
    requires d.Covers(tokens, others[0]) ==> after.SpendFor(rest, others[0]) == d.SpendFor(tokens, others[0])
    ensures Aside(d, tokens, after, rest, others)
  {
    var m := d.CoveredKeys(tokens, others);
    if d.Covers(tokens, others[0]) {
      CoveredCons(d, tokens, others);
      CoveredCons(after, rest, others);
      SpentCons(d, tokens, others, m);
      SpentCons(after, rest, others, m);
    }
  }

  lemma {:induction false} KeysStepAside(d: Desk, tokens: seq<string>, key: string, after: Desk, others: seq<string>)
    requires NoncesDistinct(d, tokens) && key !in others
    requires d.Covers(tokens, key)
    requires after == d.(ledger := after.ledger)
    requires Live(after.ledger, d.now) == Live(d.ledger, d.now)[d.SpendFor(tokens, key).n := d.SpendFor(tokens, key).e]
    ensures Aside(d, tokens, after, Without(tokens, d.FirstGood(tokens, key)), others)
    decreases |others|
  {
    if others != [] {
      KeyStepsAside(d, tokens, key, after, others[0]);
      KeysStepAside(d, tokens, key, after, others[1..]);
      AsideStep(d, tokens, after, Without(tokens, d.FirstGood(tokens, key)), others);
    }
  }

  /**
   Greedy as it is, the matching is exact: it succeeds if and only if every key has a submitted,
   good, unspent token. On success the first good token of each key is spent; on failure those of
   the keys before the failing one; and nothing else.
   */
  lemma {:induction false} MatchingIsExact(d: Desk, tokens: seq<string>, keys: seq<string>)
    requires NoncesDistinct(d, tokens) && NoRepeats(keys)
    ensures var (ok, after) := MatchAll(d, tokens, keys); var m := d.CoveredKeys(tokens, keys);
            && (ok <==> m == |keys|)
            && (ok <==> forall k :: k in keys ==> d.Covers(tokens, k))
            && Live(after.ledger, d.now) == Live(d.ledger, d.now) + d.Spent(tokens, keys[..m])
    decreases |keys|
  {
    CoveredAll(d, tokens, keys);
    if keys != [] {
      TryEachFinds(d, tokens, keys[0]);
      var (found, after) := TryEach(d, tokens, keys[0]);
      if found.Some? {
        var rest := Without(tokens, found.value);
        NoncesStayDistinct(d, tokens, after, rest);
        MatchingIsExact(after, rest, keys[1..]);
        MatchingStep(d, tokens, keys, after);
      }
    }
  }

  lemma CoveredAll(d: Desk, tokens: seq<string>, keys: seq<string>)
    ensures d.CoveredKeys(tokens, keys) == |keys| <==> forall k :: k in keys ==> d.Covers(tokens, k)
  {
    var m := d.CoveredKeys(tokens, keys);
    if m < |keys| {
      assert keys[m] in keys;
    }
  }

  lemma SpendLater(base: Ledger, p: Payload, spent: Ledger)
    requires p.n !in spent
    ensures base[p.n := p.e] + spent == base + spent[p.n := p.e]
  {
  }

  lemma MatchingStep(d: Desk, tokens: seq<string>, keys: seq<string>, after: Desk)
    requires NoncesDistinct(d, tokens) && NoRepeats(keys) && keys != []
    requires d.Covers(tokens, keys[0])
    requires after == d.(ledger := after.ledger)
    requires Live(after.ledger, d.now)
             == Live(d.ledger, d.now)[d.SpendFor(tokens, keys[0]).n := d.SpendFor(tokens, keys[0]).e]
    ensures var rest := Without(tokens, d.FirstGood(tokens, keys[0])); var m := d.CoveredKeys(tokens, keys);
            && m == 1 + after.CoveredKeys(rest, keys[1..])
            && Live(after.ledger, d.now) + after.Spent(rest, keys[1..][..m - 1])
               == Live(d.ledger, d.now) + d.Spent(tokens, keys[..m])
  {
    var key, others := keys[0], keys[1..];
    KeysStepAside(d, tokens, key, after, others);
    var m := d.CoveredKeys(tokens, keys);
    CoveredCons(d, tokens, keys);
    SpentTogether(d, tokens, keys, m);
  }

  /** The first key's entry, then the others', is what the covered keys spend. */
  lemma SpentTogether(d: Desk, tokens: seq<string>, keys: seq<string>, m: nat)
    requires NoncesDistinct(d, tokens) && NoRepeats(keys) && keys != [] && d.Covers(tokens, keys[0])
    requires 0 < m == d.CoveredKeys(tokens, keys) == 1 + d.CoveredKeys(tokens, keys[1..])
    ensures var p := d.SpendFor(tokens, keys[0]);
            Live(d.ledger, d.now)[p.n := p.e] + d.Spent(tokens, keys[1..][..m - 1])
            == Live(d.ledger, d.now) + d.Spent(tokens, keys[..m])
  {
    var taken := keys[1..][..m - 1];
    assert forall i :: 0 <= i < |taken| ==> taken[i] == keys[i + 1];
    SpentApart(d, tokens, keys[0], taken);
    SpentCons(d, tokens, keys, m);
    SpendLater(Live(d.ledger, d.now), d.SpendFor(tokens, keys[0]), d.Spent(tokens, taken));
  }

  lemma CoveredCons(d: Desk, tokens: seq<string>, keys: seq<string>)
    requires keys != [] && d.Covers(tokens, keys[0])
    ensures d.CoveredKeys(tokens, keys) == 1 + d.CoveredKeys(tokens, keys[1..])
  {
  }

  lemma SpentCons(d: Desk, tokens: seq<string>, keys: seq<string>, m: nat)
    requires keys != [] && 0 < m == d.CoveredKeys(tokens, keys) == 1 + d.CoveredKeys(tokens, keys[1..])
    requires d.Covers(tokens, keys[0])
    ensures d.Spent(tokens, keys[..m])
            == d.Spent(tokens, keys[1..][..m - 1])[d.SpendFor(tokens, keys[0]).n := d.SpendFor(tokens, keys[0]).e]
  {
    assert keys[..m][1..] == keys[1..][..m - 1] && keys[..m][0] == keys[0];
  }

  lemma NoncesStayDistinct(d: Desk, tokens: seq<string>, e: Desk, rest: seq<string>)
    requires NoncesDistinct(d, tokens)
    requires e == d.(ledger := e.ledger)
    requires forall t :: t in rest ==> t in tokens
    ensures NoncesDistinct(e, rest)
  {
    assert forall t, k :: e.Check(t, k) == d.Check(t, k);
  }

  ghost predicate NoncesApart(d: Desk, tokens: seq<string>, key: string, others: seq<string>)
    requires d.Covers(tokens, key)
    requires forall i :: 0 <= i < |others| ==> d.Covers(tokens, others[i])
  {
    d.SpendFor(tokens, key).n !in d.Spent(tokens, others)
  }

  /** A key's nonce is not among those the other keys spend. */
  lemma {:induction false} SpentApart(d: Desk, tokens: seq<string>, key: string, others: seq<string>)
    requires NoncesDistinct(d, tokens) && key !in others
    requires d.Covers(tokens, key)
    requires forall i :: 0 <= i < |others| ==> d.Covers(tokens, others[i])
    ensures NoncesApart(d, tokens, key, others)
    decreases |others|
  {
    if others != [] {
      SpentApart(d, tokens, key, others[1..]);
      var t, u := tokens[d.FirstGood(tokens, key)], tokens[d.FirstGood(tokens, others[0])];
      assert d.Check(t, key).Good? && d.Check(u, others[0]).Good?;
    }
  }

  /** Exactly one token is spent per key. */
  lemma {:induction false} OneSpentPerKey(d: Desk, tokens: seq<string>, keys: seq<string>)
    requires NoncesDistinct(d, tokens) && NoRepeats(keys)
    requires forall i :: 0 <= i < |keys| ==> d.Covers(tokens, keys[i])
    ensures |d.Spent(tokens, keys)| == |keys|
    decreases |keys|
  {
    if keys != [] {
      var rest := keys[1..];
      OneSpentPerKey(d, tokens, rest);
      SpentApart(d, tokens, keys[0], rest);
      var p, others := d.SpendFor(tokens, keys[0]), d.Spent(tokens, rest);
      assert others[p.n := p.e].Keys == others.Keys + {p.n};
    }
  }

  predicate SpendsNonce(d: Desk, tokens: seq<string>, key: string, n: string) {
    d.Covers(tokens, key) && d.SpendFor(tokens, key).n == n
  }

  lemma {:induction false} SpentNonces(d: Desk, tokens: seq<string>, keys: seq<string>, n: string)
    requires forall i :: 0 <= i < |keys| ==> d.Covers(tokens, keys[i])
    ensures n in d.Spent(tokens, keys) <==> exists key :: key in keys && SpendsNonce(d, tokens, key, n)
    decreases |keys|
  {
    if keys != [] {
      SpentNonces(d, tokens, keys[1..], n);
      assert forall k :: k in keys <==> k == keys[0] || k in keys[1..];
      assert SpendsNonce(d, tokens, keys[0], n) <==> d.SpendFor(tokens, keys[0]).n == n;
    }
  }

  // ---- in the order the caller asked ----

  /** The place where a key is asked for first. */
  function FirstAt(keys: seq<string>, key: string): (i: nat)
    requires key in keys
    ensures i < |keys| && keys[i] == key && forall j :: 0 <= j < i ==> keys[j] != key
    decreases |keys|
  {
    if keys[0] == key then 0
    else
      var rest := keys[1..];
      assert forall j :: 0 < j < |keys| ==> keys[j] == rest[j - 1];
      1 + FirstAt(rest, key)
  }

  lemma FirstAtIs(keys: seq<string>, key: string, i: nat)
    requires i < |keys| && keys[i] == key && forall j :: 0 <= j < i ==> keys[j] != key
    ensures key in keys && FirstAt(keys, key) == i
  {
  }

  /** The distinct keys stand in the order in which the caller asks for them first. */
  lemma {:induction false} DistinctKeepsOrder(keys: seq<string>)
    ensures forall i, j :: 0 <= i < j < |Distinct(keys)| ==> FirstAt(keys, Distinct(keys)[i]) < FirstAt(keys, Distinct(keys)[j])
    decreases |keys|
  {
    if keys != [] {
      var n := |keys| - 1;
      var front := keys[..n];
      DistinctKeepsOrder(front);
      forall k | k in front
        ensures FirstAt(keys, k) == FirstAt(front, k)
      {
        FirstAtIs(keys, k, FirstAt(front, k));
      }
    }
  }

  /** Every key asked for before this one is covered. */
  ghost predicate ReachedFrom(d: Desk, tokens: seq<string>, keys: seq<string>, key: string) {
    key in keys && forall u :: u in keys && !d.Covers(tokens, u) ==> FirstAt(keys, key) < FirstAt(keys, u)
  }

  lemma EarlierInDistinct(keys: seq<string>, i: nat, j: nat)
    requires i < |Distinct(keys)| && j < |Distinct(keys)|
    ensures i < j <==> FirstAt(keys, Distinct(keys)[i]) < FirstAt(keys, Distinct(keys)[j])
  {
    DistinctKeepsOrder(keys);
  }

  lemma CoveredIsReached(d: Desk, tokens: seq<string>, keys: seq<string>, i: nat)
    requires i < d.CoveredKeys(tokens, Distinct(keys))
    ensures ReachedFrom(d, tokens, keys, Distinct(keys)[i])
  {
    var distinct := Distinct(keys);
    forall u | u in keys && !d.Covers(tokens, u)
      ensures FirstAt(keys, distinct[i]) < FirstAt(keys, u)
    {
      var j :| 0 <= j < |distinct| && distinct[j] == u;
      EarlierInDistinct(keys, i, j);
    }
  }

  lemma ReachedIsCovered(d: Desk, tokens: seq<string>, keys: seq<string>, i: nat)
    requires i < |Distinct(keys)| && ReachedFrom(d, tokens, keys, Distinct(keys)[i])
    ensures i < d.CoveredKeys(tokens, Distinct(keys))
  {
    var m := d.CoveredKeys(tokens, Distinct(keys));
    if m < |Distinct(keys)| { EarlierInDistinct(keys, i, m); }
  }

  /** The covered keys at the head of the distinct list are those asked for before the first uncovered one. */
  lemma CoveredAreReached(d: Desk, tokens: seq<string>, keys: seq<string>, key: string)
    ensures key in Distinct(keys)[..d.CoveredKeys(tokens, Distinct(keys))] <==> ReachedFrom(d, tokens, keys, key)
  {
    var distinct := Distinct(keys);
    var m := d.CoveredKeys(tokens, distinct);
    if key in distinct[..m] {
      var i :| 0 <= i < m && distinct[i] == key;
      CoveredIsReached(d, tokens, keys, i);
    }
    if ReachedFrom(d, tokens, keys, key) {
      var i :| 0 <= i < |distinct| && distinct[i] == key;
      ReachedIsCovered(d, tokens, keys, i);
    }
  }

  /**
   Of the caller's own list: the call succeeds exactly when every key is covered, and either way the
   nonces it spends are exactly those of the first good tokens of the keys asked for before the first
   uncovered one. So a refusal leaves the proofs matched before it spent.
   */
  lemma SpendsInOrder(d: Desk, tokens: seq<string>, keys: seq<string>)
    requires NoncesDistinct(d, tokens)
    ensures var (ok, after) := MatchAll(d, tokens, Distinct(keys));
            && (ok <==> forall k :: k in keys ==> d.Covers(tokens, k))
            && (forall n :: n in Live(after.ledger, d.now)
                  <==> n in Live(d.ledger, d.now) || exists k :: ReachedFrom(d, tokens, keys, k) && SpendsNonce(d, tokens, k, n))
  {
    var distinct := Distinct(keys);
    var m := d.CoveredKeys(tokens, distinct);
    MatchingIsExact(d, tokens, distinct);
    forall n
      ensures n in d.Spent(tokens, distinct[..m]) <==> exists k :: ReachedFrom(d, tokens, keys, k) && SpendsNonce(d, tokens, k, n)
    {
      SpentNonces(d, tokens, distinct[..m], n);
      forall k ensures k in distinct[..m] <==> ReachedFrom(d, tokens, keys, k) { CoveredAreReached(d, tokens, keys, k); }
    }
  }
}
