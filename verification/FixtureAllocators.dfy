/**
 The end-to-end suite's allocators (e2e/src/fixtures.ts): districts claimed by any number of worker
 processes through exclusive file creates, and phone numbers from a private block per worker.
 */
module FixtureAllocators {
  import opened Options
  import opened Text

  // ---- one attempt ----

  /** How one turn of the loop ends: a claim granted, a file that is already there, or no index left. */
  datatype Outcome = Granted | Taken | Exhausted

  function Attempt(claimed: set<nat>, cursor: nat, pool: nat): Outcome {
    if cursor >= pool then Exhausted
    else if cursor in claimed then Taken
    else Granted
  }

  // ---- any number of processes, in any interleaving ----

  datatype Grant = Grant(process: nat, index: nat)

  /** The claim directory, each process's own cursor, and the grants made, oldest first. */
  datatype World = World(claimed: set<nat>, cursors: seq<nat>, grants: seq<Grant>, lost: nat)

  datatype Move =
    | Start                 // a worker process begins with a cursor of its own
    | Try(process: nat)     // one exclusive create, and what follows it
    | Die(process: nat)     // one exclusive create, after which the worker is gone
    | Fail(process: nat)    // a create refused for any other reason: the call throws

  function Step(w: World, move: Move, pool: nat): World {
    match move
    case Start => w.(cursors := w.cursors + [0])
    case Try(p) =>
      if p >= |w.cursors| then w
      else
        var cursor := w.cursors[p];
        (match Attempt(w.claimed, cursor, pool)
         case Exhausted => w
         case Taken => w.(cursors := w.cursors[p := cursor + 1])
         case Granted =>
           w.(claimed := w.claimed + {cursor}, cursors := w.cursors[p := cursor + 1],
              grants := w.grants + [Grant(p, cursor)]))
    case Die(p) =>
      if p < |w.cursors| && Attempt(w.claimed, w.cursors[p], pool) == Granted then
        w.(claimed := w.claimed + {w.cursors[p]}, lost := w.lost + 1)
      else w
    case Fail(_) => w
  }

  function Run(start: set<nat>, moves: seq<Move>, pool: nat): World
    decreases |moves|
  {
    if moves == [] then World(start, [], [], 0)
    else Step(Run(start, moves[..|moves| - 1], pool), moves[|moves| - 1], pool)
  }

  /** Every index of the pool has a file. */
  predicate AllClaimed(claimed: set<nat>, pool: nat) {
    forall i: nat :: i < pool ==> i in claimed
  }

  /** What every interleaving keeps. */
  ghost predicate Sound(start: set<nat>, w: World, pool: nat) {
    && start <= w.claimed
    && (forall i: nat :: i in w.claimed && i !in start ==> i < pool)
    && (forall p :: 0 <= p < |w.cursors| ==> w.cursors[p] <= pool)
    && (forall p, i: nat :: 0 <= p < |w.cursors| && i < w.cursors[p] ==> i in w.claimed)
    && (forall g :: 0 <= g < |w.grants| ==> w.grants[g].index in w.claimed && w.grants[g].index !in start)
    && (forall g, h :: 0 <= g < h < |w.grants| ==> w.grants[g].index != w.grants[h].index)
    && |w.claimed - start| == |w.grants| + w.lost
  }

  /** The index at a cursor, claimed for the first time. */
  lemma ClaimCounts(start: set<nat>, claimed: set<nat>, cursor: nat)
    requires start <= claimed && cursor !in claimed
    ensures |(claimed + {cursor}) - start| == |claimed - start| + 1
  {
    assert (claimed + {cursor}) - start == (claimed - start) + {cursor};
  }

  lemma GrantIsSound(start: set<nat>, w: World, p: nat, pool: nat)
    requires Sound(start, w, pool) && p < |w.cursors| && Attempt(w.claimed, w.cursors[p], pool) == Granted
    ensures Sound(start, Step(w, Try(p), pool), pool)
  {
    var cursor := w.cursors[p];
    var after := Step(w, Try(p), pool);
    ClaimCounts(start, w.claimed, cursor);
    forall q, i: nat | 0 <= q < |after.cursors| && i < after.cursors[q]
      ensures i in after.claimed
    {
      assert q == p ==> i < cursor || i == cursor;
    }
  }

  lemma DeathIsSound(start: set<nat>, w: World, p: nat, pool: nat)
    requires Sound(start, w, pool) && p < |w.cursors| && Attempt(w.claimed, w.cursors[p], pool) == Granted
    ensures Sound(start, Step(w, Die(p), pool), pool)
  {
    ClaimCounts(start, w.claimed, w.cursors[p]);
  }

  lemma SkipIsSound(start: set<nat>, w: World, p: nat, pool: nat)
    requires Sound(start, w, pool) && p < |w.cursors| && Attempt(w.claimed, w.cursors[p], pool) == Taken
    ensures Sound(start, Step(w, Try(p), pool), pool)
  {
  }

  lemma StartIsSound(start: set<nat>, w: World, pool: nat)
    requires Sound(start, w, pool)
    ensures Sound(start, Step(w, Start, pool), pool)
  {
  }

  lemma StepIsSound(start: set<nat>, w: World, move: Move, pool: nat)
    requires Sound(start, w, pool)
    ensures Sound(start, Step(w, move, pool), pool)
  {
    match move
    case Start => StartIsSound(start, w, pool);
    case Try(p) =>
      if p < |w.cursors| {
        match Attempt(w.claimed, w.cursors[p], pool)
        case Granted => GrantIsSound(start, w, p, pool);
        case Taken => SkipIsSound(start, w, p, pool);
        case Exhausted =>
      }
    case Die(p) =>
      if p < |w.cursors| && Attempt(w.claimed, w.cursors[p], pool) == Granted {
        DeathIsSound(start, w, p, pool);
      }
    case Fail(_) =>
  }

  /**
   From any claims left over, for any number of processes and any interleaving: no index is granted
   twice, every index below a process's cursor is claimed, and every new claim is a grant or was lost
   with its worker.
   */
  lemma {:induction false} EveryInterleaving(start: set<nat>, moves: seq<Move>, pool: nat)
    ensures Sound(start, Run(start, moves, pool), pool)
    decreases |moves|
  {
    if moves != [] {
      var n := |moves| - 1;
      EveryInterleaving(start, moves[..n], pool);
      StepIsSound(start, Run(start, moves[..n], pool), moves[n], pool);
    } else {
      assert start - start == {};
    }
  }

  lemma {:induction false} BelowPool(pool: nat) returns (all: set<nat>)
    ensures |all| == pool && forall i: nat :: i in all <==> i < pool
  {
    if pool == 0 {
      all := {};
    } else {
      var fewer := BelowPool(pool - 1);
      all := fewer + {pool - 1};
    }
  }

  /** The pool is the only limit: with an empty directory, grants and losses never exceed it. */
  lemma PoolIsTheLimit(moves: seq<Move>, pool: nat)
    ensures var w := Run({}, moves, pool); |w.grants| + w.lost <= pool
    ensures var w := Run({}, moves, pool); |w.grants| + w.lost == pool <==> AllClaimed(w.claimed, pool)
  {
    var w := Run({}, moves, pool);
    EveryInterleaving({}, moves, pool);
    var all := BelowPool(pool);
    assert w.claimed - {} == w.claimed;
    assert w.claimed <= all;
    var rest := all - w.claimed;
    assert all == w.claimed + rest;
    assert AllClaimed(w.claimed, pool) <==> rest == {};
  }

  /**
   Exhaustion is raised only when every index of the pool is claimed; and once that is so, no process
   is granted anything again.
   */
  lemma ExhaustedMeansAllClaimed(start: set<nat>, moves: seq<Move>, pool: nat, p: nat)
    requires p < |Run(start, moves, pool).cursors|
    ensures var w := Run(start, moves, pool); var outcome := Attempt(w.claimed, w.cursors[p], pool);
            && (outcome == Exhausted ==> AllClaimed(w.claimed, pool))
            && (AllClaimed(w.claimed, pool) ==> outcome != Granted)
  {
    EveryInterleaving(start, moves, pool);
  }

  /** How often process p tried while an index was left. */
  function Tries(start: set<nat>, moves: seq<Move>, pool: nat, p: nat): nat
    decreases |moves|
  {
    if moves == [] then 0
    else
      var before := Run(start, moves[..|moves| - 1], pool);
      var last := moves[|moves| - 1];
      Tries(start, moves[..|moves| - 1], pool, p)
      + if last == Try(p) && p < |before.cursors| && Attempt(before.claimed, before.cursors[p], pool) != Exhausted then 1 else 0
  }

  /** Each such try moves the cursor by one, so no call can turn its loop more often than indices are left above it. */
  lemma {:induction false} TriesMoveTheCursor(start: set<nat>, moves: seq<Move>, pool: nat, p: nat)
    ensures var w := Run(start, moves, pool);
            && Tries(start, moves, pool, p) == (if p < |w.cursors| then w.cursors[p] else 0)
            && Tries(start, moves, pool, p) <= pool
    decreases |moves|
  {
    if moves != [] {
      TriesMoveTheCursor(start, moves[..|moves| - 1], pool, p);
    }
    EveryInterleaving(start, moves, pool);
  }

  // ---- what a process gets ----

  /** The moves of one process alone: it starts, and tries n times. */
  function Alone(n: nat): seq<Move> {
    [Start] + seq(n, i => Try(0))
  }

  /** Its grants: one of each of the first n indices it tries, none of them claimed before. */
  function FirstGrants(start: set<nat>, n: nat): seq<Grant> {
    if n == 0 then [] else FirstGrants(start, n - 1) + if n - 1 in start then [] else [Grant(0, n - 1)]
  }

  function UpToIndex(start: set<nat>, n: nat): set<nat> {
    if n == 0 then start else UpToIndex(start, n - 1) + {n - 1}
  }

  lemma {:induction false} ClaimedUpTo(start: set<nat>, n: nat, i: nat)
    ensures i in UpToIndex(start, n) <==> i in start || i < n
    decreases n
  {
    if n > 0 { ClaimedUpTo(start, n - 1, i); }
  }

  lemma RunSnoc(start: set<nat>, moves: seq<Move>, move: Move, pool: nat)
    ensures Run(start, moves + [move], pool) == Step(Run(start, moves, pool), move, pool)
  {
    assert (moves + [move])[..|moves|] == moves;
  }

  /**
   A process alone is granted every index of the pool that had no file, in ascending order, one per try;
   a further try on a file that is there is skipped.
   */
  lemma {:induction false} AloneTakesAll(start: set<nat>, n: nat, pool: nat)
    requires n <= pool
    ensures Run(start, Alone(n), pool) == World(UpToIndex(start, n), [n], FirstGrants(start, n), 0)
    decreases n
  {
    if n == 0 {
      RunSnoc(start, [], Start, pool);
      assert Alone(0) == [] + [Start];
      assert [] + [0] == [0];
    } else {
      AloneTakesAll(start, n - 1, pool);
      assert Alone(n) == Alone(n - 1) + [Try(0)];
      RunSnoc(start, Alone(n - 1), Try(0), pool);
      ClaimedUpTo(start, n - 1, n - 1);
      TryAt(World(UpToIndex(start, n - 1), [n - 1], FirstGrants(start, n - 1), 0), n - 1, pool);
      if n - 1 in start { assert UpToIndex(start, n - 1) + {n - 1} == UpToIndex(start, n - 1); }
    }
  }

  lemma TryAt(w: World, cursor: nat, pool: nat)
    requires w.cursors == [cursor] && cursor < pool
    ensures Step(w, Try(0), pool) ==
              if cursor in w.claimed then w.(cursors := [cursor + 1])
              else World(w.claimed + {cursor}, [cursor + 1], w.grants + [Grant(0, cursor)], w.lost)
  {
    assert w.cursors[0 := cursor + 1] == [cursor + 1];
  }

  function Starts(moves: seq<Move>): nat {
    if moves == [] then 0 else Starts(moves[..|moves| - 1]) + if moves[|moves| - 1] == Start then 1 else 0
  }

  /** Every worker that starts is a process of its own. */
  lemma {:induction false} StartsAreProcesses(start: set<nat>, moves: seq<Move>, pool: nat)
    ensures |Run(start, moves, pool).cursors| == Starts(moves)
    decreases |moves|
  {
    if moves != [] { StartsAreProcesses(start, moves[..|moves| - 1], pool); }
  }

  // ---- one process's allocator ----

  /** What an exclusive create answers: the file is new, it was there, or any other error. */
  datatype Creation = Created | AlreadyThere | OtherError

  /** The claim directory every worker shares. */
  class ClaimDirectory {
    var claimed: set<nat>

    constructor ()
      ensures claimed == {}
    {
      claimed := {};
    }

    /**
     An exclusive create. Other processes may claim first, and keep claiming; the file system may
     refuse for a reason of its own.
     */
    method CreateExclusive(index: nat) returns (creation: Creation)
      modifies this
      ensures old(claimed) <= claimed
      ensures creation == Created ==> index !in old(claimed) && index in claimed
      ensures creation == AlreadyThere ==> index in claimed
    {
      var others: set<nat>, refused: bool := *, *;
      claimed := claimed + others;
      if refused {
        return OtherError;
      }
      creation := if index in claimed then AlreadyThere else Created;
      claimed := claimed + {index};
    }
  }

  /** How a call ends: with a pair, or with one of two exceptions. */
  datatype Allocation<Pair> = Allocated(pair: Pair) | PoolExhausted | CreateFailed

  /** createLocationAllocator: a cursor into the pairs, kept from call to call. */
  class LocationAllocator<Pair> {
    const pairs: seq<Pair>
    const claims: ClaimDirectory
    var next: nat

    ghost predicate Valid()
      reads this, claims
    {
      next <= |pairs| && forall i: nat :: i < next ==> i in claims.claimed
    }

    constructor (pairs: seq<Pair>, claims: ClaimDirectory)
      ensures Valid() && this.pairs == pairs && this.claims == claims && next == 0
    {
      this.pairs := pairs;
      this.claims := claims;
      next := 0;
    }

    /**
     One call, whatever the other processes do meanwhile: it takes an index that had no file when the
     call began, with every index below it claimed by then; or it refuses, and then every index of the
     pool has a file; or a create fails, and the next call tries that index again.
     */
    method Allocate() returns (allocation: Allocation<Pair>)
      requires Valid()
      modifies this`next, claims
      ensures Valid() && old(claims.claimed) <= claims.claimed && old(next) <= next
      ensures allocation.Allocated? ==>
                && old(next) < next && allocation.pair == pairs[next - 1]
                && next - 1 !in old(claims.claimed) && next - 1 in claims.claimed
      ensures allocation.PoolExhausted? ==> next == |pairs| && AllClaimed(claims.claimed, |pairs|)
      ensures allocation.CreateFailed? ==> next < |pairs|
    {
      while next < |pairs|
        invariant Valid() && old(next) <= next && old(claims.claimed) <= claims.claimed
        decreases |pairs| - next
      {
        var creation := claims.CreateExclusive(next);
        if creation == OtherError {
          return CreateFailed;
        }
        if creation == Created {
          var pair := pairs[next];
          next := next + 1;
          return Allocated(pair);
        }
        next := next + 1;
      }
      allocation := PoolExhausted;
    }
  }

  // ---- phone numbers ----

  const PHONE_PREFIX := "0555"
  const PHONE_WORKER_BLOCKS := 1000
  const PHONE_SERIALS_PER_BLOCK := 10000

  function Phone(block: nat, serial: nat): string {
    PHONE_PREFIX + PadZeros(Decimal(block), 3) + PadZeros(Decimal(serial), 4)
  }

  lemma {:induction false} DecimalFits(n: nat, width: nat)
    requires width >= 1 && n < Power10(width)
    ensures |Decimal(n)| <= width
  {
    ValueOfDecimal(n);
    ValueBounds(Decimal(n));
    if |Decimal(n)| > width { Power10Grows(width, |Decimal(n)| - 1); }
  }

  lemma Padded(n: nat, width: nat)
    requires width >= 1 && n < Power10(width)
    ensures var s := PadZeros(Decimal(n), width); |s| == width && AllDigits(s) && Value(s) == n
  {
    DecimalFits(n, width);
    ValueOfDecimal(n);
    PadZerosKeepsValue(Decimal(n), width);
  }

  /** A phone number is eleven digits and gives back its block and its serial. */
  lemma PhoneReadsBack(block: nat, serial: nat)
    requires block < PHONE_WORKER_BLOCKS && serial < PHONE_SERIALS_PER_BLOCK
    ensures var phone := Phone(block, serial);
            && |phone| == 11 && AllDigits(phone) && phone[..4] == PHONE_PREFIX
            && Value(phone[4..7]) == block && Value(phone[7..]) == serial
  {
    assert Power10(3) == 1000 && Power10(4) == 10000 by {
      assert Power10(1) == 10;
      assert Power10(2) == 100;
    }
    Padded(block, 3);
    Padded(serial, 4);
    var phone := Phone(block, serial);
    assert phone[4..7] == PadZeros(Decimal(block), 3);
    assert phone[7..] == PadZeros(Decimal(serial), 4);
  }

  /** Two allocations of the run get one number only if they are the same serial of the same block. */
  lemma PhonesDiffer(b1: nat, s1: nat, b2: nat, s2: nat)
    requires b1 < PHONE_WORKER_BLOCKS && s1 < PHONE_SERIALS_PER_BLOCK
    requires b2 < PHONE_WORKER_BLOCKS && s2 < PHONE_SERIALS_PER_BLOCK
    ensures Phone(b1, s1) == Phone(b2, s2) <==> b1 == b2 && s1 == s2
  {
    PhoneReadsBack(b1, s1);
    PhoneReadsBack(b2, s2);
  }

  /** createPhoneAllocator, once its block has been accepted. */
  class PhoneAllocator {
    const block: nat
    var serial: nat
    ghost var issued: seq<string>

    ghost predicate Valid()
      reads this
    {
      && block < PHONE_WORKER_BLOCKS && serial <= PHONE_SERIALS_PER_BLOCK
      && |issued| == serial && forall i :: 0 <= i < serial ==> issued[i] == Phone(block, i)
    }

    constructor (block: nat)
      requires block < PHONE_WORKER_BLOCKS
      ensures Valid() && this.block == block && issued == []
    {
      this.block := block;
      serial := 0;
      issued := [];
    }

    /** The next number of the block, or a refusal once all of them are issued. */
    method Next() returns (phone: Option<string>)
      requires Valid()
      modifies this
      ensures Valid()
      ensures phone.Some? <==> old(serial) < PHONE_SERIALS_PER_BLOCK
      ensures phone.Some? ==> phone.value !in old(issued) && issued == old(issued) + [phone.value]
      ensures phone.None? ==> issued == old(issued)
    {
      if serial >= PHONE_SERIALS_PER_BLOCK {
        return None;
      }
      var number := PHONE_PREFIX + PadZeros(Decimal(block), 3) + PadZeros(Decimal(serial), 4);
      forall i | 0 <= i < serial
        ensures issued[i] != number
      {
        PhonesDiffer(block, i, block, serial);
      }
      phone := Some(number);
      serial := serial + 1;
      issued := issued + [number];
    }
  }

  /** The factory refuses a block the suite has not reserved. */
  method CreatePhoneAllocator(block: int) returns (allocator: Option<PhoneAllocator>)
    ensures allocator.Some? <==> 0 <= block < PHONE_WORKER_BLOCKS
    ensures allocator.Some? ==> fresh(allocator.value) && allocator.value.Valid() && allocator.value.block == block && allocator.value.issued == []
  {
    if block < 0 || block >= PHONE_WORKER_BLOCKS {
      return None;
    }
    var created := new PhoneAllocator(block);
    allocator := Some(created);
  }

  /** Allocators on different blocks never issue the same number. */
  lemma BlocksAreDisjoint(a: PhoneAllocator, b: PhoneAllocator, i: nat, j: nat)
    requires a.Valid() && b.Valid() && a.block != b.block && i < |a.issued| && j < |b.issued|
    ensures a.issued[i] != b.issued[j]
  {
    PhonesDiffer(a.block, i, b.block, j);
  }
}
