/** The terminal bridge's lease store: single-use tokens that live for ninety seconds.
 */
module LeaseStore {
  import opened Text

  const LEASE_TTL_MS: int := 90_000

  datatype Lease = Lease(workspace: string, sandboxId: string, hostname: string, createdAt: int)

  type Token = string

  type Leases = map<Token, Lease>

  predicate Expired(lease: Lease, now: int) {
    now - lease.createdAt > LEASE_TTL_MS
  }

  function Created(s: Leases, token: Token, lease: Lease): Leases {
    s[token := lease]
  }

  function Taken(s: Leases, token: Token): Leases {
    s - {token}
  }

  function Answer(s: Leases, token: Token, now: int): Option<Lease> {
    if token in s && !Expired(s[token], now) then Some(s[token]) else None
  }

  function Cleaned(s: Leases, now: int): Leases {
    map t | t in s && !Expired(s[t], now) :: s[t]
  }

  class Store {
    var leases: Leases

    constructor ()
      ensures leases == map[]
    {
      leases := map[];
    }

    /** `token` is the fresh identifier, `now` the clock. */
    method CreateLease(token: Token, workspace: string, sandboxId: string, hostname: string, now: int)
      returns (r: Token)
      modifies this
      ensures r == token
      ensures leases == Created(old(leases), token, Lease(workspace, sandboxId, hostname, now))
      ensures token in leases && leases[token] == Lease(workspace, sandboxId, hostname, now)
      ensures forall later :: now <= later <= now + 90_000 ==>
                Answer(leases, token, later) == Some(Lease(workspace, sandboxId, hostname, now))
      ensures forall other, later :: other != token ==>
                Answer(leases, other, later) == Answer(old(leases), other, later)
    {
      leases := leases[token := Lease(workspace, sandboxId, hostname, now)];
      return token;
    }

    /** The lease is removed whether or not it is still good. */
    method ConsumeLease(token: Token, now: int) returns (r: Option<Lease>)
      modifies this
      ensures r == Answer(old(leases), token, now)
      ensures leases == Taken(old(leases), token)
      ensures token !in leases
      ensures forall other :: other != token ==>
                (other in leases <==> other in old(leases))
                && (other in leases ==> leases[other] == old(leases)[other])
      ensures forall lease :: r == Some(lease) <==>
                token in old(leases) && old(leases)[token] == lease && now - lease.createdAt <= 90_000
    {
      if token !in leases {
        assert leases - {token} == leases;
        return None;
      }
      var lease := leases[token];
      leases := leases - {token};
      if now - lease.createdAt > LEASE_TTL_MS {
        return None;
      }
      return Some(lease);
    }

    method CleanExpiredLeases(now: int)
      modifies this
      ensures leases == Cleaned(old(leases), now)
      ensures forall t :: t in leases <==> t in old(leases) && now - old(leases)[t].createdAt <= 90_000
      ensures forall t :: t in leases ==> leases[t] == old(leases)[t]
    {
      var pending := leases.Keys;
      while pending != {}
        invariant pending <= leases.Keys <= old(leases).Keys
        invariant forall t :: t in leases ==> leases[t] == old(leases)[t]
        invariant forall t :: t in old(leases) && t !in pending ==>
                    (t in leases <==> !Expired(old(leases)[t], now))
        decreases |pending|
      {
        var token :| token in pending;
        pending := pending - {token};
        if now - leases[token].createdAt > LEASE_TTL_MS {
          leases := leases - {token};
        }
      }
    }
  }

  // ---- Runs ----

  datatype Op =
    | Create(token: Token, workspace: string, sandboxId: string, hostname: string, now: int)
    | Consume(token: Token, now: int)
    | Clean(now: int)

  function After(s: Leases, op: Op): Leases {
    match op
    case Create(token, workspace, sandboxId, hostname, now) =>
      Created(s, token, Lease(workspace, sandboxId, hostname, now))
    case Consume(token, _) => Taken(s, token)
    case Clean(now) => Cleaned(s, now)
  }

  /** What the consuming operations of a run answer, in order. */
  function Answers(s: Leases, ops: seq<Op>): seq<Option<Lease>>
    decreases |ops|
  {
    if ops == [] then []
    else
      var rest := Answers(After(s, ops[0]), ops[1..]);
      if ops[0].Consume? then [Answer(s, ops[0].token, ops[0].now)] + rest else rest
  }

  function WithoutCleaning(ops: seq<Op>): seq<Op> {
    if ops == [] then []
    else if ops[0].Clean? then WithoutCleaning(ops[1..])
    else [ops[0]] + WithoutCleaning(ops[1..])
  }

  /** The clock of a run never goes back. */
  ghost predicate ClockFrom(now: int, ops: seq<Op>)
    decreases |ops|
  {
    ops == [] || (now <= ops[0].now && ClockFrom(ops[0].now, ops[1..]))
  }

  /** `cleaned` lacks nothing of `s` but leases that are of no use any more. */
  ghost predicate LacksOnlyExpired(s: Leases, cleaned: Leases, now: int) {
    && (forall t :: t in cleaned ==> t in s && s[t] == cleaned[t])
    && (forall t :: t in s && t !in cleaned ==> Expired(s[t], now))
  }

  lemma {:induction false} CleaningSimulated(s: Leases, cleaned: Leases, now: int, ops: seq<Op>)
    requires LacksOnlyExpired(s, cleaned, now) && ClockFrom(now, ops)
    ensures Answers(s, WithoutCleaning(ops)) == Answers(cleaned, ops)
    decreases |ops|
  {
    if ops != [] {
      var op := ops[0];
      if op.Clean? {
        CleaningSimulated(s, After(cleaned, op), op.now, ops[1..]);
      } else {
        CleaningSimulated(After(s, op), After(cleaned, op), op.now, ops[1..]);
        var kept := WithoutCleaning(ops);
        assert kept[0] == op && kept[1..] == WithoutCleaning(ops[1..]);
      }
    }
  }

  /** Cleaning up, anywhere and any number of times, changes no answer. */
  lemma {:induction false} CleaningIsInvisible(s: Leases, now: int, ops: seq<Op>)
    requires ClockFrom(now, ops)
    ensures Answers(s, ops) == Answers(s, WithoutCleaning(ops))
  {
    CleaningSimulated(s, s, now, ops);
  }

  /** Consuming operations of a run that are answered with a lease for `token`. */
  function Hits(s: Leases, ops: seq<Op>, token: Token): nat
    decreases |ops|
  {
    if ops == [] then 0
    else
      (if ops[0].Consume? && ops[0].token == token && Answer(s, token, ops[0].now).Some? then 1 else 0)
      + Hits(After(s, ops[0]), ops[1..], token)
  }

  function Creations(ops: seq<Op>, token: Token): nat {
    if ops == [] then 0
    else (if ops[0].Create? && ops[0].token == token then 1 else 0) + Creations(ops[1..], token)
  }

  /** A token is answered with a lease at most once for each time it was created. */
  lemma {:induction false} SingleUse(s: Leases, ops: seq<Op>, token: Token)
    ensures Hits(s, ops, token) <= (if token in s then 1 else 0) + Creations(ops, token)
    decreases |ops|
  {
    if ops != [] {
      SingleUse(After(s, ops[0]), ops[1..], token);
    }
  }

  /** With fresh tokens, that is: at most once. */
  lemma {:induction false} AtMostOnce(ops: seq<Op>, token: Token)
    requires Creations(ops, token) <= 1
    ensures Hits(map[], ops, token) <= 1
  {
    SingleUse(map[], ops, token);
  }

  // ---- A token is good for one answer ----

  predicate Answered(ops: seq<Op>, k: nat, token: Token)
    requires k < |ops|
  {
    ops[k].Consume? && ops[k].token == token && Answer(StateAt(map[], ops[..k]), token, ops[k].now).Some?
  }

  lemma {:induction false} GoneStaysGone(ops: seq<Op>, j: nat, k: nat, token: Token)
    requires j <= k <= |ops| && token !in StateAt(map[], ops[..j])
    requires forall i :: j <= i < k ==> !(ops[i].Create? && ops[i].token == token)
    ensures token !in StateAt(map[], ops[..k])
  {
    if j < k {
      GoneStaysGone(ops, j, k - 1, token);
      assert ops[..k][..k - 1] == ops[..k - 1] && ops[..k][k - 1] == ops[k - 1];
    }
  }

  /** Between two answers with a lease for a token, the token was created again. */
  lemma {:induction false} NeverTwice(ops: seq<Op>, j: nat, k: nat, token: Token)
    requires j < k < |ops| && Answered(ops, j, token) && Answered(ops, k, token)
    ensures exists i :: j < i < k && ops[i].Create? && ops[i].token == token
  {
    assert ops[..j + 1][..j] == ops[..j] && ops[..j + 1][j] == ops[j];
    if forall i :: j + 1 <= i < k ==> !(ops[i].Create? && ops[i].token == token) {
      GoneStaysGone(ops, j + 1, k, token);
    }
  }

  // ---- Answers are fresh ----

  function StateAt(s: Leases, ops: seq<Op>): Leases
    decreases |ops|
  {
    if ops == [] then s else After(StateAt(s, ops[..|ops| - 1]), ops[|ops| - 1])
  }

  lemma {:induction false} StateAtCons(s: Leases, ops: seq<Op>)
    requires ops != []
    ensures StateAt(s, ops) == StateAt(After(s, ops[0]), ops[1..])
    decreases |ops|
  {
    if |ops| > 1 {
      var init := ops[..|ops| - 1];
      StateAtCons(s, init);
      assert init[1..] == ops[1..][..|ops| - 2];
    }
  }

  /** What an operation answers depends on the state the ones before it have left. */
  lemma {:induction false} AnswersPush(s: Leases, ops: seq<Op>, op: Op)
    ensures Answers(s, ops + [op])
         == Answers(s, ops) + (if op.Consume? then [Answer(StateAt(s, ops), op.token, op.now)] else [])
    decreases |ops|
  {
    if ops == [] {
      assert [] + [op] == [op] && [op][1..] == [];
    } else {
      assert (ops + [op])[1..] == ops[1..] + [op];
      StateAtCons(s, ops);
      AnswersPush(After(s, ops[0]), ops[1..], op);
    }
  }

  predicate IsCreation(op: Op, token: Token, lease: Lease) {
    op == Create(token, lease.workspace, lease.sandboxId, lease.hostname, lease.createdAt)
  }

  ghost predicate CreatedIn(ops: seq<Op>, token: Token, lease: Lease) {
    exists j :: 0 <= j < |ops| && IsCreation(ops[j], token, lease)
  }

  lemma {:induction false} HeldWasCreated(ops: seq<Op>, token: Token)
    requires token in StateAt(map[], ops)
    ensures CreatedIn(ops, token, StateAt(map[], ops)[token])
    decreases |ops|
  {
    var init, last := ops[..|ops| - 1], ops[|ops| - 1];
    var lease := StateAt(map[], ops)[token];
    if last.Create? && last.token == token {
      assert IsCreation(ops[|ops| - 1], token, lease);
    } else {
      HeldWasCreated(init, token);
      var j :| 0 <= j < |init| && IsCreation(init[j], token, lease);
      assert ops[j] == init[j];
    }
  }

  /** The lease was created for a token before that token was consumed, no more than ninety seconds
      earlier. */
  ghost predicate IsFresh(ops: seq<Op>, lease: Lease) {
    exists j, k :: 0 <= j < k < |ops| && ops[k].Consume? && IsCreation(ops[j], ops[k].token, lease)
                   && ops[k].now - lease.createdAt <= LEASE_TTL_MS
  }

  /** Every lease a run answers with is fresh. */
  lemma {:induction false} AnswersAreFresh(ops: seq<Op>)
    ensures forall i :: 0 <= i < |Answers(map[], ops)| && Answers(map[], ops)[i].Some? ==>
              IsFresh(ops, Answers(map[], ops)[i].value)
    decreases |ops|
  {
    if ops != [] {
      var init, last := ops[..|ops| - 1], ops[|ops| - 1];
      assert ops == init + [last];
      AnswersPush(map[], init, last);
      AnswersAreFresh(init);
      var before, answers := Answers(map[], init), Answers(map[], ops);
      forall i | 0 <= i < |answers| && answers[i].Some? ensures IsFresh(ops, answers[i].value) {
        if i < |before| {
          assert answers[i] == before[i];
          FreshStays(init, last, before[i].value);
        } else {
          LastAnswerIsFresh(init, last);
        }
      }
    }
  }

  lemma {:induction false} FreshStays(ops: seq<Op>, last: Op, lease: Lease)
    requires IsFresh(ops, lease)
    ensures IsFresh(ops + [last], lease)
  {
    var j, k :| 0 <= j < k < |ops| && ops[k].Consume? && IsCreation(ops[j], ops[k].token, lease)
                && ops[k].now - lease.createdAt <= LEASE_TTL_MS;
    assert (ops + [last])[j] == ops[j] && (ops + [last])[k] == ops[k];
  }

  lemma {:induction false} LastAnswerIsFresh(ops: seq<Op>, last: Op)
    requires last.Consume? && Answer(StateAt(map[], ops), last.token, last.now).Some?
    ensures IsFresh(ops + [last], Answer(StateAt(map[], ops), last.token, last.now).value)
  {
    var lease := Answer(StateAt(map[], ops), last.token, last.now).value;
    HeldWasCreated(ops, last.token);
    var j :| 0 <= j < |ops| && IsCreation(ops[j], last.token, lease);
    assert (ops + [last])[j] == ops[j] && (ops + [last])[|ops|] == last;
  }
}
