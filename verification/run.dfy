/** Runs of the joint system, and what holds at the end of every one of them. */
module Run {
  import opened Types
  import opened Bridge
  import Outgoing
  import Ethereum
  import Selection
  import Ledger
  import Oracle

  /** The Cosmos module with its block height, the event log of Ethereum, and two histories: every batch ever
      created and every transfer ever refunded. */
  datatype World = World(
    ledger: Ledger.State,
    oracle: Oracle.State,
    height: nat,
    log: seq<Claim>,
    created: Created,
    refunded: set<Transfer>)

  datatype Step =
    | SendToEth(sender: string, dest: string, amount: Ledger.Coin, fee: Ledger.Coin)
    | CancelSendToEth(id: nat, sender: string)
    | RequestBatch(denom: string, last: Option<Batch>, params: Outgoing.TimeParams)
    | Vote(v: string, claim: Claim)
    | Emit(event: Claim)
    | EndBlock(m: Oracle.Mapping, pw: Oracle.Powers, env: Ledger.Env)

  /** The default genesis, beside a bank that may hold other coins. */
  ghost predicate IsStart(w: World) {
    && w.ledger == Ledger.Genesis.(bank := w.ledger.bank)
    && w.oracle == Oracle.Genesis
    && w.log == [] && w.created == map[] && w.refunded == {}
  }

  ghost function Requested(w: World, contract: string, last: Option<Batch>, params: Outgoing.TimeParams): World
    requires params.averageEthereumBlockTime > 0
  {
    var timeout := Outgoing.BatchTimeout(params, w.oracle.ethHeight, w.oracle.cosmosHeight, w.height);
    var (outgoing, r) := Selection.Build(w.ledger.outgoing, last, contract, BATCH_SIZE, timeout, w.height);
    match r
    case Built(b) =>
      w.(ledger := w.ledger.(outgoing := outgoing), created := w.created[Outgoing.BatchKey(contract, b.nonce) := b])
    case _ => w
  }

  ghost function Cleaned(l: Ledger.State, ethHeight: nat): Ledger.State {
    l.(outgoing := Outgoing.Cancelled(l.outgoing, Outgoing.TimedOut(l.outgoing, ethHeight)))
  }

  /** The end of a block: the tally, with every observed claim applied, then the cleanup of timed out batches and
      the pruning of attestations. */
  ghost predicate BlockEnds(l: Ledger.State, o: Oracle.State, height: nat, m: Oracle.Mapping, pw: Oracle.Powers, env: Ledger.Env,
                            l': Ledger.State, o': Oracle.State)
  {
    && Oracle.IsMapping(m, o, 0)
    && var (oracle, claims) := Oracle.Tally(o, m, pw, height);
    && var r := Ledger.HandleAll(l, claims, env);
    && r.Some?
    && l' == Cleaned(r.value, oracle.ethHeight)
    && o' == Oracle.Prune(oracle)
  }

  /** A step of the joint system. A message that fails changes nothing; a block in which a claim panics has no
      successor, since the chain stops. */
  ghost predicate Next(w: World, step: Step, w': World) {
    match step
    case SendToEth(sender, dest, amount, fee) =>
      w' == (match Ledger.AddToPool(w.ledger, sender, dest, amount, fee) case Ok(r) => w.(ledger := r.0) case _ => w)
    case CancelSendToEth(id, sender) =>
      w' == (match Ledger.RemoveAndRefund(w.ledger, id, sender)
             case Ok(l) => w.(ledger := l, refunded := w.refunded + {w.ledger.outgoing.pool[Ledger.EntryOf(w.ledger.outgoing, id)]})
             case _ => w)
    case RequestBatch(denom, last, params) =>
      (match Ledger.DenomToERC20(w.ledger, denom)
       case None => w' == w
       case Some(lookup) =>
         && params.averageEthereumBlockTime > 0
         && Selection.IsLast(w.ledger.outgoing, lookup.name, last)
         && w' == Requested(w, lookup.name, last, params))
    case Vote(v, claim) =>
      w' == (match Oracle.Attest(w.oracle, v, claim, w.height) case Some(o) => w.(oracle := o) case None => w)
    case Emit(e) =>
      CanEmit(w.created, w.log, e) && w' == w.(log := w.log + [e])
    case EndBlock(m, pw, env) =>
      && BlockEnds(w.ledger, w.oracle, w.height, m, pw, env, w'.ledger, w'.oracle)
      && w' == w.(ledger := w'.ledger, oracle := w'.oracle, height := w.height + 1)
  }

  // ---------- What the runs assume ----------

  /** Honest validators vote only for what Ethereum emitted, and the others cannot reach the threshold alone. */
  ghost predicate Honest(w: World, step: Step, honest: set<string>) {
    match step
    case Vote(v, claim) => v in honest ==> 1 <= claim.eventNonce <= |w.log| && claim == w.log[claim.eventNonce - 1]
    case EndBlock(m, pw, env) => Oracle.FaultyBelowThreshold(pw, honest)
    case _ => true
  }

  /** The cleanup of a block cancels no batch that Ethereum has executed or can still execute. The hash of an executed
      batch does not cover its Ethereum height, so a quorum for the right hash says nothing about the height that the
      first voter put in, and the cleanup works with that height. */
  ghost predicate Spared(w: World, step: Step) {
    step.EndBlock? && Oracle.KeyedByNonce(step.m) ==>
      var (oracle, claims) := Oracle.Tally(w.oracle, step.m, step.pw, w.height);
      var r := Ledger.HandleAll(w.ledger, claims, step.env);
      r.Some? ==> Spares(r.value.outgoing, w.created, w.log, oracle.lastObserved, oracle.ethHeight)
  }

  ghost predicate Assumed(w: World, step: Step, honest: set<string>) {
    Honest(w, step, honest) && Spared(w, step)
  }

  ghost predicate IsRun(ws: seq<World>, steps: seq<Step>, honest: set<string>) {
    && |ws| == |steps| + 1
    && IsStart(ws[0])
    && forall i | 0 <= i < |steps| :: Next(ws[i], steps[i], ws[i + 1]) && Assumed(ws[i], steps[i], honest)
  }

  // ---------- The invariant ----------

  /** Every attestation with an honest vote is for an event that Ethereum emitted, up to the hash. */
  ghost predicate HonestVotes(o: Oracle.State, log: seq<Claim>, honest: set<string>) {
    forall k, v | k in o.atts && v in o.atts[k].votes && v in honest ::
      1 <= k.nonce <= |log| && k.hash == ClaimHash(log[k.nonce - 1])
  }

  ghost predicate Inv(w: World, honest: set<string>) {
    && Oracle.Inv(w.oracle)
    && HonestVotes(w.oracle, w.log, honest)
    && Joint(w.ledger.outgoing, w.created, w.refunded, w.log, w.oracle.lastObserved)
  }

  /** The claims are the events of the log from the n-th on, up to the heights of executed batches. */
  ghost predicate Matches(claims: seq<Claim>, log: seq<Claim>, n: nat) {
    n + |claims| <= |log| && forall i | 0 <= i < |claims| :: ClaimHash(claims[i]) == ClaimHash(log[n + i])
  }

  lemma QuorumIsLogged(o: Oracle.State, pw: Oracle.Powers, log: seq<Claim>, honest: set<string>, c: Claim)
    requires HonestVotes(o, log, honest) && Oracle.FaultyBelowThreshold(pw, honest) && Oracle.HasQuorum(o, pw, c)
    ensures 1 <= c.eventNonce <= |log| && ClaimHash(c) == ClaimHash(log[c.eventNonce - 1])
  {
    var k := Oracle.KeyOf(c);
    Oracle.QuorumHasHonestVoter(pw, honest, o.atts[k].votes);
    var v :| v in o.atts[k].votes && v in honest;
    hide Oracle.FaultyBelowThreshold, Oracle.HasQuorum;
    assert 1 <= k.nonce <= |log| && k.hash == ClaimHash(log[k.nonce - 1]);
  }

  /** What a tally observes is what Ethereum emitted: each quorum has an honest voter. */
  lemma ObservedAreLogged(o: Oracle.State, m: Oracle.Mapping, pw: Oracle.Powers, height: nat, log: seq<Claim>, honest: set<string>)
    requires Oracle.Inv(o) && Oracle.IsMapping(m, o, o.lastObserved + 1) && HonestVotes(o, log, honest)
    requires Oracle.FaultyBelowThreshold(pw, honest) && o.lastObserved <= |log|
    ensures Matches(Oracle.Tally(o, m, pw, height).1, log, o.lastObserved)
  {
    assert Oracle.KeyedByNonce(m);
    hide *;
    Oracle.TallyObservesInOrder(o, m, pw, height);
    InOrderAreLogged(o, pw, log, honest, Oracle.Tally(o, m, pw, height).1);
  }

  lemma InOrderAreLogged(o: Oracle.State, pw: Oracle.Powers, log: seq<Claim>, honest: set<string>, claims: seq<Claim>)
    requires HonestVotes(o, log, honest) && Oracle.FaultyBelowThreshold(pw, honest)
    requires Oracle.InOrder(o, pw, claims) && o.lastObserved <= |log|
    ensures Matches(claims, log, o.lastObserved)
  {
    hide HonestVotes, Oracle.FaultyBelowThreshold, Oracle.HasQuorum, ClaimHash;
    var lo := o.lastObserved;
    forall i | 0 <= i < |claims| ensures lo + i < |log| && ClaimHash(claims[i]) == ClaimHash(log[lo + i]) {
      QuorumIsLogged(o, pw, log, honest, claims[i]);
    }
    if |claims| > 0 {
      QuorumIsLogged(o, pw, log, honest, claims[|claims| - 1]);
    }
  }

  // ---------- Applying observed events ----------

  /** What decides whether a deployment is accepted and whether a reward can be booked: the denominations and the
      contracts in the index of cosmos-originated assets. */
  datatype Index = Index(denoms: set<string>, contracts: set<string>)

  function IndexOf(l: Ledger.State): Index {
    Index(l.denomToErc20.Keys, l.erc20ToDenom.Keys)
  }

  function IndexAfter(ix: Index, e: Claim, env: Ledger.Env): Index {
    if e.ERC20Deployed? && e.denom !in ix.denoms && Ledger.FitsMetadata(env, e.denom, e.name, e.symbol, e.decimals)
    then Index(ix.denoms + {e.denom}, ix.contracts + {e.contract})
    else ix
  }

  /** The index after some claims: only the accepted deployments among them add to it. */
  function IndexAfterAll(ix: Index, claims: seq<Claim>, env: Ledger.Env): Index
    decreases |claims|
  {
    if claims == [] then ix else IndexAfterAll(IndexAfter(ix, claims[0], env), claims[1..], env)
  }

  /** Events that the handler has no answer to but a panic. */
  predicate Unsupported(ix: Index, e: Claim) {
    || e.LogicCallExecuted?
    || (e.ValsetUpdated? && e.rewardAmount > 0 && e.rewardToken != Ethereum.ZERO_ADDRESS && e.rewardToken !in ix.contracts)
  }

  /** Claim i is a logic call, or has a reward in a contract that neither was in the index before nor came into it
      by an earlier one of the claims. */
  ghost predicate StopsAt(ix: Index, claims: seq<Claim>, env: Ledger.Env, i: nat) {
    i < |claims| && Unsupported(IndexAfterAll(ix, claims[..i], env), claims[i])
  }

  lemma StopsLater(ix: Index, claims: seq<Claim>, env: Ledger.Env, i: nat)
    requires claims != []
    ensures StopsAt(ix, claims, env, i + 1) <==> StopsAt(IndexAfter(ix, claims[0], env), claims[1..], env, i)
  {
    if i + 1 < |claims| {
      assert claims[..i + 1][0] == claims[0] && claims[..i + 1][1..] == claims[1..][..i];
    }
  }

  lemma HandleProcesses(l: Ledger.State, e: Claim, env: Ledger.Env)
    ensures var r := Ledger.Handle(l, e, env);
      && (r.Panicked? <==> Unsupported(IndexOf(l), e) || (e.BatchSendToEth? && BatchOf(e) !in l.outgoing.batches))
      && (r.Ok? ==> r.value.outgoing == Processed(l.outgoing, e) && IndexOf(r.value) == IndexAfter(IndexOf(l), e, env))
      && (r.Failed? ==> Processed(l.outgoing, e) == l.outgoing && IndexOf(l) == IndexAfter(IndexOf(l), e, env))
  {
    hide Outgoing.Executed;
  }

  /** The handler does not look at what the hash leaves out. */
  lemma HandleByHash(l: Ledger.State, c: Claim, d: Claim, env: Ledger.Env)
    requires ClaimHash(c) == ClaimHash(d)
    ensures Ledger.Handle(l, c, env) == Ledger.Handle(l, d, env) && Processed(l.outgoing, c) == Processed(l.outgoing, d)
    ensures c.BatchSendToEth? <==> d.BatchSendToEth?
    ensures c.BatchSendToEth? ==> BatchOf(c) == BatchOf(d)
    ensures !c.BatchSendToEth? ==> c == d
  {
  }

  /** Applying the next events of the log keeps the joint invariant. It panics exactly if one of them is of a kind
      that the handler does not support, never over an executed batch. */
  lemma {:induction false} HandleAllPreserves(l: Ledger.State, w: World, n: nat, claims: seq<Claim>, env: Ledger.Env)
    requires Joint(l.outgoing, w.created, w.refunded, w.log, n)
    requires Matches(claims, w.log, n)
    ensures var r := Ledger.HandleAll(l, claims, env);
      && (r.None? <==> exists i: nat :: StopsAt(IndexOf(l), claims, env, i))
      && (r.Some? ==> Joint(r.value.outgoing, w.created, w.refunded, w.log, n + |claims|))
    decreases |claims|
  {
    hide Joint, Ledger.Handle, StopsAt, IndexOf, IndexAfter, ClaimHash;
    if claims != [] {
      assert ClaimHash(claims[0]) == ClaimHash(w.log[n]);
      HandleByHash(l, claims[0], w.log[n], env);
      ProcessPreserves(l.outgoing, w.created, w.refunded, w.log, n);
      HandleProcesses(l, claims[0], env);
      StopsFirst(IndexOf(l), claims, env);
      var r := Ledger.Handle(l, claims[0], env);
      if !r.Panicked? {
        var l1 := if r.Ok? then r.value else l;
        HandleAllPreserves(l1, w, n + 1, claims[1..], env);
        StopsRest(IndexOf(l), claims, env);
      }
    } else {
      NothingStops(IndexOf(l), env);
    }
  }

  lemma NothingStops(ix: Index, env: Ledger.Env)
    ensures !exists i: nat :: StopsAt(ix, [], env, i)
  {
  }

  lemma StopsFirst(ix: Index, claims: seq<Claim>, env: Ledger.Env)
    requires claims != []
    ensures StopsAt(ix, claims, env, 0) <==> Unsupported(ix, claims[0])
  {
    assert claims[..0] == [];
  }

  lemma StopsRest(ix: Index, claims: seq<Claim>, env: Ledger.Env)
    requires claims != [] && !Unsupported(ix, claims[0])
    ensures (exists i: nat :: StopsAt(ix, claims, env, i)) <==> exists i: nat :: StopsAt(IndexAfter(ix, claims[0], env), claims[1..], env, i)
  {
    hide StopsAt;
    StopsFirst(ix, claims, env);
    if i: nat :| StopsAt(ix, claims, env, i) {
      StopsLater(ix, claims, env, i - 1);
    }
    if i: nat :| StopsAt(IndexAfter(ix, claims[0], env), claims[1..], env, i) {
      StopsLater(ix, claims, env, i);
    }
  }

  // ---------- Steps keep the invariant ----------

  lemma AttestKeepsHonest(o: Oracle.State, v: string, claim: Claim, height: nat, log: seq<Claim>, honest: set<string>)
    requires HonestVotes(o, log, honest) && Oracle.Attest(o, v, claim, height).Some?
    requires v in honest ==> 1 <= claim.eventNonce <= |log| && claim == log[claim.eventNonce - 1]
    ensures HonestVotes(Oracle.Attest(o, v, claim, height).value, log, honest)
  {
    var o' := Oracle.Attest(o, v, claim, height).value;
    forall k, u | k in o'.atts && u in o'.atts[k].votes && u in honest
      ensures 1 <= k.nonce <= |log| && k.hash == ClaimHash(log[k.nonce - 1])
    {
      assert (k == Oracle.KeyOf(claim) && u == v) || (k in o.atts && u in o.atts[k].votes);
    }
  }

  lemma ObserveKeepsHonest(o: Oracle.State, att: Oracle.Attestation, height: nat, log: seq<Claim>, honest: set<string>)
    requires HonestVotes(o, log, honest) && Oracle.Observable(o, att)
    ensures HonestVotes(Oracle.Observe(o, att, height), log, honest)
  {
    var o1 := Oracle.Observe(o, att, height);
    forall k, u | k in o1.atts && u in o1.atts[k].votes && u in honest
      ensures 1 <= k.nonce <= |log| && k.hash == ClaimHash(log[k.nonce - 1])
    {
      assert k in o.atts && u in o.atts[k].votes;
    }
  }

  lemma {:induction false} TallyKeepsHonest(o: Oracle.State, m: Oracle.Mapping, pw: Oracle.Powers, height: nat, log: seq<Claim>, honest: set<string>)
    requires Oracle.Inv(o) && Oracle.IsMapping(m, o, o.lastObserved + 1) && HonestVotes(o, log, honest)
    ensures HonestVotes(Oracle.Tally(o, m, pw, height).0, log, honest)
    decreases Oracle.Remaining(m, o.lastObserved)
  {
    assert Oracle.KeyedByNonce(m);
    hide Oracle.Inv, Oracle.IsMapping, Oracle.KeyedByNonce, Oracle.Observable, Oracle.HasQuorum, HonestVotes;
    var n := o.lastObserved + 1;
    if n in m && Oracle.FirstQuorum(pw, m[n]).Some? {
      var att, o1 := Oracle.TallyStep(o, m, pw, height);
      ObserveKeepsHonest(o, att, height, log, honest);
      TallyKeepsHonest(o1, m, pw, height, log, honest);
    }
  }

  lemma PruneKeepsHonest(o: Oracle.State, log: seq<Claim>, honest: set<string>)
    requires HonestVotes(o, log, honest)
    ensures HonestVotes(Oracle.Prune(o), log, honest)
  {
    var o' := Oracle.Prune(o);
    forall k, u | k in o'.atts && u in o'.atts[k].votes && u in honest
      ensures 1 <= k.nonce <= |log| && k.hash == ClaimHash(log[k.nonce - 1])
    {
      assert k in o.atts && u in o.atts[k].votes;
    }
  }

  lemma EmitKeepsHonest(o: Oracle.State, log: seq<Claim>, e: Claim, honest: set<string>)
    requires HonestVotes(o, log, honest)
    ensures HonestVotes(o, log + [e], honest)
  {
    forall k, u | k in o.atts && u in o.atts[k].votes && u in honest
      ensures 1 <= k.nonce <= |log + [e]| && k.hash == ClaimHash((log + [e])[k.nonce - 1])
    {
      assert k.hash == ClaimHash(log[k.nonce - 1]);
    }
  }

  lemma StartSatisfies(w: World, honest: set<string>)
    requires IsStart(w)
    ensures Inv(w, honest)
  {
  }

  lemma SendPreserves(w: World, step: Step, w': World, honest: set<string>)
    requires Inv(w, honest) && step.SendToEth? && Next(w, step, w')
    ensures Inv(w', honest)
  {
    hide Joint, Oracle.Inv, HonestVotes;
    var r := Ledger.AddToPool(w.ledger, step.sender, step.dest, step.amount, step.fee);
    if r.Ok? {
      var c := Ledger.DenomToERC20(w.ledger, step.amount.denom).value.name;
      EnqueuePreserves(w.ledger.outgoing, w.created, w.refunded, w.log, w.oracle.lastObserved,
                       step.sender, step.dest, c, step.amount.amount, step.fee.amount);
    }
  }

  lemma CancelPreserves(w: World, step: Step, w': World, honest: set<string>)
    requires Inv(w, honest) && step.CancelSendToEth? && Next(w, step, w')
    ensures Inv(w', honest)
  {
    hide Joint, Oracle.Inv, HonestVotes;
    if Ledger.RemoveAndRefund(w.ledger, step.id, step.sender).Ok? {
      RefundPreserves(w.ledger.outgoing, w.created, w.refunded, w.log, w.oracle.lastObserved,
                      Ledger.EntryOf(w.ledger.outgoing, step.id));
    }
  }

  lemma RequestPreserves(w: World, step: Step, w': World, honest: set<string>)
    requires Inv(w, honest) && step.RequestBatch? && Next(w, step, w')
    ensures Inv(w', honest)
  {
    hide Joint, Oracle.Inv, HonestVotes, Selection.Moved;
    if Ledger.DenomToERC20(w.ledger, step.denom).Some? {
      var timeout := Outgoing.BatchTimeout(step.params, w.oracle.ethHeight, w.oracle.cosmosHeight, w.height);
      var contract := Ledger.DenomToERC20(w.ledger, step.denom).value.name;
      BuildPreserves(w.ledger.outgoing, w.created, w.refunded, w.log, w.oracle.lastObserved, contract, BATCH_SIZE, timeout, w.height);
      assert Selection.Moved(w.ledger.outgoing, contract, BATCH_SIZE, timeout, w.height).batches[Outgoing.BatchKey(contract, w.ledger.outgoing.nextBatchId)].nonce
        == w.ledger.outgoing.nextBatchId by { MovedUnderNextId(w.ledger.outgoing, contract, BATCH_SIZE, timeout, w.height); }
    }
  }

  lemma MovedUnderNextId(s: Outgoing.State, contract: string, max: nat, timeout: nat, block: nat)
    ensures var bk := Outgoing.BatchKey(contract, s.nextBatchId);
      var b := Selection.Moved(s, contract, max, timeout, block).batches;
      bk in b && b[bk].nonce == s.nextBatchId
  {
  }

  lemma VotePreserves(w: World, step: Step, w': World, honest: set<string>)
    requires Inv(w, honest) && step.Vote? && Next(w, step, w') && Assumed(w, step, honest)
    ensures Inv(w', honest)
  {
    hide Joint, Oracle.Inv, HonestVotes;
    if Oracle.Attest(w.oracle, step.v, step.claim, w.height).Some? {
      Oracle.AttestPreserves(w.oracle, step.v, step.claim, w.height);
      AttestKeepsHonest(w.oracle, step.v, step.claim, w.height, w.log, honest);
    }
  }

  lemma EmitPreservesInv(w: World, step: Step, w': World, honest: set<string>)
    requires Inv(w, honest) && step.Emit? && Next(w, step, w')
    ensures Inv(w', honest)
  {
    var n := w.oracle.lastObserved;
    EmitPreserves(w.ledger.outgoing, w.created, w.refunded, w.log, n, step.event);
    EmitKeepsHonest(w.oracle, w.log, step.event, honest);
    PaidIgnoresRest(w.created, w.log, step.event, n);
  }

  /** The oracle's part of a block: it observes the next events of the log, in order. */
  lemma TallyObservesLog(o: Oracle.State, m: Oracle.Mapping, pw: Oracle.Powers, height: nat, log: seq<Claim>, honest: set<string>)
      returns (o': Oracle.State, claims: seq<Claim>)
    requires Oracle.Inv(o) && Oracle.IsMapping(m, o, 0) && HonestVotes(o, log, honest)
    requires Oracle.FaultyBelowThreshold(pw, honest) && o.lastObserved <= |log|
    ensures Oracle.KeyedByNonce(m) && (o', claims) == Oracle.Tally(o, m, pw, height)
    ensures o'.lastObserved == o.lastObserved + |claims| <= |log|
    ensures Matches(claims, log, o.lastObserved)
    ensures Oracle.Inv(Oracle.Prune(o')) && HonestVotes(Oracle.Prune(o'), log, honest)
  {
    assert Oracle.KeyedByNonce(m);
    Oracle.MappingFrom(m, o);
    hide *;
    o', claims := Oracle.Tally(o, m, pw, height).0, Oracle.Tally(o, m, pw, height).1;
    ObservedAreLogged(o, m, pw, height, log, honest);
    Oracle.TallyObservesInOrder(o, m, pw, height);
    TallyPrunedPreserves(o, m, pw, height);
    TallyKeepsHonest(o, m, pw, height, log, honest);
    PruneKeepsHonest(o', log, honest);
    MatchesBound(claims, log, o.lastObserved);
  }

  lemma MatchesBound(claims: seq<Claim>, log: seq<Claim>, n: nat)
    requires Matches(claims, log, n)
    ensures n + |claims| <= |log|
  {
  }

  lemma TallyPrunedPreserves(o: Oracle.State, m: Oracle.Mapping, pw: Oracle.Powers, height: nat)
    requires Oracle.Inv(o) && Oracle.IsMapping(m, o, o.lastObserved + 1) && Oracle.KeyedByNonce(m)
    ensures Oracle.Inv(Oracle.Prune(Oracle.Tally(o, m, pw, height).0))
  {
    hide *;
    Oracle.TallyPreserves(o, m, pw, height);
    Oracle.PrunePreserves(Oracle.Tally(o, m, pw, height).0);
  }

  /** The ledger's part of a block. */
  lemma BlockApplies(w: World, oracle: Oracle.State, claims: seq<Claim>, env: Ledger.Env)
    requires Joint(w.ledger.outgoing, w.created, w.refunded, w.log, w.oracle.lastObserved)
    requires oracle.lastObserved == w.oracle.lastObserved + |claims|
    requires Matches(claims, w.log, w.oracle.lastObserved)
    ensures var r := Ledger.HandleAll(w.ledger, claims, env);
      && (r.None? <==> exists i: nat :: StopsAt(IndexOf(w.ledger), claims, env, i))
      && (r.Some? ==> Joint(r.value.outgoing, w.created, w.refunded, w.log, oracle.lastObserved))
      && (r.Some? && Spares(r.value.outgoing, w.created, w.log, oracle.lastObserved, oracle.ethHeight) ==>
            Joint(Cleaned(r.value, oracle.ethHeight).outgoing, w.created, w.refunded, w.log, oracle.lastObserved))
  {
    hide Joint, Ledger.HandleAll, StopsAt, Matches, Spares;
    HandleAllPreserves(w.ledger, w, w.oracle.lastObserved, claims, env);
    var r := Ledger.HandleAll(w.ledger, claims, env);
    if r.Some? && Spares(r.value.outgoing, w.created, w.log, oracle.lastObserved, oracle.ethHeight) {
      CleanupPreserves(r.value.outgoing, w.created, w.refunded, w.log, oracle.lastObserved, oracle.ethHeight);
    }
  }

  /** A block keeps the invariant if its cleanup spares what it must, and it stops the chain exactly over an event
      that the handler does not support; executed batches are never the reason. */
  lemma BlockPreserves(w: World, m: Oracle.Mapping, pw: Oracle.Powers, env: Ledger.Env, honest: set<string>)
      returns (oracle: Oracle.State, claims: seq<Claim>)
    requires Inv(w, honest) && Oracle.IsMapping(m, w.oracle, 0) && Honest(w, EndBlock(m, pw, env), honest)
    ensures Oracle.KeyedByNonce(m) && (oracle, claims) == Oracle.Tally(w.oracle, m, pw, w.height)
    ensures var r := Ledger.HandleAll(w.ledger, claims, env);
      && (r.None? <==> exists i: nat :: StopsAt(IndexOf(w.ledger), claims, env, i))
      && (r.Some? ==> Joint(r.value.outgoing, w.created, w.refunded, w.log, oracle.lastObserved))
      && (r.Some? && Spared(w, EndBlock(m, pw, env)) ==>
            Inv(w.(ledger := Cleaned(r.value, oracle.ethHeight), oracle := Oracle.Prune(oracle), height := w.height + 1), honest))
    ensures oracle.lastObserved == w.oracle.lastObserved + |claims|
    ensures Matches(claims, w.log, w.oracle.lastObserved)
  {
    JointBounds(w, w.oracle.lastObserved);
    oracle, claims := TallyObservesLog(w.oracle, m, pw, w.height, w.log, honest);
    hide Joint, Oracle.Inv, HonestVotes, Oracle.IsMapping, Oracle.Tally, Ledger.HandleAll, StopsAt, Honest, Cleaned, Matches, Spares;
    PrunedSame(oracle);
    BlockApplies(w, oracle, claims, env);
  }

  lemma PrunedSame(o: Oracle.State)
    ensures Oracle.Prune(o).lastObserved == o.lastObserved && Oracle.Prune(o).ethHeight == o.ethHeight
  {
  }

  lemma JointBounds(w: World, n: nat)
    requires Joint(w.ledger.outgoing, w.created, w.refunded, w.log, n)
    ensures n <= |w.log|
  {
  }

  lemma NextPreserves(w: World, step: Step, w': World, honest: set<string>)
    requires Inv(w, honest) && Next(w, step, w') && Assumed(w, step, honest)
    ensures Inv(w', honest)
  {
    hide Inv;
    match step
    case SendToEth(_, _, _, _) => SendPreserves(w, step, w', honest);
    case CancelSendToEth(_, _) => CancelPreserves(w, step, w', honest);
    case RequestBatch(_, _, _) => RequestPreserves(w, step, w', honest);
    case Vote(_, _) => VotePreserves(w, step, w', honest);
    case Emit(_) => EmitPreservesInv(w, step, w', honest);
    case EndBlock(m, pw, env) => var oracle, claims := BlockPreserves(w, m, pw, env, honest);
  }

  lemma {:induction false} RunsSatisfy(ws: seq<World>, steps: seq<Step>, honest: set<string>, i: nat)
    requires IsRun(ws, steps, honest) && i < |ws|
    ensures Inv(ws[i], honest)
  {
    hide Inv, Next, Assumed;
    if i == 0 {
      StartSatisfies(ws[0], honest);
    } else {
      RunsSatisfy(ws, steps, honest, i - 1);
      NextPreserves(ws[i - 1], steps[i - 1], ws[i], honest);
    }
  }

  // ---------- Main results ----------

  /** The invariant rules out double payment also among the executed batches that are not processed yet. */
  lemma JointIsSafe(s: Outgoing.State, created: Created, refunded: set<Transfer>, log: seq<Claim>, n: nat)
    requires Joint(s, created, refunded, log, n)
    ensures PaidOnce(created, log, |log|)
    ensures Apart(Paid(created, log, |log|), refunded)
  {
    forall i, j, a, b | 0 <= i < |log| && 0 <= j < |log|
      && log[i].BatchSendToEth? && BatchOf(log[i]) in created && 0 <= a < |created[BatchOf(log[i])].txs|
      && log[j].BatchSendToEth? && BatchOf(log[j]) in created && 0 <= b < |created[BatchOf(log[j])].txs|
      && created[BatchOf(log[i])].txs[a].id == created[BatchOf(log[j])].txs[b].id
      ensures i == j && a == b
    {
      PaidPairOnce(s, created, refunded, log, n, i, j, a, b);
    }
    forall t, u | t in Paid(created, log, |log|) && u in refunded ensures t.id != u.id {
      PaidMembers(created, log, |log|, t);
      var i :| 0 <= i < |log| && t in PaidBy(created, log[i]);
      PaidNotRefunded(s, created, refunded, log, n, i, t, u);
    }
  }

  lemma PaidNotRefunded(s: Outgoing.State, created: Created, refunded: set<Transfer>, log: seq<Claim>, n: nat, i: nat,
                        t: Transfer, u: Transfer)
    requires Joint(s, created, refunded, log, n) && i < |log| && t in PaidBy(created, log[i]) && u in refunded
    ensures t.id != u.id
  {
    hide Outgoing.Inv, LogOk, DeadAreDead, PaidOnce, Paid, PaidBy;
    ExecutedIsPendingOrPaid(s, created, log, n, i, t);
  }

  lemma PaidPairOnce(s: Outgoing.State, created: Created, refunded: set<Transfer>, log: seq<Claim>, n: nat, i: nat, j: nat, a: nat, b: nat)
    requires Joint(s, created, refunded, log, n) && i < |log| && j < |log|
    requires log[i].BatchSendToEth? && BatchOf(log[i]) in created && a < |created[BatchOf(log[i])].txs|
    requires log[j].BatchSendToEth? && BatchOf(log[j]) in created && b < |created[BatchOf(log[j])].txs|
    requires created[BatchOf(log[i])].txs[a].id == created[BatchOf(log[j])].txs[b].id
    ensures i == j && a == b
  {
    hide Outgoing.Keyed, Outgoing.Numbered, CanEmit, DeadAreDead, Paid;
    ExecutedIsPendingOrPaid(s, created, log, n, i, created[BatchOf(log[i])].txs[a]);
    ExecutedIsPendingOrPaid(s, created, log, n, j, created[BatchOf(log[j])].txs[b]);
    if i >= n && j >= n {
      var p, q := Outgoing.InBatch(BatchOf(log[i]), a), Outgoing.InBatch(BatchOf(log[j]), b);
      assert Outgoing.Occupied(s, p) && Outgoing.Occupied(s, q);
      assert p == q;
      if i < j {
        BatchNoncesGrow(created, log, i, j);
      } else if j < i {
        BatchNoncesGrow(created, log, j, i);
      }
    }
  }

  /** Cross-chain safety. At every point of every run, no transfer id is paid twice on Ethereum, and none is both
      paid and refunded; every id given out is pending, paid by a processed batch or refunded, and only one of the
      three; and every executed batch that is not processed yet is live. */
  lemma NoDoublePay(ws: seq<World>, steps: seq<Step>, honest: set<string>, i: nat)
    requires IsRun(ws, steps, honest) && i < |ws|
    ensures var w := ws[i];
      && PaidOnce(w.created, w.log, |w.log|)
      && Apart(Paid(w.created, w.log, |w.log|), w.refunded)
      && w.oracle.lastObserved <= |w.log|
      && Accounted(w.ledger.outgoing, Paid(w.created, w.log, w.oracle.lastObserved), w.refunded)
      && Outgoing.Inv(w.ledger.outgoing)
      && ExecutedAreLive(w.ledger.outgoing, w.log, w.oracle.lastObserved)
      && LiveAreCreated(w.ledger.outgoing, w.created)
  {
    RunsSatisfy(ws, steps, honest, i);
    var w := ws[i];
    JointIsSafe(w.ledger.outgoing, w.created, w.refunded, w.log, w.oracle.lastObserved);
  }

  /** At every point of every run, a block cannot be applied exactly if one of the events that it observes is a
      logic call, or a validator set update with a reward in a contract that is not in the index of cosmos-originated
      assets by then. Those events are as Ethereum emitted them. */
  lemma BlocksStopOnlyOnUnsupported(ws: seq<World>, steps: seq<Step>, honest: set<string>,
                                    m: Oracle.Mapping, pw: Oracle.Powers, env: Ledger.Env)
    requires IsRun(ws, steps, honest)
    requires var w := ws[|steps|]; Oracle.IsMapping(m, w.oracle, 0) && Honest(w, EndBlock(m, pw, env), honest)
    ensures var w := ws[|steps|];
      var claims := Oracle.Tally(w.oracle, m, pw, w.height).1;
      && ((forall w' :: !Next(w, EndBlock(m, pw, env), w')) <==> exists i: nat :: StopsAt(IndexOf(w.ledger), claims, env, i))
      && (forall i: nat | StopsAt(IndexOf(w.ledger), claims, env, i) :: claims[i] in w.log)
  {
    var w := ws[|steps|];
    hide *;
    assert |ws| == |steps| + 1 by { RunLength(ws, steps, honest); }
    RunsSatisfy(ws, steps, honest, |steps|);
    var oracle, claims := BlockPreserves(w, m, pw, env, honest);
    NoSuccessorIff(w, m, pw, env);
    forall i: nat | StopsAt(IndexOf(w.ledger), claims, env, i) ensures claims[i] in w.log {
      StoppingIsLogged(IndexOf(w.ledger), claims, env, i, w.log, w.oracle.lastObserved);
    }
  }

  lemma RunLength(ws: seq<World>, steps: seq<Step>, honest: set<string>)
    requires IsRun(ws, steps, honest)
    ensures |ws| == |steps| + 1
  {
  }

  lemma NoSuccessorIff(w: World, m: Oracle.Mapping, pw: Oracle.Powers, env: Ledger.Env)
    requires Oracle.IsMapping(m, w.oracle, 0) && Oracle.KeyedByNonce(m)
    ensures (forall w' :: !Next(w, EndBlock(m, pw, env), w'))
       <==> Ledger.HandleAll(w.ledger, Oracle.Tally(w.oracle, m, pw, w.height).1, env).None?
  {
    hide Oracle.IsMapping, Oracle.KeyedByNonce, Oracle.Tally, Ledger.HandleAll, Cleaned, Oracle.Prune;
    var (oracle, claims) := Oracle.Tally(w.oracle, m, pw, w.height);
    var r := Ledger.HandleAll(w.ledger, claims, env);
    if r.Some? {
      var w' := w.(ledger := Cleaned(r.value, oracle.ethHeight), oracle := Oracle.Prune(oracle), height := w.height + 1);
      assert Next(w, EndBlock(m, pw, env), w');
    }
  }

  lemma StoppingIsLogged(ix: Index, claims: seq<Claim>, env: Ledger.Env, i: nat, log: seq<Claim>, n: nat)
    requires StopsAt(ix, claims, env, i) && Matches(claims, log, n)
    ensures claims[i] == log[n + i] && claims[i] in log
  {
    hide IndexAfterAll;
  }
}
