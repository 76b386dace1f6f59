/** The validator sets that await signatures: when they are created, when missing signatures are slashed, and when
    they are pruned. */
module Valsets {
  import opened Types
  import Nonces

  datatype State = State(
    valsets: map<nat, Valset>,
    latestNonce: nat,
    lastSlashed: nat,
    lastObserved: Option<nat>)

  const Genesis := State(map[], 0, 0, None)

  // ---------- Who did not sign ----------

  /** A validator as staking and slashing report it; no start height means no signing info. */
  datatype Validator = Validator(
    operator: string,
    ethAddress: Option<string>,
    startHeight: Option<nat>,
    isUnbonding: bool,
    unbondingHeight: nat,
    isJailed: bool)

  /** A confirmation, with the validator that the orchestrator's key belongs to. */
  datatype Confirm = Confirm(ethAddress: string, validator: Option<string>)

  datatype Staking = Staking(bonded: seq<Validator>, unbonding: seq<Validator>, confirms: map<nat, seq<Confirm>>)

  function ConfirmsOf(st: Staking, nonce: nat): seq<Confirm> {
    if nonce in st.confirms then st.confirms[nonce] else []
  }

  predicate SignedWithEthKey(v: Validator, confirms: seq<Confirm>) {
    exists c :: c in confirms && v.ethAddress == Some(c.ethAddress)
  }

  predicate SignedWithOrchestrator(v: Validator, confirms: seq<Confirm>) {
    exists c :: c in confirms && c.validator == Some(v.operator)
  }

  predicate JoinedBefore(v: Validator, vs: Valset) {
    v.startHeight.Some? && v.startHeight.value < vs.height
  }

  predicate BondedCulprit(v: Validator, vs: Valset, st: Staking) {
    JoinedBefore(v, vs) && !SignedWithEthKey(v, ConfirmsOf(st, vs.nonce))
  }

  predicate UnbondingCulprit(v: Validator, vs: Valset, st: Staking, unbondWindow: nat) {
    && JoinedBefore(v, vs) && v.isUnbonding && vs.height < v.unbondingHeight + unbondWindow
    && !SignedWithOrchestrator(v, ConfirmsOf(st, vs.nonce))
  }

  /** A validator is slashed for a set, and jailed if it is not in jail already. */
  datatype Slash = Slash(nonce: nat, operator: string, jails: bool)

  function SlashOf(vs: Valset, v: Validator): Slash {
    Slash(vs.nonce, v.operator, !v.isJailed)
  }

  function BondedSlashes(vals: seq<Validator>, vs: Valset, st: Staking): seq<Slash> {
    if vals == [] then []
    else
      var init, v := BondedSlashes(vals[..|vals| - 1], vs, st), vals[|vals| - 1];
      if BondedCulprit(v, vs, st) then init + [SlashOf(vs, v)] else init
  }

  function UnbondingSlashes(vals: seq<Validator>, vs: Valset, st: Staking, unbondWindow: nat): seq<Slash> {
    if vals == [] then []
    else
      var init, v := UnbondingSlashes(vals[..|vals| - 1], vs, st, unbondWindow), vals[|vals| - 1];
      if UnbondingCulprit(v, vs, st, unbondWindow) then init + [SlashOf(vs, v)] else init
  }

  function SlashesFor(vs: Valset, st: Staking, unbondWindow: nat): seq<Slash> {
    BondedSlashes(st.bonded, vs, st) + UnbondingSlashes(st.unbonding, vs, st, unbondWindow)
  }

  lemma {:induction false} BondedSlashesMembers(vals: seq<Validator>, vs: Valset, st: Staking, sl: Slash)
    ensures sl in BondedSlashes(vals, vs, st) <==> exists v :: v in vals && BondedCulprit(v, vs, st) && sl == SlashOf(vs, v)
  {
    if vals != [] {
      assert vals == vals[..|vals| - 1] + [vals[|vals| - 1]];
      BondedSlashesMembers(vals[..|vals| - 1], vs, st, sl);
    }
  }

  lemma {:induction false} UnbondingSlashesMembers(vals: seq<Validator>, vs: Valset, st: Staking, unbondWindow: nat, sl: Slash)
    ensures sl in UnbondingSlashes(vals, vs, st, unbondWindow)
       <==> exists v :: v in vals && UnbondingCulprit(v, vs, st, unbondWindow) && sl == SlashOf(vs, v)
  {
    if vals != [] {
      assert vals == vals[..|vals| - 1] + [vals[|vals| - 1]];
      UnbondingSlashesMembers(vals[..|vals| - 1], vs, st, unbondWindow, sl);
    }
  }

  predicate Culprit(v: Validator, vs: Valset, st: Staking, unbondWindow: nat) {
    || (v in st.bonded && BondedCulprit(v, vs, st))
    || (v in st.unbonding && UnbondingCulprit(v, vs, st, unbondWindow))
  }

  ghost predicate ConfirmedBy(st: Staking, nonce: nat, c: Confirm) {
    nonce in st.confirms && c in st.confirms[nonce]
  }

  /** Bonded, started before the set's height, and without a confirmation under its Ethereum address. */
  ghost predicate MissedAsBonded(v: Validator, vs: Valset, st: Staking) {
    && v in st.bonded && v.startHeight.Some? && v.startHeight.value < vs.height
    && forall c | ConfirmedBy(st, vs.nonce, c) :: v.ethAddress.None? || c.ethAddress != v.ethAddress.value
  }

  /** Unbonding, started before the set's height, still in the window after it, and without a confirmation by an
      orchestrator of the operator. */
  ghost predicate MissedAsUnbonding(v: Validator, vs: Valset, st: Staking, unbondWindow: nat) {
    && v in st.unbonding && v.startHeight.Some? && v.startHeight.value < vs.height
    && v.isUnbonding && vs.height < v.unbondingHeight + unbondWindow
    && forall c | ConfirmedBy(st, vs.nonce, c) :: c.validator.None? || c.validator.value != v.operator
  }

  lemma CulpritIff(v: Validator, vs: Valset, st: Staking, unbondWindow: nat)
    ensures Culprit(v, vs, st, unbondWindow) <==> MissedAsBonded(v, vs, st) || MissedAsUnbonding(v, vs, st, unbondWindow)
    ensures v in st.bonded ==> (BondedCulprit(v, vs, st) <==> MissedAsBonded(v, vs, st))
    ensures v in st.unbonding ==> (UnbondingCulprit(v, vs, st, unbondWindow) <==> MissedAsUnbonding(v, vs, st, unbondWindow))
  {
    assert forall c :: c in ConfirmsOf(st, vs.nonce) <==> ConfirmedBy(st, vs.nonce, c);
  }

  /** Exactly the culprits are slashed for a set. */
  lemma SlashesForMembers(vs: Valset, st: Staking, unbondWindow: nat, sl: Slash)
    ensures sl in SlashesFor(vs, st, unbondWindow) <==> exists v :: Culprit(v, vs, st, unbondWindow) && sl == SlashOf(vs, v)
  {
    BondedSlashesMembers(st.bonded, vs, st, sl);
    UnbondingSlashesMembers(st.unbonding, vs, st, unbondWindow, sl);
    hide BondedCulprit, UnbondingCulprit;
    if v :| v in st.bonded && BondedCulprit(v, vs, st) && sl == SlashOf(vs, v) {
      assert Culprit(v, vs, st, unbondWindow);
    }
    if v :| v in st.unbonding && UnbondingCulprit(v, vs, st, unbondWindow) && sl == SlashOf(vs, v) {
      assert Culprit(v, vs, st, unbondWindow);
    }
  }

  // ---------- The operations ----------

  /** Stored sets above the watermark that are at least `window` blocks old. */
  ghost function Ready(s: State, height: nat, window: nat): set<nat> {
    set n | n in s.valsets && s.lastSlashed < n <= s.latestNonce && s.valsets[n].height + window <= height
  }

  /** `ns` lists the sets that slashing processes at this height, in nonce order. */
  ghost predicate IsUnslashed(ns: seq<nat>, s: State, height: nat, window: nat) {
    && Nonces.IsAscending(ns)
    && (set n: nat | n in ns) == (if height <= window then {} else Ready(s, height, window))
  }

  /** Every set that is processed is old enough. */
  lemma UnslashedAreOld(ns: seq<nat>, s: State, height: nat, window: nat)
    requires IsUnslashed(ns, s, height, window)
    ensures forall n | n in ns :: height > window && n in s.valsets && s.valsets[n].height + window <= height && s.lastSlashed < n <= s.latestNonce
  {
    UnslashedAreReady(ns, s, height, window);
  }

  function Slashed(s: State, ns: seq<nat>): State {
    if ns == [] then s else s.(lastSlashed := ns[|ns| - 1])
  }

  function Created(s: State, height: nat, members: seq<BridgeValidator>, reward: ERC20Token): State {
    var n := s.latestNonce + 1;
    s.(valsets := s.valsets[n := Valset(n, members, height, reward.amount, reward.contract)], latestNonce := n)
  }

  predicate Prunable(s: State, n: nat, height: nat, window: nat) {
    && s.lastObserved.Some? && height >= window
    && n in s.valsets && s.valsets[n].nonce < s.lastObserved.value && s.valsets[n].height < height - window
  }

  function Pruned(s: State, height: nat, window: nat): State {
    s.(valsets := map n | n in s.valsets && !Prunable(s, n, height, window) :: s.valsets[n])
  }

  /** Exactly the sets that are older than the window and below the last observed one are deleted. */
  lemma PrunedIs(s: State, height: nat, window: nat)
    ensures var s' := Pruned(s, height, window);
      && (forall n :: n in s'.valsets
           <==> n in s.valsets && !(s.lastObserved.Some? && height >= window
                                    && s.valsets[n].nonce < s.lastObserved.value && s.valsets[n].height < height - window))
      && (forall n | n in s'.valsets :: s'.valsets[n] == s.valsets[n])
      && s' == s.(valsets := s'.valsets)
  {
  }

  /** A created set has the next nonce, the block's height, and the members and the reward given. */
  lemma CreatedIs(s: State, height: nat, members: seq<BridgeValidator>, reward: ERC20Token)
    ensures var (s', n) := (Created(s, height, members, reward), s.latestNonce + 1);
      && s'.latestNonce == n && s'.valsets.Keys == s.valsets.Keys + {n}
      && s'.valsets[n].nonce == n && s'.valsets[n].height == height && s'.valsets[n].members == members
      && s'.valsets[n].rewardAmount == reward.amount && s'.valsets[n].rewardToken == reward.contract
      && (forall k | k in s.valsets && k != n :: s'.valsets[k] == s.valsets[k])
      && s'.lastSlashed == s.lastSlashed && s'.lastObserved == s.lastObserved
  {
  }

  // ---------- What every reachable state satisfies ----------

  /** At the end of block `height`: nonces and heights agree in order, and everything above the watermark is
      still stored. */
  ghost predicate Inv(s: State, height: nat) {
    && s.lastSlashed <= s.latestNonce
    && (forall n | n in s.valsets :: s.valsets[n].nonce == n && 1 <= n <= s.latestNonce && s.valsets[n].height <= height)
    && (forall m, n | m in s.valsets && n in s.valsets && m < n :: s.valsets[m].height < s.valsets[n].height)
    && (forall n | s.lastSlashed < n <= s.latestNonce :: n in s.valsets)
  }

  lemma UnslashedAreReady(ns: seq<nat>, s: State, height: nat, window: nat)
    requires IsUnslashed(ns, s, height, window)
    ensures forall n: nat :: n in ns <==> height > window && n in Ready(s, height, window)
  {
    var all := set n: nat | n in ns;
    forall n: nat ensures n in ns <==> height > window && n in Ready(s, height, window) {
      assert n in ns <==> n in all;
    }
  }

  /** Slashing processes exactly the next sets without a gap, and afterwards every stored set that is `window`
      blocks old lies at or below the watermark. */
  lemma SlashingIsContiguous(s: State, ns: seq<nat>, height: nat, window: nat)
    requires Inv(s, height) && IsUnslashed(ns, s, height, window)
    ensures var s' := Slashed(s, ns);
      && Inv(s', height)
      && s'.lastSlashed == s.lastSlashed + |ns|
      && (forall i | 0 <= i < |ns| :: ns[i] == s.lastSlashed + 1 + i)
      && (height > window ==> forall n | n in s.valsets && s.valsets[n].height + window <= height :: n <= s'.lastSlashed)
  {
    UnslashedAreReady(ns, s, height, window);
    if ns != [] {
      forall i | 0 <= i < |ns| ensures ns[i] == s.lastSlashed + 1 + i {
        ContiguousAt(s, ns, height, window, i);
      }
      var last := ns[|ns| - 1];
      assert last in ns;
      forall n | n in s.valsets && s.valsets[n].height + window <= height ensures n <= last {
        if n > s.lastSlashed {
          assert n in Ready(s, height, window);
        }
      }
    } else if height > window {
      forall n | n in s.valsets && s.valsets[n].height + window <= height ensures n <= s.lastSlashed {
        assert n !in Ready(s, height, window);
      }
    }
  }

  lemma {:induction false} ContiguousAt(s: State, ns: seq<nat>, height: nat, window: nat, i: nat)
    requires Inv(s, height) && IsUnslashed(ns, s, height, window) && i < |ns|
    ensures ns[i] == s.lastSlashed + 1 + i
  {
    UnslashedAreReady(ns, s, height, window);
    assert ns[i] in ns;
    var low := if i == 0 then s.lastSlashed else ns[i - 1];
    if i > 0 {
      ContiguousAt(s, ns, height, window, i - 1);
    }
    var next := low + 1;
    assert low < ns[i];
    assert next in s.valsets && s.valsets[next].height <= s.valsets[ns[i]].height;
    assert next in ns;
    var j :| 0 <= j < |ns| && ns[j] == next;
    assert j >= i;
  }

  // ---------- Runs ----------

  /** One block: slashing, the tally that may change the last observed set to `observed`, creation, pruning. */
  datatype Block = Block(height: nat, window: nat, observed: Option<nat>, create: bool, members: seq<BridgeValidator>, reward: ERC20Token)

  function AfterTally(s: State, b: Block): State {
    s.(lastObserved := b.observed)
  }

  function AfterCreate(s: State, b: Block): State {
    if b.create then Created(s, b.height, b.members, b.reward) else s
  }

  /** A set is created at least when the latest one is missing. */
  ghost predicate Step(s: State, b: Block, ns: seq<nat>, s': State) {
    && IsUnslashed(ns, s, b.height, b.window)
    && var t := AfterTally(Slashed(s, ns), b);
    && (t.latestNonce !in t.valsets ==> b.create)
    && s' == Pruned(AfterCreate(t, b), b.height, b.window)
  }

  lemma CreatePreserves(s: State, height: nat, members: seq<BridgeValidator>, reward: ERC20Token)
    requires Inv(s, height) && forall n | n in s.valsets :: s.valsets[n].height < height
    ensures Inv(Created(s, height, members, reward), height)
  {
  }

  /** Whatever pruning deletes was slashed before. */
  lemma PrunePreserves(s: State, height: nat, window: nat)
    requires Inv(s, height)
    requires height > window ==> forall n | n in s.valsets && s.valsets[n].height + window < height :: n <= s.lastSlashed
    ensures Inv(Pruned(s, height, window), height)
    ensures forall n | n in s.valsets && n !in Pruned(s, height, window).valsets :: n <= s.lastSlashed
  {
  }

  lemma StepPreserves(s: State, b: Block, ns: seq<nat>, s': State, before: nat)
    requires Inv(s, before) && before < b.height && Step(s, b, ns, s')
    ensures Inv(s', b.height)
    ensures s'.lastSlashed == s.lastSlashed + |ns|
    ensures forall i | 0 <= i < |ns| :: ns[i] == s.lastSlashed + 1 + i
    ensures forall n | n in s.valsets && n !in s'.valsets :: n <= s'.lastSlashed
    ensures s'.latestNonce in s'.valsets ==> s'.valsets[s'.latestNonce].height <= b.height
  {
    SlashingIsContiguous(s, ns, b.height, b.window);
    var t := AfterTally(Slashed(s, ns), b);
    if b.create {
      CreatePreserves(t, b.height, b.members, b.reward);
    }
    PrunePreserves(AfterCreate(t, b), b.height, b.window);
  }

  ghost predicate IsRun(states: seq<State>, blocks: seq<Block>, processed: seq<seq<nat>>) {
    && |states| == |blocks| + 1 && |processed| == |blocks|
    && states[0] == Genesis
    && (forall i, j | 0 <= i < j < |blocks| :: blocks[i].height < blocks[j].height)
    && (forall i | 0 <= i < |blocks| :: blocks[i].height >= 1 && Step(states[i], blocks[i], processed[i], states[i + 1]))
  }

  ghost function Concat(parts: seq<seq<nat>>): seq<nat> {
    if parts == [] then [] else Concat(parts[..|parts| - 1]) + parts[|parts| - 1]
  }

  ghost function HeightBefore(blocks: seq<Block>): nat {
    if blocks == [] then 0 else blocks[|blocks| - 1].height
  }

  /** Over every run, with a window that may change from block to block, slashing processes the sets 1, 2, ... up
      to the watermark, each once and in order, whatever was pruned in between. */
  lemma {:induction false} SlashedOnceInOrder(states: seq<State>, blocks: seq<Block>, processed: seq<seq<nat>>)
    requires IsRun(states, blocks, processed)
    ensures var s := states[|blocks|];
      && Inv(s, HeightBefore(blocks))
      && |Concat(processed)| == s.lastSlashed
      && (forall i | 0 <= i < s.lastSlashed :: Concat(processed)[i] == i + 1)
      && (forall n | 1 <= n <= s.latestNonce && n !in s.valsets :: n in Concat(processed))
    decreases |blocks|
  {
    hide Inv, Step;
    var n := |blocks|;
    if n == 0 {
      GenesisSatisfies();
    } else {
      SlashedOnceInOrder(states[..n], blocks[..n - 1], processed[..n - 1]);
      assert Step(states[n - 1], blocks[n - 1], processed[n - 1], states[n]);
      StepPreserves(states[n - 1], blocks[n - 1], processed[n - 1], states[n], HeightBefore(blocks[..n - 1]));
      var s := states[n];
      assert Concat(processed) == Concat(processed[..n - 1]) + processed[n - 1];
      forall k | 1 <= k <= s.latestNonce && k !in s.valsets ensures k in Concat(processed) {
        MissingIsSlashed(s, HeightBefore(blocks), k);
        assert Concat(processed)[k - 1] == k;
      }
    }
  }

  lemma MissingIsSlashed(s: State, height: nat, n: nat)
    requires Inv(s, height) && 1 <= n <= s.latestNonce && n !in s.valsets
    ensures n <= s.lastSlashed
  {
  }

  lemma GenesisSatisfies()
    ensures Inv(Genesis, 0)
  {
  }
}
