/** The keeper of the validator sets: creation, slashing and pruning, done step by step on the store's table. */
module ValsetKeeper {
  import opened Types
  import opened Valsets
  import Nonces
  import Power

  // ---------- Who is slashed for one set ----------

  /** The slash of a bonded validator that missed the set. */
  ghost predicate IsBondedSlash(sl: Slash, vs: Valset, st: Staking) {
    exists v: Validator :: MissedAsBonded(v, vs, st) && sl == Slash(vs.nonce, v.operator, !v.isJailed)
  }

  ghost predicate IsUnbondingSlash(sl: Slash, vs: Valset, st: Staking, unbondWindow: nat) {
    exists v: Validator :: MissedAsUnbonding(v, vs, st, unbondWindow) && sl == Slash(vs.nonce, v.operator, !v.isJailed)
  }

  lemma BondedSlashesAre(vs: Valset, st: Staking)
    ensures forall sl :: sl in BondedSlashes(st.bonded, vs, st) <==> IsBondedSlash(sl, vs, st)
  {
    hide BondedSlashes;
    forall v | v in st.bonded ensures BondedCulprit(v, vs, st) <==> MissedAsBonded(v, vs, st) {
      CulpritIff(v, vs, st, 0);
    }
    assert forall v :: MissedAsBonded(v, vs, st) ==> v in st.bonded;
    hide BondedCulprit, MissedAsBonded;
    forall sl ensures sl in BondedSlashes(st.bonded, vs, st) <==> IsBondedSlash(sl, vs, st) {
      BondedSlashesMembers(st.bonded, vs, st, sl);
    }
  }

  lemma UnbondingSlashesAre(vs: Valset, st: Staking, unbondWindow: nat)
    ensures forall sl :: sl in UnbondingSlashes(st.unbonding, vs, st, unbondWindow) <==> IsUnbondingSlash(sl, vs, st, unbondWindow)
  {
    hide UnbondingSlashes;
    forall v | v in st.unbonding ensures UnbondingCulprit(v, vs, st, unbondWindow) <==> MissedAsUnbonding(v, vs, st, unbondWindow) {
      CulpritIff(v, vs, st, unbondWindow);
    }
    assert forall v :: MissedAsUnbonding(v, vs, st, unbondWindow) ==> v in st.unbonding;
    hide UnbondingCulprit, MissedAsUnbonding;
    forall sl ensures sl in UnbondingSlashes(st.unbonding, vs, st, unbondWindow) <==> IsUnbondingSlash(sl, vs, st, unbondWindow) {
      UnbondingSlashesMembers(st.unbonding, vs, st, unbondWindow, sl);
    }
  }

  method SlashBonded(vs: Valset, st: Staking) returns (slashes: seq<Slash>)
    ensures slashes == BondedSlashes(st.bonded, vs, st)
    ensures forall sl :: sl in slashes <==> IsBondedSlash(sl, vs, st)
  {
    var confirms := ConfirmsOf(st, vs.nonce);
    slashes := [];
    for i := 0 to |st.bonded|
      invariant slashes == BondedSlashes(st.bonded[..i], vs, st)
    {
      var v := st.bonded[i];
      assert st.bonded[..i + 1][..i] == st.bonded[..i];
      if v.startHeight.Some? && v.startHeight.value < vs.height {
        var found := false;
        for j := 0 to |confirms|
          invariant !found && forall c | c in confirms[..j] :: v.ethAddress != Some(c.ethAddress)
        {
          assert confirms[..j + 1] == confirms[..j] + [confirms[j]];
          if v.ethAddress.Some? && confirms[j].ethAddress == v.ethAddress.value {
            found := true;
            break;
          }
        }
        assert confirms[..|confirms|] == confirms;
        if !found {
          slashes := slashes + [SlashOf(vs, v)];
        }
      }
    }
    assert st.bonded[..|st.bonded|] == st.bonded;
    BondedSlashesAre(vs, st);
  }

  method SlashUnbonding(vs: Valset, st: Staking, unbondWindow: nat) returns (slashes: seq<Slash>)
    ensures slashes == UnbondingSlashes(st.unbonding, vs, st, unbondWindow)
    ensures forall sl :: sl in slashes <==> IsUnbondingSlash(sl, vs, st, unbondWindow)
  {
    var confirms := ConfirmsOf(st, vs.nonce);
    slashes := [];
    for i := 0 to |st.unbonding|
      invariant slashes == UnbondingSlashes(st.unbonding[..i], vs, st, unbondWindow)
    {
      var v := st.unbonding[i];
      assert st.unbonding[..i + 1][..i] == st.unbonding[..i];
      if v.startHeight.Some? && v.startHeight.value < vs.height && v.isUnbonding && vs.height < v.unbondingHeight + unbondWindow {
        var found := false;
        for j := 0 to |confirms|
          invariant !found && forall c | c in confirms[..j] :: c.validator != Some(v.operator)
        {
          assert confirms[..j + 1] == confirms[..j] + [confirms[j]];
          if confirms[j].validator == Some(v.operator) {
            found := true;
            break;
          }
        }
        assert confirms[..|confirms|] == confirms;
        if !found {
          slashes := slashes + [SlashOf(vs, v)];
        }
      }
    }
    assert st.unbonding[..|st.unbonding|] == st.unbonding;
    UnbondingSlashesAre(vs, st, unbondWindow);
  }

  ghost predicate AreStored(s: State, ns: seq<nat>) {
    forall n | n in ns :: n in s.valsets
  }

  /** Everyone slashed for the sets `ns`; `staking` gives what staking reports while it is a set's turn. */
  ghost function AllSlashes(s: State, ns: seq<nat>, staking: nat -> Staking, unbondWindow: nat): seq<Slash>
    requires AreStored(s, ns)
  {
    if ns == [] then []
    else
      var last := ns[|ns| - 1];
      AllSlashes(s, ns[..|ns| - 1], staking, unbondWindow) + SlashesFor(s.valsets[last], staking(last), unbondWindow)
  }

  /** The slashes of a block are those of the culprits for the sets that it processes, and no others. */
  lemma {:induction false} AllSlashesMembers(s: State, ns: seq<nat>, staking: nat -> Staking, unbondWindow: nat, sl: Slash)
    requires AreStored(s, ns)
    ensures sl in AllSlashes(s, ns, staking, unbondWindow)
       <==> exists n, v :: n in ns && Culprit(v, s.valsets[n], staking(n), unbondWindow) && sl == SlashOf(s.valsets[n], v)
  {
    hide SlashesFor, Culprit, SlashOf;
    if ns != [] {
      var last, init := ns[|ns| - 1], ns[..|ns| - 1];
      assert ns == init + [last];
      AllSlashesMembers(s, init, staking, unbondWindow, sl);
      SlashesForMembers(s.valsets[last], staking(last), unbondWindow, sl);
      if v :| Culprit(v, s.valsets[last], staking(last), unbondWindow) && sl == SlashOf(s.valsets[last], v) {
        assert last in ns;
      }
    }
  }

  /** A validator of the operator missed the set, bonded or unbonding. */
  ghost predicate Missed(op: string, vs: Valset, st: Staking, unbondWindow: nat) {
    exists v: Validator :: v.operator == op && (MissedAsBonded(v, vs, st) || MissedAsUnbonding(v, vs, st, unbondWindow))
  }

  /** With the sets stored under their nonces: operator `op` is slashed for set n exactly if the block processes n and a
      validator of this operator missed it. */
  lemma SlashedIff(s: State, height: nat, ns: seq<nat>, staking: nat -> Staking, unbondWindow: nat, n: nat, op: string)
    requires Inv(s, height) && AreStored(s, ns)
    ensures (exists jails :: Slash(n, op, jails) in AllSlashes(s, ns, staking, unbondWindow))
       <==> n in ns && Missed(op, s.valsets[n], staking(n), unbondWindow)
  {
    hide Culprit, AllSlashes, MissedAsBonded, MissedAsUnbonding;
    if jails :| Slash(n, op, jails) in AllSlashes(s, ns, staking, unbondWindow) {
      AllSlashesMembers(s, ns, staking, unbondWindow, Slash(n, op, jails));
      var m, v :| m in ns && Culprit(v, s.valsets[m], staking(m), unbondWindow) && Slash(n, op, jails) == SlashOf(s.valsets[m], v);
      CulpritIff(v, s.valsets[m], staking(m), unbondWindow);
    }
    if n in ns && Missed(op, s.valsets[n], staking(n), unbondWindow) {
      var v: Validator :| v.operator == op
        && (MissedAsBonded(v, s.valsets[n], staking(n)) || MissedAsUnbonding(v, s.valsets[n], staking(n), unbondWindow));
      CulpritIff(v, s.valsets[n], staking(n), unbondWindow);
      AllSlashesMembers(s, ns, staking, unbondWindow, Slash(n, op, !v.isJailed));
      assert Slash(n, op, !v.isJailed) == SlashOf(s.valsets[n], v);
    }
  }

  /** The validator joined at or after the set, or confirmed it: as a bonded one under its Ethereum address, as an
      unbonding one through its orchestrator. */
  ghost predicate Innocent(v: Validator, vs: Valset, st: Staking) {
    || v.startHeight.None? || v.startHeight.value >= vs.height
    || ((v in st.bonded ==> v.ethAddress.Some? && exists c :: ConfirmedBy(st, vs.nonce, c) && c.ethAddress == v.ethAddress.value)
        && (v in st.unbonding ==> exists c :: ConfirmedBy(st, vs.nonce, c) && c.validator == Some(v.operator)))
  }

  lemma InnocentMissedNothing(v: Validator, vs: Valset, st: Staking, unbondWindow: nat)
    requires Innocent(v, vs, st)
    ensures !(MissedAsBonded(v, vs, st) || MissedAsUnbonding(v, vs, st, unbondWindow))
  {
  }

  /** An operator whose validators are all innocent is not slashed for the set. */
  lemma InnocentIsNotSlashed(s: State, height: nat, ns: seq<nat>, staking: nat -> Staking, unbondWindow: nat, n: nat, op: string)
    requires Inv(s, height) && AreStored(s, ns) && n in ns
    requires forall v: Validator | v.operator == op && (v in staking(n).bonded || v in staking(n).unbonding) ::
               Innocent(v, s.valsets[n], staking(n))
    ensures !exists jails :: Slash(n, op, jails) in AllSlashes(s, ns, staking, unbondWindow)
  {
    SlashedIff(s, height, ns, staking, unbondWindow, n, op);
    hide AllSlashes, Inv;
    forall v: Validator | v.operator == op
      ensures !(MissedAsBonded(v, s.valsets[n], staking(n)) || MissedAsUnbonding(v, s.valsets[n], staking(n), unbondWindow))
    {
      if v in staking(n).bonded || v in staking(n).unbonding {
        InnocentMissedNothing(v, s.valsets[n], staking(n), unbondWindow);
      }
    }
  }

  predicate Jails(slashes: seq<Slash>) {
    exists sl :: sl in slashes && sl.jails
  }

  /** When a new set is created: there is none, a validator started to unbond in this block, or the powers moved. */
  ghost predicate MustCreate(s: State, lastUnbonding: nat, height: nat, members: seq<BridgeValidator>) {
    || s.latestNonce !in s.valsets
    || lastUnbonding == height
    || Power.PowersMoved(members, s.valsets[s.latestNonce].members)
  }

  // ---------- The keeper ----------

  class Keeper {
    var valsets: map<nat, Valset>
    var latestNonce: nat
    var lastSlashed: nat
    var observedValset: Option<Valset>
    var lastUnbonding: nat

    function View(): State
      reads this
    {
      State(valsets, latestNonce, lastSlashed, if observedValset.Some? then Some(observedValset.value.nonce) else None)
    }

    constructor ()
      ensures View() == Genesis && observedValset == None && lastUnbonding == 0 && Inv(View(), 0)
    {
      valsets, latestNonce, lastSlashed, observedValset, lastUnbonding := map[], 0, 0, None, 0;
    }

    /** The staking hook for a validator that starts to unbond. */
    method AfterValidatorBeginUnbonding(height: nat)
      modifies this`lastUnbonding
      ensures lastUnbonding == height
    {
      lastUnbonding := height;
    }

    method SetLastObservedValset(vs: Option<Valset>)
      modifies this`observedValset
      ensures observedValset == vs
    {
      observedValset := vs;
    }

    /** The sets above the watermark that are old enough, in nonce order. */
    method GetUnSlashedValsets(height: nat, window: nat) returns (ns: seq<nat>)
      requires Inv(View(), height)
      ensures Nonces.IsAscending(ns) && forall n: nat :: n in ns <==> n in Ready(View(), height, window)
    {
      var all := Nonces.Sorted(valsets.Keys);
      ns := [];
      for i := 0 to |all|
        invariant Nonces.IsAscending(ns) && (forall x | x in ns :: x in all[..i])
        invariant forall n: nat :: n in ns <==> n in all[..i] && n in Ready(View(), height, window)
      {
        var n := all[i];
        assert n in valsets;
        assert all[..i + 1] == all[..i] + [n];
        assert forall k | 0 <= k < |ns| :: ns[k] in ns;
        if lastSlashed <= n < latestNonce + 1 {
          var vs := valsets[n];
          if vs.nonce > lastSlashed && !(height < vs.height + window) {
            ns := ns + [n];
          }
        }
      }
      assert all[..|all|] == all;
    }

    /** Slashes for every set whose time has come, and moves the watermark with each of them. Jailing counts as
        the start of unbonding. */
    method ValsetSlashing(height: nat, window: nat, unbondWindow: nat, staking: nat -> Staking)
        returns (slashes: seq<Slash>, ghost ns: seq<nat>)
      requires Inv(View(), height)
      modifies this`lastSlashed, this`lastUnbonding
      ensures IsUnslashed(ns, old(View()), height, window)
      ensures View() == Slashed(old(View()), ns)
      ensures AreStored(old(View()), ns)
      ensures slashes == AllSlashes(old(View()), ns, staking, unbondWindow)
      ensures lastUnbonding == if Jails(slashes) then height else old(lastUnbonding)
    {
      slashes, ns := [], [];
      if height <= window {
        return;
      }
      ghost var s := View();
      var unslashed := GetUnSlashedValsets(height, window);
      hide Inv;
      assert AreStored(s, unslashed) by {
        assert forall n | n in unslashed :: n in Ready(s, height, window);
      }
      for i := 0 to |unslashed|
        invariant AreStored(s, unslashed[..i])
        invariant View() == Slashed(s, unslashed[..i])
        invariant slashes == AllSlashes(s, unslashed[..i], staking, unbondWindow)
        invariant lastUnbonding == if Jails(slashes) then height else old(lastUnbonding)
      {
        var n := unslashed[i];
        assert unslashed[..i + 1][..i] == unslashed[..i] && n in unslashed;
        var vs := valsets[n];
        var bonded := SlashBonded(vs, staking(n));
        var unbonding := SlashUnbonding(vs, staking(n), unbondWindow);
        if Jails(bonded + unbonding) {
          AfterValidatorBeginUnbonding(height);
        }
        assert Jails(slashes + (bonded + unbonding)) <==> Jails(slashes) || Jails(bonded + unbonding);
        slashes := slashes + (bonded + unbonding);
        lastSlashed := n;
      }
      assert unslashed[..|unslashed|] == unslashed;
      ns := unslashed;
      assert (set n: nat | n in ns) == Ready(s, height, window);
    }

    /** Stores a set of the given members if one must be created. */
    method CreateValsets(height: nat, members: seq<BridgeValidator>, reward: ERC20Token) returns (created: bool)
      modifies this`valsets, this`latestNonce
      ensures created <==> MustCreate(old(View()), lastUnbonding, height, members)
      ensures old(latestNonce) in old(valsets) && lastUnbonding != height ==>
                (created <==> 20 * Power.Delta(members, old(valsets)[old(latestNonce)].members) > 4294967295)
      ensures old(latestNonce) !in old(valsets) || lastUnbonding == height ==> created
      ensures created ==> latestNonce == old(latestNonce) + 1
      ensures created ==> valsets == old(valsets)[latestNonce := Valset(latestNonce, members, height, reward.amount, reward.contract)]
      ensures View() == if created then Created(old(View()), height, members, reward) else old(View())
    {
      created := latestNonce !in valsets || lastUnbonding == height;
      if !created {
        var delta := Power.PowerDiff(members, valsets[latestNonce].members);
        created := 20 * delta > Power.MAX_UINT32;
      }
      if created {
        var valset := Valset(latestNonce + 1, members, height, reward.amount, reward.contract);
        valsets := valsets[valset.nonce := valset];
        latestNonce := valset.nonce;
      }
    }

    /** Deletes the sets that are older than the window and below the last observed one. */
    method PruneValsets(height: nat, window: nat)
      requires Inv(View(), height)
      modifies this`valsets
      ensures View() == Pruned(old(View()), height, window)
    {
      ghost var s := View();
      if observedValset.None? || height < window {
        return;
      }
      var earliest := height - window;
      var all := Nonces.Sorted(valsets.Keys);
      var stored := valsets;
      for i := 0 to |all|
        invariant View() == s.(valsets := valsets)
        invariant forall n :: n in valsets <==> n in s.valsets && !(n in all[..i] && Prunable(s, n, height, window))
        invariant forall n | n in valsets :: valsets[n] == s.valsets[n]
      {
        assert all[..i + 1] == all[..i] + [all[i]];
        assert all[i] in all;
        var vs := stored[all[i]];
        if vs.nonce < observedValset.value.nonce && vs.height < earliest {
          valsets := valsets - {vs.nonce};
        }
      }
      assert all[..|all|] == all;
    }
  }
}
