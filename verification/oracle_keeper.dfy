/** The keeper of the oracle: votes, tally, pruning, export and import, done step by step on the store's tables. */
module OracleKeeper {
  import opened Types
  import opened Oracle
  import Nonces

  // ---------- Collecting attestations ----------

  function Added(m: Mapping, att: Attestation): Mapping {
    var n := att.claim.eventNonce;
    m[n := if n in m then m[n] + [att] else [att]]
  }

  /** The state with only the attestations of `keys`. */
  ghost function Only(s: State, keys: set<AttKey>): State {
    s.(atts := map k | k in s.atts && k in keys :: s.atts[k])
  }

  /** Entry i at nonce n is the new one, or was there before. */
  lemma AddedEntry(m: Mapping, att: Attestation, n: nat, i: nat)
    requires n in Added(m, att) && i < |Added(m, att)[n]|
    ensures var had := if n in m then m[n] else [];
      (i < |had| && n in m && Added(m, att)[n][i] == m[n][i])
      || (n == att.claim.eventNonce && i == |had| && Added(m, att)[n][i] == att)
  {
  }

  lemma AddedKeeps(m: Mapping, att: Attestation)
    ensures forall n, a | n in m && a in m[n] :: n in Added(m, att) && a in Added(m, att)[n]
    ensures att.claim.eventNonce in Added(m, att) && att in Added(m, att)[att.claim.eventNonce]
  {
    var n := att.claim.eventNonce;
    var list := Added(m, att)[n];
    assert list[|list| - 1] == att;
  }

  lemma AddedIsMapping(m: Mapping, s: State, keys: set<AttKey>, k: AttKey)
    requires k in s.atts && k !in keys && KeyOf(s.atts[k].claim) == k
    requires IsMapping(m, Only(s, keys), 0)
    ensures IsMapping(Added(m, s.atts[k]), Only(s, keys + {k}), 0)
  {
    var att := s.atts[k];
    var m': Mapping := Added(m, att);
    var s1, s2 := Only(s, keys), Only(s, keys + {k});
    AddedKeeps(m, att);
    forall n, i | n in m' && 0 <= i < |m'[n]| ensures m'[n][i].claim.eventNonce == n && Stored(s2, m'[n][i]) {
      AddedStored(m, s, keys, k, n, i);
    }
    forall n, i, j | n in m' && 0 <= i < j < |m'[n]| ensures KeyOf(m'[n][i].claim) != KeyOf(m'[n][j].claim) {
      AddedApart(m, s, keys, k, n, i, j);
    }
    hide Added, KeyOf;
    forall k' | k' in s2.atts ensures k'.nonce in m' && s2.atts[k'] in m'[k'.nonce] {
      if k' != k {
        assert k' in s1.atts && s1.atts[k'] in m[k'.nonce];
      }
    }
  }

  lemma AddedStored(m: Mapping, s: State, keys: set<AttKey>, k: AttKey, n: nat, i: nat)
    requires k in s.atts && k !in keys && KeyOf(s.atts[k].claim) == k
    requires IsMapping(m, Only(s, keys), 0)
    requires n in Added(m, s.atts[k]) && i < |Added(m, s.atts[k])[n]|
    ensures var att := Added(m, s.atts[k])[n][i]; att.claim.eventNonce == n && Stored(Only(s, keys + {k}), att)
  {
    AddedEntry(m, s.atts[k], n, i);
    hide Added;
    if n in m && i < |m[n]| {
      assert Stored(Only(s, keys), m[n][i]);
    }
  }

  lemma AddedApart(m: Mapping, s: State, keys: set<AttKey>, k: AttKey, n: nat, i: nat, j: nat)
    requires k in s.atts && k !in keys && KeyOf(s.atts[k].claim) == k
    requires IsMapping(m, Only(s, keys), 0)
    requires n in Added(m, s.atts[k]) && i < j < |Added(m, s.atts[k])[n]|
    ensures KeyOf(Added(m, s.atts[k])[n][i].claim) != KeyOf(Added(m, s.atts[k])[n][j].claim)
  {
    AddedEntry(m, s.atts[k], n, i);
    AddedEntry(m, s.atts[k], n, j);
    hide Added;
    assert Stored(Only(s, keys), m[n][i]);
  }

  lemma EmptyMapping(s: State)
    ensures IsMapping(map[], Only(s, {}), 0)
  {
  }

  lemma OnlyAll(s: State)
    ensures Only(s, s.atts.Keys) == s
  {
  }

  lemma AddedNext(m: Mapping, s: State, rest: set<AttKey>, k: AttKey)
    requires WellKeyed(s) && rest <= s.atts.Keys && k in rest
    requires IsMapping(m, Only(s, s.atts.Keys - rest), 0)
    ensures IsMapping(Added(m, s.atts[k]), Only(s, s.atts.Keys - (rest - {k})), 0)
  {
    hide IsMapping, Only, Added;
    AddedIsMapping(m, s, s.atts.Keys - rest, k);
    assert s.atts.Keys - rest + {k} == s.atts.Keys - (rest - {k});
  }

  lemma KeysAreRight(s: State)
    requires Inv(s)
    ensures WellKeyed(s)
  {
  }

  // ---------- Vote power ----------

  lemma {:induction false} PrefixPower(pw: Powers, votes: seq<string>, i: nat)
    requires i <= |votes|
    ensures VotePower(pw, votes[..i]) <= VotePower(pw, votes)
  {
    if i < |votes| {
      PrefixPower(pw, votes[..|votes| - 1], i);
      assert votes[..|votes| - 1][..i] == votes[..i];
    } else {
      assert votes[..i] == votes;
    }
  }

  // ---------- The keeper ----------

  datatype Verdict = Waiting | Observed | Panicked

  class Keeper {
    var atts: map<AttKey, Attestation>
    var nonces: map<string, nat>
    var lastObserved: nat
    var ethHeight: nat
    var cosmosHeight: nat

    function View(): State
      reads this
    {
      State(atts, nonces, lastObserved, ethHeight, cosmosHeight)
    }

    ghost predicate Valid()
      reads this
    {
      Inv(View())
    }

    constructor ()
      ensures Valid() && View() == Genesis
    {
      atts, nonces, lastObserved, ethHeight, cosmosHeight := map[], map[], 0, 0, 0;
      new;
      GenesisSatisfies();
    }

    method GetLastEventNonceByValidator(v: string) returns (n: nat)
      ensures n == LastEventNonce(View(), v)
    {
      if v !in nonces {
        if lastObserved >= 1 {
          return lastObserved - 1;
        }
        return 0;
      }
      return nonces[v];
    }

    /** Records a vote; refuses one that does not follow the validator's last. */
    method Attest(v: string, claim: Claim, height: nat) returns (ok: bool)
      requires Valid()
      modifies this`atts, this`nonces
      ensures Valid()
      ensures match Oracle.Attest(old(View()), v, claim, height)
        case Some(s) => ok && View() == s
        case None => !ok && View() == old(View())
    {
      ghost var s := View();
      if Oracle.Attest(s, v, claim, height).Some? {
        AttestPreserves(s, v, claim, height);
      }
      var last := GetLastEventNonceByValidator(v);
      if claim.eventNonce != last + 1 {
        return false;
      }
      var key := KeyOf(claim);
      var att := if key in atts then atts[key] else Attestation(false, [], height, claim);
      att := att.(votes := att.votes + [v]);
      atts := atts[key := att];
      nonces := nonces[v := claim.eventNonce];
      ok := true;
    }

    /** Adds up votes until the threshold is reached. That decides exactly whether the votes together reach it. */
    method TryAttestation(att: Attestation, pw: Powers, height: nat) returns (r: Verdict)
      modifies this`atts, this`lastObserved, this`ethHeight, this`cosmosHeight
      ensures r == (if att.observed then Panicked
                    else if !Reaches(pw, att.votes) then Waiting
                    else if att.claim.eventNonce != old(lastObserved) + 1 then Panicked
                    else Observed)
      ensures View() == if r == Observed then Observe(old(View()), att, height) else old(View())
    {
      if att.observed {
        return Panicked;
      }
      var required := Threshold(pw.total);
      var power := 0;
      for i := 0 to |att.votes|
        invariant power == VotePower(pw, att.votes[..i])
        invariant i > 0 ==> power < required
        invariant View() == old(View())
      {
        assert att.votes[..i + 1][..i] == att.votes[..i];
        power := power + PowerOf(pw, att.votes[i]);
        if power >= required {
          PrefixPower(pw, att.votes, i + 1);
          if att.claim.eventNonce != lastObserved + 1 {
            return Panicked;
          }
          lastObserved := att.claim.eventNonce;
          ethHeight, cosmosHeight := att.claim.height, height;
          atts := atts[KeyOf(att.claim) := att.(observed := true)];
          return Observed;
        }
      }
      assert att.votes[..|att.votes|] == att.votes;
      r := Waiting;
    }

    /** The attestations by nonce, in whatever order the store has them. */
    method GetAttestationMapping() returns (m: Mapping)
      requires Valid()
      ensures IsMapping(m, View(), 0)
    {
      ghost var s := View();
      KeysAreRight(s);
      hide Inv, IsMapping, Added, Only, WellKeyed, KeyOf;
      m := map[];
      EmptyMapping(s);
      var rest := atts.Keys;
      assert atts.Keys - rest == {};
      while rest != {}
        invariant rest <= atts.Keys
        invariant IsMapping(m, Only(s, atts.Keys - rest), 0)
        decreases |rest|
      {
        var k :| k in rest;
        AddedNext(m, s, rest, k);
        m := Added(m, atts[k]);
        rest := rest - {k};
      }
      assert atts.Keys - rest == atts.Keys;
      OnlyAll(s);
    }

    method DeleteAttestation(att: Attestation)
      modifies this`atts
      ensures atts == old(atts) - {KeyOf(att.claim)}
    {
      atts := atts - {KeyOf(att.claim)};
    }

    method PruneNonce(list: seq<Attestation>, nonce: nat, cutoff: nat)
      modifies this`atts
      ensures atts == if nonce < cutoff then old(atts) - KeysOf(list) else old(atts)
    {
      hide KeysOf;
      NoKeys(list, atts);
      for j := 0 to |list|
        invariant atts == if nonce < cutoff then old(atts) - KeysOf(list[..j]) else old(atts)
      {
        KeysOfSnoc(list, j, old(atts));
        if nonce < cutoff {
          DeleteAttestation(list[j]);
        }
      }
      assert list[..|list|] == list;
    }

    /** Deletes the attestations that lie too far below the last observed event. */
    method PruneAttestations()
      requires Valid()
      modifies this`atts
      ensures Valid() && View() == Prune(old(View()))
    {
      hide Inv, IsMapping, Outside, KeysOf, WellKeyed, Prune;
      ghost var s := View();
      PruneFacts(s);
      var m := GetAttestationMapping();
      var keys := Nonces.Sorted(m.Keys);
      if lastObserved <= EVENTS_TO_KEEP {
        return;
      }
      var cutoff := lastObserved - EVENTS_TO_KEEP;
      NothingOutside(s, keys, cutoff);
      for i := 0 to |keys|
        invariant View() == s.(atts := Outside(s.atts, keys[..i], cutoff))
      {
        var n := keys[i];
        assert keys[..i + 1] == keys[..i] + [n];
        OutsideStep(s, m, keys[..i], n, cutoff);
        PruneNonce(m[n], n, cutoff);
      }
      assert keys[..|keys|] == keys;
      OutsideAll(s, m, keys);
    }

    /** Lists the stored attestations. */
    method ExportGenesis() returns (list: seq<Attestation>)
      requires Valid()
      ensures IsExport(list, View())
    {
      var m := GetAttestationMapping();
      hide Inv;
      list := [];
      var rest := m.Keys;
      while rest != {}
        invariant rest <= m.Keys
        invariant forall a :: a in list <==> exists n :: n in m && n !in rest && a in m[n]
        decreases |rest|
      {
        var n :| n in rest;
        list := list + m[n];
        rest := rest - {n};
      }
      ListedIsStored(m, View(), list);
    }

    /** Sets the attestations of a genesis list and gives every voter the highest nonce it voted at. */
    method InitGenesis(list: seq<Attestation>, lastObservedNonce: nat)
      requires View() == Genesis
      modifies this
      ensures IsImport(View(), list, lastObservedNonce)
    {
      for i := 0 to |list|
        invariant View() == Genesis.(atts := atts)
        invariant forall k | k in atts :: atts[k] in list && KeyOf(atts[k].claim) == k
        invariant forall j | 0 <= j < i :: KeyOf(list[j].claim) in atts
      {
        atts := atts[KeyOf(list[i].claim) := list[i]];
      }
      lastObserved := lastObservedNonce;
      ghost var s := View();
      for i := 0 to |list|
        invariant View() == s.(nonces := nonces)
        invariant Counted(View(), list, i, 0)
      {
        var claim := list[i].claim;
        for j := 0 to |list[i].votes|
          invariant View() == s.(nonces := nonces)
          invariant Counted(View(), list, i, j)
        {
          var v := list[i].votes[j];
          var last := GetLastEventNonceByValidator(v);
          ghost var before := View();
          if claim.eventNonce > last {
            nonces := nonces[v := claim.eventNonce];
          }
          CountedStep(before, View(), list, i, j);
        }
        CountedRow(View(), list, i);
      }
      CountedAll(View(), list);
    }
  }

  /** Vote j of attestation i comes before vote b of attestation a, or is at the same place. */
  predicate Passed(i: nat, j: nat, a: nat, b: nat) {
    i < a || (i == a && j < b)
  }

  /** The nonces of the validators take account of the votes before vote b of attestation a. */
  ghost predicate Counted(s: State, list: seq<Attestation>, a: nat, b: nat) {
    && (forall v :: DefaultNonce(s.lastObserved) <= LastEventNonce(s, v))
    && (forall i, j | 0 <= i < |list| && 0 <= j < |list[i].votes| && Passed(i, j, a, b) ::
          list[i].claim.eventNonce <= LastEventNonce(s, list[i].votes[j]))
    && (forall v | v in s.nonces :: Voted(list, v, s.nonces[v]))
  }

  lemma CountedStep(s: State, s': State, list: seq<Attestation>, a: nat, b: nat)
    requires a < |list| && b < |list[a].votes| && Counted(s, list, a, b)
    requires var v := list[a].votes[b]; var n := list[a].claim.eventNonce;
      s' == if n > LastEventNonce(s, v) then s.(nonces := s.nonces[v := n]) else s
    ensures Counted(s', list, a, b + 1)
  {
    var v, n := list[a].votes[b], list[a].claim.eventNonce;
    assert Voted(list, v, n);
    assert forall w :: LastEventNonce(s, w) <= LastEventNonce(s', w);
    assert n <= LastEventNonce(s', v);
  }

  lemma CountedRow(s: State, list: seq<Attestation>, a: nat)
    requires a < |list| && Counted(s, list, a, |list[a].votes|)
    ensures Counted(s, list, a + 1, 0)
  {
  }

  lemma CountedAll(s: State, list: seq<Attestation>)
    requires Counted(s, list, |list|, 0)
    ensures forall v, n: nat | Voted(list, v, n) :: n <= LastEventNonce(s, v)
  {
    forall v, n: nat | Voted(list, v, n) ensures n <= LastEventNonce(s, v) {
      var i :| 0 <= i < |list| && list[i].claim.eventNonce == n && v in list[i].votes;
      var j :| 0 <= j < |list[i].votes| && list[i].votes[j] == v;
    }
  }

  ghost function KeysOf(list: seq<Attestation>): set<AttKey> {
    set a | a in list :: KeyOf(a.claim)
  }

  ghost function Outside(atts: map<AttKey, Attestation>, nonces: seq<nat>, cutoff: nat): map<AttKey, Attestation> {
    map k | k in atts && !(k.nonce in nonces && k.nonce < cutoff) :: atts[k]
  }

  lemma PruneFacts(s: State)
    requires Inv(s)
    ensures WellKeyed(s) && Inv(Prune(s))
    ensures s.lastObserved <= EVENTS_TO_KEEP ==> Prune(s) == s
  {
    PrunePreserves(s);
  }

  lemma NoKeys(list: seq<Attestation>, atts: map<AttKey, Attestation>)
    ensures atts - KeysOf(list[..0]) == atts
  {
  }

  lemma KeysOfSnoc(list: seq<Attestation>, j: nat, atts: map<AttKey, Attestation>)
    requires j < |list|
    ensures atts - KeysOf(list[..j]) - {KeyOf(list[j].claim)} == atts - KeysOf(list[..j + 1])
  {
    assert list[..j + 1] == list[..j] + [list[j]];
    assert KeysOf(list[..j + 1]) == KeysOf(list[..j]) + {KeyOf(list[j].claim)};
  }

  lemma NothingOutside(s: State, keys: seq<nat>, cutoff: nat)
    ensures s.(atts := Outside(s.atts, keys[..0], cutoff)) == s
  {
  }

  lemma OutsideAll(s: State, m: Mapping, keys: seq<nat>)
    requires IsMapping(m, s, 0) && (forall x: nat :: x in keys <==> x in m)
    requires s.lastObserved > EVENTS_TO_KEEP
    ensures s.(atts := Outside(s.atts, keys, s.lastObserved - EVENTS_TO_KEEP)) == Prune(s)
  {
  }

  lemma OutsideStep(s: State, m: Mapping, nonces: seq<nat>, n: nat, cutoff: nat)
    requires IsMapping(m, s, 0) && WellKeyed(s) && n in m
    ensures Outside(s.atts, nonces + [n], cutoff)
         == var before := Outside(s.atts, nonces, cutoff);
            if n < cutoff then before - KeysOf(m[n]) else before
  {
  }

  lemma ListedIsStored(m: Mapping, s: State, list: seq<Attestation>)
    requires IsMapping(m, s, 0) && WellKeyed(s)
    requires forall a :: a in list <==> exists n :: n in m && a in m[n]
    ensures IsExport(list, s)
  {
    forall a | a in list ensures a in s.atts.Values {
      var n :| n in m && a in m[n];
      var i :| 0 <= i < |m[n]| && m[n][i] == a;
      assert Stored(s, m[n][i]);
    }
    forall a | a in s.atts.Values ensures a in list {
      var k :| k in s.atts && s.atts[k] == a;
      assert k.nonce in m && a in m[k.nonce];
    }
  }
}
