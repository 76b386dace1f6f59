/** The oracle: votes of validators on Ethereum events, the tally that observes events in nonce order,
    pruning, and the state that survives an export and import of the chain. */
module Oracle {
  import opened Types

  /** The store key of an attestation: the event nonce and the claim hash. */
  datatype AttKey = AttKey(nonce: nat, hash: Claim)

  datatype Attestation = Attestation(observed: bool, votes: seq<string>, height: nat, claim: Claim)

  /** `nonces` holds the last event nonce of the validators that have one stored. The two heights are those
      recorded with the last observed event. */
  datatype State = State(
    atts: map<AttKey, Attestation>,
    nonces: map<string, nat>,
    lastObserved: nat,
    ethHeight: nat,
    cosmosHeight: nat)

  const EVENTS_TO_KEEP := 1000

  const Genesis := State(map[], map[], 0, 0, 0)

  function KeyOf(c: Claim): AttKey {
    AttKey(c.eventNonce, ClaimHash(c))
  }

  /** What a validator without a stored nonce starts from: one below the last observed event. */
  function DefaultNonce(lastObserved: nat): nat {
    if lastObserved >= 1 then lastObserved - 1 else 0
  }

  function LastEventNonce(s: State, v: string): nat {
    if v in s.nonces then s.nonces[v] else DefaultNonce(s.lastObserved)
  }

  /** A vote of validator `v`; None is the non-contiguous nonce error. */
  function Attest(s: State, v: string, claim: Claim, height: nat): Option<State> {
    if claim.eventNonce != LastEventNonce(s, v) + 1 then
      None
    else
      var key := KeyOf(claim);
      var att := if key in s.atts then s.atts[key] else Attestation(false, [], height, claim);
      Some(s.(atts := s.atts[key := att.(votes := att.votes + [v])],
              nonces := s.nonces[v := claim.eventNonce]))
  }

  /** Which event a validator can vote for: the one after its last, or without a stored one the last observed event,
      and event 1 before any is observed. */
  lemma NextVoteIs(s: State, v: string, claim: Claim, height: nat)
    ensures Attest(s, v, claim, height).Some?
       <==> claim.eventNonce == (if v in s.nonces then s.nonces[v] + 1 else if s.lastObserved >= 1 then s.lastObserved else 1)
  {
  }

  /** What a vote changes: one attestation, which gets the vote at its end, and the voter's nonce. */
  lemma AttestEffect(s: State, v: string, claim: Claim, height: nat)
    requires Attest(s, v, claim, height).Some?
    ensures var s' := Attest(s, v, claim, height).value;
      var key := AttKey(claim.eventNonce, ClaimHash(claim));
      && s'.atts.Keys == s.atts.Keys + {key} && s'.nonces.Keys == s.nonces.Keys + {v}
      && s'.atts[key] == (if key in s.atts then s.atts[key].(votes := s.atts[key].votes + [v]) else Attestation(false, [v], height, claim))
      && s'.nonces[v] == claim.eventNonce
      && (forall k | k in s.atts && k != key :: s'.atts[k] == s.atts[k])
      && (forall w | w in s.nonces && w != v :: s'.nonces[w] == s.nonces[w])
      && s'.lastObserved == s.lastObserved && s'.ethHeight == s.ethHeight && s'.cosmosHeight == s.cosmosHeight
  {
    assert [] + [v] == [v];
  }

  // ---------- Voting power ----------

  datatype Powers = Powers(power: map<string, nat>, total: nat)

  function PowerOf(pw: Powers, v: string): nat {
    if v in pw.power then pw.power[v] else 0
  }

  function VotePower(pw: Powers, votes: seq<string>): nat {
    if votes == [] then 0 else VotePower(pw, votes[..|votes| - 1]) + PowerOf(pw, votes[|votes| - 1])
  }

  function Threshold(total: nat): nat {
    66 * total / 100
  }

  /** 66 percent, rounded down. */
  lemma ThresholdIs(total: nat)
    ensures 100 * Threshold(total) <= 66 * total < 100 * (Threshold(total) + 1)
  {
  }

  predicate Reaches(pw: Powers, votes: seq<string>) {
    votes != [] && VotePower(pw, votes) >= Threshold(pw.total)
  }

  ghost function PowerSum(pw: Powers, vs: set<string>): nat {
    if vs == {} then 0 else
      var v :| v in vs;
      PowerOf(pw, v) + PowerSum(pw, vs - {v})
  }

  /** The total power is what the staking keeper reports: at least the sum over all validators. */
  ghost predicate Sound(pw: Powers) {
    PowerSum(pw, pw.power.Keys) <= pw.total
  }

  ghost predicate Distinct<T>(s: seq<T>) {
    forall i, j | 0 <= i < j < |s| :: s[i] != s[j]
  }

  lemma {:induction false} PowerSumRemove(pw: Powers, vs: set<string>, v: string)
    requires v in vs
    ensures PowerSum(pw, vs) == PowerOf(pw, v) + PowerSum(pw, vs - {v})
  {
    var w :| w in vs && PowerSum(pw, vs) == PowerOf(pw, w) + PowerSum(pw, vs - {w});
    if w != v {
      PowerSumRemove(pw, vs - {w}, v);
      PowerSumRemove(pw, vs - {v}, w);
      assert vs - {w} - {v} == vs - {v} - {w};
    }
  }

  lemma {:induction false} PowerSumBound(pw: Powers, vs: set<string>)
    requires Sound(pw)
    ensures PowerSum(pw, vs) <= pw.total
  {
    PowerSumOutside(pw, vs, pw.power.Keys);
    PowerSumMono(pw, vs * pw.power.Keys, pw.power.Keys);
  }

  lemma {:induction false} PowerSumOutside(pw: Powers, vs: set<string>, keys: set<string>)
    requires keys == pw.power.Keys
    ensures PowerSum(pw, vs) == PowerSum(pw, vs * keys)
  {
    if v :| v in vs && v !in keys {
      PowerSumRemove(pw, vs, v);
      PowerSumOutside(pw, vs - {v}, keys);
      assert (vs - {v}) * keys == vs * keys;
    } else {
      assert vs * keys == vs;
    }
  }

  lemma {:induction false} PowerSumMono(pw: Powers, a: set<string>, b: set<string>)
    requires a <= b
    ensures PowerSum(pw, a) <= PowerSum(pw, b)
  {
    if v :| v in b && v !in a {
      PowerSumRemove(pw, b, v);
      PowerSumMono(pw, a, b - {v});
    } else {
      assert a == b;
    }
  }

  lemma {:induction false} VotePowerIsSetSum(pw: Powers, votes: seq<string>)
    requires Distinct(votes)
    ensures VotePower(pw, votes) == PowerSum(pw, set v | v in votes)
  {
    if votes != [] {
      var last, init := votes[|votes| - 1], votes[..|votes| - 1];
      VotePowerIsSetSum(pw, init);
      var all := set v | v in votes;
      PowerSumRemove(pw, all, last);
      assert all - {last} == set v | v in init;
    }
  }

  lemma {:induction false} VotePowerAppend(pw: Powers, a: seq<string>, b: seq<string>)
    ensures VotePower(pw, a + b) == VotePower(pw, a) + VotePower(pw, b)
  {
    if b == [] {
      assert a + b == a;
    } else {
      VotePowerAppend(pw, a, b[..|b| - 1]);
      assert (a + b)[..|a + b| - 1] == a + b[..|b| - 1];
    }
  }

  /** Two quorums of the same power snapshot that share no voter. */
  ghost predicate Conflict(pw: Powers, a: seq<string>, b: seq<string>) {
    && Sound(pw)
    && Distinct(a + b)
    && Reaches(pw, a)
    && Reaches(pw, b)
  }

  predicate QuorumsIntersect(total: nat) {
    total == 5 || total >= 7
  }

  /** Two quorums intersect at exactly the total powers 5 and 7 upwards. Below that the rounding of the
      threshold lets two disjoint sets of voters both reach it. */
  lemma QuorumIntersection(total: nat)
    ensures QuorumsIntersect(total) <==> !exists pw: Powers, a, b :: pw.total == total && Conflict(pw, a, b)
  {
    if QuorumsIntersect(total) {
      assert 2 * Threshold(total) > total;
      forall pw: Powers, a, b | pw.total == total
        ensures !Conflict(pw, a, b)
      {
        if Conflict(pw, a, b) {
          VotePowerAppend(pw, a, b);
          VotePowerIsSetSum(pw, a + b);
          PowerSumBound(pw, set v | v in a + b);
        }
      }
    } else {
      var half := total / 2;
      var pw := Powers(map["a" := half, "b" := half], total);
      assert pw.power.Keys == {"a", "b"};
      PowerSumRemove(pw, {"a", "b"}, "a");
      assert {"a", "b"} - {"a"} == {"b"};
      PowerSumRemove(pw, {"b"}, "b");
      assert VotePower(pw, ["a"]) == half by { assert ["a"][..0] == []; }
      assert VotePower(pw, ["b"]) == half by { assert ["b"][..0] == []; }
      assert Conflict(pw, ["a"], ["b"]);
    }
  }

  /** Validators outside `honest` cannot reach the threshold by themselves. */
  ghost predicate FaultyBelowThreshold(pw: Powers, honest: set<string>) {
    forall vs: set<string> | vs !! honest :: PowerSum(pw, vs) < Threshold(pw.total)
  }

  lemma QuorumHasHonestVoter(pw: Powers, honest: set<string>, votes: seq<string>)
    requires FaultyBelowThreshold(pw, honest)
    requires Distinct(votes) && Reaches(pw, votes)
    ensures exists v :: v in votes && v in honest
  {
    VotePowerIsSetSum(pw, votes);
    assert !((set v | v in votes) !! honest);
  }

  // ---------- The tally ----------

  /** The attestations by event nonce, each list in whatever order the store yields it. */
  type Mapping = map<nat, seq<Attestation>>

  ghost predicate KeyedByNonce(m: Mapping) {
    forall n, i | n in m && 0 <= i < |m[n]| :: m[n][i].claim.eventNonce == n
  }

  /** `m` lists exactly the stored attestations with nonces from `from` on, each of them once. */
  ghost predicate IsMapping(m: Mapping, s: State, from: nat) {
    && KeyedByNonce(m)
    && (forall n, i | n in m && n >= from && 0 <= i < |m[n]| :: Stored(s, m[n][i]))
    && (forall k | k in s.atts && k.nonce >= from :: k.nonce in m && s.atts[k] in m[k.nonce])
    && (forall n, i, j | n in m && n >= from && 0 <= i < j < |m[n]| :: KeyOf(m[n][i].claim) != KeyOf(m[n][j].claim))
  }

  predicate Stored(s: State, att: Attestation) {
    KeyOf(att.claim) in s.atts && s.atts[KeyOf(att.claim)] == att
  }

  function FirstQuorum(pw: Powers, atts: seq<Attestation>): (r: Option<Attestation>)
    ensures r.Some? ==> r.value in atts && Reaches(pw, r.value.votes)
    ensures r.None? ==> forall i | 0 <= i < |atts| :: !Reaches(pw, atts[i].votes)
  {
    if atts == [] then None
    else if Reaches(pw, atts[0].votes) then Some(atts[0])
    else FirstQuorum(pw, atts[1..])
  }

  /** The attestation becomes observed and its nonce and height become the last observed ones. */
  function Observe(s: State, att: Attestation, height: nat): State {
    s.(atts := s.atts[KeyOf(att.claim) := att.(observed := true)],
       lastObserved := att.claim.eventNonce,
       ethHeight := att.claim.height,
       cosmosHeight := height)
  }

  /** What observing changes: one attestation, the last observed nonce and the two heights. */
  lemma ObserveIs(s: State, att: Attestation, height: nat)
    ensures var s' := Observe(s, att, height);
      var key := AttKey(att.claim.eventNonce, ClaimHash(att.claim));
      && s'.atts.Keys == s.atts.Keys + {key} && s'.nonces == s.nonces
      && s'.atts[key] == Attestation(true, att.votes, att.height, att.claim)
      && (forall k | k in s.atts && k != key :: s'.atts[k] == s.atts[k])
      && s'.lastObserved == att.claim.eventNonce && s'.ethHeight == att.claim.height && s'.cosmosHeight == height
  {
  }

  ghost function Remaining(m: Mapping, n: nat): set<nat> {
    set x | x in m && x > n
  }

  /** The events that one tally observes, with the state it leaves: the next nonce is observed as long as it
      has an attestation with a quorum. */
  ghost function Tally(s: State, m: Mapping, pw: Powers, height: nat): (r: (State, seq<Claim>))
    requires KeyedByNonce(m)
    decreases Remaining(m, s.lastObserved)
  {
    var n := s.lastObserved + 1;
    if n !in m then (s, [])
    else
      match FirstQuorum(pw, m[n])
      case None => (s, [])
      case Some(att) =>
        assert Remaining(m, n) < Remaining(m, s.lastObserved) by {
          assert n in Remaining(m, s.lastObserved);
        }
        var rest := Tally(Observe(s, att, height), m, pw, height);
        (rest.0, [att.claim] + rest.1)
  }

  /** Attestations more than EVENTS_TO_KEEP below the last observed event are deleted. */
  function Prune(s: State): State {
    if s.lastObserved <= EVENTS_TO_KEEP then s
    else s.(atts := map k | k in s.atts && k.nonce >= s.lastObserved - EVENTS_TO_KEEP :: s.atts[k])
  }

  /** Exactly the attestations more than 1000 below the last observed nonce are deleted, and nothing else changes. */
  lemma PruneIs(s: State)
    ensures var s' := Prune(s);
      && (forall k :: k in s'.atts <==> k in s.atts && !(s.lastObserved > 1000 && k.nonce < s.lastObserved - 1000))
      && (forall k | k in s'.atts :: s'.atts[k] == s.atts[k])
      && s' == s.(atts := s'.atts)
  {
  }

  // ---------- What every reachable state satisfies ----------

  ghost predicate HasObserved(s: State, n: nat) {
    exists k :: k in s.atts && k.nonce == n && s.atts[k].observed
  }

  ghost predicate HasVote(s: State, v: string, n: nat) {
    exists k :: k in s.atts && k.nonce == n && v in s.atts[k].votes
  }

  ghost predicate WellKeyed(s: State) {
    forall k | k in s.atts :: KeyOf(s.atts[k].claim) == k && k.nonce >= 1 && s.atts[k].votes != []
  }

  /** Observed attestations lie at or below the last observed nonce, at most one of them at each nonce, and
      none of the last EVENTS_TO_KEEP nonces lacks one. */
  ghost predicate ObservedExactly(s: State) {
    && (forall k | k in s.atts && s.atts[k].observed :: k.nonce <= s.lastObserved)
    && (forall k, k' | k in s.atts && k' in s.atts && s.atts[k].observed && s.atts[k'].observed && k.nonce == k'.nonce ::
          k == k')
    && (forall n: nat | Max(1, s.lastObserved - EVENTS_TO_KEEP) <= n <= s.lastObserved :: HasObserved(s, n))
  }

  /** No validator votes beyond its last event nonce. */
  ghost predicate VotesBounded(s: State) {
    forall k, v | k in s.atts && v in s.atts[k].votes :: k.nonce <= LastEventNonce(s, v)
  }

  /** No validator occurs twice among all the votes at one nonce. */
  ghost predicate OneVoteEach(s: State) {
    forall k, k', i, j | k in s.atts && k' in s.atts && k.nonce == k'.nonce
        && 0 <= i < |s.atts[k].votes| && 0 <= j < |s.atts[k'].votes| && s.atts[k].votes[i] == s.atts[k'].votes[j] ::
      k == k' && i == j
  }

  /** A stored nonce is backed by a stored vote unless the attestation was old enough to be pruned. */
  ghost predicate NoncesBacked(s: State) {
    forall v | v in s.nonces :: HasVote(s, v, s.nonces[v]) || s.nonces[v] < s.lastObserved - EVENTS_TO_KEEP
  }

  ghost predicate Inv(s: State) {
    WellKeyed(s) && ObservedExactly(s) && VotesBounded(s) && OneVoteEach(s) && NoncesBacked(s)
  }

  lemma AttestKeepsKeys(s: State, v: string, claim: Claim, height: nat)
    requires Attest(s, v, claim, height).Some?
    ensures WellKeyed(s) ==> WellKeyed(Attest(s, v, claim, height).value)
  {
  }

  lemma AttestKeepsObserved(s: State, v: string, claim: Claim, height: nat)
    requires ObservedExactly(s) && Attest(s, v, claim, height).Some?
    ensures ObservedExactly(Attest(s, v, claim, height).value)
  {
    var s' := Attest(s, v, claim, height).value;
    forall n: nat | HasObserved(s, n) ensures HasObserved(s', n) {
      var k :| k in s.atts && k.nonce == n && s.atts[k].observed;
      assert k in s'.atts && s'.atts[k].observed;
    }
  }

  lemma AttestKeepsOneVote(s: State, v: string, claim: Claim, height: nat)
    requires VotesBounded(s) && OneVoteEach(s) && Attest(s, v, claim, height).Some?
    ensures VotesBounded(Attest(s, v, claim, height).value) && OneVoteEach(Attest(s, v, claim, height).value)
  {
    var s' := Attest(s, v, claim, height).value;
    var key := KeyOf(claim);
    var before := if key in s.atts then s.atts[key].votes else [];
    assert s'.atts[key].votes == before + [v];
    forall k, w | k in s'.atts && w in s'.atts[k].votes ensures k.nonce <= LastEventNonce(s', w) {
      if w != v {
        assert w in s.atts[k].votes;
        assert k.nonce <= LastEventNonce(s, w);
      } else if k != key {
        assert k.nonce <= LastEventNonce(s, v);
      }
    }
    assert forall k | k in s.atts && k.nonce == key.nonce :: v !in s.atts[k].votes;
    assert forall k, i | k in s.atts && k.nonce == key.nonce && 0 <= i < |s.atts[k].votes| :: s.atts[k].votes[i] != v;
    forall k, k', i, j | k in s'.atts && k' in s'.atts && k.nonce == k'.nonce
      && 0 <= i < |s'.atts[k].votes| && 0 <= j < |s'.atts[k'].votes| && s'.atts[k].votes[i] == s'.atts[k'].votes[j]
      ensures k == k' && i == j
    {
      if !(k == key && i == |before|) && !(k' == key && j == |before|) {
        assert s.atts[k].votes[i] == s.atts[k'].votes[j];
      }
    }
  }

  lemma AttestKeepsBacked(s: State, v: string, claim: Claim, height: nat)
    requires NoncesBacked(s) && Attest(s, v, claim, height).Some?
    ensures NoncesBacked(Attest(s, v, claim, height).value)
  {
    var s' := Attest(s, v, claim, height).value;
    var key := KeyOf(claim);
    assert s'.atts[key].votes[|s'.atts[key].votes| - 1] == v;
    assert HasVote(s', v, claim.eventNonce);
    forall w, n: nat | HasVote(s, w, n) ensures HasVote(s', w, n) {
      var k :| k in s.atts && k.nonce == n && w in s.atts[k].votes;
      assert k in s'.atts && w in s'.atts[k].votes;
    }
  }

  lemma AttestPreserves(s: State, v: string, claim: Claim, height: nat)
    requires Inv(s) && Attest(s, v, claim, height).Some?
    ensures Inv(Attest(s, v, claim, height).value)
    ensures forall w :: LastEventNonce(Attest(s, v, claim, height).value, w) >= LastEventNonce(s, w)
  {
    AttestKeepsKeys(s, v, claim, height);
    AttestKeepsObserved(s, v, claim, height);
    AttestKeepsOneVote(s, v, claim, height);
    AttestKeepsBacked(s, v, claim, height);
  }

  /** The tally can observe this attestation: it is stored, comes next and is not observed yet. */
  ghost predicate Observable(s: State, att: Attestation) {
    && att.claim.eventNonce == s.lastObserved + 1
    && Stored(s, att)
  }

  lemma ObserveKeepsObserved(s: State, att: Attestation, height: nat)
    requires ObservedExactly(s) && Observable(s, att)
    ensures !att.observed && ObservedExactly(Observe(s, att, height))
  {
    var s' := Observe(s, att, height);
    forall n: nat | HasObserved(s, n) ensures HasObserved(s', n) {
      var k :| k in s.atts && k.nonce == n && s.atts[k].observed;
      assert k in s'.atts && s'.atts[k].observed;
    }
    assert HasObserved(s', s.lastObserved + 1) by {
      assert s'.atts[KeyOf(att.claim)].observed;
    }
  }

  lemma ObserveKeepsVotes(s: State, att: Attestation, height: nat)
    requires VotesBounded(s) && OneVoteEach(s) && NoncesBacked(s) && Observable(s, att)
    ensures VotesBounded(Observe(s, att, height)) && OneVoteEach(Observe(s, att, height))
    ensures NoncesBacked(Observe(s, att, height))
  {
    var s' := Observe(s, att, height);
    assert s'.atts.Keys == s.atts.Keys;
    assert forall k | k in s.atts :: s'.atts[k].votes == s.atts[k].votes;
    forall k, w | k in s'.atts && w in s'.atts[k].votes ensures k.nonce <= LastEventNonce(s', w) {
      assert w in s.atts[k].votes;
      assert k.nonce <= LastEventNonce(s, w);
    }
    forall w, n: nat | HasVote(s, w, n) ensures HasVote(s', w, n) {
      var k :| k in s.atts && k.nonce == n && w in s.atts[k].votes;
      assert k in s'.atts && w in s'.atts[k].votes;
    }
  }

  lemma ObservePreserves(s: State, att: Attestation, height: nat)
    requires Inv(s) && Observable(s, att)
    ensures !att.observed && Inv(Observe(s, att, height))
    ensures forall w :: LastEventNonce(Observe(s, att, height), w) >= LastEventNonce(s, w)
  {
    ObserveKeepsKeys(s, att, height);
    hide WellKeyed, ObservedExactly, VotesBounded, OneVoteEach, NoncesBacked;
    ObserveKeepsObserved(s, att, height);
    ObserveKeepsVotes(s, att, height);
  }

  lemma ObserveKeepsKeys(s: State, att: Attestation, height: nat)
    requires WellKeyed(s) && Observable(s, att)
    ensures WellKeyed(Observe(s, att, height))
  {
  }

  lemma PruneKeepsObserved(s: State)
    requires ObservedExactly(s)
    ensures ObservedExactly(Prune(s))
  {
    var s' := Prune(s);
    forall n: nat | HasObserved(s, n) && n >= s.lastObserved - EVENTS_TO_KEEP ensures HasObserved(s', n) {
      var k :| k in s.atts && k.nonce == n && s.atts[k].observed;
      assert k in s'.atts && s'.atts[k].observed;
    }
  }

  lemma PruneKeepsVotes(s: State)
    requires VotesBounded(s) && OneVoteEach(s) && NoncesBacked(s)
    ensures VotesBounded(Prune(s)) && OneVoteEach(Prune(s))
    ensures NoncesBacked(Prune(s))
  {
    var s' := Prune(s);
    forall k, w | k in s'.atts && w in s'.atts[k].votes ensures k.nonce <= LastEventNonce(s', w) {
      assert w in s.atts[k].votes;
      assert k.nonce <= LastEventNonce(s, w);
    }
    forall w, n: nat | HasVote(s, w, n) && n >= s.lastObserved - EVENTS_TO_KEEP ensures HasVote(s', w, n) {
      var k :| k in s.atts && k.nonce == n && w in s.atts[k].votes;
      assert k in s'.atts && w in s'.atts[k].votes;
    }
  }

  lemma PrunePreserves(s: State)
    requires Inv(s)
    ensures Inv(Prune(s))
    ensures forall k | k in s.atts && k !in Prune(s).atts :: k.nonce < s.lastObserved - EVENTS_TO_KEEP
    ensures forall w :: LastEventNonce(Prune(s), w) == LastEventNonce(s, w)
  {
    PruneKeepsObserved(s);
    PruneKeepsVotes(s);
  }

  // ---------- What a tally does ----------

  /** A claim that a tally observed comes from a stored attestation whose distinct voters form a quorum. */
  ghost predicate HasQuorum(s: State, pw: Powers, claim: Claim) {
    && KeyOf(claim) in s.atts
    && s.atts[KeyOf(claim)].claim == claim
    && Distinct(s.atts[KeyOf(claim)].votes)
    && Reaches(pw, s.atts[KeyOf(claim)].votes)
  }

  /** No stored attestation at the next nonce has a quorum. */
  ghost predicate Settled(s: State, pw: Powers) {
    forall k | k in s.atts && k.nonce == s.lastObserved + 1 :: !Reaches(pw, s.atts[k].votes)
  }

  lemma ObserveKeepsMapping(s: State, m: Mapping, att: Attestation, height: nat)
    requires IsMapping(m, s, s.lastObserved + 1) && Observable(s, att)
    ensures IsMapping(m, Observe(s, att, height), s.lastObserved + 2)
  {
    var s' := Observe(s, att, height);
    forall n, i | n in m && n >= s.lastObserved + 2 && 0 <= i < |m[n]| ensures Stored(s', m[n][i]) {
      assert Stored(s, m[n][i]);
    }
    forall k | k in s'.atts && k.nonce >= s.lastObserved + 2 ensures k.nonce in m && s'.atts[k] in m[k.nonce] {
      assert k in s.atts && s.atts[k] == s'.atts[k];
    }
  }

  lemma NextIsObservable(s: State, m: Mapping, pw: Powers)
    requires IsMapping(m, s, s.lastObserved + 1)
    requires s.lastObserved + 1 in m && FirstQuorum(pw, m[s.lastObserved + 1]).Some?
    ensures Observable(s, FirstQuorum(pw, m[s.lastObserved + 1]).value)
  {
    var n := s.lastObserved + 1;
    var att := FirstQuorum(pw, m[n]).value;
    var i :| 0 <= i < |m[n]| && m[n][i] == att;
    assert Stored(s, m[n][i]);
  }

  lemma StoppedIsSettled(s: State, m: Mapping, pw: Powers)
    requires IsMapping(m, s, s.lastObserved + 1)
    requires s.lastObserved + 1 in m ==> FirstQuorum(pw, m[s.lastObserved + 1]).None?
    ensures Settled(s, pw)
  {
    var n := s.lastObserved + 1;
    forall k | k in s.atts && k.nonce == n ensures !Reaches(pw, s.atts[k].votes) {
      var i :| 0 <= i < |m[n]| && m[n][i] == s.atts[k];
    }
  }

  lemma StoredVotesDistinct(s: State, k: AttKey)
    requires OneVoteEach(s) && k in s.atts
    ensures Distinct(s.atts[k].votes)
  {
  }

  lemma NextHasQuorum(s: State, m: Mapping, pw: Powers)
    requires OneVoteEach(s) && IsMapping(m, s, s.lastObserved + 1)
    requires s.lastObserved + 1 in m && FirstQuorum(pw, m[s.lastObserved + 1]).Some?
    ensures var att := FirstQuorum(pw, m[s.lastObserved + 1]).value; Observable(s, att) && HasQuorum(s, pw, att.claim)
  {
    NextIsObservable(s, m, pw);
    StoredVotesDistinct(s, KeyOf(FirstQuorum(pw, m[s.lastObserved + 1]).value.claim));
  }

  /** One step of the tally: the facts that every induction over it uses. */
  lemma TallyStep(s: State, m: Mapping, pw: Powers, height: nat) returns (att: Attestation, s1: State)
    requires Inv(s) && IsMapping(m, s, s.lastObserved + 1)
    requires s.lastObserved + 1 in m && FirstQuorum(pw, m[s.lastObserved + 1]).Some?
    ensures att == FirstQuorum(pw, m[s.lastObserved + 1]).value
    ensures s1 == Observe(s, att, height) && att.claim.eventNonce == s1.lastObserved == s.lastObserved + 1
    ensures Observable(s, att) && HasQuorum(s, pw, att.claim)
    ensures Inv(s1) && IsMapping(m, s1, s1.lastObserved + 1)
    ensures forall v :: LastEventNonce(s1, v) >= LastEventNonce(s, v)
    ensures Remaining(m, s1.lastObserved) < Remaining(m, s.lastObserved)
    ensures var (s', claims) := Tally(s1, m, pw, height); Tally(s, m, pw, height) == (s', [att.claim] + claims)
  {
    var n := s.lastObserved + 1;
    att := FirstQuorum(pw, m[n]).value;
    s1 := Observe(s, att, height);
    assert n in Remaining(m, s.lastObserved);
    assert OneVoteEach(s) && KeyedByNonce(m);
    hide Inv, OneVoteEach, HasQuorum, IsMapping, KeyedByNonce, Stored;
    NextHasQuorum(s, m, pw);
    ObservePreserves(s, att, height);
    ObserveKeepsMapping(s, m, att, height);
  }

  /** The tally keeps the invariant, lowers no validator's nonce and stops only where no quorum is left. */
  lemma {:induction false} TallyPreserves(s: State, m: Mapping, pw: Powers, height: nat)
    requires Inv(s) && IsMapping(m, s, s.lastObserved + 1)
    ensures var s' := Tally(s, m, pw, height).0;
      && Inv(s')
      && Settled(s', pw)
      && forall v :: LastEventNonce(s', v) >= LastEventNonce(s, v)
    decreases Remaining(m, s.lastObserved)
  {
    hide Inv, IsMapping;
    if s.lastObserved + 1 in m && FirstQuorum(pw, m[s.lastObserved + 1]).Some? {
      var att, s1 := TallyStep(s, m, pw, height);
      TallyPreserves(s1, m, pw, height);
    } else {
      StoppedIsSettled(s, m, pw);
    }
  }

  lemma QuorumStays(s: State, att: Attestation, height: nat, pw: Powers, claim: Claim)
    requires Observable(s, att) && HasQuorum(Observe(s, att, height), pw, claim)
    ensures HasQuorum(s, pw, claim)
  {
  }

  /** The claims have consecutive nonces from the next one on, each backed by a stored quorum. */
  ghost predicate InOrder(s: State, pw: Powers, claims: seq<Claim>) {
    forall i | 0 <= i < |claims| :: claims[i].eventNonce == s.lastObserved + 1 + i && HasQuorum(s, pw, claims[i])
  }

  lemma PrependInOrder(s: State, att: Attestation, height: nat, pw: Powers, claims: seq<Claim>)
    requires Observable(s, att) && HasQuorum(s, pw, att.claim)
    requires InOrder(Observe(s, att, height), pw, claims)
    ensures InOrder(s, pw, [att.claim] + claims)
  {
    forall i | 0 <= i < |claims| ensures claims[i].eventNonce == s.lastObserved + 2 + i && HasQuorum(s, pw, claims[i]) {
      QuorumStays(s, att, height, pw, claims[i]);
    }
  }

  lemma {:induction false} TallyObservesInOrder(s: State, m: Mapping, pw: Powers, height: nat)
    requires Inv(s) && IsMapping(m, s, s.lastObserved + 1)
    ensures var (s', claims) := Tally(s, m, pw, height);
      && s'.lastObserved == s.lastObserved + |claims|
      && InOrder(s, pw, claims)
      && s'.ethHeight == (if claims == [] then s.ethHeight else claims[|claims| - 1].height)
    decreases Remaining(m, s.lastObserved)
  {
    assert KeyedByNonce(m);
    hide Inv, IsMapping, KeyedByNonce, HasQuorum, Observable, InOrder;
    if s.lastObserved + 1 in m && FirstQuorum(pw, m[s.lastObserved + 1]).Some? {
      var att, s1 := TallyStep(s, m, pw, height);
      TallyObservesInOrder(s1, m, pw, height);
      PrependInOrder(s, att, height, pw, Tally(s1, m, pw, height).1);
    } else {
      NothingInOrder(s, pw);
    }
  }

  lemma NothingInOrder(s: State, pw: Powers)
    ensures InOrder(s, pw, [])
  {
  }

  /** A tally does nothing exactly where no quorum is left. Since a tally ends in such a state, a second one at the
      same powers changes nothing, however the attestations are listed again. */
  lemma TallyIsIdleIff(s: State, m: Mapping, pw: Powers, height: nat)
    requires IsMapping(m, s, s.lastObserved + 1)
    ensures Tally(s, m, pw, height) == (s, []) <==> Settled(s, pw)
  {
    var n := s.lastObserved + 1;
    if n in m && FirstQuorum(pw, m[n]).Some? {
      NextIsObservable(s, m, pw);
      assert !Settled(s, pw);
    } else {
      StoppedIsSettled(s, m, pw);
    }
  }

  lemma OneQuorumPerNonce(s: State, pw: Powers, k: AttKey, k': AttKey)
    requires OneVoteEach(s) && Sound(pw) && QuorumsIntersect(pw.total)
    requires k in s.atts && k' in s.atts && k.nonce == k'.nonce
    requires Reaches(pw, s.atts[k].votes) && Reaches(pw, s.atts[k'].votes)
    ensures k == k'
  {
    if k != k' {
      var a, b := s.atts[k].votes, s.atts[k'].votes;
      forall i, j | 0 <= i < j < |a + b| ensures (a + b)[i] != (a + b)[j] {
      }
      QuorumIntersection(pw.total);
      assert Conflict(pw, a, b);
    }
  }

  lemma SameNext(s: State, m: Mapping, m': Mapping, pw: Powers)
    requires OneVoteEach(s) && Sound(pw) && QuorumsIntersect(pw.total)
    requires IsMapping(m, s, s.lastObserved + 1) && IsMapping(m', s, s.lastObserved + 1)
    requires s.lastObserved + 1 in m && FirstQuorum(pw, m[s.lastObserved + 1]).Some?
    ensures s.lastObserved + 1 in m' && FirstQuorum(pw, m'[s.lastObserved + 1]) == FirstQuorum(pw, m[s.lastObserved + 1])
  {
    var n := s.lastObserved + 1;
    NextIsObservable(s, m, pw);
    var att := FirstQuorum(pw, m[n]).value;
    var k := KeyOf(att.claim);
    assert s.atts[k] in m'[k.nonce] && k.nonce == n;
    var i :| 0 <= i < |m'[n]| && m'[n][i] == att;
    NextIsObservable(s, m', pw);
    OneQuorumPerNonce(s, pw, k, KeyOf(FirstQuorum(pw, m'[n]).value.claim));
  }

  /** The order in which the store lists the attestations of a nonce does not matter where quorums intersect. */
  lemma {:induction false} TallyIgnoresOrder(s: State, m: Mapping, m': Mapping, pw: Powers, height: nat)
    requires Inv(s) && Sound(pw) && QuorumsIntersect(pw.total)
    requires IsMapping(m, s, s.lastObserved + 1) && IsMapping(m', s, s.lastObserved + 1)
    ensures Tally(s, m, pw, height) == Tally(s, m', pw, height)
    decreases Remaining(m, s.lastObserved)
  {
    var n := s.lastObserved + 1;
    assert OneVoteEach(s);
    hide Inv, IsMapping, OneVoteEach, Sound, Settled, Tally, Observe;
    if n in m && FirstQuorum(pw, m[n]).Some? {
      SameNext(s, m, m', pw);
      var att, s1 := TallyStep(s, m, pw, height);
      var att', s1' := TallyStep(s, m', pw, height);
      hide *;
      TallyIgnoresOrder(s1, m, m', pw, height);
    } else {
      StoppedIsSettled(s, m, pw);
      TallyIsIdleIff(s, m, pw, height);
      TallyIsIdleIff(s, m', pw, height);
    }
  }

  // ---------- Export and import ----------

  /** A genesis list holds the stored attestations, in any order. */
  ghost predicate IsExport(list: seq<Attestation>, s: State) {
    (set a | a in list) == s.atts.Values
  }

  ghost predicate Voted(list: seq<Attestation>, v: string, n: nat) {
    exists i :: 0 <= i < |list| && list[i].claim.eventNonce == n && v in list[i].votes
  }

  /** What an import makes of a genesis list: the attestations under their keys, the last observed nonce,
      no heights, and for each validator the highest nonce it voted at if that is above the default. */
  ghost predicate IsImport(s: State, list: seq<Attestation>, lastObserved: nat) {
    && s.lastObserved == lastObserved && s.ethHeight == 0 && s.cosmosHeight == 0
    && (forall k | k in s.atts :: s.atts[k] in list && KeyOf(s.atts[k].claim) == k)
    && (forall a | a in list :: KeyOf(a.claim) in s.atts)
    && (forall v :: DefaultNonce(lastObserved) <= LastEventNonce(s, v))
    && (forall v, n: nat | Voted(list, v, n) :: n <= LastEventNonce(s, v))
    && (forall v | v in s.nonces :: Voted(list, v, s.nonces[v]))
  }

  lemma ExportedVotes(s: State, list: seq<Attestation>, v: string, n: nat)
    requires WellKeyed(s) && IsExport(list, s)
    ensures Voted(list, v, n) <==> HasVote(s, v, n)
  {
    if Voted(list, v, n) {
      var i :| 0 <= i < |list| && list[i].claim.eventNonce == n && v in list[i].votes;
      assert list[i] in s.atts.Values;
      var k :| k in s.atts && s.atts[k] == list[i];
      assert KeyOf(list[i].claim) == k;
    }
    if HasVote(s, v, n) {
      var k :| k in s.atts && k.nonce == n && v in s.atts[k].votes;
      assert s.atts[k] in s.atts.Values;
      assert KeyOf(s.atts[k].claim) == k;
      var i :| 0 <= i < |list| && list[i] == s.atts[k];
    }
  }

  lemma ImportedAttestations(s: State, list: seq<Attestation>, s': State)
    requires WellKeyed(s) && IsExport(list, s) && IsImport(s', list, s.lastObserved)
    ensures s'.atts == s.atts
  {
    forall k | k in s.atts ensures k in s'.atts && s'.atts[k] == s.atts[k] {
      assert s.atts[k] in s.atts.Values;
      assert s.atts[k] in list && KeyOf(s.atts[k].claim) == k;
      assert s'.atts[k] in s.atts.Values;
      var k' :| k' in s.atts && s.atts[k'] == s'.atts[k];
    }
    forall k | k in s'.atts ensures k in s.atts {
      assert s'.atts[k] in s.atts.Values;
      var k' :| k' in s.atts && s.atts[k'] == s'.atts[k];
    }
  }

  /** The per-validator nonces are never exported, and old votes may be pruned; yet every validator comes back
      with the larger of its old nonce and the default nonce, so it cannot vote again where it voted. */
  lemma GenesisRoundTrip(s: State, list: seq<Attestation>, s': State)
    requires Inv(s) && IsExport(list, s) && IsImport(s', list, s.lastObserved)
    ensures s'.atts == s.atts && s'.lastObserved == s.lastObserved
    ensures forall v :: LastEventNonce(s', v) == Max(LastEventNonce(s, v), DefaultNonce(s.lastObserved))
  {
    ImportedAttestations(s, list, s');
    forall v ensures LastEventNonce(s', v) == Max(LastEventNonce(s, v), DefaultNonce(s.lastObserved)) {
      ImportedNonce(s, list, s', v);
    }
  }

  lemma ImportedNonce(s: State, list: seq<Attestation>, s': State, v: string)
    requires WellKeyed(s) && VotesBounded(s) && NoncesBacked(s)
    requires IsExport(list, s) && IsImport(s', list, s.lastObserved)
    ensures LastEventNonce(s', v) == Max(LastEventNonce(s, v), DefaultNonce(s.lastObserved))
  {
    if v in s.nonces && HasVote(s, v, s.nonces[v]) {
      ExportedVotes(s, list, v, s.nonces[v]);
    }
    if v in s'.nonces {
      ExportedVotes(s, list, v, s'.nonces[v]);
      var k :| k in s.atts && k.nonce == s'.nonces[v] && v in s.atts[k].votes;
      assert k.nonce <= LastEventNonce(s, v);
    }
  }

  lemma RestartPreserves(s: State, list: seq<Attestation>, s': State)
    requires Inv(s) && IsExport(list, s) && IsImport(s', list, s.lastObserved)
    ensures Inv(s')
  {
    GenesisRoundTrip(s, list, s');
    RestartKeepsObserved(s, s');
    forall k, w | k in s'.atts && w in s'.atts[k].votes ensures k.nonce <= LastEventNonce(s', w) {
      assert k.nonce <= LastEventNonce(s, w);
    }
    forall v | v in s'.nonces ensures HasVote(s', v, s'.nonces[v]) {
      ExportedVotes(s, list, v, s'.nonces[v]);
      var k :| k in s.atts && k.nonce == s'.nonces[v] && v in s.atts[k].votes;
      assert k in s'.atts;
    }
  }

  lemma RestartKeepsObserved(s: State, s': State)
    requires ObservedExactly(s) && s'.atts == s.atts && s'.lastObserved == s.lastObserved
    ensures ObservedExactly(s')
  {
    forall n: nat | HasObserved(s, n) ensures HasObserved(s', n) {
      var k :| k in s.atts && k.nonce == n && s.atts[k].observed;
      assert k in s'.atts;
    }
  }

  // ---------- Runs ----------

  datatype Op =
    | Vote(v: string, claim: Claim, height: nat)
    | EndBlock(m: Mapping, pw: Powers, height: nat)
    | Restart(list: seq<Attestation>)

  /** One step of the oracle, with the claims that it hands to the attestation handler. */
  ghost predicate Step(s: State, op: Op, s': State, handled: seq<Claim>) {
    match op
    case Vote(v, claim, height) =>
      handled == [] && s' == (match Attest(s, v, claim, height) case Some(t) => t case None => s)
    case EndBlock(m, pw, height) =>
      IsMapping(m, s, 0) && s' == Prune(Tally(s, m, pw, height).0) && handled == Tally(s, m, pw, height).1
    case Restart(list) =>
      handled == [] && IsExport(list, s) && IsImport(s', list, s.lastObserved)
  }

  /** A state reached from the default genesis, the last one in `states`; `handled` is everything the handler
      was given on the way. */
  ghost predicate IsRun(states: seq<State>, ops: seq<Op>, handled: seq<Claim>)
    decreases |ops|
  {
    && |states| == |ops| + 1
    && states[0] == Genesis
    && if ops == [] then handled == [] else
         var n := |ops|;
         exists before: seq<Claim>, now: seq<Claim> ::
           && handled == before + now
           && IsRun(states[..n], ops[..n - 1], before)
           && Step(states[n - 1], ops[n - 1], states[n], now)
  }

  lemma StepPreserves(s: State, op: Op, s': State, handled: seq<Claim>)
    requires Inv(s) && Step(s, op, s', handled)
    ensures Inv(s')
    ensures s'.lastObserved == s.lastObserved + |handled|
    ensures forall i | 0 <= i < |handled| :: handled[i].eventNonce == s.lastObserved + 1 + i
    ensures forall v :: LastEventNonce(s', v) >= LastEventNonce(s, v)
  {
    hide Inv, IsMapping, IsImport, IsExport;
    match op
    case Vote(v, claim, height) =>
      if Attest(s, v, claim, height).Some? {
        AttestPreserves(s, v, claim, height);
      }
    case EndBlock(m, pw, height) =>
      MappingFrom(m, s);
      TallyPreserves(s, m, pw, height);
      TallyObservesInOrder(s, m, pw, height);
      PrunePreserves(Tally(s, m, pw, height).0);
    case Restart(list) =>
      GenesisRoundTrip(s, list, s');
      RestartPreserves(s, list, s');
  }

  lemma MappingFrom(m: Mapping, s: State)
    requires IsMapping(m, s, 0)
    ensures IsMapping(m, s, s.lastObserved + 1)
  {
  }

  /** Over every run, restarts included, the handler is given the events 1, 2, ..., lastObserved, once each and
      in order, and the state satisfies the invariant: one vote per validator and nonce, and exactly one
      observed attestation at each recent nonce. */
  lemma {:induction false} InOrderExactlyOnce(states: seq<State>, ops: seq<Op>, handled: seq<Claim>)
    requires IsRun(states, ops, handled)
    ensures Inv(states[|ops|])
    ensures |handled| == states[|ops|].lastObserved
    ensures forall i | 0 <= i < |handled| :: handled[i].eventNonce == i + 1
    decreases |ops|
  {
    hide Inv, Step;
    var n := |ops|;
    if n == 0 {
      GenesisSatisfies();
    } else {
      var before: seq<Claim>, now: seq<Claim> :|
        handled == before + now && IsRun(states[..n], ops[..n - 1], before) && Step(states[n - 1], ops[n - 1], states[n], now);
      InOrderExactlyOnce(states[..n], ops[..n - 1], before);
      StepPreserves(states[n - 1], ops[n - 1], states[n], now);
    }
  }

  lemma GenesisSatisfies()
    ensures Inv(Genesis)
  {
  }
}
