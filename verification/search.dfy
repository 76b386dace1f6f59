/** The backward searches of the relayer and the oracle through the Ethereum history, one window of blocks at a
    time, against a search of the whole log. */
module Search {
  import opened Types

  const BLOCKS_TO_SEARCH := 5000

  datatype Kind = BatchExecuted | SentToCosmos | Erc20Deployed | LogicCall | ValsetUpdate

  /** A log entry; the valset nonce is that of a validator set update. */
  datatype Event = Event(kind: Kind, block: nat, eventNonce: nat, valsetNonce: nat)

  datatype Result<T> = Found(value: T) | Panicked

  /** What a range query for one kind of event returns: the events of the blocks lo..hi, both included, in
      chronological order. */
  function Query(log: seq<Event>, kind: Kind, lo: nat, hi: nat): seq<Event> {
    if log == [] then []
    else
      var e := log[|log| - 1];
      var earlier := Query(log[..|log| - 1], kind, lo, hi);
      if e.kind == kind && lo <= e.block <= hi then earlier + [e] else earlier
  }

  lemma {:induction false} QueryMembers(log: seq<Event>, kind: Kind, lo: nat, hi: nat, e: Event)
    ensures e in Query(log, kind, lo, hi) <==> e in log && e.kind == kind && lo <= e.block <= hi
  {
    if log != [] {
      QueryMembers(log[..|log| - 1], kind, lo, hi, e);
      assert log == log[..|log| - 1] + [log[|log| - 1]];
    }
  }

  /** Events are in chronological order and the contract numbers them upwards. */
  ghost predicate Chronological(log: seq<Event>, latest: nat) {
    && (forall i, j | 0 <= i < j < |log| :: log[i].block <= log[j].block && log[i].eventNonce < log[j].eventNonce)
    && (forall i | 0 <= i < |log| :: log[i].block <= latest)
  }

  lemma {:induction false} QueryKeepsOrder(log: seq<Event>, kind: Kind, lo: nat, hi: nat, latest: nat)
    requires Chronological(log, latest)
    ensures Chronological(Query(log, kind, lo, hi), latest)
  {
    if log != [] {
      var init, last := log[..|log| - 1], log[|log| - 1];
      QueryKeepsOrder(init, kind, lo, hi, latest);
      var earlier := Query(init, kind, lo, hi);
      forall i | 0 <= i < |earlier| ensures earlier[i].block <= last.block && earlier[i].eventNonce < last.eventNonce {
        QueryMembers(init, kind, lo, hi, earlier[i]);
      }
    }
  }

  function WindowStart(current: nat): nat {
    if current < BLOCKS_TO_SEARCH then 0 else current - BLOCKS_TO_SEARCH
  }

  // ---------- The latest validator set ----------

  ghost predicate IsNewest(log: seq<Event>, kind: Kind, e: Event) {
    e in log && e.kind == kind && forall f | f in log && f.kind == kind :: f.eventNonce <= e.eventNonce
  }

  /** The search returns the newest validator set update of the whole log, and panics exactly if there is none or
      the chain has no block after the first. */
  method FindLatestValset(log: seq<Event>, latest: nat) returns (r: Result<Event>)
    requires Chronological(log, latest)
    ensures r.Found? ==> IsNewest(log, ValsetUpdate, r.value)
    ensures r.Panicked? <==> latest == 0 || forall e | e in log :: e.kind != ValsetUpdate
  {
    var current := latest;
    while current > 0
      invariant current <= latest
      invariant current == latest || forall e | e in log && e.kind == ValsetUpdate :: e.block < current
      invariant current == 0 && latest > 0 ==> forall e | e in log :: e.kind != ValsetUpdate
    {
      var end := WindowStart(current);
      var events := Query(log, ValsetUpdate, end, current);
      QueryKeepsOrder(log, ValsetUpdate, end, current, latest);
      forall e ensures e in events <==> e in log && e.kind == ValsetUpdate && end <= e.block <= current {
        QueryMembers(log, ValsetUpdate, end, current, e);
      }
      if events != [] {
        var newest := events[|events| - 1];
        assert newest in events;
        forall f | f in log && f.kind == ValsetUpdate ensures f.eventNonce <= newest.eventNonce {
          if f in events {
            var i :| 0 <= i < |events| && events[i] == f;
          } else {
            EarlierBlockEarlierNonce(log, latest, f, newest);
          }
        }
        return Found(newest);
      }
      current := end;
    }
    r := Panicked;
  }

  lemma EarlierBlockEarlierNonce(log: seq<Event>, latest: nat, e: Event, f: Event)
    requires Chronological(log, latest) && e in log && f in log && e.block < f.block
    ensures e.eventNonce < f.eventNonce
  {
    var i :| 0 <= i < |log| && log[i] == e;
    var j :| 0 <= j < |log| && log[j] == f;
  }

  // ---------- The block of the last checked event ----------

  /** The log of a deployed contract: the first event, with event nonce 1, is the only update to valset nonce 0. */
  ghost predicate History(log: seq<Event>, latest: nat) {
    && latest > 0
    && Chronological(log, latest)
    && log != []
    && log[0].kind == ValsetUpdate && log[0].eventNonce == 1 && log[0].valsetNonce == 0
    && forall i | 0 < i < |log| && log[i].kind == ValsetUpdate :: log[i].valsetNonce > 0
  }

  predicate Has(log: seq<Event>, nonce: nat) {
    exists e :: e in log && e.eventNonce == nonce
  }

  function Target(lastEventNonce: nat): nat {
    if lastEventNonce == 0 then 1 else lastEventNonce
  }

  /** One of the four plain scans: the block of the event with the nonce. */
  method FindNonce(events: seq<Event>, nonce: nat) returns (r: Option<nat>)
    ensures r.Some? ==> exists e :: e in events && e.eventNonce == nonce && e.block == r.value
    ensures r.None? <==> !Has(events, nonce)
  {
    for i := 0 to |events|
      invariant forall j | 0 <= j < i :: events[j].eventNonce != nonce
    {
      if events[i].eventNonce == nonce {
        assert events[i] in events;
        return Some(events[i].block);
      }
    }
    r := None;
  }

  datatype Scan = Hit(block: nat) | Deployment | Miss

  /** Entry i is the deployment and no later entry has the nonce. */
  predicate DeployedAt(events: seq<Event>, nonce: nat, i: nat)
    requires i < |events|
  {
    events[i].valsetNonce == 0 && forall j | i <= j < |events| :: events[j].eventNonce != nonce
  }

  /** The scan of the validator set updates, newest first. The update to nonce 0 is the deployment of the contract;
      nothing can be older. */
  method ScanValsets(events: seq<Event>, nonce: nat) returns (r: Scan)
    ensures r.Hit? ==> exists e :: e in events && e.block == r.block && (e.eventNonce == nonce || (e.valsetNonce == 0 && nonce == 1))
    ensures r.Deployment? ==> nonce > 1 && exists i :: 0 <= i < |events| && DeployedAt(events, nonce, i)
    ensures r.Miss? ==> !Has(events, nonce) && forall e | e in events :: e.valsetNonce != 0 || nonce == 0
  {
    var i := |events|;
    while i > 0
      invariant 0 <= i <= |events|
      invariant forall j | i <= j < |events| :: events[j].eventNonce != nonce && (events[j].valsetNonce != 0 || nonce == 0)
    {
      i := i - 1;
      var e := events[i];
      assert e in events;
      var bootstrapping := e.valsetNonce == 0 && nonce == 1;
      if e.eventNonce == nonce || bootstrapping {
        return Hit(e.block);
      } else if e.valsetNonce == 0 && nonce > 1 {
        assert DeployedAt(events, nonce, i);
        return Deployment;
      }
    }
    r := Miss;
  }

  lemma DeploymentEndsSearch(log: seq<Event>, latest: nat, end: nat, current: nat, valsets: seq<Event>, nonce: nat)
    requires History(log, latest) && valsets == Query(log, ValsetUpdate, end, current)
    requires exists i :: 0 <= i < |valsets| && DeployedAt(valsets, nonce, i)
    ensures forall e | e in log && e.kind == ValsetUpdate && e.block <= current :: e.eventNonce != nonce
    ensures forall e | e in log :: e.block >= end
  {
    var i :| 0 <= i < |valsets| && DeployedAt(valsets, nonce, i);
    QueryKeepsOrder(log, ValsetUpdate, end, current, latest);
    forall e ensures e in valsets <==> e in log && e.kind == ValsetUpdate && end <= e.block <= current {
      QueryMembers(log, ValsetUpdate, end, current, e);
    }
    assert valsets[i] in valsets;
    var k :| 0 <= k < |log| && log[k] == valsets[i];
    assert k == 0;
    forall e | e in log && e.kind == ValsetUpdate && e.block <= current ensures e.eventNonce != nonce {
      assert e in valsets;
      var j :| 0 <= j < |valsets| && valsets[j] == e;
      var m :| 0 <= m < |log| && log[m] == e;
    }
  }

  /** The search terminates with the block of the requested event, nonce 0 standing for nonce 1, and panics exactly
      if the log has no such event. */
  method GetLastCheckedBlock(log: seq<Event>, latest: nat, lastEventNonce: nat) returns (r: Result<nat>)
    requires History(log, latest)
    ensures r.Panicked? <==> !Has(log, Target(lastEventNonce))
    ensures r.Found? ==> forall e | e in log && e.eventNonce == Target(lastEventNonce) :: e.block == r.value
  {
    var nonce := Target(lastEventNonce);
    var current := latest;
    while current > 0
      invariant current <= latest
      invariant current == latest || forall e | e in log && e.block >= current :: e.eventNonce != nonce && e != log[0]
    {
      var end := WindowStart(current);
      forall kind, e
        ensures e in Query(log, kind, end, current) <==> e in log && e.kind == kind && end <= e.block <= current
      {
        QueryMembers(log, kind, end, current, e);
      }
      var hit := FindNonce(Query(log, BatchExecuted, end, current), nonce);
      if hit.None? {
        hit := FindNonce(Query(log, SentToCosmos, end, current), nonce);
      }
      if hit.None? {
        hit := FindNonce(Query(log, Erc20Deployed, end, current), nonce);
      }
      if hit.None? {
        hit := FindNonce(Query(log, LogicCall, end, current), nonce);
      }
      if hit.Some? {
        return Found(hit.value);
      }
      var valsets := Query(log, ValsetUpdate, end, current);
      var scan := ScanValsets(valsets, nonce);
      match scan {
        case Hit(block) =>
          return Found(block);
        case Deployment =>
          DeploymentEndsSearch(log, latest, end, current, valsets, nonce);
          return Panicked;
        case Miss =>
      }
      current := end;
    }
    r := Panicked;
  }
}
