/**
 One run's comparison of freshly fetched pages with the digests stored by the
 previous run (the loop of `main`, monitor_unisa.py:82-102). Fetching is an
 input: a run is the ordered list of its fetch attempts, one per configured
 URL. The SHA-256 digest (monitor_unisa.py:47-48) is a parameter `hash`, so
 nothing here depends on what the digest is.
 */
module Reconciliation {
  import opened Fetch
  import Text

  type Digest = string

  /** The persisted state: URL to digest of the page text last seen. */
  type Hashes = map<string, Digest>

  /** Fetching one configured URL in this run. */
  datatype Attempt = Attempt(url: string, outcome: FetchOutcome)

  /** A change event: the changed URL and a snippet of its new text. */
  datatype Change = Change(url: string, snippet: string)

  /** The accumulators `new` and `changes` of the loop. */
  datatype Progress = Progress(hashes: Hashes, changes: seq<Change>)

  /** The attempt fetched a page already known whose digest differs. */
  predicate Changed(prev: Hashes, hash: string -> Digest, a: Attempt) {
    a.outcome.Fetched? && a.url in prev && prev[a.url] != hash(a.outcome.text)
  }

  /** The event recorded for a changed page. */
  function EventOf(a: Attempt): Change
    requires a.outcome.Fetched?
  {
    Change(a.url, Text.Snippet(a.outcome.text))
  }

  /** The URLs fetched successfully at least once in this run. */
  function Succeeded(attempts: seq<Attempt>): set<string> {
    set i | 0 <= i < |attempts| && attempts[i].outcome.Fetched? :: attempts[i].url
  }

  /** The URLs the run tried. */
  function Listed(attempts: seq<Attempt>): set<string> {
    set i | 0 <= i < |attempts| :: attempts[i].url
  }

  /** Attempt `i` is the last successful fetch of its URL in the run. */
  predicate IsLastSuccess(attempts: seq<Attempt>, i: int) {
    && 0 <= i < |attempts|
    && attempts[i].outcome.Fetched?
    && forall j :: i < j < |attempts| && attempts[j].url == attempts[i].url ==> attempts[j].outcome.Failed?
  }

  predicate DistinctUrls(attempts: seq<Attempt>) {
    forall i, j :: 0 <= i < j < |attempts| ==> attempts[i].url != attempts[j].url
  }

  /** The map `prev` cut down to the keys in `keep`. */
  function Restrict(prev: Hashes, keep: set<string>): Hashes {
    map u | u in prev && u in keep :: prev[u]
  }

  /** One iteration of the loop over the configured URLs. */
  function Step(prev: Hashes, hash: string -> Digest, p: Progress, a: Attempt): Progress {
    match a.outcome
    case Failed => p
    case Fetched(content) =>
      var h := hash(content);
      if a.url in prev && prev[a.url] != h then
        Progress(p.hashes[a.url := h], p.changes + [Change(a.url, Text.Snippet(content))])
      else
        Progress(p.hashes[a.url := h], p.changes)
  }

  /**
   The whole loop, as a fold of Step over the attempts from an empty `new`
   map and an empty change list. At most one change per attempt is recorded
   and only URLs of the run become keys.
   */
  function Reconcile(prev: Hashes, hash: string -> Digest, attempts: seq<Attempt>): (p: Progress)
    ensures |p.changes| <= |attempts|
    ensures p.hashes.Keys <= Listed(attempts)
  {
    if attempts == [] then Progress(map[], [])
    else
      var init := attempts[..|attempts| - 1];
      var q := Reconcile(prev, hash, init);
      assert Listed(init) <= Listed(attempts) by {
        forall u | u in Listed(init) ensures u in Listed(attempts) {
          var i :| 0 <= i < |init| && init[i].url == u;
          assert attempts[i] == init[i];
        }
      }
      Step(prev, hash, q, attempts[|attempts| - 1])
  }

  /**
   The positions of the changed attempts, in increasing order: the witness
   that the change list is the subsequence of the attempts that changed.
   */
  function Origins(prev: Hashes, hash: string -> Digest, attempts: seq<Attempt>): seq<nat> {
    if attempts == [] then []
    else
      var n := |attempts| - 1;
      Origins(prev, hash, attempts[..n]) + (if Changed(prev, hash, attempts[n]) then [n] else [])
  }

  /** The loop of `main`, as written, computes the fold. */
  method ReconcileAll(prev: Hashes, hash: string -> Digest, attempts: seq<Attempt>)
    returns (hashes: Hashes, changes: seq<Change>)
    ensures Progress(hashes, changes) == Reconcile(prev, hash, attempts)
    ensures hashes.Keys == Succeeded(attempts)
  {
    hashes := map[];
    changes := [];
    for k := 0 to |attempts|
      invariant Progress(hashes, changes) == Reconcile(prev, hash, attempts[..k])
    {
      var a := attempts[k];
      assert attempts[..k + 1][..k] == attempts[..k];
      match a.outcome {
        case Failed =>
        case Fetched(content) =>
          var h := hash(content);
          hashes := hashes[a.url := h];
          if a.url in prev {
            if prev[a.url] != h {
              changes := changes + [Change(a.url, Text.Snippet(content))];
            }
          }
      }
    }
    assert attempts[..|attempts|] == attempts;
    KeysAreSucceeded(prev, hash, attempts);
  }

  /** The new map holds exactly the URLs fetched successfully in this run. */
  lemma {:induction false} KeysAreSucceeded(prev: Hashes, hash: string -> Digest, attempts: seq<Attempt>)
    ensures Reconcile(prev, hash, attempts).hashes.Keys == Succeeded(attempts)
  {
    if attempts != [] {
      var n := |attempts| - 1;
      var init := attempts[..n];
      KeysAreSucceeded(prev, hash, init);
      var extra: set<string> := if attempts[n].outcome.Fetched? then {attempts[n].url} else {};
      assert Succeeded(attempts) == Succeeded(init) + extra by {
        forall u | u in Succeeded(attempts) ensures u in Succeeded(init) + extra {
          var i :| 0 <= i < |attempts| && attempts[i].outcome.Fetched? && attempts[i].url == u;
          if i < n { assert init[i] == attempts[i]; }
        }
        forall u | u in Succeeded(init) ensures u in Succeeded(attempts) {
          var i :| 0 <= i < |init| && init[i].outcome.Fetched? && init[i].url == u;
          assert attempts[i] == init[i];
        }
      }
    }
  }

  /** Each URL's new digest is the digest of its last successfully fetched text. */
  lemma {:induction false} DigestOfLastSuccess(prev: Hashes, hash: string -> Digest, attempts: seq<Attempt>, i: int)
    requires IsLastSuccess(attempts, i)
    ensures attempts[i].url in Reconcile(prev, hash, attempts).hashes
    ensures Reconcile(prev, hash, attempts).hashes[attempts[i].url] == hash(attempts[i].outcome.text)
  {
    var n := |attempts| - 1;
    var init := attempts[..n];
    if i < n {
      assert init[i] == attempts[i];
      assert IsLastSuccess(init, i) by {
        forall j | i < j < |init| && init[j].url == init[i].url ensures init[j].outcome.Failed? {
          assert init[j] == attempts[j];
        }
      }
      DigestOfLastSuccess(prev, hash, init, i);
      assert attempts[n].url == attempts[i].url ==> attempts[n].outcome.Failed?;
    }
  }

  /** One step appends the event of the last attempt exactly when it changed. */
  lemma ChangesOfLastStep(prev: Hashes, hash: string -> Digest, attempts: seq<Attempt>)
    requires attempts != []
    ensures var n := |attempts| - 1;
            Reconcile(prev, hash, attempts).changes ==
              Reconcile(prev, hash, attempts[..n]).changes + (if Changed(prev, hash, attempts[n]) then [EventOf(attempts[n])] else [])
  {
  }

  /** The k-th change is the event of the changed attempt at position Origins[k]. */
  lemma {:induction false} OriginsMatchChanges(prev: Hashes, hash: string -> Digest, attempts: seq<Attempt>)
    ensures |Origins(prev, hash, attempts)| == |Reconcile(prev, hash, attempts).changes|
    ensures forall k :: 0 <= k < |Origins(prev, hash, attempts)| ==>
              && Origins(prev, hash, attempts)[k] < |attempts|
              && Changed(prev, hash, attempts[Origins(prev, hash, attempts)[k]])
              && Reconcile(prev, hash, attempts).changes[k] == EventOf(attempts[Origins(prev, hash, attempts)[k]])
  {
    if attempts != [] {
      var n := |attempts| - 1;
      var init := attempts[..n];
      OriginsMatchChanges(prev, hash, init);
      ChangesOfLastStep(prev, hash, attempts);
      var o0 := Origins(prev, hash, init);
      var cs0 := Reconcile(prev, hash, init).changes;
      var o := Origins(prev, hash, attempts);
      var cs := Reconcile(prev, hash, attempts).changes;
      forall k | 0 <= k < |o|
        ensures o[k] < |attempts| && Changed(prev, hash, attempts[o[k]]) && cs[k] == EventOf(attempts[o[k]])
      {
        if k < |o0| {
          assert o[k] == o0[k] && cs[k] == cs0[k];
          assert attempts[o0[k]] == init[o0[k]];
        }
      }
    }
  }

  /** The positions in Origins are in range and strictly increasing. */
  lemma {:induction false} OriginsIncrease(prev: Hashes, hash: string -> Digest, attempts: seq<Attempt>)
    ensures forall k :: 0 <= k < |Origins(prev, hash, attempts)| ==> Origins(prev, hash, attempts)[k] < |attempts|
    ensures forall k1, k2 :: 0 <= k1 < k2 < |Origins(prev, hash, attempts)| ==>
              Origins(prev, hash, attempts)[k1] < Origins(prev, hash, attempts)[k2]
  {
    if attempts != [] {
      var n := |attempts| - 1;
      OriginsIncrease(prev, hash, attempts[..n]);
    }
  }

  /** Every changed attempt's position is in Origins. */
  lemma {:induction false} OriginsComplete(prev: Hashes, hash: string -> Digest, attempts: seq<Attempt>)
    ensures forall i :: 0 <= i < |attempts| && Changed(prev, hash, attempts[i]) ==> i in Origins(prev, hash, attempts)
  {
    if attempts != [] {
      var n := |attempts| - 1;
      var init := attempts[..n];
      OriginsComplete(prev, hash, init);
      forall i | 0 <= i < n && Changed(prev, hash, attempts[i]) ensures i in Origins(prev, hash, attempts) {
        assert attempts[i] == init[i];
      }
    }
  }

  /** With no duplicate URLs, every fetched page's new digest is the hash of its text. */
  lemma {:induction false} DigestsOfDistinctRun(prev: Hashes, hash: string -> Digest, attempts: seq<Attempt>)
    requires DistinctUrls(attempts)
    ensures forall i :: 0 <= i < |attempts| && attempts[i].outcome.Fetched? ==>
              && attempts[i].url in Reconcile(prev, hash, attempts).hashes
              && Reconcile(prev, hash, attempts).hashes[attempts[i].url] == hash(attempts[i].outcome.text)
  {
    forall i | 0 <= i < |attempts| && attempts[i].outcome.Fetched?
      ensures attempts[i].url in Reconcile(prev, hash, attempts).hashes
      ensures Reconcile(prev, hash, attempts).hashes[attempts[i].url] == hash(attempts[i].outcome.text)
    {
      DigestOfLastSuccess(prev, hash, attempts, i);
    }
  }

  /**
   The change list is the subsequence of events of the changed attempts,
   kept in the order of the URL list, one per changed attempt.
   */
  lemma {:induction false} ChangesFollowAttempts(prev: Hashes, hash: string -> Digest, attempts: seq<Attempt>)
    ensures |Origins(prev, hash, attempts)| == |Reconcile(prev, hash, attempts).changes|
    ensures forall k :: 0 <= k < |Origins(prev, hash, attempts)| ==>
              && Origins(prev, hash, attempts)[k] < |attempts|
              && Changed(prev, hash, attempts[Origins(prev, hash, attempts)[k]])
              && Reconcile(prev, hash, attempts).changes[k] == EventOf(attempts[Origins(prev, hash, attempts)[k]])
    ensures forall k1, k2 :: 0 <= k1 < k2 < |Origins(prev, hash, attempts)| ==>
              Origins(prev, hash, attempts)[k1] < Origins(prev, hash, attempts)[k2]
    ensures forall i :: 0 <= i < |attempts| && Changed(prev, hash, attempts[i]) ==> i in Origins(prev, hash, attempts)
  {
    OriginsMatchChanges(prev, hash, attempts);
    OriginsIncrease(prev, hash, attempts);
    OriginsComplete(prev, hash, attempts);
  }

  /** A step never removes a recorded change. */
  lemma StepKeepsChanges(prev: Hashes, hash: string -> Digest, p: Progress, a: Attempt, c: Change)
    requires c in p.changes
    ensures c in Step(prev, hash, p, a).changes
  {
  }

  /** Every changed attempt has its event in the change list. */
  lemma {:induction false} ChangedIsRecorded(prev: Hashes, hash: string -> Digest, attempts: seq<Attempt>, i: int)
    requires 0 <= i < |attempts| && Changed(prev, hash, attempts[i])
    ensures EventOf(attempts[i]) in Reconcile(prev, hash, attempts).changes
  {
    var n := |attempts| - 1;
    if i < n {
      var init := attempts[..n];
      assert init[i] == attempts[i];
      ChangedIsRecorded(prev, hash, init, i);
      StepKeepsChanges(prev, hash, Reconcile(prev, hash, init), attempts[n], EventOf(attempts[i]));
    }
  }

  /** Every event in the change list comes from a changed attempt. */
  lemma {:induction false} RecordedIsChanged(prev: Hashes, hash: string -> Digest, attempts: seq<Attempt>, c: Change)
    requires c in Reconcile(prev, hash, attempts).changes
    ensures exists i :: 0 <= i < |attempts| && Changed(prev, hash, attempts[i]) && c == EventOf(attempts[i])
  {
    var n := |attempts| - 1;
    var init := attempts[..n];
    if c in Reconcile(prev, hash, init).changes {
      RecordedIsChanged(prev, hash, init, c);
      var i :| 0 <= i < |init| && Changed(prev, hash, init[i]) && c == EventOf(init[i]);
      assert attempts[i] == init[i];
    } else {
      assert Changed(prev, hash, attempts[n]) && c == EventOf(attempts[n]);
    }
  }

  /** A change is recorded for an attempt if and only if that attempt changed. */
  lemma {:induction false} ChangeRecordedIff(prev: Hashes, hash: string -> Digest, attempts: seq<Attempt>)
    ensures forall i :: 0 <= i < |attempts| && Changed(prev, hash, attempts[i]) ==>
              EventOf(attempts[i]) in Reconcile(prev, hash, attempts).changes
    ensures forall c :: c in Reconcile(prev, hash, attempts).changes ==>
              exists i :: 0 <= i < |attempts| && Changed(prev, hash, attempts[i]) && c == EventOf(attempts[i])
  {
    forall i | 0 <= i < |attempts| && Changed(prev, hash, attempts[i])
      ensures EventOf(attempts[i]) in Reconcile(prev, hash, attempts).changes
    {
      ChangedIsRecorded(prev, hash, attempts, i);
    }
    forall c | c in Reconcile(prev, hash, attempts).changes
      ensures exists i :: 0 <= i < |attempts| && Changed(prev, hash, attempts[i]) && c == EventOf(attempts[i])
    {
      RecordedIsChanged(prev, hash, attempts, c);
    }
  }

  /** A URL not in the previous state (first observation) never yields a change. */
  lemma {:induction false} ChangesOnlyForKnownUrls(prev: Hashes, hash: string -> Digest, attempts: seq<Attempt>)
    ensures forall c :: c in Reconcile(prev, hash, attempts).changes ==> c.url in prev
  {
    ChangeRecordedIff(prev, hash, attempts);
  }

  /** When the URL list has no duplicates, no URL is reported twice. */
  lemma {:induction false} AtMostOneChangePerUrl(prev: Hashes, hash: string -> Digest, attempts: seq<Attempt>)
    requires DistinctUrls(attempts)
    ensures forall k1, k2 :: 0 <= k1 < k2 < |Reconcile(prev, hash, attempts).changes| ==>
              Reconcile(prev, hash, attempts).changes[k1].url != Reconcile(prev, hash, attempts).changes[k2].url
  {
    ChangesFollowAttempts(prev, hash, attempts);
    var o := Origins(prev, hash, attempts);
    var cs := Reconcile(prev, hash, attempts).changes;
    forall k1, k2 | 0 <= k1 < k2 < |cs| ensures cs[k1].url != cs[k2].url {
      assert o[k1] < o[k2];
      assert cs[k1].url == attempts[o[k1]].url;
    }
  }

  /** The new map does not depend on the previous one. */
  lemma {:induction false} NewStateIgnoresPrevious(prev1: Hashes, prev2: Hashes, hash: string -> Digest, attempts: seq<Attempt>)
    ensures Reconcile(prev1, hash, attempts).hashes == Reconcile(prev2, hash, attempts).hashes
  {
    if attempts != [] {
      var n := |attempts| - 1;
      var init := attempts[..n];
      NewStateIgnoresPrevious(prev1, prev2, hash, init);
      HashesOfStep(prev1, hash, Reconcile(prev1, hash, init), attempts[n]);
      HashesOfStep(prev2, hash, Reconcile(prev2, hash, init), attempts[n]);
    }
  }

  /** A step's map is the old map, updated with the new digest when the fetch succeeded. */
  lemma HashesOfStep(prev: Hashes, hash: string -> Digest, p: Progress, a: Attempt)
    ensures Step(prev, hash, p, a).hashes ==
              if a.outcome.Fetched? then p.hashes[a.url := hash(a.outcome.text)] else p.hashes
  {
  }

  /** Every fetched page has its stored digest: the precondition of a quiet run. */
  predicate DigestsMatch(prev: Hashes, hash: string -> Digest, attempts: seq<Attempt>) {
    forall i :: 0 <= i < |attempts| && attempts[i].outcome.Fetched? ==>
      attempts[i].url in prev && prev[attempts[i].url] == hash(attempts[i].outcome.text)
  }

  /** When digests match, no change is recorded and every new entry equals the stored one. */
  lemma {:induction false} StoredDigestsKept(prev: Hashes, hash: string -> Digest, attempts: seq<Attempt>)
    requires DigestsMatch(prev, hash, attempts)
    ensures Reconcile(prev, hash, attempts).changes == []
    ensures forall u :: u in Reconcile(prev, hash, attempts).hashes ==>
              u in prev && Reconcile(prev, hash, attempts).hashes[u] == prev[u]
  {
    if attempts != [] {
      var n := |attempts| - 1;
      var init := attempts[..n];
      assert DigestsMatch(prev, hash, init) by {
        forall i | 0 <= i < |init| && init[i].outcome.Fetched?
          ensures init[i].url in prev && prev[init[i].url] == hash(init[i].outcome.text)
        {
          assert init[i] == attempts[i];
        }
      }
      StoredDigestsKept(prev, hash, init);
    }
  }

  /**
   When every page fetched has the digest already stored for it, nothing is
   reported and the new map is the old one cut down to the fetched URLs
   (to all the URLs of the run when every fetch succeeded).
   */
  lemma {:induction false} NoChangeWhenDigestsMatch(prev: Hashes, hash: string -> Digest, attempts: seq<Attempt>)
    requires DigestsMatch(prev, hash, attempts)
    ensures Reconcile(prev, hash, attempts).changes == []
    ensures Reconcile(prev, hash, attempts).hashes == Restrict(prev, Succeeded(attempts))
    ensures (forall i :: 0 <= i < |attempts| ==> attempts[i].outcome.Fetched?) ==>
              Reconcile(prev, hash, attempts).hashes == Restrict(prev, Listed(attempts))
  {
    KeysAreSucceeded(prev, hash, attempts);
    StoredDigestsKept(prev, hash, attempts);
    if forall i :: 0 <= i < |attempts| ==> attempts[i].outcome.Fetched? {
      assert Succeeded(attempts) == Listed(attempts);
    }
  }

  /**
   Running again on the same pages reports nothing and stores the same map,
   when the URL list has no duplicates.
   */
  lemma {:induction false} SecondRunIsQuiet(prev: Hashes, hash: string -> Digest, attempts: seq<Attempt>)
    requires DistinctUrls(attempts)
    ensures Reconcile(Reconcile(prev, hash, attempts).hashes, hash, attempts).changes == []
    ensures Reconcile(Reconcile(prev, hash, attempts).hashes, hash, attempts).hashes == Reconcile(prev, hash, attempts).hashes
  {
    var first := Reconcile(prev, hash, attempts).hashes;
    forall i | 0 <= i < |attempts| && attempts[i].outcome.Fetched?
      ensures attempts[i].url in first && first[attempts[i].url] == hash(attempts[i].outcome.text)
    {
      DigestOfLastSuccess(prev, hash, attempts, i);
    }
    NoChangeWhenDigestsMatch(first, hash, attempts);
    KeysAreSucceeded(prev, hash, attempts);
  }

  /** A URL that fails every attempt of the run is dropped from the new map. */
  lemma {:induction false} DroppedUrlIsForgotten(prev: Hashes, hash: string -> Digest, attempts: seq<Attempt>, url: string)
    requires forall i :: 0 <= i < |attempts| && attempts[i].url == url ==> attempts[i].outcome.Failed?
    ensures url !in Reconcile(prev, hash, attempts).hashes
  {
    KeysAreSucceeded(prev, hash, attempts);
  }

  /**
   A URL dropped by one run is a first observation in the next: whatever its
   text, the next run reports no change for it.
   */
  lemma {:induction false} RecoveredUrlIsFirstObservation(prev: Hashes, hash: string -> Digest, run1: seq<Attempt>, run2: seq<Attempt>, url: string)
    requires forall i :: 0 <= i < |run1| && run1[i].url == url ==> run1[i].outcome.Failed?
    ensures forall c :: c in Reconcile(Reconcile(prev, hash, run1).hashes, hash, run2).changes ==> c.url != url
  {
    DroppedUrlIsForgotten(prev, hash, run1, url);
    ChangesOnlyForKnownUrls(Reconcile(prev, hash, run1).hashes, hash, run2);
  }

}
