/**
 The bounded loops that wait for a cloud: the Waiter, the wait for NCP's node group IDs and the
 verification of S3 CORS changes. What the cloud answers to the n-th poll is any function of n.
 */
module Polling {
  import opened Strings

  // ------------------------------------------------------------------ Waiter.go

  const SECOND := 1_000_000_000  // in nanoseconds

  /** The process's monotonic clock. It moves on by itself between any two readings. */
  class Clock {
    var now: int

    constructor (now: int)
      ensures this.now == now
    {
      this.now := now;
    }

    /** Time passes: a `time.Sleep`, or the duration of a driver call. */
    method Pass(d: nat)
      modifies this
      ensures now == old(now) + d
    {
      now := now + d;
    }
  }

  /** How many waits a waiter grants at most: Timeout / Sleep, rounded up. */
  function WaitBound(sleep: int, timeout: int): int
    requires sleep >= 1
  {
    (timeout + sleep - 1) / sleep
  }

  class Waiter {
    const clock: Clock
    var start: int
    var sleep: int    // seconds
    var timeout: int  // seconds
    ghost var granted: nat

    ghost predicate Valid()
      reads this, clock
    {
      && sleep >= 1
      && clock.now - start >= granted * (sleep * SECOND)
      && granted <= WaitBound(sleep, timeout)
    }

    /** NewWaiter: 1 and 120 seconds unless the arguments are larger than 1 and than the sleep. */
    constructor (clock: Clock, sleep: int, timeout: int)
      ensures Valid() && this.clock == clock && granted == 0 && start == clock.now
      ensures this.sleep == if sleep > 1 then sleep else 1
      ensures this.timeout == if timeout > this.sleep then timeout else 120
    {
      this.clock := clock;
      start := clock.now;
      this.sleep := if sleep > 1 then sleep else 1;
      this.timeout := if timeout > (if sleep > 1 then sleep else 1) then timeout else 120;
      granted := 0;
    }

    /** Sleeps and answers true until Timeout whole seconds have gone by. `late`: oversleeping. */
    method Wait(late: nat) returns (more: bool)
      requires Valid()
      modifies this`granted, clock
      ensures Valid()
      ensures more <==> (old(clock.now) - start) / SECOND < timeout
      ensures more ==> granted == old(granted) + 1 && clock.now == old(clock.now) + sleep * SECOND + late
      ensures !more ==> granted == old(granted) && clock.now == old(clock.now)
    {
      var elapsed := clock.now - start;
      if elapsed / SECOND < timeout {
        GrantLeft(granted, sleep, timeout, elapsed);
        clock.Pass(sleep * SECOND + late);
        granted := granted + 1;
        return true;
      }
      return false;
    }
  }

  /** A wait that is granted is not the last that the bound allows. */
  lemma GrantLeft(granted: nat, sleep: int, timeout: int, elapsed: int)
    requires sleep >= 1 && elapsed >= granted * (sleep * SECOND) && elapsed / SECOND < timeout
    ensures granted + 1 <= WaitBound(sleep, timeout)
    ensures (granted + 1) * (sleep * SECOND) == granted * (sleep * SECOND) + sleep * SECOND
  {}

  /** DeleteCluster's waiter, NewWaiter(15, 600), grants at most 40 waits. */
  lemma DeleteClusterBound()
    ensures WaitBound(15, 600) == 40
  {}

  // ------------------------------------------------------------------ waitForNCPNodeGroupSystemIDs

  const NCP_POLLS := 24

  /** `spec` stands for the fields that no step of the wait looks at. */
  datatype NodeGroup = NodeGroup(nameId: string, systemId: string, spec: string)

  predicate IsTemporary(provider: string, systemId: string) {
    EqualFold(AsciiFold, provider, "NCP") && TrimSpace(systemId) == "1"
  }

  /** The names whose ID is to be waited for. */
  function Targets(provider: string, groups: seq<NodeGroup>): set<string> {
    set g | g in groups && IsTemporary(provider, g.systemId) :: g.nameId
  }

  /** The last group of that name in an answer: a later map entry replaces an earlier one. */
  function Latest(answer: seq<NodeGroup>, name: string): Option<string> {
    if answer == [] then None
    else if answer[|answer| - 1].nameId == name then Some(answer[|answer| - 1].systemId)
    else Latest(answer[..|answer| - 1], name)
  }

  predicate Settled(provider: string, answer: seq<NodeGroup>, name: string) {
    Latest(answer, name).Some? && !IsTemporary(provider, Latest(answer, name).value)
  }

  /** An answer that gives every awaited group a lasting ID. */
  predicate Complete(provider: string, groups: seq<NodeGroup>, answer: Option<seq<NodeGroup>>) {
    answer.Some? &&
    forall i | 0 <= i < |groups| && groups[i].nameId in Targets(provider, groups) ::
      Settled(provider, answer.value, groups[i].nameId)
  }

  /** The groups with the IDs of a complete answer filled in, everything else as it was. */
  predicate FilledIn(provider: string, groups: seq<NodeGroup>, answer: seq<NodeGroup>, r: seq<NodeGroup>) {
    |r| == |groups| && forall i | 0 <= i < |r| ::
      if groups[i].nameId in Targets(provider, groups)
      then Latest(answer, groups[i].nameId) == Some(r[i].systemId) &&
           r[i] == groups[i].(systemId := r[i].systemId) && !IsTemporary(provider, r[i].systemId)
      else r[i] == groups[i]
  }

  /** The map that the loop builds from an answer is the last-wins lookup. */
  method IndexByName(answer: seq<NodeGroup>) returns (current: map<string, string>)
    ensures forall name :: Latest(answer, name) == if name in current then Some(current[name]) else None
  {
    current := map[];
    for i := 0 to |answer|
      invariant forall name :: Latest(answer[..i], name) == if name in current then Some(current[name]) else None
    {
      current := current[answer[i].nameId := answer[i].systemId];
      assert answer[..i + 1][..i] == answer[..i];
    }
    assert answer[..|answer|] == answer;
  }

  /** Only the IDs of awaited groups have been changed. */
  predicate Touched(targets: set<string>, groups: seq<NodeGroup>, r: seq<NodeGroup>) {
    |r| == |groups| && forall i | 0 <= i < |r| ::
      r[i] == if groups[i].nameId in targets then groups[i].(systemId := r[i].systemId) else groups[i]
  }

  /** The first `n` groups, as far as they are awaited, have lasting IDs in the answer. */
  predicate SettledUpTo(provider: string, targets: set<string>, groups: seq<NodeGroup>, answer: seq<NodeGroup>, n: nat) {
    n <= |groups| && forall m | 0 <= m < n && groups[m].nameId in targets :: Settled(provider, answer, groups[m].nameId)
  }

  /** ... and have been given them. */
  predicate FilledUpTo(targets: set<string>, groups: seq<NodeGroup>, answer: seq<NodeGroup>, r: seq<NodeGroup>, n: nat) {
    n <= |groups| == |r| && forall m | 0 <= m < n && groups[m].nameId in targets ::
      Latest(answer, groups[m].nameId) == Some(r[m].systemId)
  }

  /** A pass that leaves nothing open saw a complete answer, and has filled it in. */
  lemma PassMeans(provider: string, groups: seq<NodeGroup>, answer: seq<NodeGroup>, r: seq<NodeGroup>)
    ensures SettledUpTo(provider, Targets(provider, groups), groups, answer, |groups|) <==> Complete(provider, groups, Some(answer))
    ensures (SettledUpTo(provider, Targets(provider, groups), groups, answer, |groups|) &&
             Touched(Targets(provider, groups), groups, r) &&
             FilledUpTo(Targets(provider, groups), groups, answer, r, |groups|)) ==>
              FilledIn(provider, groups, answer, r)
  {}

  /** One pass over the groups: what an answer settles is filled in, the rest is counted. */
  method Refresh(provider: string, targets: set<string>, groups: seq<NodeGroup>, updated: array<NodeGroup>, answer: seq<NodeGroup>)
      returns (remaining: nat)
    requires Touched(targets, groups, updated[..])
    modifies updated
    ensures Touched(targets, groups, updated[..])
    ensures remaining == 0 <==> SettledUpTo(provider, targets, groups, answer, |groups|)
    ensures remaining == 0 ==> FilledUpTo(targets, groups, answer, updated[..], |groups|)
  {
    var current := IndexByName(answer);
    remaining := 0;
    for j := 0 to updated.Length
      invariant remaining == 0 <==> SettledUpTo(provider, targets, groups, answer, j)
      invariant remaining == 0 ==> FilledUpTo(targets, groups, answer, updated[..], j)
      invariant Touched(targets, groups, updated[..])
    {
      assert updated[..][j] == updated[j];
      var name := updated[j].nameId;
      if name in targets {
        if name !in current || IsTemporary(provider, current[name]) {
          remaining := remaining + 1;
        } else {
          updated[j] := updated[j].(systemId := current[name]);
        }
      }
    }
  }

  /**
   Polls until an answer is complete, at most 24 times. It succeeds exactly when one of the first
   24 answers is complete, and then returns the groups with the IDs of the first complete one.
   */
  method WaitForNCPNodeGroupSystemIDs(provider: string, groups: seq<NodeGroup>, poll: nat -> Option<seq<NodeGroup>>)
      returns (r: Option<seq<NodeGroup>>, ghost polls: nat)
    ensures Targets(provider, groups) == {} ==> r == Some(groups) && polls == 0
    ensures polls <= 24
    ensures Targets(provider, groups) != {} ==>
              (r.Some? <==> exists k | 0 <= k < 24 :: Complete(provider, groups, poll(k)))
    ensures Targets(provider, groups) != {} && r.Some? ==>
              polls > 0 && Complete(provider, groups, poll(polls - 1)) &&
              (forall k | 0 <= k < polls - 1 :: !Complete(provider, groups, poll(k))) &&
              FilledIn(provider, groups, poll(polls - 1).value, r.value)
  {
    polls := 0;
    var targets := Targets(provider, groups);
    if !EqualFold(AsciiFold, provider, "NCP") || targets == {} {
      return Some(groups), 0;
    }
    var updated := new NodeGroup[|groups|](i requires 0 <= i < |groups| => groups[i]);
    for i := 0 to NCP_POLLS
      invariant polls == i
      invariant forall k | 0 <= k < i :: !Complete(provider, groups, poll(k))
      invariant Touched(targets, groups, updated[..])
    {
      polls := i + 1;
      var answer := poll(i);
      if answer.None? {
        continue;
      }
      var remaining := Refresh(provider, targets, groups, updated, answer.value);
      PassMeans(provider, groups, answer.value, updated[..]);
      assert answer == Some(answer.value);
      if remaining == 0 {
        return Some(updated[..]), polls;
      }
    }
    return None, polls;
  }

  /** With distinct names, exactly the groups that had the temporary ID change, and only in their ID. */
  lemma DistinctNamesFilledIn(provider: string, groups: seq<NodeGroup>, answer: seq<NodeGroup>, r: seq<NodeGroup>, i: nat)
    requires FilledIn(provider, groups, answer, r) && i < |groups|
    requires forall a, b | 0 <= a < b < |groups| :: groups[a].nameId != groups[b].nameId
    ensures EqualFold(AsciiFold, provider, "NCP") && TrimSpace(groups[i].systemId) == "1" ==>
              Latest(answer, groups[i].nameId) == Some(r[i].systemId) && !IsTemporary(provider, r[i].systemId) &&
              r[i].nameId == groups[i].nameId && r[i].spec == groups[i].spec
    ensures !EqualFold(AsciiFold, provider, "NCP") || TrimSpace(groups[i].systemId) != "1" ==> r[i] == groups[i]
  {}

  // ------------------------------------------------------------------ S3 CORS verification

  const CORS_RETRIES := 40

  /** What one GetBucketCors call shows. */
  datatype Observation = Error(message: string) | NoRules | Rules

  datatype Change = Setting | Deleting

  /** Whether an observation speaks for the change. */
  predicate Good(change: Change, o: Observation) {
    match change
    case Setting => o == Rules
    case Deleting =>
      o == NoRules || (o.Error? && (Occurs(o.message, "NoSuchCORSConfiguration") ||
                                    Occurs(o.message, "NoSuchCors") || Occurs(o.message, "does not exist")))
  }

  /** No rules, or one of the errors that say so. */
  predicate Without(o: Observation) {
    match o
    case NoRules => true
    case Rules => false
    case Error(m) => Occurs(m, "NoSuchCORSConfiguration") || Occurs(m, "NoSuchCors") || Occurs(m, "does not exist")
  }

  function RequiredSuccesses(provider: string): nat {
    if provider == "IBM" then 10 else 3
  }

  /** The `k` observations before the `e`-th are all good. */
  predicate Window(change: Change, observe: nat -> Observation, k: nat, e: nat) {
    k <= e && forall i | e - k <= i < e :: Good(change, observe(i))
  }

  /**
   The verification loop of SetS3BucketCORS and of DeleteS3BucketCORS: it answers true exactly when
   the first 40 observations contain a window of the required length, and stops at the end of the
   first one.
   */
  method VerifyCORS(change: Change, provider: string, observe: nat -> Observation) returns (ok: bool, tries: nat)
    ensures ok <==> exists e | 0 <= e <= 40 :: Window(change, observe, RequiredSuccesses(provider), e)
    ensures ok ==> Window(change, observe, RequiredSuccesses(provider), tries)
    ensures ok ==> forall e | 0 <= e < tries :: !Window(change, observe, RequiredSuccesses(provider), e)
    ensures tries <= 40 && (!ok ==> tries == 40)
    // what the window shows
    ensures ok ==> forall i | tries - (if provider == "IBM" then 10 else 3) <= i < tries ::
              0 <= i && if change == Setting then observe(i) == Rules else Without(observe(i))
  {
    var required := RequiredSuccesses(provider);
    var consecutive := 0;
    for i := 0 to CORS_RETRIES
      invariant 0 <= consecutive < required && consecutive <= i
      invariant forall j | i - consecutive <= j < i :: Good(change, observe(j))
      invariant consecutive < i ==> !Good(change, observe(i - consecutive - 1))
      invariant forall e | 0 <= e <= i :: !Window(change, observe, required, e)
    {
      if Good(change, observe(i)) {
        consecutive := consecutive + 1;
        if consecutive >= required {
          assert Window(change, observe, required, i + 1);
          return true, i + 1;
        }
        if consecutive < i + 1 && required <= i + 1 {
          // the last bad observation lies inside every window that ends here
          var bad := i - consecutive;
          assert i + 1 - required <= bad;
          assert !Good(change, observe(bad));
        }
      } else {
        consecutive := 0;
        assert required <= i + 1 ==> !Good(change, observe(i));
      }
      assert !Window(change, observe, required, i + 1);
    }
    return false, CORS_RETRIES;
  }
}
