/**
 The per-name lock of sp-lock/splock.go: a map from (connection, name) to reference-counted
 read/write locks whose entries appear on the first use and go away with the last. Every acquisition
 is modelled by its four atomic steps, taken by any number of goroutines in any order. The map's own
 mutex makes the lookup-and-count part of a call one step.
 */
module SpLock {
  import opened Strings

  datatype LockKey = LockKey(conn: string, id: string)
  datatype Mode = Read | Write

  type Tid = nat  // one Lock..Unlock or RLock..RUnlock pair of a goroutine
  type Ref = nat  // address of a LockValue

  /** `*LockValue`: its reference count and the owners of its sync.RWMutex. */
  datatype LockValue = LockValue(count: int, writer: Option<Tid>, readers: set<Tid>)

  datatype Phase =
    | Acquiring  // counted in the map, waiting for the RWMutex
    | Holding    // Lock has returned, Unlock has not been called
    | Releasing  // counted out of the map, the RWMutex not yet unlocked

  datatype Thread = Thread(key: LockKey, mode: Mode, phase: Phase, ref: Ref)

  datatype State = State(lockMap: map<LockKey, Ref>, heap: map<Ref, LockValue>, threads: map<Tid, Thread>)

  datatype Action =
    | Register(t: Tid, key: LockKey, mode: Mode, addr: Ref)
    | Grant(t: Tid)
    | Deregister(t: Tid)
    | Free(t: Tid)

  function Init(): State { State(map[], map[], map[]) }

  /** Whether sync.RWMutex lets this goroutine in. */
  predicate Grantable(v: LockValue, mode: Mode) {
    v.writer == None && (mode == Write ==> v.readers == {})
  }

  /** Unlock dereferences a nil entry, or unlocks a mutex that its goroutine does not hold. */
  predicate Crashes(s: State, a: Action) {
    match a
    case Deregister(t) =>
      t in s.threads && s.threads[t].phase == Holding && s.threads[t].key !in s.lockMap
    case Free(t) =>
      t in s.threads && s.threads[t].phase == Releasing &&
      (s.threads[t].ref !in s.heap || !Owns(s.heap[s.threads[t].ref], t, s.threads[t].mode))
    case _ => false
  }

  predicate Owns(v: LockValue, t: Tid, mode: Mode) {
    match mode
    case Write => v.writer == Some(t)
    case Read => t in v.readers
  }

  predicate Enabled(s: State, a: Action) {
    match a
    case Register(t, key, mode, addr) =>
      t !in s.threads && addr !in s.heap && (key in s.lockMap ==> s.lockMap[key] in s.heap)
    case Grant(t) =>
      t in s.threads && s.threads[t].phase == Acquiring &&
      s.threads[t].ref in s.heap && Grantable(s.heap[s.threads[t].ref], s.threads[t].mode)
    case Deregister(t) =>
      t in s.threads && s.threads[t].phase == Holding &&
      s.threads[t].key in s.lockMap && s.lockMap[s.threads[t].key] in s.heap
    case Free(t) =>
      t in s.threads && s.threads[t].phase == Releasing && s.threads[t].ref in s.heap
  }

  /** Lock and RLock up to the unlocking of the map's mutex. */
  function ApplyRegister(s: State, t: Tid, key: LockKey, mode: Mode, addr: Ref): State
    requires Enabled(s, Register(t, key, mode, addr))
  {
    if key in s.lockMap then
      var r := s.lockMap[key];
      var v := s.heap[r];
      State(s.lockMap, s.heap[r := v.(count := v.count + 1)], s.threads[t := Thread(key, mode, Acquiring, r)])
    else
      State(s.lockMap[key := addr], s.heap[addr := LockValue(1, None, {})],
            s.threads[t := Thread(key, mode, Acquiring, addr)])
  }

  /** Lock and RLock on the entry's own mutex. */
  function ApplyGrant(s: State, t: Tid): State
    requires Enabled(s, Grant(t))
  {
    var th := s.threads[t];
    var v := s.heap[th.ref];
    var v' := if th.mode == Write then v.(writer := Some(t)) else v.(readers := v.readers + {t});
    State(s.lockMap, s.heap[th.ref := v'], s.threads[t := th.(phase := Holding)])
  }

  /** Unlock and RUnlock up to the unlocking of the map's mutex: the entry is looked up again. */
  function ApplyDeregister(s: State, t: Tid): State
    requires Enabled(s, Deregister(t))
  {
    var th := s.threads[t];
    var r := s.lockMap[th.key];
    var v := s.heap[r];
    State(if v.count - 1 == 0 then s.lockMap - {th.key} else s.lockMap,
          s.heap[r := v.(count := v.count - 1)],
          s.threads[t := th.(phase := Releasing, ref := r)])
  }

  /** Unlock and RUnlock on the entry that was looked up. */
  function ApplyFree(s: State, t: Tid): State
    requires Enabled(s, Free(t))
  {
    var th := s.threads[t];
    var v := s.heap[th.ref];
    var v' := if th.mode == Write then v.(writer := None) else v.(readers := v.readers - {t});
    State(s.lockMap, s.heap[th.ref := v'], s.threads - {t})
  }

  function Apply(s: State, a: Action): State
    requires Enabled(s, a)
  {
    match a
    case Register(t, key, mode, addr) => ApplyRegister(s, t, key, mode, addr)
    case Grant(t) => ApplyGrant(s, t)
    case Deregister(t) => ApplyDeregister(s, t)
    case Free(t) => ApplyFree(s, t)
  }

  /** The acquisitions that `count` is meant to count. */
  function Users(threads: map<Tid, Thread>, key: LockKey): set<Tid> {
    set t | t in threads && threads[t].phase != Releasing && threads[t].key == key
  }

  ghost predicate MapInv(s: State) {
    && (forall k | k in s.lockMap :: s.lockMap[k] in s.heap)
    && (forall k, k' | k in s.lockMap && k' in s.lockMap && k != k' :: s.lockMap[k] != s.lockMap[k'])
    && (forall k | k in s.lockMap :: s.heap[s.lockMap[k]].count == |Users(s.threads, k)| > 0)
  }

  ghost predicate ThreadInv(s: State) {
    forall t | t in s.threads ::
      && s.threads[t].ref in s.heap
      && (s.threads[t].phase != Releasing ==>
            s.threads[t].key in s.lockMap && s.lockMap[s.threads[t].key] == s.threads[t].ref)
      && (s.threads[t].phase != Acquiring ==> Owns(s.heap[s.threads[t].ref], t, s.threads[t].mode))
  }

  ghost predicate HeapInv(s: State) {
    forall r | r in s.heap ::
      && (s.heap[r].writer != None ==> s.heap[r].readers == {} && OwnerAt(s, r, s.heap[r].writer.value, Write))
      && (forall t | t in s.heap[r].readers :: OwnerAt(s, r, t, Read))
  }

  ghost predicate OwnerAt(s: State, r: Ref, t: Tid, mode: Mode) {
    t in s.threads && s.threads[t].ref == r && s.threads[t].phase != Acquiring && s.threads[t].mode == mode
  }

  ghost predicate Inv(s: State) {
    MapInv(s) && ThreadInv(s) && HeapInv(s)
  }

  // ------------------------------------------------------------------ the lock it implements

  datatype Hold = Hold(key: LockKey, mode: Mode)

  /** A plain per-name read/write lock: who is inside. */
  function Inside(s: State): map<Tid, Hold> {
    map t | t in s.threads && s.threads[t].phase == Holding :: Hold(s.threads[t].key, s.threads[t].mode)
  }

  /** A plain read/write lock lets a caller in when nobody conflicting is inside. */
  ghost predicate Compatible(held: map<Tid, Hold>, key: LockKey, mode: Mode) {
    forall t | t in held && held[t].key == key :: mode == Read && held[t].mode == Read
  }

  // ------------------------------------------------------------------ one step

  /** What every action does to the users of a key and to who is inside. */
  lemma UsersStep(s: State, a: Action, k: LockKey)
    requires Enabled(s, a)
    requires a.Register? ==> a.t !in Users(s.threads, k)
    ensures var u, u' := Users(s.threads, k), Users(Apply(s, a).threads, k);
            u' == match a
                  case Register(t, key, _, _) => if k == key then u + {t} else u
                  case Deregister(t) => u - {t}
                  case _ => u
  {}

  lemma InsideStep(s: State, a: Action)
    requires Enabled(s, a)
    ensures Inside(Apply(s, a)) ==
            match a
            case Grant(t) => Inside(s)[t := Hold(s.threads[t].key, s.threads[t].mode)]
            case Deregister(t) => Inside(s) - {t}
            case _ => Inside(s)
  {}

  /** The counting steps, Lock and Unlock on the map, keep the counts exact. */
  lemma CountingKeepsCounts(s: State, a: Action)
    requires MapInv(s) && ThreadInv(s) && Enabled(s, a) && (a.Register? || a.Deregister?)
    ensures MapInv(Apply(s, a))
  {
    var s' := Apply(s, a);
    forall k | k in s'.lockMap
      ensures s'.lockMap[k] in s'.heap && s'.heap[s'.lockMap[k]].count == |Users(s'.threads, k)| > 0
    {
      UsersStep(s, a, k);
      if k !in s.lockMap { assert Users(s.threads, k) == {}; }
    }
  }

  lemma LockingKeepsCounts(s: State, a: Action)
    requires MapInv(s) && Enabled(s, a) && (a.Grant? || a.Free?)
    ensures MapInv(Apply(s, a))
  {
    var s' := Apply(s, a);
    forall k | k in s'.lockMap ensures s'.heap[s'.lockMap[k]].count == |Users(s'.threads, k)| > 0 {
      UsersStep(s, a, k);
    }
  }

  lemma RegisterKeepsOwners(s: State, a: Action)
    requires MapInv(s) && ThreadInv(s) && HeapInv(s) && Enabled(s, a) && a.Register?
    ensures ThreadInv(Apply(s, a)) && HeapInv(Apply(s, a))
  {}

  lemma DeregisterKeepsThreads(s: State, a: Action)
    requires Inv(s) && Enabled(s, a) && a.Deregister?
    ensures ThreadInv(Apply(s, a))
  {
    var s' := Apply(s, a);
    var key := s.threads[a.t].key;
    forall u | u in s'.threads && s'.threads[u].phase != Releasing ensures s'.threads[u].key in s'.lockMap {
      if s'.threads[u].key == key {
        LastUser(s, key, a.t, u);
      }
    }
  }

  lemma DeregisterKeepsHeap(s: State, a: Action)
    requires ThreadInv(s) && HeapInv(s) && Enabled(s, a) && a.Deregister?
    ensures HeapInv(Apply(s, a))
  {}

  lemma GrantKeepsOwners(s: State, a: Action)
    requires ThreadInv(s) && HeapInv(s) && Enabled(s, a) && a.Grant?
    ensures ThreadInv(Apply(s, a)) && HeapInv(Apply(s, a))
  {}

  lemma FreeKeepsOwners(s: State, a: Action)
    requires ThreadInv(s) && HeapInv(s) && Enabled(s, a) && a.Free?
    ensures ThreadInv(Apply(s, a)) && HeapInv(Apply(s, a))
  {}

  lemma StepKeepsInv(s: State, a: Action)
    requires Inv(s) && Enabled(s, a)
    ensures Inv(Apply(s, a))
  {
    match a
    case Register(_, _, _, _) => CountingKeepsCounts(s, a); RegisterKeepsOwners(s, a);
    case Deregister(_) => CountingKeepsCounts(s, a); DeregisterKeepsThreads(s, a); DeregisterKeepsHeap(s, a);
    case Grant(_) => LockingKeepsCounts(s, a); GrantKeepsOwners(s, a);
    case Free(_) => LockingKeepsCounts(s, a); FreeKeepsOwners(s, a);
  }

  /** With a second user about, the count of a key is above one. */
  lemma LastUser(s: State, k: LockKey, t: Tid, t': Tid)
    requires Inv(s) && t != t' && t in Users(s.threads, k) && t' in Users(s.threads, k)
    ensures k in s.lockMap && s.heap[s.lockMap[k]].count > 1
  {
    assert {t, t'} <= Users(s.threads, k);
    SubsetSize({t, t'}, Users(s.threads, k));
  }

  lemma {:induction false} SubsetSize<T>(a: set<T>, b: set<T>)
    requires a <= b
    ensures |a| <= |b|
  {
    if a != {} {
      var x :| x in a;
      SubsetSize(a - {x}, b - {x});
    }
  }

  // ------------------------------------------------------------------ every run

  /** The states after a run, when every step of it is enabled. */
  function Run(s: State, acts: seq<Action>): Option<State>
    decreases |acts|
  {
    if acts == [] then Some(s)
    else if Enabled(s, acts[0]) then Run(Apply(s, acts[0]), acts[1..])
    else None
  }

  lemma {:induction false} RunKeepsInv(s: State, acts: seq<Action>)
    requires Inv(s) && Run(s, acts).Some?
    ensures Inv(Run(s, acts).value)
    decreases |acts|
  {
    if acts != [] {
      StepKeepsInv(s, acts[0]);
      RunKeepsInv(Apply(s, acts[0]), acts[1..]);
    }
  }

  /** In every run no Unlock finds its entry missing or its mutex unheld. */
  lemma NeverCrashes(acts: seq<Action>, a: Action)
    requires Run(Init(), acts).Some?
    ensures !Crashes(Run(Init(), acts).value, a)
  {
    RunKeepsInv(Init(), acts);
  }

  /** In every run two goroutines inside one name's critical section are both readers. */
  lemma MutualExclusion(acts: seq<Action>, t: Tid, t': Tid)
    requires Run(Init(), acts).Some?
    requires var th := Run(Init(), acts).value.threads;
             t in th && t' in th && t != t' && th[t].phase == th[t'].phase == Holding && th[t].key == th[t'].key
    ensures var th := Run(Init(), acts).value.threads; th[t].mode == th[t'].mode == Read
  {
    RunKeepsInv(Init(), acts);
  }

  /** In every run the map holds exactly the names somebody waits for or holds: no entry leaks. */
  lemma MapIsNamesInUse(acts: seq<Action>, k: LockKey)
    requires Run(Init(), acts).Some?
    ensures var s := Run(Init(), acts).value; k in s.lockMap <==> Users(s.threads, k) != {}
  {
    RunKeepsInv(Init(), acts);
    var s := Run(Init(), acts).value;
    if Users(s.threads, k) != {} {
      var t :| t in Users(s.threads, k);
    }
  }

  /**
   Every step is a step of the plain lock or invisible to it: the granting step enters where the
   plain lock would let it, the counting-out step of Unlock leaves, the other two change nothing.
   */
  lemma RefinesPlainLock(s: State, a: Action)
    requires Inv(s) && Enabled(s, a)
    ensures var held, held' := Inside(s), Inside(Apply(s, a));
            match a
            case Grant(t) => Compatible(held, s.threads[t].key, s.threads[t].mode) && t !in held &&
                             held' == held[t := Hold(s.threads[t].key, s.threads[t].mode)]
            case Deregister(t) => t in held && held' == held - {t}
            case _ => held' == held
  {
    InsideStep(s, a);
  }

  /**
   A goroutine that the plain lock would let in gets in: its grant is enabled, or it waits for a
   goroutine in the last step of Unlock, and that step is enabled.
   */
  lemma GrantedWhenFree(s: State, t: Tid)
    requires Inv(s) && t in s.threads && s.threads[t].phase == Acquiring
    requires Compatible(Inside(s), s.threads[t].key, s.threads[t].mode)
    ensures Enabled(s, Grant(t)) || exists u | u in s.threads ::
              s.threads[u].ref == s.threads[t].ref && s.threads[u].phase == Releasing && Enabled(s, Free(u))
  {
    var th := s.threads[t];
    var v := s.heap[th.ref];
    if !Grantable(v, th.mode) {
      var u: Tid;
      if v.writer != None {
        u := v.writer.value;
      } else {
        u :| u in v.readers;
      }
      assert u in Inside(s) <==> s.threads[u].phase == Holding;
      assert Enabled(s, Free(u));
    }
  }
}
