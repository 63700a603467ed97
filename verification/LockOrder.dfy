/**
 The order in which the managers take their locks. A request takes its locks one by one, keeps them
 (every Unlock is deferred) and gives them back when it returns, early on an error or at the end.
 Any number of requests run at once; the question is whether they can all end up waiting.
 */
module LockOrder {
  import opened Strings
  import opened SpLock

  datatype Class = Vpc | Sg | KeyPair | Cluster | Nlb | Rdbms

  datatype LockName = LockName(kind: Class, key: LockKey)
  datatype Want = Want(lock: LockName, mode: Mode)

  type Rid = nat

  /**
   A request has acquired `program[..got]`. `called`: it is inside the Lock or RLock call for
   `program[got]`. `leaving`: it runs its deferred unlocks.
   */
  datatype Request = Request(program: seq<Want>, got: nat, called: bool, leaving: bool)

  type State = map<Rid, Request>

  /**
   Who a read/write lock makes wait. ReaderFirst: a reader waits for writers inside only.
   WriterWaits, the rule of sync.RWMutex: a reader also waits for writers that are waiting.
   */
  datatype Policy = ReaderFirst | WriterWaits

  predicate Holds(r: Request, l: LockName) {
    exists i | 0 <= i < r.got && i < |r.program| :: r.program[i].lock == l
  }

  predicate HoldsWrite(r: Request, l: LockName) {
    exists i | 0 <= i < r.got && i < |r.program| :: r.program[i] == Want(l, Write)
  }

  predicate WaitsFor(r: Request, w: Want) {
    r.called && r.got < |r.program| && r.program[r.got] == w
  }

  ghost predicate Grantable(policy: Policy, s: State, w: Want) {
    match w.mode
    case Write => forall q | q in s :: !Holds(s[q], w.lock)
    case Read =>
      && (forall q | q in s :: !HoldsWrite(s[q], w.lock))
      && (policy == WriterWaits ==> forall q | q in s :: !WaitsFor(s[q], Want(w.lock, Write)))
  }

  datatype Action =
    | Arrive(r: Rid, program: seq<Want>)
    | Call(r: Rid)
    | Acquire(r: Rid)
    | Leave(r: Rid)
    | Release(r: Rid)

  ghost predicate Enabled(policy: Policy, s: State, a: Action) {
    if a.Arrive? then a.r !in s
    else a.r in s && var q := s[a.r];
      match a
      case Call(_) => !q.called && !q.leaving && q.got < |q.program|
      case Acquire(_) => q.called && q.got < |q.program| && Grantable(policy, s, q.program[q.got])
      case Leave(_) => !q.called && !q.leaving
      case Release(_) => q.leaving && q.got > 0
  }

  ghost function Apply(policy: Policy, s: State, a: Action): State
    requires Enabled(policy, s, a)
  {
    match a
    case Arrive(r, program) => s[r := Request(program, 0, false, false)]
    case Call(r) => s[r := s[r].(called := true)]
    case Acquire(r) => s[r := s[r].(called := false, got := s[r].got + 1)]
    case Leave(r) => s[r := s[r].(leaving := true)]
    case Release(r) => s[r := s[r].(got := s[r].got - 1)]
  }

  ghost function Run(policy: Policy, s: State, acts: seq<Action>): Option<State>
    decreases |acts|
  {
    if acts == [] then Some(s)
    else if Enabled(policy, s, acts[0]) then Run(policy, Apply(policy, s, acts[0]), acts[1..])
    else None
  }

  predicate Finished(r: Request) { r.leaving && r.got == 0 }

  ghost predicate CanStep(policy: Policy, s: State, r: Rid) {
    exists a: Action :: a.r == r && !a.Arrive? && Enabled(policy, s, a)
  }

  /** Somebody is unfinished and nobody unfinished can move. */
  ghost predicate Deadlocked(policy: Policy, s: State) {
    && (exists r | r in s :: !Finished(s[r]))
    && (forall r | r in s && !Finished(s[r]) :: !CanStep(policy, s, r))
  }

  // ------------------------------------------------------------------ the code's lock sequences

  function Rank(c: Class): nat {
    match c
    case Vpc => 0
    case Sg => 1
    case KeyPair => 2
    case _ => 3
  }

  /** The order the code keeps: ranks never fall, and within a rank only reads follow one another. */
  predicate InOrder(p: seq<Want>) {
    forall i, j | 0 <= i < j < |p| ::
      Rank(p[i].lock.kind) < Rank(p[j].lock.kind) ||
      (Rank(p[i].lock.kind) == Rank(p[j].lock.kind) && p[i].mode == Read && p[j].mode == Read)
  }

  function Reads(c: Class, conn: string, names: seq<string>): (ws: seq<Want>)
    ensures |ws| == |names|
    ensures forall i | 0 <= i < |ws| :: ws[i] == Want(LockName(c, LockKey(conn, names[i])), Read)
  {
    seq(|names|, i requires 0 <= i < |names| => Want(LockName(c, LockKey(conn, names[i])), Read))
  }

  function One(c: Class, mode: Mode, conn: string, name: string): Want {
    Want(LockName(c, LockKey(conn, name)), mode)
  }

  function CreateClusterLocks(conn: string, vpc: string, sgs: seq<string>, keys: seq<string>, name: string): seq<Want> {
    [One(Vpc, Read, conn, vpc)] + Reads(Sg, conn, sgs) + Reads(KeyPair, conn, keys) + [One(Cluster, Write, conn, name)]
  }

  function CreateRDBMSLocks(conn: string, vpc: string, sgs: seq<string>, name: string): seq<Want> {
    [One(Vpc, Read, conn, vpc)] + Reads(Sg, conn, sgs) + [One(Rdbms, Write, conn, name)]
  }

  function AddNodeGroupLocks(conn: string, key: string, cluster: string): seq<Want> {
    [One(KeyPair, Read, conn, key), One(Cluster, Write, conn, cluster)]
  }

  /** RegisterCluster, CreateNLB, RegisterNLB and RegisterRDBMS: the VPC for reading, then one name. */
  function UnderVpcLocks(c: Class, conn: string, vpc: string, name: string): seq<Want> {
    [One(Vpc, Read, conn, vpc), One(c, Write, conn, name)]
  }

  /** CreateSecurity and RegisterSecurity lock the VPC for writing. */
  function CreateSecurityLocks(conn: string, vpc: string, name: string): seq<Want> {
    [One(Vpc, Write, conn, vpc), One(Sg, Write, conn, name)]
  }

  /** ListVpcSecurity keeps every group it has visited locked until it returns. */
  function ListVpcSecurityLocks(conn: string, sgs: seq<string>): seq<Want> {
    Reads(Sg, conn, sgs)
  }

  lemma CodeIsInOrder(conn: string, vpc: string, sgs: seq<string>, keys: seq<string>, name: string, c: Class, m: Mode)
    requires Rank(c) == 3
    ensures InOrder(CreateClusterLocks(conn, vpc, sgs, keys, name))
    ensures InOrder(CreateRDBMSLocks(conn, vpc, sgs, name))
    ensures InOrder(AddNodeGroupLocks(conn, vpc, name))
    ensures InOrder(UnderVpcLocks(c, conn, vpc, name))
    ensures InOrder(CreateSecurityLocks(conn, vpc, name))
    ensures InOrder(ListVpcSecurityLocks(conn, sgs))
    ensures InOrder([One(c, m, conn, name)])
  {}

  /** The order by name: VPCs first, then security groups, then key pairs, then everything else. */
  lemma OrderByName(p: seq<Want>, i: nat, j: nat)
    requires InOrder(p) && i < j < |p|
    ensures p[j].lock.kind == Vpc ==> p[i].lock.kind == Vpc
    ensures p[j].lock.kind == Sg ==> p[i].lock.kind in {Vpc, Sg}
    ensures p[j].lock.kind == KeyPair ==> p[i].lock.kind in {Vpc, Sg, KeyPair}
    ensures p[j].mode == Write ==> p[i].lock != p[j].lock
    ensures p[i].lock.kind !in {Vpc, Sg, KeyPair} ==> p[i].mode == p[j].mode == Read
  {}

  // ------------------------------------------------------------------ well-formed states

  ghost predicate WellFormed(s: State) {
    forall r | r in s ::
      s[r].got <= |s[r].program| && (s[r].called ==> !s[r].leaving && s[r].got < |s[r].program|)
  }

  ghost predicate Programs(s: State, ok: seq<Want> -> bool) {
    forall r | r in s :: ok(s[r].program)
  }

  ghost predicate Arrivals(acts: seq<Action>, ok: seq<Want> -> bool) {
    forall i | 0 <= i < |acts| && acts[i].Arrive? :: ok(acts[i].program)
  }

  lemma {:induction false} RunKeepsWellFormed(policy: Policy, s: State, acts: seq<Action>, ok: seq<Want> -> bool)
    requires WellFormed(s) && Programs(s, ok) && Arrivals(acts, ok) && Run(policy, s, acts).Some?
    ensures WellFormed(Run(policy, s, acts).value) && Programs(Run(policy, s, acts).value, ok)
    decreases |acts|
  {
    if acts != [] {
      var s' := Apply(policy, s, acts[0]);
      assert WellFormed(s') && Programs(s', ok);
      RunKeepsWellFormed(policy, s', acts[1..], ok);
    }
  }

  /** A request that is unfinished and not inside a lock call can move. */
  lemma OutsideCallCanStep(policy: Policy, s: State, r: Rid)
    requires WellFormed(s) && r in s && !Finished(s[r]) && !s[r].called
    ensures CanStep(policy, s, r)
  {
    if s[r].leaving {
      assert Enabled(policy, s, Release(r));
    } else {
      assert Enabled(policy, s, Leave(r));
    }
  }

  /** The waiting request whose wanted lock stands highest. */
  lemma {:induction false} Highest(s: State, rs: set<Rid>, height: LockName -> int) returns (p: Rid)
    requires WellFormed(s) && rs != {}
    requires forall r | r in rs :: r in s && s[r].called
    ensures p in rs
    ensures forall r | r in rs :: height(s[r].program[s[r].got].lock) <= height(s[p].program[s[p].got].lock)
  {
    p :| p in rs;
    if rs != {p} {
      var q := Highest(s, rs - {p}, height);
      if height(s[p].program[s[p].got].lock) < height(s[q].program[s[q].got].lock) {
        p := q;
      }
    }
  }

  // ------------------------------------------------------------------ what is in use is not changed

  /** A lock that one request holds for writing is held by nobody else. */
  ghost predicate Exclusive(s: State) {
    forall r, q, l | r in s && q in s && r != q && HoldsWrite(s[r], l) :: !Holds(s[q], l)
  }

  lemma Acquired(r: Request, l: LockName)
    requires r.got < |r.program|
    ensures var r' := r.(called := false, got := r.got + 1);
            (Holds(r', l) <==> Holds(r, l) || r.program[r.got].lock == l) &&
            (HoldsWrite(r', l) <==> HoldsWrite(r, l) || r.program[r.got] == Want(l, Write))
  {
    var r' := r.(called := false, got := r.got + 1);
    if i :| 0 <= i < r.got && r.program[i].lock == l { assert r'.program[i].lock == l; }
    if i :| 0 <= i < r.got && r.program[i] == Want(l, Write) { assert r'.program[i] == Want(l, Write); }
    if r.program[r.got].lock == l { assert r'.program[r.got].lock == l; }
  }

  lemma AcquireKeepsExclusive(policy: Policy, s: State, r: Rid)
    requires WellFormed(s) && Exclusive(s) && Enabled(policy, s, Acquire(r))
    ensures Exclusive(Apply(policy, s, Acquire(r)))
  {
    var s' := Apply(policy, s, Acquire(r));
    forall t, q, l | t in s' && q in s' && t != q && HoldsWrite(s'[t], l) ensures !Holds(s'[q], l) {
      Acquired(s[r], l);
    }
  }

  lemma StepKeepsExclusive(policy: Policy, s: State, a: Action)
    requires WellFormed(s) && Exclusive(s) && Enabled(policy, s, a)
    ensures WellFormed(Apply(policy, s, a)) && Exclusive(Apply(policy, s, a))
  {
    if a.Acquire? { AcquireKeepsExclusive(policy, s, a.r); }
  }

  lemma {:induction false} RunKeepsExclusive(policy: Policy, s: State, acts: seq<Action>)
    requires WellFormed(s) && Exclusive(s) && Run(policy, s, acts).Some?
    ensures Exclusive(Run(policy, s, acts).value)
    decreases |acts|
  {
    if acts != [] {
      StepKeepsExclusive(policy, s, acts[0]);
      RunKeepsExclusive(policy, Apply(policy, s, acts[0]), acts[1..]);
    }
  }

  /** What a request has acquired, others do not hold for writing, nor at all if it is for writing. */
  lemma Guarded(s: State, r: Rid, q: Rid, w: Want)
    requires Exclusive(s) && r in s && q in s && r != q && s[r].got == |s[r].program| && w in s[r].program
    ensures !HoldsWrite(s[q], w.lock) && (w.mode == Write ==> !Holds(s[q], w.lock))
  {
    var i :| 0 <= i < |s[r].program| && s[r].program[i] == w;
    assert Holds(s[r], w.lock) && (w.mode == Write ==> HoldsWrite(s[r], w.lock));
  }

  /** Nobody else changes or deletes this, or, if it is to be made, uses it at all. */
  ghost predicate Used(q: Request, c: Class, conn: string, name: string) { !HoldsWrite(q, LockName(c, LockKey(conn, name))) }

  ghost predicate Untouched(q: Request, c: Class, conn: string, name: string) { !Holds(q, LockName(c, LockKey(conn, name))) }

  /**
   In every run, under either rule: while CreateCluster is at work, its VPC, its security groups and
   its key pairs are not changed or deleted by anybody, and nobody else works on its name.
   */
  lemma CreateClusterGuards(policy: Policy, acts: seq<Action>, s: State, r: Rid, q: Rid,
                            conn: string, vpc: string, sgs: seq<string>, keys: seq<string>, name: string)
    requires Run(policy, map[], acts) == Some(s) && r in s && q in s && r != q
    requires s[r].program == CreateClusterLocks(conn, vpc, sgs, keys, name) && s[r].got == |s[r].program|
    ensures Used(s[q], Vpc, conn, vpc) && Untouched(s[q], Cluster, conn, name)
    ensures forall i | 0 <= i < |sgs| :: Used(s[q], Sg, conn, sgs[i])
    ensures forall i | 0 <= i < |keys| :: Used(s[q], KeyPair, conn, keys[i])
  {
    RunKeepsExclusive(policy, map[], acts);
    Guarded(s, r, q, One(Vpc, Read, conn, vpc));
    Guarded(s, r, q, One(Cluster, Write, conn, name));
    forall i | 0 <= i < |sgs| ensures Used(s[q], Sg, conn, sgs[i]) {
      assert s[r].program[1 + i] == One(Sg, Read, conn, sgs[i]);
      Guarded(s, r, q, One(Sg, Read, conn, sgs[i]));
    }
    forall i | 0 <= i < |keys| ensures Used(s[q], KeyPair, conn, keys[i]) {
      assert s[r].program[1 + |sgs| + i] == One(KeyPair, Read, conn, keys[i]);
      Guarded(s, r, q, One(KeyPair, Read, conn, keys[i]));
    }
  }

  /** The same for the others: what each of them uses, and the name that it works on. */
  lemma OthersGuard(policy: Policy, acts: seq<Action>, s: State, r: Rid, q: Rid,
                    c: Class, conn: string, vpc: string, sgs: seq<string>, key: string, name: string)
    requires Run(policy, map[], acts) == Some(s) && r in s && q in s && r != q && s[r].got == |s[r].program|
    ensures s[r].program == CreateRDBMSLocks(conn, vpc, sgs, name) ==>
              Used(s[q], Vpc, conn, vpc) && (forall i | 0 <= i < |sgs| :: Used(s[q], Sg, conn, sgs[i])) && Untouched(s[q], Rdbms, conn, name)
    ensures s[r].program == AddNodeGroupLocks(conn, key, name) ==> Used(s[q], KeyPair, conn, key) && Untouched(s[q], Cluster, conn, name)
    ensures s[r].program == UnderVpcLocks(c, conn, vpc, name) ==> Used(s[q], Vpc, conn, vpc) && Untouched(s[q], c, conn, name)
    ensures s[r].program == CreateSecurityLocks(conn, vpc, name) ==> Untouched(s[q], Vpc, conn, vpc) && Untouched(s[q], Sg, conn, name)
    ensures s[r].program == ListVpcSecurityLocks(conn, sgs) ==> forall i | 0 <= i < |sgs| :: Used(s[q], Sg, conn, sgs[i])
  {
    RunKeepsExclusive(policy, map[], acts);
    forall w | w in s[r].program ensures !HoldsWrite(s[q], w.lock) && (w.mode == Write ==> !Holds(s[q], w.lock)) {
      Guarded(s, r, q, w);
    }
    RDBMSNames(conn, vpc, sgs, name);
    assert forall i | 0 <= i < |sgs| :: ListVpcSecurityLocks(conn, sgs)[i] == One(Sg, Read, conn, sgs[i]);
    assert AddNodeGroupLocks(conn, key, name)[0] == One(KeyPair, Read, conn, key) && AddNodeGroupLocks(conn, key, name)[1] == One(Cluster, Write, conn, name);
    assert UnderVpcLocks(c, conn, vpc, name)[0] == One(Vpc, Read, conn, vpc) && UnderVpcLocks(c, conn, vpc, name)[1] == One(c, Write, conn, name);
    assert CreateSecurityLocks(conn, vpc, name)[0] == One(Vpc, Write, conn, vpc) && CreateSecurityLocks(conn, vpc, name)[1] == One(Sg, Write, conn, name);
  }

  lemma RDBMSNames(conn: string, vpc: string, sgs: seq<string>, name: string)
    ensures var p := CreateRDBMSLocks(conn, vpc, sgs, name);
            One(Vpc, Read, conn, vpc) in p && One(Rdbms, Write, conn, name) in p &&
            forall i | 0 <= i < |sgs| :: One(Sg, Read, conn, sgs[i]) in p
  {
    var groups := Reads(Sg, conn, sgs);
    forall i | 0 <= i < |sgs| ensures One(Sg, Read, conn, sgs[i]) in CreateRDBMSLocks(conn, vpc, sgs, name) {
      assert groups[i] == One(Sg, Read, conn, sgs[i]);
      assert groups[i] in groups;
    }
  }

  // ------------------------------------------------------------------ no deadlock when readers go first

  /** With locks that let a reader in whenever no writer is inside, the code's order never deadlocks. */
  lemma NeverStuck(s: State) returns (r: Rid)
    requires WellFormed(s) && Programs(s, InOrder)
    requires exists r | r in s :: !Finished(s[r])
    ensures r in s && !Finished(s[r]) && CanStep(ReaderFirst, s, r)
  {
    if r0 :| r0 in s && !Finished(s[r0]) && !s[r0].called {
      OutsideCallCanStep(ReaderFirst, s, r0);
      return r0;
    }
    var waiting := set r | r in s && s[r].called;
    var r1 :| r1 in s && !Finished(s[r1]);
    assert r1 in waiting;
    var p := Highest(s, waiting, (l: LockName) => Rank(l.kind));
    var w := s[p].program[s[p].got];
    if Grantable(ReaderFirst, s, w) {
      assert Enabled(ReaderFirst, s, Acquire(p));
      return p;
    }
    // a holder of the wanted lock waits on the same rank, so it is a reader waiting to read
    var q :| q in s && Holds(s[q], w.lock);
    var w2 := s[q].program[s[q].got];
    assert w2.mode == Read && Rank(w2.lock.kind) == Rank(w.lock.kind);
    // a writer in its way would wait on that rank too, which no writer does
    assert forall u | u in s :: !HoldsWrite(s[u], w2.lock);
    assert Enabled(ReaderFirst, s, Acquire(q));
    return q;
  }

  /** In every run of requests that keep the code's order, over reader-first locks, somebody can move. */
  lemma NoDeadlock(acts: seq<Action>)
    requires Arrivals(acts, InOrder) && Run(ReaderFirst, map[], acts).Some?
    ensures !Deadlocked(ReaderFirst, Run(ReaderFirst, map[], acts).value)
  {
    RunKeepsWellFormed(ReaderFirst, map[], acts, InOrder);
    var s := Run(ReaderFirst, map[], acts).value;
    if exists r | r in s :: !Finished(s[r]) {
      var r := NeverStuck(s);
    }
  }

  // ------------------------------------------------------------------ sync.RWMutex

  /** Lock sequences that climb strictly along one order of all locks. */
  ghost predicate Climbs(p: seq<Want>, height: LockName -> int) {
    forall i, j | 0 <= i < j < |p| :: height(p[i].lock) < height(p[j].lock)
  }

  /** Requests that climb strictly along one common order never deadlock, under either rule. */
  lemma ClimbingNeverStuck(policy: Policy, s: State, height: LockName -> int) returns (r: Rid)
    requires WellFormed(s) && forall r | r in s :: Climbs(s[r].program, height)
    requires exists r | r in s :: !Finished(s[r])
    ensures r in s && !Finished(s[r]) && CanStep(policy, s, r)
  {
    if r0 :| r0 in s && !Finished(s[r0]) && !s[r0].called {
      OutsideCallCanStep(policy, s, r0);
      return r0;
    }
    var waiting := set r | r in s && s[r].called;
    var r1 :| r1 in s && !Finished(s[r1]);
    assert r1 in waiting;
    var p := Highest(s, waiting, height);
    var w := s[p].program[s[p].got];
    // nobody holds the highest wanted lock: a holder would want a higher one
    assert forall q | q in s :: !Holds(s[q], w.lock);
    if u :| u in s && WaitsFor(s[u], Want(w.lock, Write)) {
      assert Enabled(policy, s, Acquire(u));
      return u;
    }
    assert forall q | q in s :: HoldsWrite(s[q], w.lock) ==> Holds(s[q], w.lock);
    assert Enabled(policy, s, Acquire(p));
    return p;
  }

  /** Some lock is named twice among the first `n`. */
  predicate RepeatsIn(p: seq<Want>, n: nat)
    requires n <= |p|
  {
    exists i, j | 0 <= i < j < n :: p[i].lock == p[j].lock
  }

  predicate Repeats(p: seq<Want>) { RepeatsIn(p, |p|) }

  /** One request with sequence `p`, every other one takes a single lock, as the delete calls do. */
  ghost predicate OneAmongSingles(s: State, p: seq<Want>) {
    0 in s && s[0].program == p && forall r | r in s && r != 0 :: |s[r].program| == 1
  }

  /** `ok` and the single-lock sequences of the delete calls. */
  function WithSingles(ok: seq<Want> -> bool): seq<Want> -> bool {
    p => ok(p) || |p| == 1
  }

  ghost predicate EndsStuck(acts: seq<Action>) {
    var end := Run(WriterWaits, map[], acts);
    end.Some? && Deadlocked(WriterWaits, end.value)
  }

  /** Any number of requests with sequences out of `ok`, beside single-lock requests, can deadlock. */
  ghost predicate CanDeadlockAmong(ok: seq<Want> -> bool) {
    exists acts :: Arrivals(acts, WithSingles(ok)) && EndsStuck(acts)
  }

  /** One request with sequence `p` among single-lock requests can deadlock. */
  ghost predicate CanDeadlock(p: seq<Want>) {
    exists acts :: Arrivals(acts, WithSingles(q => q == p)) && EndsStuck(acts) &&
                   OneAmongSingles(Run(WriterWaits, map[], acts).value, p)
  }

  lemma {:induction false} RunConcat(policy: Policy, s: State, a: seq<Action>, b: seq<Action>)
    requires Run(policy, s, a).Some?
    ensures Run(policy, s, a + b) == Run(policy, Run(policy, s, a).value, b)
    decreases |a|
  {
    if a == [] {
      assert a + b == b;
    } else {
      assert (a + b)[1..] == a[1..] + b;
      RunConcat(policy, Apply(policy, s, a[0]), a[1..], b);
    }
  }

  /** One more step of a run. */
  lemma Extend(policy: Policy, acts: seq<Action>, s: State, a: Action) returns (acts': seq<Action>, s': State)
    requires Run(policy, map[], acts) == Some(s) && Enabled(policy, s, a)
    ensures acts' == acts + [a] && s' == Apply(policy, s, a)
    ensures Run(policy, map[], acts') == Some(s')
  {
    RunConcat(policy, map[], acts, [a]);
    acts', s' := acts + [a], Apply(policy, s, a);
    assert Run(policy, s', [a][1..]) == Some(s');
  }

  /** A run goes on until request `r`, new or holding its first `n` locks, waits for its next one. */
  lemma Waits(acts: seq<Action>, s: State, r: Rid, p: seq<Want>, n: nat) returns (acts': seq<Action>, s': State)
    requires Run(WriterWaits, map[], acts) == Some(s) && n < |p|
    requires if r in s then s[r] == Request(p, n, false, false) else n == 0
    ensures s' == s[r := Request(p, n, true, false)]
    ensures Run(WriterWaits, map[], acts') == Some(s')
    ensures acts' == acts + (if r in s then [Call(r)] else [Arrive(r, p), Call(r)])
  {
    acts', s' := acts, s;
    if r !in s {
      acts', s' := Extend(WriterWaits, acts, s, Arrive(r, p));
    }
    acts', s' := Extend(WriterWaits, acts', s', Call(r));
  }

  /** A lone request takes its first `n` locks, when they are pairwise different. */
  lemma {:induction false} TakesAlone(p: seq<Want>, n: nat) returns (acts: seq<Action>)
    requires n <= |p| && !RepeatsIn(p, n)
    ensures Run(WriterWaits, map[], acts) == Some(map[0 := Request(p, n, false, false)])
    ensures Arrivals(acts, q => q == p)
  {
    var s: State;
    if n == 0 {
      acts, s := Extend(WriterWaits, [], map[], Arrive(0, p));
    } else {
      acts := TakesAlone(p, n - 1);
      acts, s := Extend(WriterWaits, acts, map[0 := Request(p, n - 1, false, false)], Call(0));
      acts, s := Extend(WriterWaits, acts, s, Acquire(0));
    }
    assert s == map[0 := Request(p, n, false, false)];
  }

  /** The first lock of a sequence that was taken before. */
  lemma {:induction false} FirstRepeat(p: seq<Want>, n: nat) returns (i: nat, j: nat)
    requires n <= |p| && RepeatsIn(p, n)
    ensures i < j < n && p[i].lock == p[j].lock && !RepeatsIn(p, j)
  {
    if RepeatsIn(p, n - 1) {
      i, j := FirstRepeat(p, n - 1);
    } else {
      i, j :| 0 <= i < j < n && p[i].lock == p[j].lock;
    }
  }

  lemma StuckOnItself(s: State, p: seq<Want>, i: nat, j: nat)
    requires InOrder(p) && i < j < |p| && p[i].lock == p[j].lock
    requires s == map[0 := Request(p, j, true, false), 1 := Request([Want(p[i].lock, Write)], 0, true, false)]
    ensures Deadlocked(WriterWaits, s)
  {
    assert Holds(s[0], p[i].lock);
    assert WaitsFor(s[1], Want(p[j].lock, Write)) && p[j].mode == Read;
  }

  /** A repetition deadlocks: a writer starts to wait between the two RLocks of one name. */
  lemma RepeatDeadlocks(p: seq<Want>)
    requires InOrder(p) && Repeats(p)
    ensures CanDeadlock(p)
  {
    var i, j := FirstRepeat(p, |p|);
    var acts := TakesAlone(p, j);
    var writer := [Want(p[i].lock, Write)];
    var s := map[0 := Request(p, j, false, false)];
    acts, s := Waits(acts, s, 1, writer, 0);
    acts, s := Waits(acts, s, 0, p, j);
    StuckOnItself(s, p, i, j);
    assert EndsStuck(acts) && Arrivals(acts, WithSingles(q => q == p));
  }

  // ------------------------------------------------------------------ any number of multi-lock requests

  /** A sequence takes `l` and, still holding it, `m`. */
  predicate Takes(p: seq<Want>, i: int, j: int, l: LockName, m: LockName) {
    0 <= i < j < |p| && p[i].lock == l && p[j].lock == m
  }

  ghost predicate Before(ok: seq<Want> -> bool, l: LockName, m: LockName) {
    exists p, i, j :: ok(p) && Takes(p, i, j, l, m)
  }

  ghost predicate Walk(ok: seq<Want> -> bool, c: seq<LockName>) {
    forall e | 0 <= e < |c| - 1 :: Before(ok, c[e], c[e + 1])
  }

  ghost predicate ClosedWalk(ok: seq<Want> -> bool, c: seq<LockName>) {
    |c| >= 2 && c[0] == c[|c| - 1] && Walk(ok, c)
  }

  /** Going from locks to locks taken later, some walk comes back to where it began. */
  ghost predicate Cyclic(ok: seq<Want> -> bool) {
    exists c :: ClosedWalk(ok, c)
  }

  /** The code's order, and whoever takes two locks of one rank has only read until then. */
  predicate CodeShaped(p: seq<Want>) {
    InOrder(p) &&
    forall i, j | 0 <= i < j < |p| && Rank(p[i].lock.kind) == Rank(p[j].lock.kind) :: forall k | 0 <= k <= j :: p[k].mode == Read
  }

  /** Reads, and whatever comes last. */
  predicate MostlyReads(p: seq<Want>) { forall k | 0 <= k < |p| - 1 :: p[k].mode == Read }

  lemma ReadersAreShaped(p: seq<Want>)
    requires InOrder(p) && MostlyReads(p)
    ensures CodeShaped(p)
  {}

  lemma CodeIsShaped(conn: string, vpc: string, sgs: seq<string>, keys: seq<string>, name: string, c: Class)
    requires Rank(c) == 3
    ensures CodeShaped(CreateClusterLocks(conn, vpc, sgs, keys, name))
    ensures CodeShaped(CreateRDBMSLocks(conn, vpc, sgs, name))
    ensures CodeShaped(AddNodeGroupLocks(conn, vpc, name))
    ensures CodeShaped(UnderVpcLocks(c, conn, vpc, name))
    ensures CodeShaped(CreateSecurityLocks(conn, vpc, name))
    ensures CodeShaped(ListVpcSecurityLocks(conn, sgs))
  {
    CodeIsInOrder(conn, vpc, sgs, keys, name, c, Write);
    ReadersAreShaped(CreateClusterLocks(conn, vpc, sgs, keys, name));
    ReadersAreShaped(CreateRDBMSLocks(conn, vpc, sgs, name));
    ReadersAreShaped(AddNodeGroupLocks(conn, vpc, name));
    ReadersAreShaped(UnderVpcLocks(c, conn, vpc, name));
    ReadersAreShaped(ListVpcSecurityLocks(conn, sgs));
  }

  // a deadlock has a cycle: every wanted lock is held by a request that wants the next one

  predicate Wanted(s: State, l: LockName) {
    exists r | r in s :: s[r].called && s[r].got < |s[r].program| && s[r].program[s[r].got].lock == l
  }

  /** Somebody gets a wanted lock that nobody holds: the writer that waits for it, if there is one. */
  lemma FreeIsTaken(s: State, l: LockName) returns (r: Rid)
    requires WellFormed(s) && Wanted(s, l) && forall q | q in s :: !Holds(s[q], l)
    ensures r in s && !Finished(s[r]) && CanStep(WriterWaits, s, r)
  {
    assert forall q | q in s && HoldsWrite(s[q], l) :: Holds(s[q], l);
    if u :| u in s && WaitsFor(s[u], Want(l, Write)) {
      r := u;
    } else {
      r :| r in s && s[r].called && s[r].program[s[r].got].lock == l;
    }
    assert Enabled(WriterWaits, s, Acquire(r));
  }

  /** In a deadlock somebody holds each wanted lock. */
  lemma WantedIsHeld(s: State, l: LockName) returns (h: Rid)
    requires WellFormed(s) && Deadlocked(WriterWaits, s) && Wanted(s, l)
    ensures h in s && Holds(s[h], l)
  {
    if forall q | q in s :: !Holds(s[q], l) {
      var r := FreeIsTaken(s, l);
      assert false;
    }
    h :| h in s && Holds(s[h], l);
  }

  lemma WantedGoesOn(s: State, ok: seq<Want> -> bool, l: LockName) returns (m: LockName)
    requires WellFormed(s) && Programs(s, WithSingles(ok)) && Deadlocked(WriterWaits, s) && Wanted(s, l)
    ensures Wanted(s, m) && Before(ok, l, m)
  {
    var h := WantedIsHeld(s, l);
    if !s[h].called { OutsideCallCanStep(WriterWaits, s, h); }
    var i :| 0 <= i < s[h].got && s[h].program[i].lock == l;
    m := s[h].program[s[h].got].lock;
    assert Takes(s[h].program, i, s[h].got, l, m);
  }

  lemma {:induction false} WantedWalk(s: State, ok: seq<Want> -> bool, n: nat) returns (c: seq<LockName>)
    requires WellFormed(s) && Programs(s, WithSingles(ok)) && Deadlocked(WriterWaits, s)
    ensures |c| == n + 1 && Walk(ok, c) && forall e | 0 <= e < |c| :: Wanted(s, c[e])
  {
    if n == 0 {
      var r :| r in s && !Finished(s[r]);
      if !s[r].called { OutsideCallCanStep(WriterWaits, s, r); }
      c := [s[r].program[s[r].got].lock];
    } else {
      c := WantedWalk(s, ok, n - 1);
      var m := WantedGoesOn(s, ok, c[n - 1]);
      c := c + [m];
    }
  }

  lemma {:induction false} Pigeons<T>(c: seq<T>, holes: set<T>) returns (i: nat, j: nat)
    requires |c| > |holes| && forall e | 0 <= e < |c| :: c[e] in holes
    ensures i < j < |c| && c[i] == c[j]
  {
    var n := |c| - 1;
    if k :| 0 <= k < n && c[k] == c[n] {
      i, j := k, n;
    } else {
      i, j := Pigeons(c[..n], holes - {c[n]});
    }
  }

  lemma StuckIsCyclic(s: State, ok: seq<Want> -> bool)
    requires WellFormed(s) && Programs(s, WithSingles(ok)) && Deadlocked(WriterWaits, s)
    ensures Cyclic(ok)
  {
    var wanted := set r | r in s && s[r].called && s[r].got < |s[r].program| :: s[r].program[s[r].got].lock;
    var c := WantedWalk(s, ok, |wanted|);
    forall e | 0 <= e < |c| ensures c[e] in wanted {
      assert Wanted(s, c[e]);
    }
    var i, j := Pigeons(c, wanted);
    var d := c[i..j + 1];
    forall e | 0 <= e < |d| - 1 ensures Before(ok, d[e], d[e + 1]) {
      assert Before(ok, c[i + e], c[i + e + 1]);
    }
    assert ClosedWalk(ok, d);
  }

  // a cycle deadlocks: one reader per edge goes as far as it can, then a writer per lock, then the readers go on

  datatype Edge = Edge(p: seq<Want>, i: nat, j: nat)

  /** Everything up to the edge's second lock is a read. */
  predicate ReadsTo(e: Edge) {
    e.j < |e.p| && forall k | 0 <= k <= e.j :: e.p[k].mode == Read
  }

  predicate AllRead(es: seq<Edge>) { forall e | 0 <= e < |es| :: ReadsTo(es[e]) }

  /** The edges that a walk goes along. */
  ghost predicate Along(ok: seq<Want> -> bool, c: seq<LockName>, es: seq<Edge>) {
    |es| == |c| - 1 && forall e | 0 <= e < |es| :: ok(es[e].p) && Takes(es[e].p, es[e].i, es[e].j, c[e], c[e + 1])
  }

  lemma {:induction false} EdgesOf(ok: seq<Want> -> bool, c: seq<LockName>) returns (es: seq<Edge>)
    requires |c| >= 1 && Walk(ok, c)
    ensures Along(ok, c, es)
  {
    var n := |c| - 1;
    if n == 0 {
      es := [];
    } else {
      es := EdgesOf(ok, c[..n]);
      assert Before(ok, c[n - 1], c[n]);
      var p, i, j :| ok(p) && Takes(p, i, j, c[n - 1], c[n]);
      es := es + [Edge(p, i, j)];
    }
  }

  lemma {:induction false} RanksRise(c: seq<LockName>, ok: seq<Want> -> bool, es: seq<Edge>, a: nat, b: nat)
    requires Along(ok, c, es) && (forall e | 0 <= e < |es| :: CodeShaped(es[e].p)) && a <= b < |c|
    ensures Rank(c[a].kind) <= Rank(c[b].kind)
  {
    if a < b {
      RanksRise(c, ok, es, a, b - 1);
      assert Takes(es[b - 1].p, es[b - 1].i, es[b - 1].j, c[b - 1], c[b]);
    }
  }

  /** The edges of a closed walk stay in one rank, so everything up to their second lock is a read. */
  lemma CycleReads(c: seq<LockName>, ok: seq<Want> -> bool, es: seq<Edge>, e: nat)
    requires Along(ok, c, es) && (forall e | 0 <= e < |es| :: CodeShaped(es[e].p)) && c[0] == c[|c| - 1] && e < |es|
    ensures ReadsTo(es[e])
  {
    RanksRise(c, ok, es, 0, e);
    RanksRise(c, ok, es, e, e + 1);
    RanksRise(c, ok, es, e + 1, |c| - 1);
    assert Takes(es[e].p, es[e].i, es[e].j, c[e], c[e + 1]);
  }

  /** So far everybody has only read, and nobody waits. */
  predicate OnlyReaders(s: State) {
    forall r | r in s :: !s[r].called && s[r].got <= |s[r].program| && forall k | 0 <= k < s[r].got :: s[r].program[k].mode == Read
  }

  lemma {:induction false} ReadsAlong(acts: seq<Action>, s: State, r: Rid, p: seq<Want>, n: nat) returns (acts': seq<Action>, s': State)
    requires Run(WriterWaits, map[], acts) == Some(s) && OnlyReaders(s) && r !in s
    requires n <= |p| && forall k | 0 <= k < n :: p[k].mode == Read
    ensures s' == s[r := Request(p, n, false, false)] && Run(WriterWaits, map[], acts') == Some(s') && OnlyReaders(s')
    ensures forall ok | Arrivals(acts, ok) && ok(p) :: Arrivals(acts', ok)
  {
    if n == 0 {
      acts', s' := Extend(WriterWaits, acts, s, Arrive(r, p));
    } else {
      acts', s' := ReadsAlong(acts, s, r, p, n - 1);
      acts', s' := Extend(WriterWaits, acts', s', Call(r));
      assert forall q | q in s' :: forall l :: !HoldsWrite(s'[q], l);
      acts', s' := Extend(WriterWaits, acts', s', Acquire(r));
    }
  }

  /** `n` readers hold what they have before their edge's second lock, `k` writers wait, `m` readers wait. */
  ghost predicate Stage(s: State, es: seq<Edge>, c: seq<LockName>, n: nat, k: nat, m: nat) {
    n <= |es| < |c| && k <= |es| && m <= n && (k > 0 ==> n == |es|) &&
    (forall r: Rid :: r in s <==> r < n || |es| <= r < |es| + k) &&
    (forall r: Rid | r < n :: s[r] == Request(es[r].p, es[r].j, r < m, false)) &&
    (forall r: Rid | |es| <= r < |es| + k :: s[r] == Request([Want(c[r - |es|], Write)], 0, true, false))
  }

  lemma {:induction false} ReadersIn(ok: seq<Want> -> bool, c: seq<LockName>, es: seq<Edge>, n: nat) returns (acts: seq<Action>, s: State)
    requires Along(ok, c, es) && n <= |es| && AllRead(es)
    ensures Run(WriterWaits, map[], acts) == Some(s) && Stage(s, es, c, n, 0, 0) && OnlyReaders(s)
    ensures Arrivals(acts, WithSingles(ok))
  {
    if n == 0 {
      acts, s := [], map[];
    } else {
      acts, s := ReadersIn(ok, c, es, n - 1);
      acts, s := ReadsAlong(acts, s, n - 1, es[n - 1].p, es[n - 1].j);
    }
  }

  lemma NextWriter(s: State, es: seq<Edge>, c: seq<LockName>, k: nat)
    requires 1 <= k <= |es| == |c| - 1 && Stage(s, es, c, |es|, k - 1, 0)
    ensures |es| + k - 1 !in s
    ensures Stage(s[|es| + k - 1 := Request([Want(c[k - 1], Write)], 0, true, false)], es, c, |es|, k, 0)
  {}

  lemma {:induction false} WritersWait(ok: seq<Want> -> bool, c: seq<LockName>, es: seq<Edge>, k: nat) returns (acts: seq<Action>, s: State)
    requires Along(ok, c, es) && k <= |es| && AllRead(es)
    ensures Run(WriterWaits, map[], acts) == Some(s) && Stage(s, es, c, |es|, k, 0)
    ensures Arrivals(acts, WithSingles(ok))
  {
    if k == 0 {
      acts, s := ReadersIn(ok, c, es, |es|);
    } else {
      acts, s := WritersWait(ok, c, es, k - 1);
      NextWriter(s, es, c, k);
      acts, s := Waits(acts, s, |es| + k - 1, [Want(c[k - 1], Write)], 0);
    }
  }

  lemma NextReader(s: State, es: seq<Edge>, c: seq<LockName>, m: nat)
    requires 1 <= m <= |es| && Stage(s, es, c, |es|, |es|, m - 1)
    ensures m - 1 in s && s[m - 1] == Request(es[m - 1].p, es[m - 1].j, false, false)
    ensures Stage(s[m - 1 := Request(es[m - 1].p, es[m - 1].j, true, false)], es, c, |es|, |es|, m)
  {}

  lemma {:induction false} ReadersWait(ok: seq<Want> -> bool, c: seq<LockName>, es: seq<Edge>, m: nat) returns (acts: seq<Action>, s: State)
    requires Along(ok, c, es) && m <= |es| && AllRead(es)
    ensures Run(WriterWaits, map[], acts) == Some(s) && Stage(s, es, c, |es|, |es|, m)
    ensures Arrivals(acts, WithSingles(ok))
  {
    if m == 0 {
      acts, s := WritersWait(ok, c, es, |es|);
    } else {
      acts, s := ReadersWait(ok, c, es, m - 1);
      assert Takes(es[m - 1].p, es[m - 1].i, es[m - 1].j, c[m - 1], c[m]);
      NextReader(s, es, c, m);
      acts, s := Waits(acts, s, m - 1, es[m - 1].p, es[m - 1].j);
    }
  }

  /** With all writers and all readers waiting nobody moves. */
  lemma AllStuck(ok: seq<Want> -> bool, c: seq<LockName>, es: seq<Edge>, s: State)
    requires Along(ok, c, es) && |es| >= 1 && c[0] == c[|c| - 1] && Stage(s, es, c, |es|, |es|, |es|)
    requires AllRead(es)
    ensures Deadlocked(WriterWaits, s)
  {
    var n := |es|;
    assert 0 in s && !Finished(s[0]);
    forall r | r in s ensures !CanStep(WriterWaits, s, r) {
      if r < n {
        assert Takes(es[r].p, es[r].i, es[r].j, c[r], c[r + 1]);
        var w := if r + 1 < n then n + r + 1 else n;
        assert WaitsFor(s[w], Want(c[r + 1], Write));
      } else {
        var e := r - n;
        assert Takes(es[e].p, es[e].i, es[e].j, c[e], c[e + 1]);
        assert Holds(s[e], c[e]);
      }
    }
  }

  lemma CyclicGetsStuck(ok: seq<Want> -> bool)
    requires Cyclic(ok) && forall p | ok(p) :: CodeShaped(p)
    ensures CanDeadlockAmong(ok)
  {
    var c :| ClosedWalk(ok, c);
    var es := EdgesOf(ok, c);
    forall e | 0 <= e < |es| ensures ReadsTo(es[e]) {
      CycleReads(c, ok, es, e);
    }
    var acts, s := ReadersWait(ok, c, es, |es|);
    AllStuck(ok, c, es, s);
    assert EndsStuck(acts);
  }

  /**
   Under the rule of sync.RWMutex, any number of requests with lock sequences out of a set of the
   code's, beside any number of single-lock requests, can deadlock exactly when the locks, each going
   to those that some sequence takes after it, have a cycle.
   */
  lemma DeadlocksIffCyclic(ok: seq<Want> -> bool)
    requires forall p | ok(p) :: CodeShaped(p)
    ensures CanDeadlockAmong(ok) <==> Cyclic(ok)
  {
    if Cyclic(ok) {
      CyclicGetsStuck(ok);
    } else if CanDeadlockAmong(ok) {
      var acts :| Arrivals(acts, WithSingles(ok)) && EndsStuck(acts);
      RunKeepsWellFormed(WriterWaits, map[], acts, WithSingles(ok));
      StuckIsCyclic(Run(WriterWaits, map[], acts).value, ok);
    }
  }

  // ------------------------------------------------------------------ one sequence

  /** Along a closed walk of a single sequence the positions rise, so its end repeats its beginning. */
  lemma {:induction false} PositionsRise(p: seq<Want>, c: seq<LockName>, es: seq<Edge>, e: nat)
    requires Along(q => q == p, c, es) && e < |es| && !Repeats(p)
    ensures es[0].i < es[e].j && es[0].p == es[e].p == p
  {
    assert es[e].p == p && Takes(p, es[e].i, es[e].j, c[e], c[e + 1]);
    if e > 0 {
      PositionsRise(p, c, es, e - 1);
      assert Takes(p, es[e - 1].i, es[e - 1].j, c[e - 1], c[e]);
      assert es[e - 1].j == es[e].i;
    }
  }

  lemma CycleRepeats(p: seq<Want>)
    requires Cyclic(q => q == p)
    ensures Repeats(p)
  {
    var c :| ClosedWalk(q => q == p, c);
    var es := EdgesOf(q => q == p, c);
    var n := |es| - 1;
    if !Repeats(p) {
      PositionsRise(p, c, es, n);
      assert Takes(p, es[0].i, es[0].j, c[0], c[1]) && Takes(p, es[n].i, es[n].j, c[n], c[n + 1]);
    }
  }

  /**
   Under the rule of sync.RWMutex a sequence that keeps the code's order can deadlock with
   single-lock requests exactly when it names some lock twice, and it makes no difference whether one
   request has that sequence or any number of them.
   */
  lemma DeadlocksIffRepeats(p: seq<Want>)
    requires InOrder(p)
    ensures CanDeadlock(p) <==> Repeats(p)
    ensures CanDeadlockAmong(q => q == p) <==> Repeats(p)
  {
    if Repeats(p) {
      RepeatDeadlocks(p);
    } else if CanDeadlockAmong(q => q == p) {
      var acts :| Arrivals(acts, WithSingles(q => q == p)) && EndsStuck(acts);
      RunKeepsWellFormed(WriterWaits, map[], acts, WithSingles(q => q == p));
      StuckIsCyclic(Run(WriterWaits, map[], acts).value, q => q == p);
      CycleRepeats(p);
    }
  }

  predicate Twice(names: seq<string>) {
    exists i, j | 0 <= i < j < |names| :: names[i] == names[j]
  }

  lemma CreateClusterRepeats(conn: string, vpc: string, sgs: seq<string>, keys: seq<string>, name: string)
    ensures Repeats(CreateClusterLocks(conn, vpc, sgs, keys, name)) <==> Twice(sgs) || Twice(keys)
  {
    var p, n := CreateClusterLocks(conn, vpc, sgs, keys, name), 1 + |sgs|;
    assert forall k | 1 <= k < n :: p[k] == One(Sg, Read, conn, sgs[k - 1]);
    assert forall k | n <= k < n + |keys| :: p[k] == One(KeyPair, Read, conn, keys[k - n]);
    if Twice(sgs) {
      var i, j :| 0 <= i < j < |sgs| && sgs[i] == sgs[j];
      assert p[1 + i].lock == p[1 + j].lock;
    }
    if Twice(keys) {
      var i, j :| 0 <= i < j < |keys| && keys[i] == keys[j];
      assert p[n + i].lock == p[n + j].lock;
    }
    if Repeats(p) {
      var i, j :| 0 <= i < j < |p| && p[i].lock == p[j].lock;
      if j < n {
        assert sgs[i - 1] == sgs[j - 1];
      } else {
        assert keys[i - n] == keys[j - n];
      }
    }
  }

  /** CreateCluster can do so with a security group listed twice or one key pair in two node groups. */
  lemma CreateClusterDeadlocks(conn: string, vpc: string, sgs: seq<string>, keys: seq<string>, name: string)
    ensures CanDeadlock(CreateClusterLocks(conn, vpc, sgs, keys, name)) <==> Twice(sgs) || Twice(keys)
    ensures CanDeadlockAmong(q => q == CreateClusterLocks(conn, vpc, sgs, keys, name)) <==> Twice(sgs) || Twice(keys)
  {
    var p := CreateClusterLocks(conn, vpc, sgs, keys, name);
    CodeIsInOrder(conn, vpc, sgs, keys, name, Cluster, Write);
    DeadlocksIffRepeats(p);
    CreateClusterRepeats(conn, vpc, sgs, keys, name);
    assert (q => q == CreateClusterLocks(conn, vpc, sgs, keys, name)) == (q => q == p);
  }

  // ------------------------------------------------------------------ many CreateCluster requests

  datatype ClusterRequest = ClusterRequest(conn: string, vpc: string, sgs: seq<string>, keys: seq<string>, name: string)

  function LocksOf(q: ClusterRequest): seq<Want> {
    CreateClusterLocks(q.conn, q.vpc, q.sgs, q.keys, q.name)
  }

  function Of(qs: set<ClusterRequest>): seq<Want> -> bool {
    p => exists q | q in qs :: p == LocksOf(q)
  }

  function SgLists(qs: set<ClusterRequest>, conn: string): set<seq<string>> { set q | q in qs && q.conn == conn :: q.sgs }

  function KeyLists(qs: set<ClusterRequest>, conn: string): set<seq<string>> { set q | q in qs && q.conn == conn :: q.keys }

  /** One of the lists names `a` somewhere before `b`. */
  predicate Listed(lists: set<seq<string>>, a: string, b: string) {
    exists l | l in lists :: ListsBefore(l, a, b)
  }

  predicate ListsBefore(l: seq<string>, a: string, b: string) {
    exists i, j | 0 <= i < j < |l| :: l[i] == a && l[j] == b
  }

  predicate NamesRound(lists: set<seq<string>>, c: seq<string>) {
    |c| >= 2 && c[0] == c[|c| - 1] && forall e | 0 <= e < |c| - 1 :: Listed(lists, c[e], c[e + 1])
  }

  /** The lists contradict each other, or one of them repeats a name: following them leads back. */
  ghost predicate Contradict(lists: set<seq<string>>) {
    exists c :: NamesRound(lists, c)
  }

  /** Where the security groups and the key pairs stand among the locks. */
  lemma LocksAt(q: ClusterRequest, k: nat)
    requires k < |LocksOf(q)|
    ensures var w := LocksOf(q)[k];
            w.lock.key.conn == q.conn &&
            (Rank(w.lock.kind) == 0 <==> k == 0) &&
            (Rank(w.lock.kind) == 1 <==> 1 <= k <= |q.sgs|) &&
            (Rank(w.lock.kind) == 1 ==> w.lock == LockName(Sg, LockKey(q.conn, q.sgs[k - 1]))) &&
            (Rank(w.lock.kind) == 2 <==> |q.sgs| < k <= |q.sgs| + |q.keys|) &&
            (Rank(w.lock.kind) == 2 ==> w.lock == LockName(KeyPair, LockKey(q.conn, q.keys[k - 1 - |q.sgs|])))
  {}

  /** Two locks of one rank that a CreateCluster takes are two names of one of its lists. */
  lemma EdgeIsListed(qs: set<ClusterRequest>, l: LockName, m: LockName)
    requires Before(Of(qs), l, m) && Rank(l.kind) == Rank(m.kind)
    ensures l.key.conn == m.key.conn
    ensures (Rank(l.kind) == 1 && Listed(SgLists(qs, l.key.conn), l.key.id, m.key.id)) ||
            (Rank(l.kind) == 2 && Listed(KeyLists(qs, l.key.conn), l.key.id, m.key.id))
  {
    var p, i, j :| Of(qs)(p) && Takes(p, i, j, l, m);
    var q :| q in qs && p == LocksOf(q);
    LocksAt(q, i);
    LocksAt(q, j);
    if Rank(l.kind) == 1 {
      assert q.sgs in SgLists(qs, l.key.conn) && q.sgs[i - 1] == l.key.id && q.sgs[j - 1] == m.key.id;
      assert ListsBefore(q.sgs, l.key.id, m.key.id);
    } else {
      var n := 1 + |q.sgs|;
      assert q.keys in KeyLists(qs, l.key.conn) && q.keys[i - n] == l.key.id && q.keys[j - n] == m.key.id;
      assert ListsBefore(q.keys, l.key.id, m.key.id);
    }
  }

  lemma ListedSgIsEdge(qs: set<ClusterRequest>, conn: string, a: string, b: string)
    requires Listed(SgLists(qs, conn), a, b)
    ensures Before(Of(qs), LockName(Sg, LockKey(conn, a)), LockName(Sg, LockKey(conn, b)))
  {
    var l :| l in SgLists(qs, conn) && ListsBefore(l, a, b);
    var q :| q in qs && q.conn == conn && q.sgs == l;
    var i, j :| 0 <= i < j < |l| && l[i] == a && l[j] == b;
    LocksAt(q, 1 + i);
    LocksAt(q, 1 + j);
    assert Takes(LocksOf(q), 1 + i, 1 + j, LockName(Sg, LockKey(conn, a)), LockName(Sg, LockKey(conn, b)));
  }

  lemma ListedKeyIsEdge(qs: set<ClusterRequest>, conn: string, a: string, b: string)
    requires Listed(KeyLists(qs, conn), a, b)
    ensures Before(Of(qs), LockName(KeyPair, LockKey(conn, a)), LockName(KeyPair, LockKey(conn, b)))
  {
    var l :| l in KeyLists(qs, conn) && ListsBefore(l, a, b);
    var q :| q in qs && q.conn == conn && q.keys == l;
    var i, j :| 0 <= i < j < |l| && l[i] == a && l[j] == b;
    var n := 1 + |q.sgs|;
    LocksAt(q, n + i);
    LocksAt(q, n + j);
    assert Takes(LocksOf(q), n + i, n + j, LockName(KeyPair, LockKey(conn, a)), LockName(KeyPair, LockKey(conn, b)));
  }

  lemma ClusterShaped(qs: set<ClusterRequest>)
    ensures forall p | Of(qs)(p) :: CodeShaped(p)
  {
    forall p | Of(qs)(p) ensures CodeShaped(p) {
      var q :| q in qs && p == LocksOf(q);
      CodeIsShaped(q.conn, q.vpc, q.sgs, q.keys, q.name, Cluster);
    }
  }

  lemma ContradictionIsCycle(qs: set<ClusterRequest>, conn: string)
    requires Contradict(SgLists(qs, conn)) || Contradict(KeyLists(qs, conn))
    ensures Cyclic(Of(qs))
  {
    var lists, kind := SgLists(qs, conn), Sg;
    if !Contradict(lists) {
      lists, kind := KeyLists(qs, conn), KeyPair;
    }
    var c :| NamesRound(lists, c);
    var d := seq(|c|, e requires 0 <= e < |c| => LockName(kind, LockKey(conn, c[e])));
    forall e | 0 <= e < |d| - 1 ensures Before(Of(qs), d[e], d[e + 1]) {
      assert Listed(lists, c[e], c[e + 1]);
      if kind == Sg { ListedSgIsEdge(qs, conn, c[e], c[e + 1]); } else { ListedKeyIsEdge(qs, conn, c[e], c[e + 1]); }
    }
    assert ClosedWalk(Of(qs), d);
  }

  lemma {:induction false} OneConnection(qs: set<ClusterRequest>, d: seq<LockName>, e: nat)
    requires Walk(Of(qs), d) && e < |d| && forall a | 0 <= a < |d| :: Rank(d[a].kind) == Rank(d[0].kind)
    ensures d[e].key.conn == d[0].key.conn
  {
    if e > 0 {
      OneConnection(qs, d, e - 1);
      assert Before(Of(qs), d[e - 1], d[e]);
      EdgeIsListed(qs, d[e - 1], d[e]);
    }
  }

  lemma CycleIsContradiction(qs: set<ClusterRequest>)
    requires Cyclic(Of(qs))
    ensures exists conn :: Contradict(SgLists(qs, conn)) || Contradict(KeyLists(qs, conn))
  {
    var d: seq<LockName> :| ClosedWalk(Of(qs), d);
    ClusterShaped(qs);
    var es := EdgesOf(Of(qs), d);
    forall a | 0 <= a < |d| ensures Rank(d[a].kind) == Rank(d[0].kind) {
      RanksRise(d, Of(qs), es, 0, a);
      RanksRise(d, Of(qs), es, a, |d| - 1);
    }
    var conn := d[0].key.conn;
    var c := seq(|d|, e requires 0 <= e < |d| => d[e].key.id);
    var lists := if Rank(d[0].kind) == 1 then SgLists(qs, conn) else KeyLists(qs, conn);
    forall e | 0 <= e < |c| - 1 ensures Listed(lists, c[e], c[e + 1]) {
      OneConnection(qs, d, e);
      assert Before(Of(qs), d[e], d[e + 1]);
      EdgeIsListed(qs, d[e], d[e + 1]);
    }
    assert NamesRound(lists, c);
    assert Contradict(lists);
  }

  /**
   Any number of CreateCluster requests, beside deletes, can deadlock exactly when on some connection
   following their security group lists, or following their key pair lists, leads back to a name.
   */
  lemma CreateClustersDeadlockIff(qs: set<ClusterRequest>)
    ensures CanDeadlockAmong(Of(qs)) <==> exists conn :: Contradict(SgLists(qs, conn)) || Contradict(KeyLists(qs, conn))
  {
    ClusterShaped(qs);
    DeadlocksIffCyclic(Of(qs));
    if conn :| Contradict(SgLists(qs, conn)) || Contradict(KeyLists(qs, conn)) {
      ContradictionIsCycle(qs, conn);
    }
    if Cyclic(Of(qs)) {
      CycleIsContradiction(qs);
    }
  }

  /** Two CreateCluster requests that list two security groups in opposite orders can deadlock with two deletes. */
  lemma OppositeListsDeadlock(q: ClusterRequest, r: ClusterRequest, a: string, b: string)
    requires q.conn == r.conn && ListsBefore(q.sgs, a, b) && ListsBefore(r.sgs, b, a)
    ensures CanDeadlockAmong(Of({q, r}))
  {
    var lists := SgLists({q, r}, q.conn);
    assert q.sgs in lists && r.sgs in lists;
    assert Listed(lists, a, b) && Listed(lists, b, a);
    var c := [a, b, a];
    assert NamesRound(lists, c);
    assert Contradict(lists);
    CreateClustersDeadlockIff({q, r});
  }
}
