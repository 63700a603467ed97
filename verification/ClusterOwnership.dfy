/**
 Clusters and their node groups under concurrency: any number of CreateCluster, RegisterCluster,
 AddNodeGroup, RemoveNodeGroup and DeleteCluster requests, each holding the write lock of its
 (connection, cluster name), every database access and driver call being one step that may fail.
 */
module ClusterOwnership {
  import opened Strings
  import opened ClusterStores
  import SpLock

  type LockKey = SpLock.LockKey
  type Rid = nat

  datatype GroupRow = GroupRow(name: string, systemId: string)

  /** A request, with the node group rows that a creation or registration is to write. */
  datatype Op =
    | CreateCluster(vpc: string, systemId: string, rows: seq<GroupRow>)
    | RegisterCluster(vpc: string, systemId: string, rows: seq<GroupRow>)
    | AddNodeGroup(row: GroupRow)
    | RemoveNodeGroup(group: string, force: bool)
    | DeleteCluster(force: bool)

  datatype Pc =
    | Waiting               // in clusterSPLock.Lock
    | Locked
    | Absent                // the name has no cluster row
    | Ready                  // the driver has made or shown the cluster
    | UndoUnsaved           // the cluster row was not saved
    | Saving(n: nat)        // the cluster row and n group rows are in
    | UndoCsp               // a group row was not saved
    | UndoCluster
    | UndoGroups
    | Found                 // the name has a cluster row
    | Checked
    | Polling(forced: bool)
    | Called(forced: bool)  // the driver has done its part, the rows come next
    | DropCluster           // DeleteCluster is past the group rows
    | Returning             // only the deferred Unlock is left

  datatype Request = Request(op: Op, key: LockKey, pc: Pc)

  /** How a database access or driver call ends; Refused is the driver's plain `false`. */
  datatype Answer = Ok | Refused | Missing | Failure

  datatype State = State(
    clusters: ClusterRows,
    groups: NodeGroupRows,
    holder: map<LockKey, Rid>,
    reqs: map<Rid, Request>,
    leaked: set<LockKey>,  // clusters whose group rows a rollback or forced deletion failed to delete
    overwritten: nat)      // cluster saves and AddNodeGroup saves that hit an existing row

  datatype Action =
    | Arrive(r: Rid, op: Op, key: LockKey)
    | Lock(r: Rid)
    | Next(r: Rid, answer: Answer)
    | Unlock(r: Rid)

  const Init := State(map[], map[], map[], map[], {}, 0)

  predicate Enabled(s: State, a: Action) {
    match a
    case Arrive(r, op, key) => r !in s.reqs
    case Lock(r) => r in s.reqs && s.reqs[r].pc == Waiting && s.reqs[r].key !in s.holder
    case Next(r, _) => r in s.reqs && s.reqs[r].pc != Waiting && s.reqs[r].pc != Returning
    case Unlock(r) => r in s.reqs && s.reqs[r].pc == Returning
  }

  function Goto(s: State, r: Rid, pc: Pc): State
    requires r in s.reqs
  {
    s.(reqs := s.reqs[r := s.reqs[r].(pc := pc)])
  }

  // ------------------------------------------------------------------ the steps of a request

  function SaveCluster(s: State, k: LockKey, vpc: string, systemId: string): State {
    var row := ClusterKey(k.conn, k.id, vpc);
    s.(clusters := s.clusters[row := systemId], overwritten := s.overwritten + if row in s.clusters then 1 else 0)
  }

  function SaveGroup(s: State, k: LockKey, row: GroupRow): State {
    s.(groups := s.groups[NodeGroupKey(k.conn, row.name, k.id) := row.systemId])
  }

  function AddGroup(s: State, k: LockKey, row: GroupRow): State {
    SaveGroup(s, k, row).(overwritten := s.overwritten + if NodeGroupKey(k.conn, row.name, k.id) in s.groups then 1 else 0)
  }

  function RemoveGroup(s: State, k: LockKey, name: string): State {
    s.(groups := s.groups - {NodeGroupKey(k.conn, name, k.id)})
  }

  function RemoveGroups(s: State, k: LockKey): State {
    s.(groups := WithoutOwner(s.groups, k.conn, k.id))
  }

  function RemoveCluster(s: State, k: LockKey): State {
    s.(clusters := WithoutCluster(s.clusters, k.conn, k.id))
  }

  function Leak(s: State, k: LockKey): State { s.(leaked := s.leaked + {k}) }

  predicate Builds(op: Op) { op.CreateCluster? || op.RegisterCluster? }

  /** What the driver's answer to a removal leads to: nil and true go on, so does "not found", the rest only by force. */
  function AfterRemoval(force: bool, answer: Answer, next: bool -> Pc): Pc {
    match answer
    case Ok => next(force)
    case Missing => next(true)
    case _ => if force then next(true) else Returning
  }

  // What an answer does to the rows, and where it takes the request.

  function BuildRows(s: State, q: Request, ok: bool): (s': State)
    requires Builds(q.op)
    ensures s'.reqs == s.reqs && s'.holder == s.holder
  {
    match q.pc
    case Ready => if ok then SaveCluster(s, q.key, q.op.vpc, q.op.systemId) else s
    case Saving(n) => if n < |q.op.rows| && ok then SaveGroup(s, q.key, q.op.rows[n]) else s
    case UndoCluster => if ok then RemoveCluster(s, q.key) else s
    case UndoGroups => if ok then RemoveGroups(s, q.key) else Leak(s, q.key)
    case _ => s
  }

  function BuildPc(s: State, q: Request, ok: bool): Pc
    requires Builds(q.op)
  {
    match q.pc
    case Locked => if ok && !Exists(s.clusters, q.key.conn, q.key.id) then Absent else Returning
    case Absent => if ok then Ready else Returning
    case Ready => if ok then Saving(0) else if q.op.CreateCluster? then UndoUnsaved else Returning
    case Saving(n) =>
      if n >= |q.op.rows| then Returning
      else if ok then Saving(n + 1)
      else if q.op.CreateCluster? then UndoCsp else Returning
    case UndoCsp => if ok then UndoCluster else Returning
    case UndoCluster => if ok then UndoGroups else Returning
    case _ => Returning
  }

  function NextBuild(s: State, r: Rid, answer: Answer): State
    requires r in s.reqs && Builds(s.reqs[r].op)
  {
    Goto(BuildRows(s, s.reqs[r], answer == Ok), r, BuildPc(s, s.reqs[r], answer == Ok))
  }

  function ChangeRows(s: State, q: Request, ok: bool): (s': State)
    requires q.op.AddNodeGroup? || q.op.RemoveNodeGroup?
    ensures s'.reqs == s.reqs && s'.holder == s.holder
  {
    if !q.pc.Called? || !ok then s
    else if q.op.AddNodeGroup? then AddGroup(s, q.key, q.op.row)
    else RemoveGroup(s, q.key, q.op.group)
  }

  function ChangePc(s: State, q: Request, answer: Answer): Pc
    requires q.op.AddNodeGroup? || q.op.RemoveNodeGroup?
  {
    var ok := answer == Ok;
    match q.pc
    case Locked => if ok && Exists(s.clusters, q.key.conn, q.key.id) then Found else Returning
    case Found =>
      var name := if q.op.AddNodeGroup? then q.op.row.name else q.op.group;
      var there := NodeGroupKey(q.key.conn, name, q.key.id) in s.groups;
      if ok && there == q.op.RemoveNodeGroup? then Checked else Returning
    case Checked =>
      if q.op.RemoveNodeGroup? then AfterRemoval(q.op.force, answer, f => Called(f))
      else if ok then Called(false) else Returning
    case _ => Returning
  }

  function NextChange(s: State, r: Rid, answer: Answer): State
    requires r in s.reqs && (s.reqs[r].op.AddNodeGroup? || s.reqs[r].op.RemoveNodeGroup?)
  {
    Goto(ChangeRows(s, s.reqs[r], answer == Ok), r, ChangePc(s, s.reqs[r], answer))
  }

  function DeleteRows(s: State, q: Request, ok: bool): (s': State)
    requires q.op.DeleteCluster?
    ensures s'.reqs == s.reqs && s'.holder == s.holder
  {
    match q.pc
    case Called(forced) => if ok then RemoveGroups(s, q.key) else if forced then Leak(s, q.key) else s
    case DropCluster => if ok then RemoveCluster(s, q.key) else s
    case _ => s
  }

  function DeletePc(s: State, q: Request, answer: Answer): Pc
    requires q.op.DeleteCluster?
  {
    var ok := answer == Ok;
    match q.pc
    case Locked => if ok && Exists(s.clusters, q.key.conn, q.key.id) then Found else Returning
    case Found => AfterRemoval(q.op.force, answer, f => Polling(f))
    case Polling(forced) => if answer == Missing || forced then Called(forced) else if ok then Polling(forced) else Returning
    case Called(forced) => if ok || forced then DropCluster else Returning
    case _ => Returning
  }

  function NextDelete(s: State, r: Rid, answer: Answer): State
    requires r in s.reqs && s.reqs[r].op.DeleteCluster?
  {
    Goto(DeleteRows(s, s.reqs[r], answer == Ok), r, DeletePc(s, s.reqs[r], answer))
  }

  function Apply(s: State, a: Action): State
    requires Enabled(s, a)
  {
    match a
    case Arrive(r, op, key) => s.(reqs := s.reqs[r := Request(op, key, Waiting)])
    case Lock(r) => Goto(s, r, Locked).(holder := s.holder[s.reqs[r].key := r])
    case Next(r, answer) =>
      if Builds(s.reqs[r].op) then NextBuild(s, r, answer)
      else if s.reqs[r].op.DeleteCluster? then NextDelete(s, r, answer)
      else NextChange(s, r, answer)
    case Unlock(r) => s.(reqs := s.reqs - {r}, holder := s.holder - {s.reqs[r].key})
  }

  // ------------------------------------------------------------------ the invariant

  ghost predicate LockInv(s: State) {
    && (forall k | k in s.holder ::
          s.holder[k] in s.reqs && s.reqs[s.holder[k]].key == k && s.reqs[s.holder[k]].pc != Waiting)
    && (forall r | r in s.reqs && s.reqs[r].pc != Waiting :: s.reqs[r].key in s.holder && s.holder[s.reqs[r].key] == r)
  }

  /** What a request may rely on at its program point. */
  predicate RequestInv(s: State, q: Request) {
    var exist := Exists(s.clusters, q.key.conn, q.key.id);
    match q.pc
    case Absent | Ready => !exist && Builds(q.op)
    case UndoUnsaved => q.op.CreateCluster?
    case Saving(n) => exist && Builds(q.op) && n <= |q.op.rows|
    case UndoCsp | UndoCluster => exist && q.op.CreateCluster?
    case UndoGroups => !exist && q.op.CreateCluster?
    case Found | Checked => exist && !Builds(q.op) && (q.pc == Checked ==> !q.op.DeleteCluster?) &&
      (q.op.AddNodeGroup? && q.pc == Checked ==> NodeGroupKey(q.key.conn, q.op.row.name, q.key.id) !in s.groups)
    case Polling(_) => exist && q.op.DeleteCluster?
    case Called(_) => exist && !Builds(q.op) &&
      (q.op.AddNodeGroup? ==> NodeGroupKey(q.key.conn, q.op.row.name, q.key.id) !in s.groups)
    case DropCluster => q.op.DeleteCluster? && (OwnsGroups(s.groups, q.key.conn, q.key.id) ==> q.key in s.leaked)
    case _ => true
  }

  /** The holder of the name's lock has deleted the cluster row and is about to delete the group rows. */
  predicate RollingBack(s: State, k: LockKey) {
    k in s.holder && s.holder[k] in s.reqs && s.reqs[s.holder[k]].pc == UndoGroups
  }

  /** Group rows of a name are owned by a cluster row, or about to go, or left by a failed deletion. */
  predicate Accounted(s: State, k: LockKey) {
    OwnsGroups(s.groups, k.conn, k.id) ==> Exists(s.clusters, k.conn, k.id) || RollingBack(s, k) || k in s.leaked
  }

  /** A name has at most one cluster row, whatever its VPC. */
  predicate OneCluster(s: State, k: LockKey) {
    forall c, d | c in s.clusters && d in s.clusters ::
      c.conn == d.conn == k.conn && c.nameId == d.nameId == k.id ==> c == d
  }

  ghost predicate Inv(s: State) {
    && LockInv(s)
    && (forall r | r in s.reqs :: RequestInv(s, s.reqs[r]))
    && (forall k: LockKey :: Accounted(s, k))
    && (forall k: LockKey :: OneCluster(s, k))
    && s.overwritten == 0
  }

  // ------------------------------------------------------------------ one step

  /** The two states have the same rows but for those of name `k`. */
  predicate SameElsewhere(s: State, s': State, k: LockKey) {
    && (forall c | c in s.clusters.Keys + s'.clusters.Keys ::
          !(c.conn == k.conn && c.nameId == k.id) ==> c in s.clusters && c in s'.clusters)
    && (forall g | g in s.groups.Keys + s'.groups.Keys ::
          !(g.conn == k.conn && g.ownerCluster == k.id) ==> g in s.groups && g in s'.groups)
  }

  lemma Elsewhere(s: State, s': State, k: LockKey, k': LockKey)
    requires SameElsewhere(s, s', k) && k != k'
    ensures Exists(s'.clusters, k'.conn, k'.id) == Exists(s.clusters, k'.conn, k'.id)
    ensures OwnsGroups(s'.groups, k'.conn, k'.id) == OwnsGroups(s.groups, k'.conn, k'.id)
    ensures OneCluster(s, k') ==> OneCluster(s', k')
  {}

  /** The step moves the holder `r` to `pc` and changes rows of its own name only. */
  ghost predicate Local(s: State, s': State, r: Rid, pc: Pc) {
    && r in s.reqs && s.reqs[r].pc != Waiting && pc != Waiting
    && s'.reqs == s.reqs[r := s.reqs[r].(pc := pc)] && s'.holder == s.holder
    && SameElsewhere(s, s', s.reqs[r].key)
    && s.leaked <= s'.leaked && s'.overwritten == s.overwritten
  }

  /** A local step keeps the invariant when it does so for the holder's own name. */
  lemma LocalKeepsInv(s: State, s': State, r: Rid, pc: Pc)
    requires Inv(s) && Local(s, s', r, pc)
    requires RequestInv(s', s'.reqs[r]) && Accounted(s', s.reqs[r].key) && OneCluster(s', s.reqs[r].key)
    ensures Inv(s')
  {
    var k := s.reqs[r].key;
    forall r' | r' in s'.reqs ensures RequestInv(s', s'.reqs[r']) {
      OtherRequest(s, s', r, pc, r');
    }
    forall k': LockKey ensures Accounted(s', k') && OneCluster(s', k') {
      if k' != k {
        Elsewhere(s, s', k, k');
        assert Accounted(s, k') && OneCluster(s, k');
        assert RollingBack(s, k') ==> RollingBack(s', k');
      }
    }
  }

  lemma OtherRequest(s: State, s': State, r: Rid, pc: Pc, r': Rid)
    requires Inv(s) && Local(s, s', r, pc) && r' in s'.reqs
    requires r' == r ==> RequestInv(s', s'.reqs[r])
    ensures RequestInv(s', s'.reqs[r'])
  {}

  /** A step that changes no row. */
  lemma MoveKeepsInv(s: State, r: Rid, pc: Pc)
    requires Inv(s) && r in s.reqs && s.reqs[r].pc != Waiting && pc != Waiting && s.reqs[r].pc != UndoGroups
    requires RequestInv(s, s.reqs[r].(pc := pc))
    ensures Inv(Goto(s, r, pc))
  {
    var s' := Goto(s, r, pc);
    assert RequestInv(s', s'.reqs[r]);
    assert Accounted(s, s.reqs[r].key) && OneCluster(s, s.reqs[r].key);
    LocalKeepsInv(s, s', r, pc);
  }

  lemma SaveClusterKeepsInv(s: State, r: Rid, vpc: string, systemId: string)
    requires Inv(s) && r in s.reqs && s.reqs[r].pc == Ready
    ensures Inv(Goto(SaveCluster(s, s.reqs[r].key, vpc, systemId), r, Saving(0)))
  {
    assert RequestInv(s, s.reqs[r]);
    var k := s.reqs[r].key;
    var s' := Goto(SaveCluster(s, k, vpc, systemId), r, Saving(0));
    assert ClusterKey(k.conn, k.id, vpc) in s'.clusters;
    LocalKeepsInv(s, s', r, Saving(0));
  }

  lemma SaveGroupKeepsInv(s: State, r: Rid, row: GroupRow, pc: Pc)
    requires Inv(s) && r in s.reqs && Exists(s.clusters, s.reqs[r].key.conn, s.reqs[r].key.id) && s.reqs[r].pc != Waiting
    requires pc == Returning || (pc.Saving? && RequestInv(s, s.reqs[r].(pc := pc)))
    ensures Inv(Goto(SaveGroup(s, s.reqs[r].key, row), r, pc))
  {
    assert OneCluster(s, s.reqs[r].key);
    LocalKeepsInv(s, Goto(SaveGroup(s, s.reqs[r].key, row), r, pc), r, pc);
  }

  lemma RemoveGroupKeepsInv(s: State, r: Rid, name: string)
    requires Inv(s) && r in s.reqs && s.reqs[r].pc.Called?
    ensures Inv(Goto(RemoveGroup(s, s.reqs[r].key, name), r, Returning))
  {
    assert RequestInv(s, s.reqs[r]) && OneCluster(s, s.reqs[r].key);
    LocalKeepsInv(s, Goto(RemoveGroup(s, s.reqs[r].key, name), r, Returning), r, Returning);
  }

  /** Group rows go, or the failure to delete them is on record. */
  lemma GroupsGoneKeepsInv(s: State, r: Rid, ok: bool, pc: Pc)
    requires Inv(s) && r in s.reqs && s.reqs[r].pc != Waiting && (pc == Returning || (pc == DropCluster && s.reqs[r].op.DeleteCluster?))
    ensures Inv(Goto(if ok then RemoveGroups(s, s.reqs[r].key) else Leak(s, s.reqs[r].key), r, pc))
  {
    assert OneCluster(s, s.reqs[r].key);
    LocalKeepsInv(s, Goto(if ok then RemoveGroups(s, s.reqs[r].key) else Leak(s, s.reqs[r].key), r, pc), r, pc);
  }

  lemma RemoveClusterKeepsInv(s: State, r: Rid)
    requires Inv(s) && r in s.reqs && s.reqs[r].pc in {UndoCluster, DropCluster}
    ensures Inv(Goto(RemoveCluster(s, s.reqs[r].key), r, if s.reqs[r].pc == UndoCluster then UndoGroups else Returning))
  {
    var pc := if s.reqs[r].pc == UndoCluster then UndoGroups else Returning;
    assert RequestInv(s, s.reqs[r]);
    LocalKeepsInv(s, Goto(RemoveCluster(s, s.reqs[r].key), r, pc), r, pc);
  }

  lemma BuildKeepsInv(s: State, r: Rid, answer: Answer)
    requires Inv(s) && Enabled(s, Next(r, answer)) && Builds(s.reqs[r].op)
    ensures Inv(NextBuild(s, r, answer))
  {
    var q := s.reqs[r];
    assert RequestInv(s, q);
    if q.pc == UndoGroups {
      UndoGroupsKeepsInv(s, r, answer);
    } else if answer == Ok && (q.pc == Ready || q.pc == UndoCluster || (q.pc.Saving? && q.pc.n < |q.op.rows|)) {
      WritingBuildKeepsInv(s, r);
    } else {
      QuietBuildKeepsInv(s, r, answer);
    }
  }

  lemma UndoGroupsKeepsInv(s: State, r: Rid, answer: Answer)
    requires Inv(s) && r in s.reqs && s.reqs[r].op.CreateCluster? && s.reqs[r].pc == UndoGroups
    ensures Inv(NextBuild(s, r, answer))
  {
    GroupsGoneKeepsInv(s, r, answer == Ok, Returning);
    assert BuildRows(s, s.reqs[r], answer == Ok) == if answer == Ok then RemoveGroups(s, s.reqs[r].key) else Leak(s, s.reqs[r].key);
  }

  /** The steps of a build that change rows. */
  lemma WritingBuild(s: State, r: Rid)
    requires r in s.reqs && Builds(s.reqs[r].op)
    ensures var q := s.reqs[r];
            && (q.pc == Ready ==> NextBuild(s, r, Ok) == Goto(SaveCluster(s, q.key, q.op.vpc, q.op.systemId), r, Saving(0)))
            && (q.pc == UndoCluster ==> NextBuild(s, r, Ok) == Goto(RemoveCluster(s, q.key), r, UndoGroups))
            && (q.pc.Saving? && q.pc.n < |q.op.rows| ==>
                  NextBuild(s, r, Ok) == Goto(SaveGroup(s, q.key, q.op.rows[q.pc.n]), r, Saving(q.pc.n + 1)))
  {}

  lemma WritingBuildKeepsInv(s: State, r: Rid)
    requires Inv(s) && r in s.reqs && Builds(s.reqs[r].op)
    requires var q := s.reqs[r]; q.pc == Ready || q.pc == UndoCluster || (q.pc.Saving? && q.pc.n < |q.op.rows|)
    ensures Inv(NextBuild(s, r, Ok))
  {
    var q := s.reqs[r];
    WritingBuild(s, r);
    if q.pc == Ready {
      SaveClusterKeepsInv(s, r, q.op.vpc, q.op.systemId);
    } else if q.pc == UndoCluster {
      RemoveClusterKeepsInv(s, r);
    } else {
      SavingKeepsInv(s, r);
    }
  }

  lemma SavingKeepsInv(s: State, r: Rid)
    requires Inv(s) && r in s.reqs && Builds(s.reqs[r].op) && s.reqs[r].pc.Saving? && s.reqs[r].pc.n < |s.reqs[r].op.rows|
    ensures var q := s.reqs[r];
            Inv(Goto(SaveGroup(s, q.key, q.op.rows[q.pc.n]), r, Saving(q.pc.n + 1)))
  {
    var q := s.reqs[r];
    assert RequestInv(s, q);
    SaveGroupKeepsInv(s, r, q.op.rows[q.pc.n], Saving(q.pc.n + 1));
  }

  lemma QuietBuildKeepsInv(s: State, r: Rid, answer: Answer)
    requires Inv(s) && Enabled(s, Next(r, answer)) && Builds(s.reqs[r].op) && s.reqs[r].pc != UndoGroups
    requires answer == Ok ==> s.reqs[r].pc != Ready && s.reqs[r].pc != UndoCluster &&
                              (s.reqs[r].pc.Saving? ==> s.reqs[r].pc.n >= |s.reqs[r].op.rows|)
    ensures Inv(NextBuild(s, r, answer))
  {
    assert RequestInv(s, s.reqs[r]);
    var pc := QuietBuild(s, r, answer);
    MoveKeepsInv(s, r, pc);
  }

  /** The steps of a build that change no row. */
  lemma QuietBuild(s: State, r: Rid, answer: Answer) returns (pc: Pc)
    requires r in s.reqs && RequestInv(s, s.reqs[r]) && Builds(s.reqs[r].op) && s.reqs[r].pc !in {UndoGroups, Waiting}
    requires answer == Ok ==> s.reqs[r].pc != Ready && s.reqs[r].pc != UndoCluster &&
                              (s.reqs[r].pc.Saving? ==> s.reqs[r].pc.n >= |s.reqs[r].op.rows|)
    ensures NextBuild(s, r, answer) == Goto(s, r, pc) && pc != Waiting && RequestInv(s, s.reqs[r].(pc := pc))
  {
    pc := NextBuild(s, r, answer).reqs[r].pc;
  }

  lemma ChangeKeepsInv(s: State, r: Rid, answer: Answer)
    requires Inv(s) && Enabled(s, Next(r, answer)) && (s.reqs[r].op.AddNodeGroup? || s.reqs[r].op.RemoveNodeGroup?)
    ensures Inv(NextChange(s, r, answer))
  {
    var q := s.reqs[r];
    assert RequestInv(s, q);
    if q.pc.Called? && answer == Ok {
      if q.op.AddNodeGroup? { SaveGroupKeepsInv(s, r, q.op.row, Returning); } else { RemoveGroupKeepsInv(s, r, q.op.group); }
    } else {
      var pc := QuietChange(s, r, answer);
      MoveKeepsInv(s, r, pc);
    }
  }

  lemma QuietChange(s: State, r: Rid, answer: Answer) returns (pc: Pc)
    requires Enabled(s, Next(r, answer)) && RequestInv(s, s.reqs[r]) && (s.reqs[r].op.AddNodeGroup? || s.reqs[r].op.RemoveNodeGroup?)
    requires answer == Ok ==> !s.reqs[r].pc.Called?
    ensures NextChange(s, r, answer) == Goto(s, r, pc) && pc != Waiting && RequestInv(s, s.reqs[r].(pc := pc))
  {
    pc := NextChange(s, r, answer).reqs[r].pc;
  }

  lemma DeleteKeepsInv(s: State, r: Rid, answer: Answer)
    requires Inv(s) && Enabled(s, Next(r, answer)) && s.reqs[r].op.DeleteCluster?
    ensures Inv(NextDelete(s, r, answer))
  {
    var q := s.reqs[r];
    if q.pc.Called? && (answer == Ok || q.pc.forced) {
      GroupsGoneKeepsInv(s, r, answer == Ok, DropCluster);
    } else if q.pc == DropCluster && answer == Ok {
      RemoveClusterKeepsInv(s, r);
    } else {
      assert RequestInv(s, q);
      var pc := QuietDelete(s, r, answer);
      MoveKeepsInv(s, r, pc);
    }
  }

  lemma QuietDelete(s: State, r: Rid, answer: Answer) returns (pc: Pc)
    requires Enabled(s, Next(r, answer)) && RequestInv(s, s.reqs[r]) && s.reqs[r].op.DeleteCluster?
    requires s.reqs[r].pc.Called? ==> answer != Ok && !s.reqs[r].pc.forced
    requires s.reqs[r].pc == DropCluster ==> answer != Ok
    ensures NextDelete(s, r, answer) == Goto(s, r, pc) && pc != Waiting && RequestInv(s, s.reqs[r].(pc := pc))
  {
    pc := NextDelete(s, r, answer).reqs[r].pc;
  }

  /** Arrivals and lock steps change no row. */
  lemma OuterKeepsInv(s: State, a: Action)
    requires Inv(s) && Enabled(s, a) && !a.Next?
    ensures Inv(Apply(s, a))
  {
    var s' := Apply(s, a);
    OuterKeepsLocks(s, a);
    OuterKeepsRequests(s, a);
    forall k: LockKey ensures Accounted(s', k) && OneCluster(s', k) {
      assert Accounted(s, k) && OneCluster(s, k);
      if RollingBack(s, k) { OuterKeepsRollback(s, a, k); }
    }
  }

  lemma OuterKeepsRequests(s: State, a: Action)
    requires (forall r | r in s.reqs :: RequestInv(s, s.reqs[r])) && Enabled(s, a) && !a.Next?
    ensures forall r | r in Apply(s, a).reqs :: RequestInv(Apply(s, a), Apply(s, a).reqs[r])
  {}

  lemma OuterKeepsRollback(s: State, a: Action, k: LockKey)
    requires LockInv(s) && Enabled(s, a) && !a.Next? && RollingBack(s, k)
    ensures RollingBack(Apply(s, a), k)
  {}

  lemma OuterKeepsLocks(s: State, a: Action)
    requires LockInv(s) && Enabled(s, a) && !a.Next?
    ensures LockInv(Apply(s, a))
  {}

  lemma StepKeepsInv(s: State, a: Action)
    requires Inv(s) && Enabled(s, a)
    ensures Inv(Apply(s, a))
  {
    if !a.Next? {
      OuterKeepsInv(s, a);
    } else if Builds(s.reqs[a.r].op) {
      BuildKeepsInv(s, a.r, a.answer);
    } else if s.reqs[a.r].op.DeleteCluster? {
      DeleteKeepsInv(s, a.r, a.answer);
    } else {
      ChangeKeepsInv(s, a.r, a.answer);
    }
  }

  // ------------------------------------------------------------------ every run

  function Run(s: State, acts: seq<Action>): Option<State>
    decreases |acts|
  {
    if acts == [] then Some(s)
    else if Enabled(s, acts[0]) then Run(Apply(s, acts[0]), acts[1..])
    else None
  }

  lemma {:induction false} RunKeepsInv(s: State, acts: seq<Action>)
    requires Inv(s) && Run(s, acts).Some?
    ensures Inv(Run(s, acts).value)
    decreases |acts|
  {
    if acts != [] {
      StepKeepsInv(s, acts[0]);
      RunKeepsInv(Apply(s, acts[0]), acts[1..]);
    }
  }

  /**
   In every interleaving, a node group row whose cluster's lock nobody holds has its cluster row,
   unless deleting that cluster's group rows has failed in a rollback or a forced deletion.
   */
  lemma GroupsOwned(acts: seq<Action>, g: NodeGroupKey)
    requires Run(Init, acts).Some?
    requires var s, k := Run(Init, acts).value, SpLock.LockKey(g.conn, g.ownerCluster);
             g in s.groups && k !in s.holder && k !in s.leaked
    ensures Exists(Run(Init, acts).value.clusters, g.conn, g.ownerCluster)
  {
    RunKeepsInv(Init, acts);
    assert Accounted(Run(Init, acts).value, SpLock.LockKey(g.conn, g.ownerCluster));
  }

  /** In every interleaving a cluster name has at most one row, and no save of a cluster or an added group replaces one. */
  lemma NamesUnique(acts: seq<Action>, c: ClusterKey, d: ClusterKey)
    requires Run(Init, acts).Some?
    requires var s := Run(Init, acts).value; c in s.clusters && d in s.clusters && c.conn == d.conn && c.nameId == d.nameId
    ensures c == d && Run(Init, acts).value.overwritten == 0
  {
    RunKeepsInv(Init, acts);
    assert OneCluster(Run(Init, acts).value, SpLock.LockKey(c.conn, c.nameId));
  }

  /** The failures that the previous theorem excepts. */
  predicate DropFails(s: State, a: Action) {
    a.Next? && a.answer != Ok && a.r in s.reqs &&
    (s.reqs[a.r].pc == UndoGroups || (s.reqs[a.r].pc == Called(true) && s.reqs[a.r].op.DeleteCluster?))
  }

  /** A step puts a name on the leaked list only by such a failure. */
  lemma LeaksOnlyByFailure(s: State, a: Action)
    requires Inv(s) && Enabled(s, a)
    ensures Apply(s, a).leaked == if DropFails(s, a) then s.leaked + {s.reqs[a.r].key} else s.leaked
  {
    if a.Next? { assert RequestInv(s, s.reqs[a.r]); }
  }

  /**
   The exception is needed: the last step of a rollback leaves group rows without a cluster exactly
   when the deletion fails while there are such rows.
   */
  lemma RollbackOrphans(s: State, r: Rid, answer: Answer)
    requires Inv(s) && Enabled(s, Next(r, answer)) && s.reqs[r].pc == UndoGroups
    ensures var s', k := Apply(s, Next(r, answer)), s.reqs[r].key;
            !Exists(s'.clusters, k.conn, k.id) && s'.reqs[r].pc == Returning &&
            (OwnsGroups(s'.groups, k.conn, k.id) <==> answer != Ok && OwnsGroups(s.groups, k.conn, k.id))
  {}

  // ------------------------------------------------------------------ a row outlives its cluster

  /** An unforced DeleteCluster that is past the cloud. */
  predicate PastCloud(q: Request) {
    q.op == DeleteCluster(false) && (q.pc == Polling(true) || q.pc.Called? || q.pc == DropCluster)
  }

  lemma StepPastCloud(s: State, a: Action, r: Rid)
    requires Enabled(s, a) && r in Apply(s, a).reqs && PastCloud(Apply(s, a).reqs[r])
    requires r in s.reqs ==> RequestInv(s, s.reqs[r])
    ensures (r in s.reqs && PastCloud(s.reqs[r])) || a == Next(r, Missing)
  {
    if a.Next? {
      NextMovesOn(s, a.r, a.answer);
      if a.r == r && s.reqs[r].op == DeleteCluster(false) { NextPastCloud(s, r, a.answer); }
    } else {
      OuterNotPast(s, a, r);
    }
  }

  lemma OuterNotPast(s: State, a: Action, r: Rid)
    requires Enabled(s, a) && !a.Next?
    ensures r in Apply(s, a).reqs ==> (r in s.reqs && Apply(s, a).reqs[r] == s.reqs[r]) || Apply(s, a).reqs[r].pc in {Waiting, Locked}
  {}

  /** `s'` has the requests of `s`, but for the point that `r` is at. */
  predicate MovesOn(s: State, s': State, r: Rid) {
    r in s.reqs && r in s'.reqs && s'.reqs == s.reqs[r := s.reqs[r].(pc := s'.reqs[r].pc)]
  }

  lemma NextMovesOn(s: State, r: Rid, answer: Answer)
    requires Enabled(s, Next(r, answer))
    ensures MovesOn(s, Apply(s, Next(r, answer)), r)
  {}

  lemma NextPastCloud(s: State, r: Rid, answer: Answer)
    requires r in s.reqs && s.reqs[r].op == DeleteCluster(false) && RequestInv(s, s.reqs[r])
    requires PastCloud(NextDelete(s, r, answer).reqs[r])
    ensures PastCloud(s.reqs[r]) || answer == Missing
  {}

  lemma {:induction false} RunPastCloud(s: State, acts: seq<Action>, r: Rid)
    requires Inv(s) && Run(s, acts).Some? && r in Run(s, acts).value.reqs && PastCloud(Run(s, acts).value.reqs[r])
    ensures (r in s.reqs && PastCloud(s.reqs[r])) || Next(r, Missing) in acts
    decreases |acts|
  {
    if acts != [] {
      StepKeepsInv(s, acts[0]);
      RunPastCloud(Apply(s, acts[0]), acts[1..], r);
      assert acts == [acts[0]] + acts[1..];
      if r in Apply(s, acts[0]).reqs && PastCloud(Apply(s, acts[0]).reqs[r]) {
        assert r in s.reqs ==> RequestInv(s, s.reqs[r]);
        StepPastCloud(s, acts[0], r);
      }
    }
  }

  /** A step drops a cluster row only for the request that works on its name, in a rollback or as the last step of a deletion. */
  lemma StepDropsRow(s: State, a: Action, k: ClusterKey)
    requires Inv(s) && Enabled(s, a) && k in s.clusters && k !in Apply(s, a).clusters
    ensures a.Next? && s.reqs[a.r].key == SpLock.LockKey(k.conn, k.nameId) && a.answer == Ok
    ensures s.reqs[a.r].op.CreateCluster? || (s.reqs[a.r].op.DeleteCluster? && s.reqs[a.r].pc == DropCluster)
  {
    if a.Next? { assert RequestInv(s, s.reqs[a.r]); }
  }

  /**
   In every interleaving: a cluster's row is dropped only by the rollback of its creation or by its
   deletion, and, unless that is forced, only after the cloud has answered that it is not there.
   */
  lemma RowGoesAfterCluster(acts: seq<Action>, s: State, a: Action, k: ClusterKey)
    requires Run(Init, acts) == Some(s) && Enabled(s, a) && k in s.clusters && k !in Apply(s, a).clusters
    ensures a.Next? && s.reqs[a.r].key == SpLock.LockKey(k.conn, k.nameId)
    ensures s.reqs[a.r].op.CreateCluster? || s.reqs[a.r].op == DeleteCluster(true) ||
            (s.reqs[a.r].op == DeleteCluster(false) && Next(a.r, Missing) in acts)
  {
    RunKeepsInv(Init, acts);
    StepDropsRow(s, a, k);
    if s.reqs[a.r].op == DeleteCluster(false) { RunPastCloud(Init, acts, a.r); }
  }

  // ------------------------------------------------------------------ a request that nobody disturbs

  lemma {:induction false} OneMoreStep(s: State, acts: seq<Action>, a: Action)
    requires Run(s, acts).Some? && Enabled(Run(s, acts).value, a)
    ensures Run(s, acts + [a]) == Some(Apply(Run(s, acts).value, a))
    decreases |acts|
  {
    if acts == [] {
      assert [] + [a] == [a] && [a][1..] == [];
      assert Run(Apply(s, a), []) == Some(Apply(s, a));
    } else {
      assert (acts + [a])[1..] == acts[1..] + [a];
      OneMoreStep(Apply(s, acts[0]), acts[1..], a);
    }
  }

  /** The machine with that request inside its lock, and rows as given. */
  function Inside(s: State, clusters: ClusterRows, groups: NodeGroupRows, r: Rid, op: Op, key: LockKey, pc: Pc): State {
    s.(clusters := clusters, groups := groups, reqs := s.reqs[r := Request(op, key, pc)], holder := s.holder[key := r])
  }

  lemma GotoInside(s: State, clusters: ClusterRows, groups: NodeGroupRows, r: Rid, op: Op, key: LockKey, pc: Pc, pc': Pc)
    ensures Goto(Inside(s, clusters, groups, r, op, key, pc), r, pc') == Inside(s, clusters, groups, r, op, key, pc')
  {
    assert s.reqs[r := Request(op, key, pc)][r := Request(op, key, pc')] == s.reqs[r := Request(op, key, pc')];
  }

  /** One more answer, which takes the request on and changes the rows as given. */
  lemma Do(s: State, acts: seq<Action>, clusters: ClusterRows, groups: NodeGroupRows, r: Rid, op: Op, key: LockKey, pc: Pc,
           answer: Answer, clusters': ClusterRows, groups': NodeGroupRows, pc': Pc) returns (acts': seq<Action>)
    requires Run(s, acts) == Some(Inside(s, clusters, groups, r, op, key, pc)) && pc != Waiting && pc != Returning
    requires Apply(Inside(s, clusters, groups, r, op, key, pc), Next(r, answer)) ==
             Goto(Inside(s, clusters', groups', r, op, key, pc), r, pc')
    ensures Run(s, acts') == Some(Inside(s, clusters', groups', r, op, key, pc'))
  {
    OneMoreStep(s, acts, Next(r, answer));
    GotoInside(s, clusters', groups', r, op, key, pc, pc');
    acts' := acts + [Next(r, answer)];
  }

  lemma Begin(s: State, r: Rid, op: Op, key: LockKey) returns (acts: seq<Action>)
    requires r !in s.reqs && key !in s.holder
    ensures Run(s, acts) == Some(Inside(s, s.clusters, s.groups, r, op, key, Locked))
  {
    acts := [Arrive(r, op, key)];
    assert acts[1..] == [];
    var s1 := Apply(s, acts[0]);
    assert Run(s1, []) == Some(s1);
    OneMoreStep(s, acts, Lock(r));
    acts := acts + [Lock(r)];
    assert s1.reqs[r := s1.reqs[r].(pc := Locked)] == s.reqs[r := Request(op, key, Locked)];
  }

  lemma End(s: State, acts: seq<Action>, clusters: ClusterRows, groups: NodeGroupRows, r: Rid, op: Op, key: LockKey) returns (acts': seq<Action>)
    requires r !in s.reqs && key !in s.holder
    requires Run(s, acts) == Some(Inside(s, clusters, groups, r, op, key, Returning))
    ensures Run(s, acts') == Some(s.(clusters := clusters, groups := groups))
  {
    OneMoreStep(s, acts, Unlock(r));
    acts' := acts + [Unlock(r)];
    assert s.reqs[r := Request(op, key, Returning)] - {r} == s.reqs && s.holder[key := r] - {key} == s.holder;
  }

  /** The group rows of a cluster, saved one by one. */
  function WithGroups(groups: NodeGroupRows, key: LockKey, rows: seq<GroupRow>): NodeGroupRows {
    if rows == [] then groups
    else
      var n := |rows| - 1;
      WithGroups(groups, key, rows[..n])[NodeGroupKey(key.conn, rows[n].name, key.id) := rows[n].systemId]
  }

  lemma {:induction false} SavesAlone(s: State, acts: seq<Action>, clusters: ClusterRows, r: Rid, op: Op, key: LockKey, n: nat)
      returns (acts': seq<Action>)
    requires Builds(op) && n <= |op.rows|
    requires Run(s, acts) == Some(Inside(s, clusters, WithGroups(s.groups, key, op.rows[..n]), r, op, key, Saving(n)))
    ensures Run(s, acts') == Some(Inside(s, clusters, WithGroups(s.groups, key, op.rows), r, op, key, Returning))
    decreases |op.rows| - n
  {
    var groups := WithGroups(s.groups, key, op.rows[..n]);
    if n == |op.rows| {
      assert op.rows[..n] == op.rows;
      acts' := Do(s, acts, clusters, groups, r, op, key, Saving(n), Ok, clusters, groups, Returning);
    } else {
      assert op.rows[..n + 1][..n] == op.rows[..n];
      acts' := Do(s, acts, clusters, groups, r, op, key, Saving(n), Ok, clusters, WithGroups(s.groups, key, op.rows[..n + 1]), Saving(n + 1));
      acts' := SavesAlone(s, acts', clusters, r, op, key, n + 1);
    }
  }

  /** CreateCluster and RegisterCluster of a new name, every call succeeding: the row and all group rows are in. */
  lemma BuildAlone(s: State, r: Rid, op: Op, key: LockKey) returns (acts: seq<Action>)
    requires Builds(op) && r !in s.reqs && key !in s.holder && !Exists(s.clusters, key.conn, key.id)
    ensures Run(s, acts) ==
            Some(s.(clusters := s.clusters[ClusterKey(key.conn, key.id, op.vpc) := op.systemId], groups := WithGroups(s.groups, key, op.rows)))
  {
    acts := Begin(s, r, op, key);
    acts := Do(s, acts, s.clusters, s.groups, r, op, key, Locked, Ok, s.clusters, s.groups, Absent);
    acts := Do(s, acts, s.clusters, s.groups, r, op, key, Absent, Ok, s.clusters, s.groups, Ready);
    var clusters := s.clusters[ClusterKey(key.conn, key.id, op.vpc) := op.systemId];
    acts := Do(s, acts, s.clusters, s.groups, r, op, key, Ready, Ok, clusters, s.groups, Saving(0));
    acts := SavesAlone(s, acts, clusters, r, op, key, 0);
    acts := End(s, acts, clusters, WithGroups(s.groups, key, op.rows), r, op, key);
  }

  /** A deletion or change of a cluster that is there. */
  lemma Finds(s: State, r: Rid, op: Op, key: LockKey) returns (acts: seq<Action>)
    requires !Builds(op) && r !in s.reqs && key !in s.holder && Exists(s.clusters, key.conn, key.id)
    ensures Run(s, acts) == Some(Inside(s, s.clusters, s.groups, r, op, key, Found))
  {
    acts := Begin(s, r, op, key);
    acts := Do(s, acts, s.clusters, s.groups, r, op, key, Locked, Ok, s.clusters, s.groups, Found);
  }

  /** DeleteCluster up to the cloud's answer that the cluster is not there. */
  lemma DeletePolls(s: State, r: Rid, force: bool, key: LockKey) returns (acts: seq<Action>)
    requires r !in s.reqs && key !in s.holder && Exists(s.clusters, key.conn, key.id)
    ensures Run(s, acts) == Some(Inside(s, s.clusters, s.groups, r, DeleteCluster(force), key, Called(force)))
  {
    var op := DeleteCluster(force);
    acts := Finds(s, r, op, key);
    acts := Do(s, acts, s.clusters, s.groups, r, op, key, Found, Ok, s.clusters, s.groups, Polling(force));
    acts := Do(s, acts, s.clusters, s.groups, r, op, key, Polling(force), Missing, s.clusters, s.groups, Called(force));
  }

  /** DeleteCluster, the cloud answering that the cluster is not there: the row and all its group rows are gone. */
  lemma DeleteAlone(s: State, r: Rid, force: bool, key: LockKey) returns (acts: seq<Action>)
    requires r !in s.reqs && key !in s.holder && Exists(s.clusters, key.conn, key.id)
    ensures Run(s, acts) ==
            Some(s.(clusters := WithoutCluster(s.clusters, key.conn, key.id), groups := WithoutOwner(s.groups, key.conn, key.id)))
  {
    var op, clusters, groups := DeleteCluster(force), WithoutCluster(s.clusters, key.conn, key.id), WithoutOwner(s.groups, key.conn, key.id);
    acts := DeletePolls(s, r, force, key);
    acts := Do(s, acts, s.clusters, s.groups, r, op, key, Called(force), Ok, s.clusters, groups, DropCluster);
    acts := Do(s, acts, s.clusters, groups, r, op, key, DropCluster, Ok, clusters, groups, Returning);
    acts := End(s, acts, clusters, groups, r, op, key);
  }

  lemma CheckedStep(s: State, q: Request)
    requires (q.op.AddNodeGroup? || q.op.RemoveNodeGroup?) && q.pc == Checked
    ensures ChangePc(s, q, Ok) == Called(q.op.RemoveNodeGroup? && q.op.force) && ChangeRows(s, q, true) == s
  {}

  /** AddNodeGroup and RemoveNodeGroup up to their last step. */
  lemma ChangeCalls(s: State, r: Rid, op: Op, key: LockKey) returns (acts: seq<Action>)
    requires op.AddNodeGroup? || op.RemoveNodeGroup?
    requires r !in s.reqs && key !in s.holder && Exists(s.clusters, key.conn, key.id)
    requires op.AddNodeGroup? ==> NodeGroupKey(key.conn, op.row.name, key.id) !in s.groups
    requires op.RemoveNodeGroup? ==> NodeGroupKey(key.conn, op.group, key.id) in s.groups
    ensures Run(s, acts) == Some(Inside(s, s.clusters, s.groups, r, op, key, Called(op.RemoveNodeGroup? && op.force)))
  {
    acts := Finds(s, r, op, key);
    acts := Do(s, acts, s.clusters, s.groups, r, op, key, Found, Ok, s.clusters, s.groups, Checked);
    CheckedStep(Inside(s, s.clusters, s.groups, r, op, key, Checked), Request(op, key, Checked));
    acts := Do(s, acts, s.clusters, s.groups, r, op, key, Checked, Ok, s.clusters, s.groups, Called(op.RemoveNodeGroup? && op.force));
  }

  /** AddNodeGroup of a new group of a cluster that is there puts its row in ... */
  lemma AddAlone(s: State, r: Rid, row: GroupRow, key: LockKey) returns (acts: seq<Action>)
    requires r !in s.reqs && key !in s.holder && Exists(s.clusters, key.conn, key.id) && NodeGroupKey(key.conn, row.name, key.id) !in s.groups
    ensures Run(s, acts) == Some(s.(groups := s.groups[NodeGroupKey(key.conn, row.name, key.id) := row.systemId]))
  {
    var op, groups := AddNodeGroup(row), s.groups[NodeGroupKey(key.conn, row.name, key.id) := row.systemId];
    acts := ChangeCalls(s, r, op, key);
    acts := Do(s, acts, s.clusters, s.groups, r, op, key, Called(false), Ok, s.clusters, groups, Returning);
    acts := End(s, acts, s.clusters, groups, r, op, key);
  }

  /** ... and RemoveNodeGroup takes it out. */
  lemma RemoveAlone(s: State, r: Rid, group: string, force: bool, key: LockKey) returns (acts: seq<Action>)
    requires r !in s.reqs && key !in s.holder && Exists(s.clusters, key.conn, key.id) && NodeGroupKey(key.conn, group, key.id) in s.groups
    ensures Run(s, acts) == Some(s.(groups := s.groups - {NodeGroupKey(key.conn, group, key.id)}))
  {
    var op, groups := RemoveNodeGroup(group, force), s.groups - {NodeGroupKey(key.conn, group, key.id)};
    acts := ChangeCalls(s, r, op, key);
    acts := Do(s, acts, s.clusters, s.groups, r, op, key, Called(force), Ok, s.clusters, groups, Returning);
    acts := End(s, acts, s.clusters, groups, r, op, key);
  }
}
