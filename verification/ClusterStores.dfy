/**
 CreateCluster and DeleteCluster of ClusterManager.go on the two MetaDB tables they write and on the
 cloud. A request runs alone here, as it does under its (connection, cluster) lock. What the database
 and the driver answer is passed in, call by call.
 */
module ClusterStores {
  import opened Strings
  import opened IidCodec
  import Polling

  // the tables' primary keys
  datatype ClusterKey = ClusterKey(conn: string, nameId: string, ownerVpc: string)
  datatype NodeGroupKey = NodeGroupKey(conn: string, nameId: string, ownerCluster: string)

  type ClusterRows = map<ClusterKey, string>
  type NodeGroupRows = map<NodeGroupKey, string>

  datatype CspRef = CspRef(conn: string, systemId: string)

  predicate Exists(rows: ClusterRows, conn: string, name: string) {
    exists k | k in rows :: k.conn == conn && k.nameId == name
  }

  /** `DELETE ... WHERE connection_name = conn AND name_id = name`. */
  function WithoutCluster(rows: ClusterRows, conn: string, name: string): ClusterRows {
    map k | k in rows && !(k.conn == conn && k.nameId == name) :: rows[k]
  }

  predicate OwnsGroups(rows: NodeGroupRows, conn: string, owner: string) {
    exists k | k in rows :: k.conn == conn && k.ownerCluster == owner
  }

  /** `DELETE ... WHERE connection_name = conn AND owner_cluster_name = owner`. */
  function WithoutOwner(rows: NodeGroupRows, conn: string, owner: string): NodeGroupRows {
    map k | k in rows && !(k.conn == conn && k.ownerCluster == owner) :: rows[k]
  }

  // ------------------------------------------------------------------ the node group rows

  /** getReqNameId: the requested name of a driver-side name, "" when nobody asked for it. */
  function ReqNameId(requested: seq<IID>, driverName: string): string {
    if requested == [] then ""
    else if requested[0].systemId == driverName then requested[0].nameId
    else ReqNameId(requested[1..], driverName)
  }

  method GetReqNameId(requested: seq<IID>, driverName: string) returns (name: string)
    ensures name == ReqNameId(requested, driverName)
  {
    for i := 0 to |requested|
      invariant ReqNameId(requested, driverName) == ReqNameId(requested[i..], driverName)
    {
      if requested[i].systemId == driverName {
        return requested[i].nameId;
      }
    }
    return "";
  }

  /** The rows after the reported groups have been inserted one by one, by upserts. */
  function Inserted(rows: NodeGroupRows, conn: string, owner: string, requested: seq<IID>, reported: seq<IID>): NodeGroupRows {
    if reported == [] then rows
    else
      var last := reported[|reported| - 1];
      var before := Inserted(rows, conn, owner, requested, reported[..|reported| - 1]);
      var name := ReqNameId(requested, last.nameId);
      if name == "" then before else before[NodeGroupKey(conn, name, owner) := Encode(last.nameId, last.systemId)]
  }

  /** Insertions touch no other cluster's rows. */
  lemma {:induction false} InsertedElsewhere(rows: NodeGroupRows, conn: string, owner: string, requested: seq<IID>, reported: seq<IID>)
    ensures WithoutOwner(Inserted(rows, conn, owner, requested, reported), conn, owner) == WithoutOwner(rows, conn, owner)
  {
    if reported != [] {
      InsertedElsewhere(rows, conn, owner, requested, reported[..|reported| - 1]);
    }
  }

  /** Deleting a cluster's groups is invisible exactly when it has none. */
  lemma WithoutOwnerIsSame(rows: NodeGroupRows, conn: string, owner: string)
    ensures WithoutOwner(rows, conn, owner) == rows <==> !OwnsGroups(rows, conn, owner)
  {}

  lemma WithoutClusterIsSame(rows: ClusterRows, conn: string, name: string)
    ensures WithoutCluster(rows, conn, name) == rows <==> !Exists(rows, conn, name)
  {}

  /** The reported groups that get the row of that name. */
  predicate RowOf(requested: seq<IID>, g: IID, name: string) {
    name != "" && ReqNameId(requested, g.nameId) == name
  }

  /**
   What the insertions leave under one key: the row of the last group reported for it, and the row
   of before when there is none.
   */
  lemma {:induction false} InsertedAt(rows: NodeGroupRows, conn: string, owner: string, requested: seq<IID>, reported: seq<IID>,
                                      name: string, i: nat)
    requires i < |reported| && RowOf(requested, reported[i], name)
    requires forall j | i < j < |reported| :: !RowOf(requested, reported[j], name)
    ensures var k, after := NodeGroupKey(conn, name, owner), Inserted(rows, conn, owner, requested, reported);
            k in after && after[k] == Encode(reported[i].nameId, reported[i].systemId)
  {
    if i < |reported| - 1 {
      InsertedAt(rows, conn, owner, requested, reported[..|reported| - 1], name, i);
    }
  }

  lemma {:induction false} NotInsertedAt(rows: NodeGroupRows, conn: string, owner: string, requested: seq<IID>, reported: seq<IID>,
                                         k: NodeGroupKey)
    requires k.conn == conn && k.ownerCluster == owner ==> forall j | 0 <= j < |reported| :: !RowOf(requested, reported[j], k.nameId)
    ensures var after := Inserted(rows, conn, owner, requested, reported);
            (k in after <==> k in rows) && (k in after ==> after[k] == rows[k])
  {
    if reported != [] {
      NotInsertedAt(rows, conn, owner, requested, reported[..|reported| - 1], k);
    }
  }

  lemma {:induction false} ReqNameIdFinds(requested: seq<IID>, i: nat)
    requires i < |requested| && forall j | 0 <= j < i :: requested[j].systemId != requested[i].systemId
    ensures ReqNameId(requested, requested[i].systemId) == requested[i].nameId
  {
    if i > 0 {
      ReqNameIdFinds(requested[1..], i - 1);
    }
  }

  /**
   A group that was asked for and reported once reads back from its row with the ID the cloud gave
   it, given that the driver-side names are distinct, the user's names are distinct and not empty,
   and the stored pair is readable.
   */
  lemma GroupReadsBack(rows: NodeGroupRows, conn: string, owner: string, requested: seq<IID>, reported: seq<IID>, r: nat, g: nat)
    requires r < |requested| && g < |reported| && requested[r].nameId != "" && reported[g].nameId == requested[r].systemId
    requires forall i, j | 0 <= i < j < |requested| ::
               requested[i].systemId != requested[j].systemId && requested[i].nameId != requested[j].nameId
    requires forall i, j | 0 <= i < j < |reported| :: reported[i].nameId != reported[j].nameId
    requires Readable(reported[g].nameId, reported[g].systemId)
    ensures var k, after := NodeGroupKey(conn, requested[r].nameId, owner), Inserted(rows, conn, owner, requested, reported);
            k in after && GetDriverIID(IID(k.nameId, after[k])) == reported[g]
  {
    var name := requested[r].nameId;
    ReqNameIdFinds(requested, r);
    forall j | g < j < |reported| ensures !RowOf(requested, reported[j], name) {
      ReqNameIdIsOf(requested, reported[j].nameId);
    }
    InsertedAt(rows, conn, owner, requested, reported, name, g);
    RoundTrip(name, reported[g].nameId, reported[g].systemId);
  }

  lemma {:induction false} ReqNameIdIsOf(requested: seq<IID>, driverName: string)
    ensures ReqNameId(requested, driverName) != "" ==>
              exists i | 0 <= i < |requested| ::
                requested[i].systemId == driverName && requested[i].nameId == ReqNameId(requested, driverName)
  {
    if requested != [] && requested[0].systemId != driverName {
      ReqNameIdIsOf(requested[1..], driverName);
      if ReqNameId(requested, driverName) != "" {
        var i :| 0 <= i < |requested[1..]| && requested[1..][i].systemId == driverName &&
                 requested[1..][i].nameId == ReqNameId(requested[1..], driverName);
        assert requested[i + 1] == requested[1..][i];
      }
    }
  }

  // ------------------------------------------------------------------ CreateCluster

  /** The request, its generated IDs included: `requested` pairs the user's names with driver names. */
  datatype Create = Create(conn: string, vpc: string, name: string, xid: string, requested: seq<IID>)

  /** What the driver made: the cluster's ID and the node groups it reports, after any NCP wait. */
  datatype Made = Made(systemId: string, groups: seq<IID>)

  /** How every database and driver call of one CreateCluster ends. */
  datatype Answers = Answers(
    list: bool, made: Option<Made>, saveCluster: bool, saveGroup: nat -> bool,
    undoCsp: bool, undoCluster: bool, undoGroups: bool, setNames: bool)

  datatype Outcome =
    | Returned  // (info, nil)
    | Error     // (nil, err)
    | Nothing   // (nil, nil)

  /** The first group whose row is not saved; |groups| when all are. */
  function FirstUnsaved(requested: seq<IID>, groups: seq<IID>, save: nat -> bool, from: nat): (k: nat)
    requires from <= |groups|
    ensures from <= k <= |groups|
    decreases |groups| - from
  {
    if from == |groups| then from
    else if ReqNameId(requested, groups[from].nameId) != "" && !save(from) then from
    else FirstUnsaved(requested, groups, save, from + 1)
  }

  // ------------------------------------------------------------------ DeleteCluster

  /** How the driver's DeleteCluster and GetCluster answer. */
  datatype DeleteAnswer = Done(deleted: bool) | NotFound | Failed
  datatype GetAnswer = There | Gone | Broken

  /** How every call of one DeleteCluster ends, and how long a call and a sleep really take. */
  datatype DeleteAnswers = DeleteAnswers(
    list: bool, delete: DeleteAnswer, get: nat -> GetAnswer, callTime: nat -> nat, oversleep: nat -> nat,
    dropGroups: bool, dropCluster: bool)

  /** "Not found" from the delete call counts as a forced deletion. */
  predicate Forced(force: string, delete: DeleteAnswer) {
    force == "true" || delete == NotFound
  }

  /** The request gets as far as polling the cloud. */
  predicate Reaches(force: string, delete: DeleteAnswer) {
    Forced(force, delete) || delete == Done(true)
  }

  /** The request gets as far as deleting rows, after that many polls. */
  predicate Drops(clusters: ClusterRows, conn: string, name: string, force: string, a: DeleteAnswers, polls: nat) {
    a.list && Exists(clusters, conn, name) && Reaches(force, a.delete) &&
    (Forced(force, a.delete) || (polls > 0 && a.get(polls - 1) == Gone))
  }

  /** The request answers without an error. */
  predicate Succeeds(clusters: ClusterRows, conn: string, name: string, force: string, a: DeleteAnswers, polls: nat) {
    a.list && Exists(clusters, conn, name) &&
    ((Drops(clusters, conn, name, force, a, polls) && (Forced(force, a.delete) || (a.dropGroups && a.dropCluster))) ||
     (!Forced(force, a.delete) && a.delete == Done(false)))
  }

  /** The cloud has said during the request that the cluster is not there. */
  predicate SeenGone(a: DeleteAnswers, polls: nat) {
    a.delete == NotFound || exists i | 0 <= i < polls :: a.get(i) == Gone
  }

  /**
   DeleteCluster's polling loop: at most one poll per granted wait and one more. It ends because the
   waits run out; only a forced deletion goes on after an error or the timeout.
   */
  method WaitUntilGone(forced: bool, a: DeleteAnswers, clock: Polling.Clock) returns (goOn: bool, polls: nat)
    modifies clock
    ensures 0 < polls <= Polling.WaitBound(15, 600) + 1
    ensures forall i | 0 <= i < polls - 1 :: a.get(i) == There
    ensures a.get(polls - 1) == There ==> clock.now - old(clock.now) >= 600 * Polling.SECOND
    ensures goOn <==> forced || a.get(polls - 1) == Gone
  {
    polls := 0;
    var waiter := new Polling.Waiter(clock, 15, 600);
    while true
      invariant waiter.Valid() && waiter.clock == clock && waiter.sleep == 15 && waiter.timeout == 600
      invariant waiter.start == old(clock.now)
      invariant polls == waiter.granted && forall i | 0 <= i < polls :: a.get(i) == There
      decreases Polling.WaitBound(15, 600) - waiter.granted
    {
      var answer := a.get(polls);
      clock.Pass(a.callTime(polls));
      polls := polls + 1;
      match answer {
        case Gone => return true, polls;
        case Broken => return forced, polls;
        case There =>
          var more := waiter.Wait(a.oversleep(polls));
          if !more { return forced, polls; }
      }
    }
  }

  class Stores {
    var clusters: ClusterRows
    var nodeGroups: NodeGroupRows
    var csp: set<CspRef>

    constructor ()
      ensures clusters == map[] && nodeGroups == map[] && csp == {}
    {
      clusters, nodeGroups, csp := map[], map[], {};
    }

    /** The rollback of a failed group insertion; it stops at the first step that fails. */
    method Rollback(q: Create, systemId: string, a: Answers) returns (o: Outcome)
      modifies this
      ensures csp == if a.undoCsp then old(csp) - {CspRef(q.conn, systemId)} else old(csp)
      ensures clusters == if a.undoCsp && a.undoCluster then WithoutCluster(old(clusters), q.conn, q.name) else old(clusters)
      ensures nodeGroups == if a.undoCsp && a.undoCluster && a.undoGroups
                            then WithoutOwner(old(nodeGroups), q.conn, q.name) else old(nodeGroups)
      ensures o == if a.undoCsp && a.undoCluster && a.undoGroups then Nothing else Error
    {
      if !a.undoCsp { return Error; }
      csp := csp - {CspRef(q.conn, systemId)};
      if !a.undoCluster { return Error; }
      clusters := WithoutCluster(clusters, q.conn, q.name);
      if !a.undoGroups { return Error; }
      nodeGroups := WithoutOwner(nodeGroups, q.conn, q.name);
      return Nothing;  // the inner err, now nil, shadows the insertion's error
    }

    /** CreateCluster from its existence check on. */
    method CreateCluster(q: Create, a: Answers) returns (o: Outcome)
      modifies this
      ensures Created(q, a, old(clusters), old(nodeGroups), old(csp), clusters, nodeGroups, csp, o)
    {
      if !a.list || Exists(clusters, q.conn, q.name) { return Error; }
      if a.made.None? { return Error; }
      var made := a.made.value;
      csp := csp + {CspRef(q.conn, made.systemId)};
      if !a.saveCluster {
        if a.undoCsp { csp := csp - {CspRef(q.conn, made.systemId)}; }
        return Error;
      }
      clusters := clusters[ClusterKey(q.conn, q.name, q.vpc) := Encode(q.xid, made.systemId)];
      for i := 0 to |made.groups|
        invariant nodeGroups == Inserted(old(nodeGroups), q.conn, q.name, q.requested, made.groups[..i])
        invariant clusters == old(clusters)[ClusterKey(q.conn, q.name, q.vpc) := Encode(q.xid, made.systemId)]
        invariant csp == old(csp) + {CspRef(q.conn, made.systemId)}
        invariant FirstUnsaved(q.requested, made.groups, a.saveGroup, 0) == FirstUnsaved(q.requested, made.groups, a.saveGroup, i)
      {
        var g := made.groups[i];
        assert made.groups[..i + 1][..i] == made.groups[..i];
        var name := GetReqNameId(q.requested, g.nameId);
        if name == "" { continue; }
        if !a.saveGroup(i) {
          o := Rollback(q, made.systemId, a);
          return;
        }
        nodeGroups := nodeGroups[NodeGroupKey(q.conn, name, q.name) := Encode(g.nameId, g.systemId)];
      }
      assert made.groups[..|made.groups|] == made.groups;
      return if a.setNames then Returned else Error;
    }

    /** DeleteCluster from its row lookup on. */
    method DeleteCluster(conn: string, name: string, force: string, a: DeleteAnswers, clock: Polling.Clock)
        returns (result: Option<bool>, polls: nat)
      modifies this, clock
      ensures csp == old(csp)
      ensures polls <= Polling.WaitBound(15, 600) + 1
      ensures polls > 0 <==> a.list && Exists(old(clusters), conn, name) && Reaches(force, a.delete)
      ensures forall i | 0 <= i < polls - 1 :: a.get(i) == There
      ensures polls > 0 && a.get(polls - 1) == There ==> clock.now - old(clock.now) >= 600 * Polling.SECOND
      ensures nodeGroups == if Drops(old(clusters), conn, name, force, a, polls) && a.dropGroups
                            then WithoutOwner(old(nodeGroups), conn, name) else old(nodeGroups)
      ensures clusters == if Drops(old(clusters), conn, name, force, a, polls) && a.dropCluster && (a.dropGroups || Forced(force, a.delete))
                          then WithoutCluster(old(clusters), conn, name) else old(clusters)
      // unless the caller forces it: when the cloud reports the cluster not found, at the delete call or in
      // the last poll after a delete call that said true
      ensures force != "true" ==>
                (Drops(old(clusters), conn, name, force, a, polls) <==>
                 a.list && Exists(old(clusters), conn, name) && SeenGone(a, polls) && a.delete in {NotFound, Done(true)})
      ensures result.Some? <==> Succeeds(old(clusters), conn, name, force, a, polls)
      ensures result.Some? ==> result.value == (a.delete == Done(true))
    {
      polls := 0;
      if !a.list || !Exists(clusters, conn, name) { return None, 0; }
      var forced := force == "true";
      var deleted := false;
      match a.delete {
        case Done(answer) => deleted := answer;
        case NotFound => forced := true;
        case Failed => if !forced { return None, 0; }
      }
      if !forced && !deleted { return Some(false), 0; }
      var gone;
      gone, polls := WaitUntilGone(forced, a, clock);
      if !gone { return None, polls; }
      if a.dropGroups {
        nodeGroups := WithoutOwner(nodeGroups, conn, name);
      } else if !forced {
        return None, polls;
      }
      if a.dropCluster {
        clusters := WithoutCluster(clusters, conn, name);
      } else if !forced {
        return None, polls;
      }
      return Some(deleted), polls;
    }
  }

  /** What one CreateCluster does to the stores, by the point at which it ends. */
  predicate Created(q: Create, a: Answers, clusters: ClusterRows, groups: NodeGroupRows, csp: set<CspRef>,
                    clusters': ClusterRows, groups': NodeGroupRows, csp': set<CspRef>, o: Outcome)
  {
    if !a.list || Exists(clusters, q.conn, q.name) || a.made.None? then
      o == Error && clusters' == clusters && groups' == groups && csp' == csp
    else
      var made := a.made.value;
      var ref := CspRef(q.conn, made.systemId);
      var rows := clusters[ClusterKey(q.conn, q.name, q.vpc) := Encode(q.xid, made.systemId)];
      var k := FirstUnsaved(q.requested, made.groups, a.saveGroup, 0);
      var inserted := Inserted(groups, q.conn, q.name, q.requested, made.groups[..k]);
      if !a.saveCluster then
        o == Error && clusters' == clusters && groups' == groups && csp' == if a.undoCsp then csp + {ref} - {ref} else csp + {ref}
      else if k == |made.groups| then
        o == (if a.setNames then Returned else Error) && clusters' == rows && groups' == inserted && csp' == csp + {ref}
      else
        && o == (if a.undoCsp && a.undoCluster && a.undoGroups then Nothing else Error)
        && csp' == (if a.undoCsp then csp + {ref} - {ref} else csp + {ref})
        && clusters' == (if a.undoCsp && a.undoCluster then WithoutCluster(rows, q.conn, q.name) else rows)
        && groups' == if a.undoCsp && a.undoCluster && a.undoGroups then WithoutOwner(inserted, q.conn, q.name) else inserted
  }

  /** The compensations all succeed. */
  predicate Undoes(a: Answers) { a.undoCsp && a.undoCluster && a.undoGroups }

  /** The request ends without its rows complete. */
  predicate Fails(q: Create, a: Answers, clusters: ClusterRows) {
    !a.list || Exists(clusters, q.conn, q.name) || a.made.None? || !a.saveCluster ||
    FirstUnsaved(q.requested, a.made.value.groups, a.saveGroup, 0) < |a.made.value.groups|
  }

  /** ... at a node group, the cluster row being in. */
  predicate FailsAtGroup(q: Create, a: Answers, clusters: ClusterRows) {
    a.list && !Exists(clusters, q.conn, q.name) && a.made.Some? && a.saveCluster &&
    FirstUnsaved(q.requested, a.made.value.groups, a.saveGroup, 0) < |a.made.value.groups|
  }

  /**
   A CreateCluster that fails with its compensations succeeding, whichever insertion failed and
   however many groups there are, leaves both tables and the cloud exactly as they were, unless it
   fails at a node group while rows of an earlier cluster of the name are still about: those go.
   */
  lemma FailureRestores(q: Create, a: Answers, clusters: ClusterRows, groups: NodeGroupRows, csp: set<CspRef>,
                        clusters': ClusterRows, groups': NodeGroupRows, csp': set<CspRef>, o: Outcome)
    requires Created(q, a, clusters, groups, csp, clusters', groups', csp', o)
    requires Fails(q, a, clusters) && Undoes(a)
    requires a.made.Some? ==> CspRef(q.conn, a.made.value.systemId) !in csp
    ensures clusters' == clusters && csp' == csp
    ensures groups' == groups <==> !FailsAtGroup(q, a, clusters) || !OwnsGroups(groups, q.conn, q.name)
    ensures o == if FailsAtGroup(q, a, clusters) then Nothing else Error
  {
    if FailsAtGroup(q, a, clusters) {
      var made := a.made.value;
      var k := FirstUnsaved(q.requested, made.groups, a.saveGroup, 0);
      InsertedElsewhere(groups, q.conn, q.name, q.requested, made.groups[..k]);
      WithoutOwnerIsSame(groups, q.conn, q.name);
      assert WithoutCluster(clusters[ClusterKey(q.conn, q.name, q.vpc) := Encode(q.xid, made.systemId)], q.conn, q.name) == clusters;
    }
  }

  lemma {:induction false} AllSavedIff(requested: seq<IID>, groups: seq<IID>, save: nat -> bool, from: nat)
    requires from <= |groups|
    ensures FirstUnsaved(requested, groups, save, from) == |groups| <==>
              forall i | from <= i < |groups| :: save(i) || ReqNameId(requested, groups[i].nameId) == ""
    decreases |groups| - from
  {
    if from < |groups| { AllSavedIff(requested, groups, save, from + 1); }
  }

  /** CreateCluster succeeds exactly for a new name when every call does, the saves of unasked groups aside. */
  lemma ReturnsIff(q: Create, a: Answers, clusters: ClusterRows, groups: NodeGroupRows, csp: set<CspRef>,
                   clusters': ClusterRows, groups': NodeGroupRows, csp': set<CspRef>, o: Outcome)
    requires Created(q, a, clusters, groups, csp, clusters', groups', csp', o)
    ensures o == Returned <==>
              && a.list && (forall k | k in clusters :: k.conn != q.conn || k.nameId != q.name)
              && a.made.Some? && a.saveCluster && a.setNames
              && forall i | 0 <= i < |a.made.value.groups| ::
                   a.saveGroup(i) || ReqNameId(q.requested, a.made.value.groups[i].nameId) == ""
  {
    if a.made.Some? { AllSavedIff(q.requested, a.made.value.groups, a.saveGroup, 0); }
  }

  /**
   What a successful CreateCluster leaves: the cluster in the cloud, and a row under the user's name and
   VPC that gives the driver the name and ID it made the cluster with, and the user the cloud's ID,
   if the pair is readable; for the driver if and only if it is.
   */
  lemma ClusterReadsBack(q: Create, a: Answers, clusters: ClusterRows, groups: NodeGroupRows, csp: set<CspRef>,
                         clusters': ClusterRows, groups': NodeGroupRows, csp': set<CspRef>)
    requires Created(q, a, clusters, groups, csp, clusters', groups', csp', Returned)
    ensures a.made.Some?
    ensures var k, id := ClusterKey(q.conn, q.name, q.vpc), a.made.value.systemId;
            && k in clusters' && clusters' == clusters[k := clusters'[k]] && csp' == csp + {CspRef(q.conn, id)}
            && (GetDriverIID(IID(q.name, clusters'[k])) == IID(q.xid, id) <==> Readable(q.xid, id))
            && (Readable(q.xid, id) ==> GetUserIID(IID(q.name, clusters'[k])) == IID(q.name, id))
  {
    RoundTrip(q.name, q.xid, a.made.value.systemId);
    if Readable(q.xid, a.made.value.systemId) { UserRoundTrip(q.name, q.xid, a.made.value.systemId); }
  }

  /** ... and a row for every node group that was asked for and is reported, which reads back the same way. */
  lemma ClusterGroupsReadBack(q: Create, a: Answers, clusters: ClusterRows, groups: NodeGroupRows, csp: set<CspRef>,
                              clusters': ClusterRows, groups': NodeGroupRows, csp': set<CspRef>, r: nat, g: nat)
    requires Created(q, a, clusters, groups, csp, clusters', groups', csp', Returned) && a.made.Some?
    requires r < |q.requested| && g < |a.made.value.groups| && q.requested[r].nameId != ""
    requires a.made.value.groups[g].nameId == q.requested[r].systemId
    requires forall i, j | 0 <= i < j < |q.requested| ::
               q.requested[i].systemId != q.requested[j].systemId && q.requested[i].nameId != q.requested[j].nameId
    requires forall i, j | 0 <= i < j < |a.made.value.groups| :: a.made.value.groups[i].nameId != a.made.value.groups[j].nameId
    requires Readable(a.made.value.groups[g].nameId, a.made.value.groups[g].systemId)
    ensures var k := NodeGroupKey(q.conn, q.requested[r].nameId, q.name);
            k in groups' && GetDriverIID(IID(k.nameId, groups'[k])) == a.made.value.groups[g]
  {
    var made := a.made.value;
    assert made.groups[..|made.groups|] == made.groups;
    GroupReadsBack(groups, q.conn, q.name, q.requested, made.groups, r, g);
  }

  /** Whatever fails, no other cluster's rows change, and a cluster stays in the cloud only by a failed undoCsp. */
  lemma OthersUntouched(q: Create, a: Answers, clusters: ClusterRows, groups: NodeGroupRows, csp: set<CspRef>,
                        clusters': ClusterRows, groups': NodeGroupRows, csp': set<CspRef>, o: Outcome)
    requires Created(q, a, clusters, groups, csp, clusters', groups', csp', o)
    ensures WithoutCluster(clusters', q.conn, q.name) == WithoutCluster(clusters, q.conn, q.name)
    ensures WithoutOwner(groups', q.conn, q.name) == WithoutOwner(groups, q.conn, q.name)
    ensures forall k: ClusterKey | !(k.conn == q.conn && k.nameId == q.name) ::
              (k in clusters' <==> k in clusters) && (k in clusters' && k in clusters ==> clusters'[k] == clusters[k])
    ensures forall k: NodeGroupKey | !(k.conn == q.conn && k.ownerCluster == q.name) ::
              (k in groups' <==> k in groups) && (k in groups' && k in groups ==> groups'[k] == groups[k])
    ensures csp' != csp && Fails(q, a, clusters) && (a.made.Some? ==> CspRef(q.conn, a.made.value.systemId) !in csp) ==> !a.undoCsp
  {
    if a.made.Some? {
      var made := a.made.value;
      var k := FirstUnsaved(q.requested, made.groups, a.saveGroup, 0);
      InsertedElsewhere(groups, q.conn, q.name, q.requested, made.groups[..k]);
    }
    OnlyOwn(clusters, clusters', groups, groups', q.conn, q.name);
  }

  lemma OnlyOwn(clusters: ClusterRows, clusters': ClusterRows, groups: NodeGroupRows, groups': NodeGroupRows, conn: string, name: string)
    requires WithoutCluster(clusters', conn, name) == WithoutCluster(clusters, conn, name)
    requires WithoutOwner(groups', conn, name) == WithoutOwner(groups, conn, name)
    ensures forall k: ClusterKey | !(k.conn == conn && k.nameId == name) ::
              (k in clusters' <==> k in clusters) && (k in clusters' && k in clusters ==> clusters'[k] == clusters[k])
    ensures forall k: NodeGroupKey | !(k.conn == conn && k.ownerCluster == name) ::
              (k in groups' <==> k in groups) && (k in groups' && k in groups ==> groups'[k] == groups[k])
  {
    forall k: ClusterKey | !(k.conn == conn && k.nameId == name)
      ensures (k in clusters' <==> k in clusters) && (k in clusters' && k in clusters ==> clusters'[k] == clusters[k])
    {
      assert k in WithoutCluster(clusters', conn, name) <==> k in clusters';
      assert k in WithoutCluster(clusters, conn, name) <==> k in clusters;
    }
    forall k: NodeGroupKey | !(k.conn == conn && k.ownerCluster == name)
      ensures (k in groups' <==> k in groups) && (k in groups' && k in groups ==> groups'[k] == groups[k])
    {
      assert k in WithoutOwner(groups', conn, name) <==> k in groups';
      assert k in WithoutOwner(groups, conn, name) <==> k in groups;
    }
  }

  /**
   A failed CreateCluster leaves group rows without their cluster exactly when it fails at a group,
   its rollback gets past the cluster row and then fails, and there are such rows.
   */
  lemma OrphansIff(q: Create, a: Answers, clusters: ClusterRows, groups: NodeGroupRows, csp: set<CspRef>,
                   clusters': ClusterRows, groups': NodeGroupRows, csp': set<CspRef>, o: Outcome)
    requires Created(q, a, clusters, groups, csp, clusters', groups', csp', o)
    requires Fails(q, a, clusters) && (OwnsGroups(groups, q.conn, q.name) ==> Exists(clusters, q.conn, q.name))
    ensures OwnsGroups(groups', q.conn, q.name) && !Exists(clusters', q.conn, q.name) <==>
              FailsAtGroup(q, a, clusters) && a.undoCsp && a.undoCluster && !a.undoGroups &&
              exists i | 0 <= i < FirstUnsaved(q.requested, a.made.value.groups, a.saveGroup, 0) ::
                ReqNameId(q.requested, a.made.value.groups[i].nameId) != ""
  {
    if FailsAtGroup(q, a, clusters) {
      var made := a.made.value;
      var k := FirstUnsaved(q.requested, made.groups, a.saveGroup, 0);
      assert ClusterKey(q.conn, q.name, q.vpc) in clusters[ClusterKey(q.conn, q.name, q.vpc) := Encode(q.xid, made.systemId)];
      InsertedOwns(groups, q.conn, q.name, q.requested, made.groups[..k]);
    }
  }

  lemma {:induction false} InsertedOwns(rows: NodeGroupRows, conn: string, owner: string, requested: seq<IID>, reported: seq<IID>)
    ensures OwnsGroups(Inserted(rows, conn, owner, requested, reported), conn, owner) <==>
              OwnsGroups(rows, conn, owner) || exists i | 0 <= i < |reported| :: ReqNameId(requested, reported[i].nameId) != ""
  {
    if reported != [] {
      var n := |reported| - 1;
      InsertedOwns(rows, conn, owner, requested, reported[..n]);
      var name := ReqNameId(requested, reported[n].nameId);
      if name != "" {
        assert NodeGroupKey(conn, name, owner) in Inserted(rows, conn, owner, requested, reported);
      } else {
        assert forall i | 0 <= i < |reported| :: ReqNameId(requested, reported[i].nameId) != "" ==> i < n && reported[..n][i] == reported[i];
      }
    }
  }

  /**
   DeleteCluster after CreateCluster: the two row deletions take the tables back to what they were
   exactly when no node group row of the name was there before.
   */
  lemma DeleteUndoesCreate(q: Create, a: Answers, clusters: ClusterRows, groups: NodeGroupRows, csp: set<CspRef>,
                           clusters': ClusterRows, groups': NodeGroupRows, csp': set<CspRef>)
    requires Created(q, a, clusters, groups, csp, clusters', groups', csp', Returned)
    ensures WithoutCluster(clusters', q.conn, q.name) == clusters
    ensures WithoutOwner(groups', q.conn, q.name) == groups <==> !OwnsGroups(groups, q.conn, q.name)
  {
    OthersUntouched(q, a, clusters, groups, csp, clusters', groups', csp', Returned);
    WithoutOwnerIsSame(groups, q.conn, q.name);
    WithoutClusterIsSame(clusters, q.conn, q.name);
  }
}
