/**
 Destroy of CommonManager.go: the teardown of a connection by five groups of resource types. The
 types of a group are worked on concurrently, each in up to ten passes; a pass lists the names and
 deletes them all concurrently. Every goroutine's step is one action, taken in any order.
 */
module Destroy {
  import opened Strings

  datatype RsType = CLUSTER | MYIMAGE | NLB | RDBMS | VM | DISK | KEY | SG | VPC

  const GROUPS := 5
  const RETRIES := 10

  /** The group that a type is destroyed in. */
  function Group(t: RsType): nat {
    match t
    case CLUSTER | MYIMAGE | NLB | RDBMS => 0
    case VM => 1
    case DISK => 2
    case KEY | SG => 3
    case VPC => 4
  }

  /** One call of deleteAllResourcesInResType: what it listed, deleted and could not delete. */
  datatype Pass = Pass(names: seq<string>, deleted: seq<string>, remained: seq<string>)

  /** DeletedResourceInfoList. */
  datatype TypeInfo = TypeInfo(rsType: RsType, isAllDeleted: bool, deleted: seq<string>, remained: seq<string>)

  datatype Phase =
    | Listing                                                                  // or sleeping before it
    | Deleting(pass: Pass, waiting: multiset<string>, running: multiset<string>)
    | GivingUp                                                                 // past the last retry
    | Finished

  /** A type's goroutine, with the passes it has made. */
  datatype Worker = Worker(phase: Phase, passes: seq<Pass>, info: TypeInfo, err: bool)

  /** The start and the return of one resource's delete call, without an error or with one. */
  datatype Event = Start(rsType: RsType, name: string) | End(rsType: RsType, name: string, ok: bool)

  datatype State = State(
    group: nat,
    workers: map<RsType, Worker>,      // of this group and of those before
    isAllDestroyed: bool,
    destroyedList: seq<TypeInfo>,
    groupErr: bool,
    log: seq<Event>,
    returned: Option<bool>)            // Some(false): with an error

  datatype Action =
    | List(t: RsType, names: Option<seq<string>>)
    | Begin(t: RsType, name: string)
    | Finish(t: RsType, name: string, ok: bool)
    | Join(t: RsType)     // wg.Wait of a pass, and the merge of its lists
    | GiveUp(t: RsType)
    | Wait                // wg.Wait of a group

  function Spawn(group: nat): map<RsType, Worker> {
    map t: RsType | Group(t) == group :: Worker(Listing, [], TypeInfo(t, false, [], []), false)
  }

  function Init(): State { State(0, Spawn(0), true, [], false, [], None) }

  predicate AtPhase(s: State, t: RsType) { t in s.workers && s.returned == None }

  predicate Enabled(s: State, a: Action) {
    match a
    case List(t, _) => AtPhase(s, t) && s.workers[t].phase == Listing
    case Begin(t, name) => AtPhase(s, t) && s.workers[t].phase.Deleting? && name in s.workers[t].phase.waiting
    case Finish(t, name, _) => AtPhase(s, t) && s.workers[t].phase.Deleting? && name in s.workers[t].phase.running
    case Join(t) =>
      AtPhase(s, t) && s.workers[t].phase.Deleting? &&
      s.workers[t].phase.waiting == multiset{} && s.workers[t].phase.running == multiset{}
    case GiveUp(t) => AtPhase(s, t) && s.workers[t].phase == GivingUp
    case Wait => s.returned == None && forall t | t in s.workers :: s.workers[t].phase == Finished
  }

  // ------------------------------------------------------------------ the steps

  /** deleteAllResourcesInResType up to the start of its goroutines; an empty list is a nil result. */
  function Listed(w: Worker, names: Option<seq<string>>): Worker {
    match names
    case None => w.(phase := Finished, err := true)
    case Some(l) =>
      if |l| <= 0 then w.(phase := Finished, passes := w.passes + [Pass([], [], [])])
      else w.(phase := Deleting(Pass(l, [], []), multiset(l), multiset{}))
  }

  function Begun(w: Worker, name: string): Worker
    requires w.phase.Deleting?
  {
    w.(phase := w.phase.(waiting := w.phase.waiting - multiset{name}, running := w.phase.running + multiset{name}))
  }

  function Ended(w: Worker, name: string, ok: bool): Worker
    requires w.phase.Deleting?
  {
    var p := w.phase.pass;
    w.(phase := w.phase.(
      running := w.phase.running - multiset{name},
      pass := if ok then p.(deleted := p.deleted + [name]) else p.(remained := p.remained + [name])))
  }

  /** The merge of a pass into the type's list, and whether there is another one. */
  function Joined(w: Worker): Worker
    requires w.phase.Deleting?
  {
    var p := w.phase.pass;
    var all := p.remained == [];
    w.(passes := w.passes + [p],
       info := TypeInfo(w.info.rsType, all, w.info.deleted + p.deleted, if all then w.info.remained else p.remained),
       phase := if all then Finished else if |w.passes| + 1 < RETRIES then Listing else GivingUp)
  }

  function Apply(s: State, a: Action): State
    requires Enabled(s, a)
  {
    match a
    case List(t, names) =>
      s.(workers := s.workers[t := Listed(s.workers[t], names)], groupErr := s.groupErr || names == None)
    case Begin(t, name) => s.(workers := s.workers[t := Begun(s.workers[t], name)], log := s.log + [Start(t, name)])
    case Finish(t, name, ok) => s.(workers := s.workers[t := Ended(s.workers[t], name, ok)], log := s.log + [End(t, name, ok)])
    case Join(t) =>
      var w := Joined(s.workers[t]);
      s.(workers := s.workers[t := w],
         destroyedList := if w.phase == Finished then s.destroyedList + [w.info] else s.destroyedList)
    case GiveUp(t) =>
      s.(workers := s.workers[t := s.workers[t].(phase := Finished)],
         isAllDestroyed := false, destroyedList := s.destroyedList + [s.workers[t].info])
    case Wait =>
      if s.groupErr then s.(returned := Some(false))
      else if s.group + 1 == GROUPS then s.(returned := Some(true))
      else s.(group := s.group + 1, workers := s.workers + Spawn(s.group + 1))
  }

  // ------------------------------------------------------------------ the invariant of one worker

  /** What a pass deleted and what it could not delete are together what it listed. */
  predicate Complete(p: Pass) { multiset(p.deleted) + multiset(p.remained) == multiset(p.names) }

  predicate Failed(p: Pass) { p.remained != [] }

  function AllDeleted(passes: seq<Pass>): seq<string> {
    if passes == [] then [] else AllDeleted(passes[..|passes| - 1]) + passes[|passes| - 1].deleted
  }

  /** Every pass but possibly the last has failed. */
  predicate RetriesOnly(passes: seq<Pass>) {
    forall i | 0 <= i < |passes| - 1 :: Failed(passes[i])
  }

  predicate AllFailed(passes: seq<Pass>) {
    forall i | 0 <= i < |passes| :: Failed(passes[i])
  }

  /** The passes end with one that listed nothing or deleted all it listed. */
  predicate EndsClean(passes: seq<Pass>) {
    passes != [] && !Failed(passes[|passes| - 1])
  }

  /** The errors of the last pass that had any. */
  function LastErrors(passes: seq<Pass>): seq<string> {
    if passes == [] then []
    else if Failed(passes[|passes| - 1]) then passes[|passes| - 1].remained
    else LastErrors(passes[..|passes| - 1])
  }

  /** The last pass listed something and deleted all of it. */
  predicate EndsDeletingAll(passes: seq<Pass>) {
    EndsClean(passes) && passes[|passes| - 1].names != []
  }

  ghost predicate WorkerInv(t: RsType, w: Worker) {
    && w.info.rsType == t && w.info.deleted == AllDeleted(w.passes)
    && w.info.remained == LastErrors(w.passes) && (w.info.isAllDeleted <==> EndsDeletingAll(w.passes))
    && (forall i | 0 <= i < |w.passes| :: Complete(w.passes[i]))
    && RetriesOnly(w.passes) && |w.passes| <= RETRIES
    && match w.phase
       case Listing => AllFailed(w.passes) && |w.passes| < RETRIES && !w.err
       case Deleting(p, waiting, running) =>
         AllFailed(w.passes) && |w.passes| < RETRIES && !w.err && p.names != [] &&
         waiting + running + multiset(p.deleted) + multiset(p.remained) == multiset(p.names)
       case GivingUp => AllFailed(w.passes) && |w.passes| == RETRIES && !w.err
       case Finished => w.err || EndsClean(w.passes) || (AllFailed(w.passes) && |w.passes| == RETRIES)
  }

  lemma AllFailedIsRetries(passes: seq<Pass>, p: Pass)
    requires AllFailed(passes)
    ensures RetriesOnly(passes + [p]) && (Failed(p) ==> AllFailed(passes + [p])) && (!Failed(p) ==> EndsClean(passes + [p]))
    ensures AllDeleted(passes + [p]) == AllDeleted(passes) + p.deleted
    ensures LastErrors(passes + [p]) == if Failed(p) then p.remained else LastErrors(passes)
  {}

  lemma ListedKeepsWorker(t: RsType, w: Worker, names: Option<seq<string>>)
    requires WorkerInv(t, w) && w.phase == Listing
    ensures WorkerInv(t, Listed(w, names))
  {}

  lemma DeletingKeepsWorker(t: RsType, w: Worker, name: string, ok: bool)
    requires WorkerInv(t, w) && w.phase.Deleting?
    ensures name in w.phase.waiting ==> WorkerInv(t, Begun(w, name))
    ensures name in w.phase.running ==> WorkerInv(t, Ended(w, name, ok))
  {}

  lemma JoinedKeepsWorker(t: RsType, w: Worker)
    requires WorkerInv(t, w) && w.phase.Deleting? && w.phase.waiting == multiset{} == w.phase.running
    ensures WorkerInv(t, Joined(w))
  {}

  // ------------------------------------------------------------------ the log

  /** The deletes that have started and not returned. */
  function Running(w: Worker): multiset<string> {
    if w.phase.Deleting? then w.phase.running else multiset{}
  }

  /** Every delete of the type that has started has returned. */
  ghost predicate Closed(log: seq<Event>, t: RsType) {
    forall name :: multiset(log)[Start(t, name)] == multiset(log)[End(t, name, true)] + multiset(log)[End(t, name, false)]
  }

  /** When a delete starts, those of all earlier groups have returned, and none of them starts any more. */
  ghost predicate StartsInOrder(log: seq<Event>, i: nat, t: RsType)
    requires i < |log|
  {
    log[i].Start? && Group(t) < Group(log[i].rsType) ==>
      Closed(log[..i], t) && forall j | i <= j < |log| :: log[j].rsType != t
  }

  ghost predicate LogInv(s: State) {
    && (forall t: RsType :: OpenIs(s, s.log, t))
    && (forall i | 0 <= i < |s.log| :: Group(s.log[i].rsType) <= s.group)
    && (forall i, t | 0 <= i < |s.log| :: StartsInOrder(s.log, i, t))
  }

  /** One more event, of the group that is being worked on. */
  lemma LogGrows(log: seq<Event>, e: Event)
    requires forall i, t | 0 <= i < |log| :: StartsInOrder(log, i, t)
    requires forall i | 0 <= i < |log| :: Group(log[i].rsType) <= Group(e.rsType)
    requires forall t | Group(t) < Group(e.rsType) :: Closed(log, t)
    ensures forall i, t | 0 <= i < |log + [e]| :: StartsInOrder(log + [e], i, t)
  {
    var log' := log + [e];
    assert log'[..|log|] == log;
    forall i, t | 0 <= i < |log'| ensures StartsInOrder(log', i, t) {
      if i < |log| {
        assert StartsInOrder(log, i, t) && log'[..i] == log[..i];
      }
    }
  }

  // ------------------------------------------------------------------ the invariant

  ghost predicate ErrInv(s: State) {
    s.groupErr <==> exists t | t in s.workers :: s.workers[t].err
  }

  ghost predicate AllWorkers(s: State) {
    forall t | t in s.workers :: WorkerInv(t, s.workers[t])
  }

  /** Which workers there are, and which of them are at their end. */
  ghost predicate Shape(s: State) {
    && s.group < GROUPS
    && (forall t: RsType :: t in s.workers <==> Group(t) <= s.group)
    && (forall t | t in s.workers && Group(t) < s.group :: s.workers[t].phase == Finished && !s.workers[t].err)
    && ErrInv(s)
    && (s.returned.Some? ==> forall t | t in s.workers :: s.workers[t].phase == Finished)
    && (s.returned == Some(true) ==> s.group + 1 == GROUPS && !s.groupErr)
  }

  ghost predicate WorkersInv(s: State) { AllWorkers(s) && Shape(s) }

  /** A type that has come to its end without a listing error. */
  predicate Done(s: State, t: RsType) {
    t in s.workers && s.workers[t].phase == Finished && !s.workers[t].err
  }

  /** Its entry in the result: there is one unless its last pass listed nothing. */
  predicate Reported(s: State, t: RsType) {
    Done(s, t) && s.workers[t].passes != [] && s.workers[t].passes[|s.workers[t].passes| - 1].names != []
  }

  predicate FlagInv(s: State) {
    s.isAllDestroyed <==> forall t | Done(s, t) :: EndsClean(s.workers[t].passes)
  }

  predicate EntriesInv(s: State) {
    && (forall i | 0 <= i < |s.destroyedList| ::
          Reported(s, s.destroyedList[i].rsType) && s.destroyedList[i] == s.workers[s.destroyedList[i].rsType].info)
    && (forall t | Reported(s, t) :: exists i | 0 <= i < |s.destroyedList| :: s.destroyedList[i].rsType == t)
    && (forall i, j | 0 <= i < j < |s.destroyedList| :: s.destroyedList[i].rsType != s.destroyedList[j].rsType)
  }

  ghost predicate ResultInv(s: State) { FlagInv(s) && EntriesInv(s) }

  ghost predicate Inv(s: State) {
    WorkersInv(s) && LogInv(s) && ResultInv(s)
  }

  /** A step of one worker that is not at its end. */
  ghost predicate Moves(s: State, s': State, t: RsType, w: Worker) {
    && t in s.workers && s.workers[t].phase != Finished && s'.workers == s.workers[t := w]
    && s'.group == s.group && s'.returned == s.returned == None && s'.groupErr == (s.groupErr || w.err)
  }

  lemma MoveKeepsWorkers(s: State, s': State, t: RsType, w: Worker)
    requires WorkersInv(s) && Moves(s, s', t, w) && WorkerInv(t, w)
    ensures WorkersInv(s')
  {
    assert WorkerInv(t, s.workers[t]);
    MoveKeepsAll(s, s', t, w);
    MoveKeepsShape(s, s', t, w);
  }

  lemma MoveKeepsAll(s: State, s': State, t: RsType, w: Worker)
    requires AllWorkers(s) && Moves(s, s', t, w) && WorkerInv(t, w)
    ensures AllWorkers(s')
  {}

  lemma MoveKeepsShape(s: State, s': State, t: RsType, w: Worker)
    requires Shape(s) && Moves(s, s', t, w) && !s.workers[t].err
    ensures Shape(s')
  {}

  function Moved(s: State, a: Action): Worker
    requires Enabled(s, a) && a != Wait
  {
    match a
    case List(t, names) => Listed(s.workers[t], names)
    case Begin(t, name) => Begun(s.workers[t], name)
    case Finish(t, name, ok) => Ended(s.workers[t], name, ok)
    case Join(t) => Joined(s.workers[t])
    case GiveUp(t) => s.workers[t].(phase := Finished)
  }

  lemma GivingUpKeepsWorker(t: RsType, w: Worker)
    requires WorkerInv(t, w) && w.phase == GivingUp
    ensures WorkerInv(t, w.(phase := Finished))
  {}

  lemma MovedKeepsWorker(t: RsType, s: State, a: Action)
    requires Enabled(s, a) && a != Wait && a.t == t && WorkerInv(t, s.workers[t])
    ensures WorkerInv(t, Moved(s, a))
  {
    match a
    case List(_, names) => ListedKeepsWorker(t, s.workers[t], names);
    case Begin(_, name) => DeletingKeepsWorker(t, s.workers[t], name, true);
    case Finish(_, name, ok) => DeletingKeepsWorker(t, s.workers[t], name, ok);
    case Join(_) => JoinedKeepsWorker(t, s.workers[t]);
    case GiveUp(_) => GivingUpKeepsWorker(t, s.workers[t]);
  }

  lemma WorkerMoves(t: RsType, s: State, a: Action)
    requires Enabled(s, a) && a != Wait && a.t == t && WorkerInv(t, s.workers[t])
    ensures WorkerInv(t, Moved(s, a)) && Moves(s, Apply(s, a), t, Moved(s, a))
  {
    MovedKeepsWorker(t, s, a);
    assert s.workers[t].phase != Listing ==> !Moved(s, a).err;
  }

  lemma StepKeepsWorkers(s: State, a: Action)
    requires WorkersInv(s) && Enabled(s, a)
    ensures WorkersInv(Apply(s, a))
  {
    if a == Wait {
      WaitKeepsWorkers(s);
    } else {
      WorkerMoves(a.t, s, a);
      MoveKeepsWorkers(s, Apply(s, a), a.t, Moved(s, a));
    }
  }

  lemma WaitKeepsWorkers(s: State)
    requires WorkersInv(s) && Enabled(s, Wait)
    ensures WorkersInv(Apply(s, Wait))
  {
    var s' := Apply(s, Wait);
    forall t | t in s'.workers ensures WorkerInv(t, s'.workers[t]) {
      if t in s.workers { assert WorkerInv(t, s.workers[t]); }
    }
  }

  /** What the log has open, for each type, is what its worker has running. */
  ghost predicate OpenIs(s: State, log: seq<Event>, t: RsType) {
    var running := if t in s.workers then Running(s.workers[t]) else multiset{};
    forall name :: multiset(log)[Start(t, name)] ==
                   multiset(log)[End(t, name, true)] + multiset(log)[End(t, name, false)] + running[name]
  }

  lemma EventKeepsLog(s: State, s': State, t: RsType, w: Worker, e: Event)
    requires LogInv(s) && Moves(s, s', t, w) && s'.log == s.log + [e] && e.rsType == t && Group(t) == s.group
    requires forall u | Group(u) < Group(t) :: Closed(s.log, u)
    requires if e.Start? then Running(w) == Running(s.workers[t]) + multiset{e.name}
             else e.name in Running(s.workers[t]) && Running(w) == Running(s.workers[t]) - multiset{e.name}
    ensures LogInv(s')
  {
    LogGrows(s.log, e);
    forall u ensures OpenIs(s', s'.log, u) {
      assert OpenIs(s, s.log, u);
      if u == t { EventOpens(s.log, e, Running(s.workers[t]), Running(w)); } else { EventElsewhere(s.log, e, u); }
    }
  }

  lemma EventOpens(log: seq<Event>, e: Event, before: multiset<string>, after: multiset<string>)
    requires if e.Start? then after == before + multiset{e.name} else e.name in before && after == before - multiset{e.name}
    requires forall name :: multiset(log)[Start(e.rsType, name)] ==
                            multiset(log)[End(e.rsType, name, true)] + multiset(log)[End(e.rsType, name, false)] + before[name]
    ensures forall name :: multiset(log + [e])[Start(e.rsType, name)] ==
                           multiset(log + [e])[End(e.rsType, name, true)] + multiset(log + [e])[End(e.rsType, name, false)] + after[name]
  {
    assert multiset(log + [e]) == multiset(log) + multiset{e};
  }

  lemma EventElsewhere(log: seq<Event>, e: Event, t: RsType)
    requires e.rsType != t
    ensures forall f: Event | f.rsType == t :: multiset(log + [e])[f] == multiset(log)[f]
  {
    assert multiset(log + [e]) == multiset(log) + multiset{e};
  }

  lemma OthersKeepLog(s: State, a: Action)
    requires WorkersInv(s) && LogInv(s) && Enabled(s, a) && !a.Begin? && !a.Finish?
    ensures LogInv(Apply(s, a))
  {
    var s' := Apply(s, a);
    assert s'.log == s.log && s'.group >= s.group;
    forall u ensures OpenIs(s', s'.log, u) {
      assert OpenIs(s, s.log, u);
      OthersRunTheSame(s, a, u);
    }
  }

  /** Listing, joining, giving up and waiting start and end no deletes. */
  lemma OthersRunTheSame(s: State, a: Action, u: RsType)
    requires Shape(s) && Enabled(s, a) && !a.Begin? && !a.Finish?
    ensures (if u in Apply(s, a).workers then Running(Apply(s, a).workers[u]) else multiset{}) ==
            if u in s.workers then Running(s.workers[u]) else multiset{}
  {}

  lemma StepKeepsLog(s: State, a: Action)
    requires WorkersInv(s) && LogInv(s) && Enabled(s, a)
    ensures LogInv(Apply(s, a))
  {
    if a.Begin? || a.Finish? {
      EarlierClosed(s, a.t);
      WorkerMoves(a.t, s, a);
      EventKeepsLog(s, Apply(s, a), a.t, Moved(s, a), Logged(a));
    } else {
      OthersKeepLog(s, a);
    }
  }

  /** A worker that is deleting belongs to the current group, and the groups before have nothing open. */
  lemma EarlierClosed(s: State, t: RsType)
    requires WorkersInv(s) && LogInv(s) && t in s.workers && s.workers[t].phase.Deleting?
    ensures Group(t) == s.group && forall u | Group(u) < Group(t) :: Closed(s.log, u)
  {
    forall u | Group(u) < Group(t) ensures Closed(s.log, u) { assert OpenIs(s, s.log, u); }
  }

  /** A type has the same standing in both states. */
  predicate SameStatus(s: State, s': State, t: RsType) {
    (Done(s', t) <==> Done(s, t)) && (Done(s, t) ==> s'.workers[t] == s.workers[t])
  }

  lemma OthersSame(s: State, s': State, t: RsType, w: Worker, u: RsType)
    requires Moves(s, s', t, w) && u != t
    ensures SameStatus(s, s', u)
  {}

  lemma FrameKeepsResult(s: State, s': State)
    requires ResultInv(s) && s'.isAllDestroyed == s.isAllDestroyed && s'.destroyedList == s.destroyedList
    requires forall u :: Done(s', u) <==> Done(s, u)
    requires forall u | Done(s, u) :: u in s'.workers && s'.workers[u] == s.workers[u]
    ensures ResultInv(s')
  {
    assert forall u :: Reported(s', u) <==> Reported(s, u);
  }

  /** Coming to an end cleanly keeps the flag, coming to an end otherwise clears it. */
  lemma MoveKeepsFlag(s: State, s': State, t: RsType, w: Worker)
    requires FlagInv(s) && Moves(s, s', t, w)
    requires s'.isAllDestroyed <==> s.isAllDestroyed && (Done(s', t) ==> EndsClean(w.passes))
    ensures FlagInv(s')
  {
    forall u | u != t ensures Done(s', u) <==> Done(s, u) { OthersSame(s, s', t, w, u); }
    assert !Done(s, t);
    assert forall u | u != t && Done(s, u) :: s'.workers[u] == s.workers[u];
  }

  /** A step of one worker that reports nothing. */
  lemma QuietKeepsEntries(s: State, s': State, t: RsType, w: Worker)
    requires EntriesInv(s) && Moves(s, s', t, w) && !Reported(s', t) && s'.destroyedList == s.destroyedList
    ensures EntriesInv(s')
  {
    assert !Reported(s, t);
    forall u ensures Reported(s', u) <==> Reported(s, u) { if u != t { OthersSame(s, s', t, w, u); } }
    assert forall u | Reported(s, u) :: s'.workers[u] == s.workers[u];
  }

  lemma QuietKeepsResult(s: State, s': State, t: RsType, w: Worker)
    requires ResultInv(s) && Moves(s, s', t, w) && s'.isAllDestroyed == s.isAllDestroyed && s'.destroyedList == s.destroyedList
    requires !Reported(s', t) && (Done(s', t) ==> EndsClean(w.passes))
    ensures ResultInv(s')
  {
    MoveKeepsFlag(s, s', t, w);
    QuietKeepsEntries(s, s', t, w);
  }

  /** A worker comes to its end and its entry is appended. */
  lemma ReportKeepsResult(s: State, s': State, t: RsType, w: Worker)
    requires ResultInv(s) && Moves(s, s', t, w) && Reported(s', t)
    requires s'.destroyedList == s.destroyedList + [w.info] && w.info.rsType == t
    requires s'.isAllDestroyed <==> s.isAllDestroyed && EndsClean(w.passes)
    ensures ResultInv(s')
  {
    MoveKeepsFlag(s, s', t, w);
    ReportKeepsEntries(s, s', t, w);
  }

  lemma ReportKeepsEntries(s: State, s': State, t: RsType, w: Worker)
    requires EntriesInv(s) && Moves(s, s', t, w) && Reported(s', t)
    requires s'.destroyedList == s.destroyedList + [w.info] && w.info.rsType == t
    ensures EntriesInv(s')
  {
    assert !Reported(s, t);
    forall u | u != t ensures Reported(s', u) <==> Reported(s, u) { OthersSame(s, s', t, w, u); }
    assert forall u | Reported(s, u) :: s'.workers[u] == s.workers[u];
    forall u | Reported(s', u) ensures exists i | 0 <= i < |s'.destroyedList| :: s'.destroyedList[i].rsType == u {
      EntryStays(s, s', u, t);
    }
  }

  lemma EntryStays(s: State, s': State, u: RsType, t: RsType)
    requires |s'.destroyedList| == |s.destroyedList| + 1 && s.destroyedList <= s'.destroyedList
    requires s'.destroyedList[|s.destroyedList|].rsType == t
    requires u != t ==> exists i | 0 <= i < |s.destroyedList| :: s.destroyedList[i].rsType == u
    ensures exists i | 0 <= i < |s'.destroyedList| :: s'.destroyedList[i].rsType == u
  {}

  lemma ListKeepsResult(s: State, t: RsType, names: Option<seq<string>>)
    requires ResultInv(s) && Enabled(s, List(t, names)) && WorkerInv(t, s.workers[t])
    ensures ResultInv(Apply(s, List(t, names)))
  {
    WorkerMoves(t, s, List(t, names));
    AllFailedIsRetries(s.workers[t].passes, Pass([], [], []));
    QuietKeepsResult(s, Apply(s, List(t, names)), t, Listed(s.workers[t], names));
  }

  lemma JoinKeepsResult(s: State, t: RsType)
    requires ResultInv(s) && Enabled(s, Join(t)) && WorkerInv(t, s.workers[t])
    ensures ResultInv(Apply(s, Join(t)))
  {
    var s' := Apply(s, Join(t));
    WorkerMoves(t, s, Join(t));
    AllFailedIsRetries(s.workers[t].passes, s.workers[t].phase.pass);
    if s'.workers[t].phase == Finished {
      ReportKeepsResult(s, s', t, Joined(s.workers[t]));
    } else {
      QuietKeepsResult(s, s', t, Joined(s.workers[t]));
    }
  }

  lemma GiveUpKeepsResult(s: State, t: RsType)
    requires ResultInv(s) && Enabled(s, GiveUp(t)) && WorkerInv(t, s.workers[t])
    ensures ResultInv(Apply(s, GiveUp(t)))
  {
    WorkerMoves(t, s, GiveUp(t));
    var last := s.workers[t].passes[RETRIES - 1];
    assert Failed(last) && Complete(last);
    LeftOver(last);
    ReportKeepsResult(s, Apply(s, GiveUp(t)), t, s.workers[t].(phase := Finished));
  }

  lemma WaitKeepsResult(s: State)
    requires WorkersInv(s) && ResultInv(s) && Enabled(s, Wait)
    ensures ResultInv(Apply(s, Wait))
  {
    var s' := Apply(s, Wait);
    forall u ensures (Done(s', u) <==> Done(s, u)) && (Done(s, u) ==> s'.workers[u] == s.workers[u]) { WaitSame(s, u); }
    FrameKeepsResult(s, s');
  }

  lemma WaitSame(s: State, u: RsType)
    requires Enabled(s, Wait) && (u in s.workers <==> Group(u) <= s.group)
    ensures SameStatus(s, Apply(s, Wait), u)
  {}

  lemma StepKeepsResult(s: State, a: Action)
    requires WorkersInv(s) && ResultInv(s) && Enabled(s, a)
    ensures ResultInv(Apply(s, a))
  {
    if a == Wait { WaitKeepsResult(s); }
    else if a.List? { ListKeepsResult(s, a.t, a.names); }
    else if a.Join? { JoinKeepsResult(s, a.t); }
    else if a.GiveUp? { GiveUpKeepsResult(s, a.t); }
    else {
      WorkerMoves(a.t, s, a);
      QuietKeepsResult(s, Apply(s, a), a.t, Moved(s, a));
    }
  }

  lemma StepKeepsInv(s: State, a: Action)
    requires Inv(s) && Enabled(s, a)
    ensures Inv(Apply(s, a))
  {
    StepKeepsWorkers(s, a);
    StepKeepsLog(s, a);
    StepKeepsResult(s, a);
  }

  // ------------------------------------------------------------------ every run

  function Run(s: State, acts: seq<Action>): Option<State>
    decreases |acts|
  {
    if acts == [] then Some(s)
    else if Enabled(s, acts[0]) then Run(Apply(s, acts[0]), acts[1..])
    else None
  }

  lemma {:induction false} RunKeepsInv(s: State, acts: seq<Action>)
    requires Inv(s) && Run(s, acts).Some?
    ensures Inv(Run(s, acts).value)
    decreases |acts|
  {
    if acts != [] {
      StepKeepsInv(s, acts[0]);
      RunKeepsInv(Apply(s, acts[0]), acts[1..]);
    }
  }

  lemma ReachedInv(acts: seq<Action>, s: State)
    requires Run(Init(), acts) == Some(s)
    ensures Inv(s)
  {
    RunKeepsInv(Init(), acts);
  }

  /**
   In every interleaving: when a delete of some type starts, every delete of every type of an earlier
   group has returned, and none is started afterwards.
   */
  lemma GroupsInOrder(acts: seq<Action>, s: State, i: nat, t: RsType)
    requires Run(Init(), acts) == Some(s) && i < |s.log|
    requires s.log[i].Start? && Group(t) < Group(s.log[i].rsType)
    ensures Closed(s.log[..i], t) && forall j | i <= j < |s.log| :: s.log[j].rsType != t
  {
    ReachedInv(acts, s);
    EarlierReturned(s, i, t);
  }

  /** What has to be gone before a type is deleted. */
  predicate MustBeGone(t: RsType, before: RsType) {
    match before
    case VPC => t != VPC
    case KEY | SG => t in {CLUSTER, MYIMAGE, NLB, RDBMS, VM, DISK}
    case DISK => t in {CLUSTER, MYIMAGE, NLB, RDBMS, VM}
    case VM => t in {CLUSTER, MYIMAGE, NLB, RDBMS}
    case _ => false
  }

  /**
   By the types' names: when a delete starts, every delete of a type that has to be gone before, started
   under whatever name, has returned, and none is started afterwards. VPCs go after everything else,
   key pairs and security groups after all but these, disks after the VMs, and VMs after clusters,
   images, load balancers and databases.
   */
  lemma TypesInOrder(acts: seq<Action>, s: State, i: nat, t: RsType)
    requires Run(Init(), acts) == Some(s) && i < |s.log| && s.log[i].Start? && MustBeGone(t, s.log[i].rsType)
    ensures forall name :: multiset(s.log[..i])[Start(t, name)] ==
                           multiset(s.log[..i])[End(t, name, true)] + multiset(s.log[..i])[End(t, name, false)]
    ensures forall j | i <= j < |s.log| :: s.log[j].rsType != t
  {
    GroupsInOrder(acts, s, i, t);
  }

  lemma EarlierReturned(s: State, i: nat, t: RsType)
    requires LogInv(s) && i < |s.log| && s.log[i].Start? && Group(t) < Group(s.log[i].rsType)
    ensures Closed(s.log[..i], t) && forall j | i <= j < |s.log| :: s.log[j].rsType != t
  {
    assert StartsInOrder(s.log, i, t);
  }

  /** In every interleaving each pass of each type deletes or reports exactly what it listed, in at most ten passes. */
  lemma PassesComplete(acts: seq<Action>, s: State, t: RsType)
    requires Run(Init(), acts) == Some(s) && t in s.workers
    ensures var w := s.workers[t];
            |w.passes| <= 10 && w.info.deleted == AllDeleted(w.passes) &&
            forall i | 0 <= i < |w.passes| :: multiset(w.passes[i].deleted + w.passes[i].remained) == multiset(w.passes[i].names)
  {
    ReachedInv(acts, s);
    var w := s.workers[t];
    forall i | 0 <= i < |w.passes|
      ensures multiset(w.passes[i].deleted + w.passes[i].remained) == multiset(w.passes[i].names)
    {
      assert Complete(w.passes[i]);
    }
  }

  function AllRemained(passes: seq<Pass>): seq<string> {
    if passes == [] then [] else AllRemained(passes[..|passes| - 1]) + passes[|passes| - 1].remained
  }

  /** What the worker has recorded so far as deleted, or as not deleted. */
  function Recorded(w: Worker, ok: bool): multiset<string> {
    multiset(if ok then AllDeleted(w.passes) else AllRemained(w.passes)) +
    if !w.phase.Deleting? then multiset{}
    else multiset(if ok then w.phase.pass.deleted else w.phase.pass.remained)
  }

  function RecordedFor(s: State, t: RsType, ok: bool): multiset<string> {
    if t in s.workers then Recorded(s.workers[t], ok) else multiset{}
  }

  /** The names with which calls for the type have returned so far, and how often. */
  ghost predicate Returned(log: seq<Event>, t: RsType, ok: bool, names: multiset<string>) {
    forall name :: multiset(log)[End(t, name, ok)] == names[name]
  }

  ghost predicate Tells(s: State, t: RsType, ok: bool) { Returned(s.log, t, ok, RecordedFor(s, t, ok)) }

  ghost predicate AllTell(s: State) { forall t, ok :: Tells(s, t, ok) }

  lemma RecordedNext(passes: seq<Pass>, p: Pass)
    ensures AllDeleted(passes + [p]) == AllDeleted(passes) + p.deleted
    ensures AllRemained(passes + [p]) == AllRemained(passes) + p.remained
  {
    assert (passes + [p])[..|passes|] == passes;
  }

  lemma MovedRecords(s: State, a: Action, ok: bool)
    requires Enabled(s, a) && a != Wait
    ensures Recorded(Moved(s, a), ok) ==
            Recorded(s.workers[a.t], ok) + if a.Finish? && a.ok == ok then multiset{a.name} else multiset{}
  {
    var w := s.workers[a.t];
    match a
    case List(_, names) => if names == Some([]) || names.None? { RecordedNext(w.passes, Pass([], [], [])); }
    case Join(_) => JoinedRecords(w, ok);
    case Finish(_, name, ok') => EndedRecords(w, name, ok', ok);
    case _ =>
  }

  lemma JoinedRecords(w: Worker, ok: bool)
    requires w.phase.Deleting?
    ensures Recorded(Joined(w), ok) == Recorded(w, ok)
  {
    RecordedNext(w.passes, w.phase.pass);
  }

  lemma EndedRecords(w: Worker, name: string, ok: bool, of: bool)
    requires w.phase.Deleting?
    ensures Recorded(Ended(w, name, ok), of) == Recorded(w, of) + if ok == of then multiset{name} else multiset{}
  {}

  lemma StepTells(s: State, a: Action)
    requires Shape(s) && AllTell(s) && Enabled(s, a)
    ensures AllTell(Apply(s, a))
  {
    var s' := Apply(s, a);
    forall t, ok ensures Tells(s', t, ok) {
      assert Tells(s, t, ok);
      if a != Wait { MovedTells(s, a, t, ok); }
    }
  }

  lemma MovedTells(s: State, a: Action, t: RsType, ok: bool)
    requires Tells(s, t, ok) && Enabled(s, a) && a != Wait
    ensures Tells(Apply(s, a), t, ok)
  {
    MovedRecordsFor(s, a, t, ok);
    LogMoves(s, a);
    if Apply(s, a).log != s.log { OneMore(s.log, Logged(a), t, ok, RecordedFor(s, t, ok)); }
  }

  lemma MovedRecordsFor(s: State, a: Action, t: RsType, ok: bool)
    requires Enabled(s, a) && a != Wait
    ensures RecordedFor(Apply(s, a), t, ok) ==
            RecordedFor(s, t, ok) + if a.Finish? && a.t == t && a.ok == ok then multiset{a.name} else multiset{}
  {
    WorkersMove(s, a);
    if t == a.t { MovedRecords(s, a, ok); }
  }

  lemma WorkersMove(s: State, a: Action)
    requires Enabled(s, a) && a != Wait
    ensures Apply(s, a).workers == s.workers[a.t := Moved(s, a)]
  {}

  function Logged(a: Action): Event
    requires a.Begin? || a.Finish?
  {
    if a.Begin? then Start(a.t, a.name) else End(a.t, a.name, a.ok)
  }

  lemma LogMoves(s: State, a: Action)
    requires Enabled(s, a)
    ensures Apply(s, a).log == if a.Begin? || a.Finish? then s.log + [Logged(a)] else s.log
  {}

  lemma OneMore(log: seq<Event>, e: Event, t: RsType, ok: bool, names: multiset<string>)
    requires Returned(log, t, ok, names)
    ensures Returned(log + [e], t, ok, names + if e.End? && e.rsType == t && e.ok == ok then multiset{e.name} else multiset{})
  {
    assert multiset(log + [e]) == multiset(log) + multiset{e};
  }

  lemma {:induction false} RunTells(s: State, acts: seq<Action>)
    requires Inv(s) && AllTell(s) && Run(s, acts).Some?
    ensures AllTell(Run(s, acts).value)
    decreases |acts|
  {
    if acts != [] {
      StepKeepsInv(s, acts[0]);
      StepTells(s, acts[0]);
      RunTells(Apply(s, acts[0]), acts[1..]);
    }
  }

  /**
   In every interleaving, at every point: a name is recorded as deleted exactly as often as its delete
   call has returned without an error, and as remaining exactly as often as it has returned with one.
   */
  lemma CallsRecorded(acts: seq<Action>, s: State, t: RsType, name: string)
    requires Run(Init(), acts) == Some(s) && t in s.workers && !s.workers[t].phase.Deleting?
    ensures var passes := s.workers[t].passes;
            multiset(AllDeleted(passes))[name] == multiset(s.log)[End(t, name, true)] &&
            multiset(AllRemained(passes))[name] == multiset(s.log)[End(t, name, false)]
  {
    RunTells(Init(), acts);
    BothTold(s, t, name);
  }

  lemma BothTold(s: State, t: RsType, name: string)
    requires AllTell(s) && t in s.workers && !s.workers[t].phase.Deleting?
    ensures multiset(AllDeleted(s.workers[t].passes))[name] == multiset(s.log)[End(t, name, true)]
    ensures multiset(AllRemained(s.workers[t].passes))[name] == multiset(s.log)[End(t, name, false)]
  {
    assert Tells(s, t, true) && Tells(s, t, false);
  }

  /** A type is given up, still having errors, after ten passes and not before; every pass before the last has failed. */
  lemma TenPasses(acts: seq<Action>, s: State, t: RsType)
    requires Run(Init(), acts) == Some(s) && s.returned == Some(true)
    ensures t in s.workers && s.workers[t].passes != []
    ensures var passes := s.workers[t].passes;
            (passes[|passes| - 1].remained != [] ==> |passes| == 10) &&
            forall i | 0 <= i < |passes| - 1 :: passes[i].remained != []
  {
    ReachedInv(acts, s);
    EndsOf(s, t);
    RetriesOf(t, s.workers[t]);
  }

  lemma RetriesOf(t: RsType, w: Worker)
    requires WorkerInv(t, w) && w.phase == Finished && !w.err && w.passes != []
    ensures w.passes[|w.passes| - 1].remained != [] ==> |w.passes| == 10
    ensures forall i | 0 <= i < |w.passes| - 1 :: w.passes[i].remained != []
  {
    assert forall i | 0 <= i < |w.passes| - 1 :: Failed(w.passes[i]);
  }

  predicate Lists(a: Action) { a.List? && a.names == None }

  lemma {:induction false} RunFails(s: State, acts: seq<Action>)
    requires Run(s, acts).Some?
    ensures Run(s, acts).value.groupErr <==> s.groupErr || exists a | a in acts :: Lists(a)
    ensures s.returned.None? && Run(s, acts).value.returned.Some? ==>
              Run(s, acts).value.returned == Some(!Run(s, acts).value.groupErr)
    decreases |acts|
  {
    if acts != [] {
      assert acts == [acts[0]] + acts[1..];
      RunFails(Apply(s, acts[0]), acts[1..]);
      StepReturns(s, acts[0]);
      if Apply(s, acts[0]).returned.Some? { NothingMore(Apply(s, acts[0]), acts[1..]); }
    }
  }

  lemma StepReturns(s: State, a: Action)
    requires Enabled(s, a)
    ensures s.returned.None?
    ensures Apply(s, a).groupErr <==> s.groupErr || Lists(a)
    ensures Apply(s, a).returned.Some? ==> Apply(s, a).returned == Some(!Apply(s, a).groupErr)
  {}

  lemma NothingMore(s: State, acts: seq<Action>)
    requires s.returned.Some? && Run(s, acts).Some?
    ensures acts == []
  {}

  /** Destroy returns an error exactly when some listing has failed. */
  lemma ErrorIff(acts: seq<Action>, s: State)
    requires Run(Init(), acts) == Some(s) && s.returned.Some?
    ensures s.returned == Some(false) <==> exists a | a in acts :: a.List? && a.names == None
  {
    RunFails(Init(), acts);
    assert forall a | a in acts :: Lists(a) <==> a.List? && a.names == None;
  }

  /** The type's last pass listed nothing or deleted all that it listed. */
  predicate ClearedAll(w: Worker) {
    w.passes != [] && var p := w.passes[|w.passes| - 1]; multiset(p.deleted) == multiset(p.names)
  }

  /**
   Destroy that returns without an error says IsAllDestroyed exactly when the last pass of every type
   listed nothing or deleted all that it listed.
   */
  lemma AllDestroyedMeans(acts: seq<Action>, s: State)
    requires Run(Init(), acts) == Some(s) && s.returned == Some(true)
    ensures (forall t: RsType :: t in s.workers && s.workers[t].passes != []) &&
            (s.isAllDestroyed <==>
             forall t: RsType :: t in s.workers && ClearedAll(s.workers[t]))
  {
    ReachedInv(acts, s);
    LastPasses(s);
  }

  lemma LastPasses(s: State)
    requires WorkersInv(s) && FlagInv(s) && s.returned == Some(true)
    ensures forall t: RsType :: t in s.workers && s.workers[t].passes != []
    ensures s.isAllDestroyed <==>
              forall t: RsType :: t in s.workers && ClearedAll(s.workers[t])
  {
    forall t: RsType ensures EndAt(s, t) { EndsOf(s, t); }
    FlagMeans(s);
  }

  predicate EndAt(s: State, t: RsType) {
    Done(s, t) && s.workers[t].info.rsType == t && s.workers[t].passes != [] &&
    (EndsClean(s.workers[t].passes) <==> ClearedAll(s.workers[t]))
  }

  lemma EndsOf(s: State, t: RsType)
    requires WorkersInv(s) && s.returned == Some(true)
    ensures EndAt(s, t)
  {
    assert Group(t) < GROUPS;
    LastPass(t, s.workers[t]);
  }

  lemma FlagMeans(s: State)
    requires FlagInv(s)
    requires forall t: RsType :: EndAt(s, t)
    ensures forall t: RsType :: t in s.workers && s.workers[t].passes != []
    ensures s.isAllDestroyed <==> forall t: RsType :: t in s.workers && ClearedAll(s.workers[t])
  {
    forall t: RsType
      ensures Done(s, t) && t in s.workers && s.workers[t].passes != []
      ensures EndsClean(s.workers[t].passes) <==> ClearedAll(s.workers[t])
    {
      assert EndAt(s, t);
    }
  }

  lemma LastPass(t: RsType, w: Worker)
    requires WorkerInv(t, w) && w.phase == Finished && !w.err
    ensures w.passes != [] && (EndsClean(w.passes) <==> ClearedAll(w))
  {
    var p := w.passes[|w.passes| - 1];
    assert Complete(p);
    LeftOver(p);
  }

  /** A complete pass deleted all exactly when nothing remained. */
  lemma LeftOver(p: Pass)
    requires Complete(p)
    ensures Failed(p) <==> multiset(p.deleted) != multiset(p.names)
  {
    if Failed(p) {
      assert p.remained[0] in multiset(p.remained);
      assert multiset(p.names)[p.remained[0]] > multiset(p.deleted)[p.remained[0]];
    }
  }

  /**
   The returned list has exactly one entry for each type whose last pass listed something, and none
   for a type whose last pass listed nothing, even when its earlier passes deleted resources.
   */
  lemma EntryIff(acts: seq<Action>, s: State, t: RsType)
    requires Run(Init(), acts) == Some(s) && s.returned == Some(true)
    ensures && t in s.workers && s.workers[t].passes != []
            && ((exists i | 0 <= i < |s.destroyedList| :: s.destroyedList[i] == s.workers[t].info)
                <==> s.workers[t].passes[|s.workers[t].passes| - 1].names != [])
            && forall i, j | 0 <= i < j < |s.destroyedList| :: s.destroyedList[i].rsType != s.destroyedList[j].rsType
  {
    ReachedInv(acts, s);
    EntryAtEnd(s, t);
  }

  lemma EntryAtEnd(s: State, t: RsType)
    requires WorkersInv(s) && EntriesInv(s) && s.returned == Some(true)
    ensures t in s.workers && s.workers[t].passes != []
    ensures (exists i | 0 <= i < |s.destroyedList| :: s.destroyedList[i] == s.workers[t].info)
            <==> s.workers[t].passes[|s.workers[t].passes| - 1].names != []
    ensures forall i, j | 0 <= i < j < |s.destroyedList| :: s.destroyedList[i].rsType != s.destroyedList[j].rsType
  {
    EndsOf(s, t);
    EntryOf(s, t);
  }

  lemma EntryOf(s: State, t: RsType)
    requires EntriesInv(s) && Done(s, t) && s.workers[t].passes != [] && s.workers[t].info.rsType == t
    ensures (exists i | 0 <= i < |s.destroyedList| :: s.destroyedList[i] == s.workers[t].info)
            <==> s.workers[t].passes[|s.workers[t].passes| - 1].names != []
  {
    if Reported(s, t) {
      var i :| 0 <= i < |s.destroyedList| && s.destroyedList[i].rsType == t;
      assert s.destroyedList[i] == s.workers[t].info;
    }
  }

  /**
   What an entry tells of the passes of its type: all is deleted exactly when the last one left nothing,
   and the errors are those of the last one that had any. So it says both, all deleted and errors,
   exactly when a pass left nothing after one that failed.
   */
  predicate EntryTrue(entry: TypeInfo, passes: seq<Pass>) {
    && entry.deleted == AllDeleted(passes) && entry.remained == LastErrors(passes)
    && (entry.isAllDeleted <==> EndsClean(passes))
    && (entry.isAllDeleted && entry.remained != [] <==> EndsClean(passes) && exists k | 0 <= k < |passes| :: Failed(passes[k]))
  }

  lemma EntryMeans(acts: seq<Action>, s: State, i: nat)
    requires Run(Init(), acts) == Some(s) && i < |s.destroyedList|
    ensures var entry := s.destroyedList[i];
            entry.rsType in s.workers && EntryTrue(entry, s.workers[entry.rsType].passes)
  {
    ReachedInv(acts, s);
    EntryTells(s, i);
  }

  lemma EntryTells(s: State, i: nat)
    requires AllWorkers(s) && EntriesInv(s) && i < |s.destroyedList|
    ensures s.destroyedList[i].rsType in s.workers
    ensures EntryTrue(s.destroyedList[i], s.workers[s.destroyedList[i].rsType].passes)
  {
    var t := s.destroyedList[i].rsType;
    assert Reported(s, t);
    InfoTells(t, s.workers[t]);
  }

  lemma InfoTells(t: RsType, w: Worker)
    requires WorkerInv(t, w) && w.passes != [] && w.passes[|w.passes| - 1].names != []
    ensures EntryTrue(w.info, w.passes)
  {
    if EndsClean(w.passes) { StaleErrors(w.passes); }
  }

  /** After failed passes and one that left nothing, the errors are those of the last failed pass. */
  lemma StaleErrors(passes: seq<Pass>)
    requires RetriesOnly(passes) && EndsClean(passes)
    ensures LastErrors(passes) == if |passes| > 1 then passes[|passes| - 2].remained else []
    ensures LastErrors(passes) != [] <==> exists k | 0 <= k < |passes| :: Failed(passes[k])
  {
    var n := |passes| - 1;
    if n > 0 { assert Failed(passes[n - 1]) && passes[..n][n - 1] == passes[n - 1]; }
  }

  /** Destroy never blocks: until it has returned, some goroutine can take its next step. */
  lemma NeverBlocked(s: State) returns (a: Action)
    requires s.returned == None
    ensures Enabled(s, a)
  {
    if t :| t in s.workers && s.workers[t].phase != Finished {
      match s.workers[t].phase {
        case Listing => a := List(t, None);
        case GivingUp => a := GiveUp(t);
        case Deleting(_, waiting, running) =>
          if name :| name in waiting { a := Begin(t, name); }
          else if name :| name in running { a := Finish(t, name, true); }
          else { a := Join(t); }
      }
    } else {
      a := Wait;
    }
  }
}
