/**
 The requests of VMPublicIPManager.go step by step, any number of them at once. Nothing locks a VM
 across a request; only the calls of PublicIPManager.go are atomic, each under its PublicIP's lock. So
 the scan of an Unassign visits the listed PublicIPs one by one, and everybody else may act between two
 visits, and between the scan and the removal that may follow it.
 */
module PublicIpSteps {
  import opened Strings
  import P = PublicIp

  type World = P.World
  type Tid = nat

  datatype Op =
    | AssignVM(vm: string)
    | UnassignVM(vm: string)
    | AttachVM(vm: string, name: string)
    | DetachVM(vm: string, name: string)

  /** The PublicIP that a request associates, disassociates or deletes. */
  function Target(op: Op): string {
    match op
    case AssignVM(vm) => P.DefaultName(vm)
    case UnassignVM(vm) => P.DefaultName(vm)
    case AttachVM(_, name) => name
    case DetachVM(_, name) => name
  }

  /** A row as the scan has listed it: a PublicIP's name and the ID of its address. */
  datatype Entry = Entry(name: string, id: string)

  datatype Pc =
    | Arrived
    | Creating       // Assign: the default-named PublicIP
    | Associating    // Assign and Attach
    | RollingBack    // Assign: the association has failed
    | Disassociating // Unassign and Detach
    | Deleting       // Unassign: the default-named PublicIP is off the VM
    | Listing        // Unassign: it was not
    | Scanning(todo: seq<Entry>, found: bool)
    | Removing       // nothing was found on the VM
    | Returned

  datatype Caller = Caller(op: Op, pc: Pc)

  datatype State = State(w: World, callers: map<Tid, Caller>)

  datatype Action =
    | Arrive(t: Tid, op: Op)
    | GetVM(t: Tid, answer: Option<bool>, provider: bool)
    | CreateIP(t: Tid, answers: P.CreateAnswers)
    | Associate(t: Tid, ok: bool)
    | RollBack(t: Tid, try: P.Try)
    | Disassociate(t: Tid, ok: bool)
    | DeleteIP(t: Tid, try: P.Try, again: bool)
    | List(t: Tid, entries: Option<seq<Entry>>)
    | Visit(t: Tid, sees: bool)
    | Decide(t: Tid)
    | Remove(t: Tid, vmRow: bool, removes: set<string>)
    | UserCreates(name: string, answers: P.CreateAnswers)
    | UserDeletes(name: string, try: P.Try)

  /** The cloud gives new addresses IDs that are not in use. */
  predicate NewId(w: World, a: P.CreateAnswers) {
    a.made.Some? ==> a.made.value !in w.addresses && forall n | n in w.rows :: w.rows[n] != a.made.value
  }

  /** A list holds all rows and nothing else. */
  predicate ListsRows(w: World, l: seq<Entry>) {
    (forall e | e in l :: e.name in w.rows && w.rows[e.name] == e.id) && forall n | n in w.rows :: Entry(n, w.rows[n]) in l
  }

  predicate Enabled(s: State, a: Action) {
    match a
    case Arrive(t, op) => t !in s.callers
    case UserCreates(name, answers) => name != "" && NewId(s.w, answers)
    case UserDeletes(_, _) => true
    case _ => a.t in s.callers && PcEnabled(s, s.callers[a.t], a)
  }

  predicate PcEnabled(s: State, c: Caller, a: Action) {
    match a
    case GetVM(_, _, _) => c.pc == Arrived
    case CreateIP(_, answers) => c.pc == Creating && NewId(s.w, answers)
    case Associate(_, _) => c.pc == Associating
    case RollBack(_, _) => c.pc == RollingBack
    case Disassociate(_, _) => c.pc == Disassociating
    case DeleteIP(_, _, _) => c.pc == Deleting
    case List(_, entries) => c.pc == Listing && (entries.Some? ==> ListsRows(s.w, entries.value))
    case Visit(_, _) => c.pc.Scanning? && c.pc.todo != []
    case Decide(_) => c.pc.Scanning? && c.pc.todo == []
    case Remove(_, _, _) => c.pc == Removing
    case _ => false
  }

  // ------------------------------------------------------------------ the steps

  predicate OnVM(w: World, id: string, vm: string) { id in w.addresses && w.addresses[id] == Some(vm) }

  /** What a step does to rows and addresses. */
  function Worldly(s: State, a: Action): World
    requires Enabled(s, a)
  {
    match a
    case CreateIP(t, answers) => P.CreateEffect(s.w, Target(s.callers[t].op), answers)
    case Associate(t, ok) => P.AssociateEffect(s.w, Target(s.callers[t].op), s.callers[t].op.vm, ok)
    case RollBack(t, try) => P.DeleteEffect(s.w, Target(s.callers[t].op), try)
    case Disassociate(t, ok) => P.DisassociateEffect(s.w, Target(s.callers[t].op), ok)
    case DeleteIP(t, try, _) => P.DeleteEffect(s.w, Target(s.callers[t].op), try)
    case Remove(t, vmRow, removes) => P.RemoveNative(s.w, s.callers[t].op.vm, vmRow, removes)
    case UserCreates(name, answers) => P.CreateEffect(s.w, name, answers)
    case UserDeletes(name, try) => P.DeleteEffect(s.w, name, try)
    case _ => s.w
  }

  /** Whether the VM has to have a public IP, or must not have one, for the request to go on. */
  function AfterGetVM(op: Op, answer: Option<bool>, provider: bool): Pc {
    match op
    case AssignVM(_) => if answer == Some(false) && provider then Creating else Returned
    case AttachVM(_, _) => if answer == Some(false) && provider then Associating else Returned
    case _ => if answer == Some(true) then Disassociating else Returned
  }

  /** Where a caller's step takes it. */
  function NextPc(s: State, c: Caller, a: Action): Pc
    requires PcEnabled(s, c, a)
  {
    var there := Target(c.op) in s.w.rows;
    match a
    case GetVM(_, answer, provider) => AfterGetVM(c.op, answer, provider)
    case CreateIP(_, answers) => if P.CreateOk(s.w, Target(c.op), answers) then Associating else Returned
    case Associate(_, ok) => if !(ok && there) && c.op.AssignVM? then RollingBack else Returned
    case Disassociate(_, ok) => if c.op.DetachVM? then Returned else if ok && there then Deleting else Listing
    case DeleteIP(_, try, again) => if again && !P.DeleteOk(s.w, Target(c.op), try) then Deleting else Returned
    case List(_, entries) => if entries.None? then Removing else Scanning(entries.value, false)
    case Visit(_, sees) => Scanning(c.pc.todo[1..], c.pc.found || (sees && OnVM(s.w, c.pc.todo[0].id, c.op.vm)))
    case Decide(_) => if c.pc.found then Returned else Removing
    case _ => Returned
  }

  function Apply(s: State, a: Action): State
    requires Enabled(s, a)
  {
    match a
    case Arrive(t, op) => s.(callers := s.callers[t := Caller(op, Arrived)])
    case UserCreates(_, _) => s.(w := Worldly(s, a))
    case UserDeletes(_, _) => s.(w := Worldly(s, a))
    case _ => State(Worldly(s, a), s.callers[a.t := s.callers[a.t].(pc := NextPc(s, s.callers[a.t], a))])
  }

  function Init(native: set<string>): State { State(P.World(map[], map[], native), map[]) }

  /** The states and the actions of a run from empty tables. */
  predicate IsRun(ss: seq<State>, acts: seq<Action>) {
    |ss| == |acts| + 1 && ss[0] == Init(ss[0].w.native) &&
    forall i | 0 <= i < |acts| :: Enabled(ss[i], acts[i]) && ss[i + 1] == Apply(ss[i], acts[i])
  }

  // ------------------------------------------------------------------ how a PublicIP is lost

  /** Request `t` is done with the PublicIP: it was not listed, or this is its visit, or there is no list. */
  predicate Passes(ss: seq<State>, acts: seq<Action>, v: nat, t: Tid, e: Entry)
    requires IsRun(ss, acts) && v < |acts|
  {
    (acts[v].List? && acts[v].t == t && (acts[v].entries.Some? ==> e !in acts[v].entries.value)) ||
    (acts[v].Visit? && acts[v].t == t && ss[v].callers[t].pc.todo[0] == e)
  }

  /** ... and would have found it on the VM. */
  predicate Looks(a: Action) {
    (a.List? && a.entries.Some?) || (a.Visit? && a.sees)
  }

  /** A successful association of the PublicIP with the VM. */
  predicate Attaches(ss: seq<State>, acts: seq<Action>, i: nat, name: string, vm: string)
    requires IsRun(ss, acts) && i < |acts|
  {
    acts[i].Associate? && acts[i].ok && Target(ss[i].callers[acts[i].t].op) == name && ss[i].callers[acts[i].t].op.vm == vm
  }

  /** A successful association or disassociation of the PublicIP. */
  predicate Moves(ss: seq<State>, acts: seq<Action>, i: nat, name: string)
    requires IsRun(ss, acts) && i < |acts|
  {
    (acts[i].Associate? || acts[i].Disassociate?) && acts[i].ok && Target(ss[i].callers[acts[i].t].op) == name
  }

  predicate Stays(ss: seq<State>, acts: seq<Action>, from: nat, to: nat, name: string)
    requires IsRun(ss, acts) && to <= |acts|
  {
    forall i | from <= i < to :: !Moves(ss, acts, i, name)
  }

  /** The driver's removal for an Unassign of the VM takes the address. */
  predicate RemovesId(ss: seq<State>, acts: seq<Action>, r: nat, t: Tid, id: string)
    requires IsRun(ss, acts) && r < |acts|
  {
    acts[r].Remove? && acts[r].t == t && acts[r].vmRow && id in acts[r].removes
  }

  /**
   The PublicIP is attached (a) to the VM of request `t`, after that request is done with it (v) or
   because it did not look, stays there, and then the request's removal (r) takes it.
   */
  predicate CaughtBetween(ss: seq<State>, acts: seq<Action>, c: nat, e: Entry, t: Tid, v: nat, a: nat, r: nat)
    requires IsRun(ss, acts)
  {
    c <= a < r < |acts| && v < r && t in ss[r].callers &&
    Passes(ss, acts, v, t, e) && (Looks(acts[v]) ==> v < a) &&
    Attaches(ss, acts, a, e.name, ss[r].callers[t].op.vm) && Stays(ss, acts, a + 1, r, e.name) && RemovesId(ss, acts, r, t, e.id)
  }

  /** A user creates the PublicIP in the step before `c`, and its user does not delete it. */
  predicate UsersOwn(ss: seq<State>, acts: seq<Action>, c: nat, e: Entry)
    requires IsRun(ss, acts)
  {
    P.UserNamed(e.name) && 1 <= c <= |acts| && acts[c - 1].UserCreates? && acts[c - 1].name == e.name &&
    e.name !in ss[c - 1].w.rows && P.Alive(ss[c].w, e.name, e.id) &&
    forall i | c <= i < |acts| :: !(acts[i].UserDeletes? && acts[i].name == e.name)
  }

  // ------------------------------------------------------------------ one step

  lemma StepKeepsDistinct(s: State, a: Action)
    requires P.Distinct(s.w) && Enabled(s, a)
    requires a.CreateIP? ==> s.callers[a.t].op.AssignVM?
    ensures P.Distinct(Apply(s, a).w)
  {}

  /** What the program points say about the operation. */
  predicate CallerInv(c: Caller) {
    match c.pc
    case Creating => c.op.AssignVM?
    case Associating => c.op.AssignVM? || c.op.AttachVM?
    case RollingBack => c.op.AssignVM?
    case Disassociating => c.op.UnassignVM? || c.op.DetachVM?
    case Deleting => c.op.UnassignVM?
    case Listing => c.op.UnassignVM?
    case Scanning(_, _) => c.op.UnassignVM?
    case Removing => c.op.UnassignVM?
    case _ => true
  }

  ghost predicate Inv(s: State) {
    P.Distinct(s.w) && forall t | t in s.callers :: CallerInv(s.callers[t])
  }

  lemma {:induction false} RunKeepsInv(ss: seq<State>, acts: seq<Action>, i: nat)
    requires IsRun(ss, acts) && i <= |acts|
    ensures Inv(ss[i])
  {
    if i > 0 {
      RunKeepsInv(ss, acts, i - 1);
      var s, a := ss[i - 1], acts[i - 1];
      StepKeepsDistinct(s, a);
      assert forall t | t in ss[i].callers :: t in s.callers || (a.Arrive? && a.t == t);
    }
  }

  /** A user's PublicIP, alive or not, keeps its row; a lost address does not come back. */
  lemma StepKeepsRow(s: State, a: Action, e: Entry)
    requires Inv(s) && Enabled(s, a) && P.UserNamed(e.name) && !(a.UserDeletes? && a.name == e.name)
    requires e.name in s.w.rows && s.w.rows[e.name] == e.id
    ensures e.name in Apply(s, a).w.rows && Apply(s, a).w.rows[e.name] == e.id
    ensures e.id in Apply(s, a).w.addresses ==> e.id in s.w.addresses
  {
    if a.RollBack? || a.DeleteIP? || a.CreateIP? {
      assert CallerInv(s.callers[a.t]);
      P.DefaultNameIsNotUserNamed(s.callers[a.t].op.vm);
    }
  }

  /** Only an Unassign's removal, from the VM that has it, takes a user's PublicIP. */
  lemma StepTakesIff(s: State, a: Action, e: Entry)
    requires Inv(s) && Enabled(s, a) && P.UserNamed(e.name) && !(a.UserDeletes? && a.name == e.name)
    requires P.Alive(s.w, e.name, e.id)
    ensures !P.Alive(Apply(s, a).w, e.name, e.id) <==>
              a.Remove? && a.vmRow && e.id in a.removes && OnVM(s.w, e.id, s.callers[a.t].op.vm)
  {
    StepKeepsRow(s, a, e);
    if a.RollBack? || a.DeleteIP? {
      assert CallerInv(s.callers[a.t]);
      P.DefaultNameIsNotUserNamed(s.callers[a.t].op.vm);
    }
  }

  /** Only successful associations and disassociations of a PublicIP move its address. */
  lemma StepMoves(s: State, a: Action, e: Entry)
    requires Inv(s) && Enabled(s, a) && P.UserNamed(e.name)
    requires P.Alive(s.w, e.name, e.id) && P.Alive(Apply(s, a).w, e.name, e.id)
    ensures Apply(s, a).w.addresses[e.id] ==
            if a.Associate? && a.ok && Target(s.callers[a.t].op) == e.name then Some(s.callers[a.t].op.vm)
            else if a.Disassociate? && a.ok && Target(s.callers[a.t].op) == e.name then None
            else s.w.addresses[e.id]
  {}

  // ------------------------------------------------------------------ along a run

  lemma {:induction false} RowStays(ss: seq<State>, acts: seq<Action>, c: nat, e: Entry, i: nat)
    requires IsRun(ss, acts) && UsersOwn(ss, acts, c, e) && c <= i <= |acts|
    ensures e.name in ss[i].w.rows && ss[i].w.rows[e.name] == e.id
  {
    if i > c {
      RowStays(ss, acts, c, e, i - 1);
      RunKeepsInv(ss, acts, i - 1);
      StepKeepsRow(ss[i - 1], acts[i - 1], e);
    }
  }

  lemma {:induction false} LostStaysLost(ss: seq<State>, acts: seq<Action>, c: nat, e: Entry, i: nat, j: nat)
    requires IsRun(ss, acts) && UsersOwn(ss, acts, c, e) && c <= i <= j <= |acts|
    ensures P.Alive(ss[j].w, e.name, e.id) ==> P.Alive(ss[i].w, e.name, e.id)
  {
    if i < j {
      LostStaysLost(ss, acts, c, e, i, j - 1);
      RunKeepsInv(ss, acts, j - 1);
      RowStays(ss, acts, c, e, j - 1);
      StepKeepsRow(ss[j - 1], acts[j - 1], e);
    }
  }

  /** While the PublicIP is not moved, its address stays where it is. */
  lemma {:induction false} AddressStays(ss: seq<State>, acts: seq<Action>, c: nat, e: Entry, i: nat, j: nat)
    requires IsRun(ss, acts) && UsersOwn(ss, acts, c, e) && c <= i <= j <= |acts|
    requires Stays(ss, acts, i, j, e.name) && P.Alive(ss[j].w, e.name, e.id)
    ensures P.Alive(ss[i].w, e.name, e.id) && ss[i].w.addresses[e.id] == ss[j].w.addresses[e.id]
  {
    if i < j {
      LostStaysLost(ss, acts, c, e, j - 1, j);
      AddressStays(ss, acts, c, e, i, j - 1);
      RunKeepsInv(ss, acts, j - 1);
      assert !Moves(ss, acts, j - 1, e.name);
      StepMoves(ss[j - 1], acts[j - 1], e);
    }
  }

  /** A PublicIP just created is on no VM. */
  lemma CreatedOffVM(ss: seq<State>, acts: seq<Action>, c: nat, e: Entry, vm: string)
    requires IsRun(ss, acts) && UsersOwn(ss, acts, c, e)
    ensures !OnVM(ss[c].w, e.id, vm)
  {
    assert ss[c] == Apply(ss[c - 1], acts[c - 1]);
  }

  /** The last move of the PublicIP before `i`, if any. */
  lemma {:induction false} LastMove(ss: seq<State>, acts: seq<Action>, from: nat, name: string, i: nat) returns (a: Option<nat>)
    requires IsRun(ss, acts) && from <= i <= |acts|
    ensures match a
            case None => Stays(ss, acts, from, i, name)
            case Some(k) => from <= k < i && Moves(ss, acts, k, name) && Stays(ss, acts, k + 1, i, name)
  {
    if i == from {
      a := None;
    } else if Moves(ss, acts, i - 1, name) {
      a := Some(i - 1);
    } else {
      a := LastMove(ss, acts, from, name, i - 1);
    }
  }

  /** A PublicIP that is on a VM was attached to it, and not moved since. */
  lemma WasAttached(ss: seq<State>, acts: seq<Action>, c: nat, e: Entry, vm: string, i: nat) returns (a: nat)
    requires IsRun(ss, acts) && UsersOwn(ss, acts, c, e) && c <= i <= |acts|
    requires P.Alive(ss[i].w, e.name, e.id) && OnVM(ss[i].w, e.id, vm)
    ensures c <= a < i && Attaches(ss, acts, a, e.name, vm) && Stays(ss, acts, a + 1, i, e.name)
  {
    var last := LastMove(ss, acts, c, e.name, i);
    if last.None? {
      CreatedOffVM(ss, acts, c, e, vm);
      AddressStays(ss, acts, c, e, c, i);
      assert false;
    }
    a := last.value;
    AddressStays(ss, acts, c, e, a + 1, i);
    LostStaysLost(ss, acts, c, e, a, i);
    RunKeepsInv(ss, acts, a);
    StepMoves(ss[a], acts[a], e);
  }

  /** Request `t` has scanned past the PublicIP and found nothing so far. */
  predicate PastIt(s: State, t: Tid, e: Entry) {
    t in s.callers && match s.callers[t].pc
                      case Scanning(todo, found) => !found && e !in todo
                      case Removing => true
                      case _ => false
  }

  /** It has done so in one step, in which it did not look or did not see the PublicIP on its VM. */
  lemma {:induction false} PassedAt(ss: seq<State>, acts: seq<Action>, t: Tid, e: Entry, i: nat) returns (v: nat)
    requires IsRun(ss, acts) && i <= |acts| && PastIt(ss[i], t, e)
    ensures v < i && Passes(ss, acts, v, t, e)
    ensures Looks(acts[v]) ==> acts[v].List? || !OnVM(ss[v].w, e.id, ss[i].callers[t].op.vm)
    ensures t in ss[v].callers && ss[v].callers[t].op == ss[i].callers[t].op
  {
    assert i > 0;
    var a := acts[i - 1];
    assert ss[i] == Apply(ss[i - 1], a) && Enabled(ss[i - 1], a);
    if a.List? && a.t == t {
      v := i - 1;
    } else if a.Visit? && a.t == t && ss[i - 1].callers[t].pc.todo[0] == e {
      v := i - 1;
    } else {
      var before := ss[i - 1];
      if a.Visit? && a.t == t {
        var todo := before.callers[t].pc.todo;
        assert todo == [todo[0]] + todo[1..];
      }
      assert PastIt(before, t, e);
      v := PassedAt(ss, acts, t, e, i - 1);
    }
  }

  // ------------------------------------------------------------------ the theorem

  /** A list without the PublicIP was made before its creation. */
  lemma MissedEarly(ss: seq<State>, acts: seq<Action>, c: nat, e: Entry, t: Tid, v: nat)
    requires IsRun(ss, acts) && UsersOwn(ss, acts, c, e) && v < |acts|
    requires acts[v].List? && acts[v].entries.Some? && Passes(ss, acts, v, t, e)
    ensures v < c
  {
    if c <= v {
      RowStays(ss, acts, c, e, v);
    }
  }

  lemma LossIsCaught(ss: seq<State>, acts: seq<Action>, c: nat, e: Entry) returns (t: Tid, v: nat, a: nat, r: nat)
    requires IsRun(ss, acts) && UsersOwn(ss, acts, c, e) && !P.Alive(ss[|acts|].w, e.name, e.id)
    ensures CaughtBetween(ss, acts, c, e, t, v, a, r)
  {
    r := LosingStep(ss, acts, c, e, |acts|);
    RunKeepsInv(ss, acts, r);
    StepTakesIff(ss[r], acts[r], e);
    t := acts[r].t;
    var vm := ss[r].callers[t].op.vm;
    a := WasAttached(ss, acts, c, e, vm, r);
    v := PassedAt(ss, acts, t, e, r);
    if acts[v].List? && acts[v].entries.Some? {
      MissedEarly(ss, acts, c, e, t, v);
    } else if a < v {
      LostStaysLost(ss, acts, c, e, v, r);
      AddressStays(ss, acts, c, e, v, r);
    }
    assert a != v;
  }

  lemma {:induction false} LosingStep(ss: seq<State>, acts: seq<Action>, c: nat, e: Entry, i: nat) returns (r: nat)
    requires IsRun(ss, acts) && UsersOwn(ss, acts, c, e) && c <= i <= |acts| && !P.Alive(ss[i].w, e.name, e.id)
    ensures c <= r < i && P.Alive(ss[r].w, e.name, e.id) && !P.Alive(ss[r + 1].w, e.name, e.id)
  {
    if P.Alive(ss[i - 1].w, e.name, e.id) {
      r := i - 1;
    } else {
      r := LosingStep(ss, acts, c, e, i - 1);
    }
  }

  lemma CaughtIsLost(ss: seq<State>, acts: seq<Action>, c: nat, e: Entry, t: Tid, v: nat, a: nat, r: nat)
    requires IsRun(ss, acts) && UsersOwn(ss, acts, c, e) && CaughtBetween(ss, acts, c, e, t, v, a, r)
    ensures !P.Alive(ss[|acts|].w, e.name, e.id)
  {
    if P.Alive(ss[r].w, e.name, e.id) {
      LostStaysLost(ss, acts, c, e, a, r);
      LostStaysLost(ss, acts, c, e, a + 1, r);
      RunKeepsInv(ss, acts, a);
      StepMoves(ss[a], acts[a], e);
      AddressStays(ss, acts, c, e, a + 1, r);
      RunKeepsInv(ss, acts, r);
      StepTakesIff(ss[r], acts[r], e);
      LostStaysLost(ss, acts, c, e, r + 1, |acts|);
    } else {
      LostStaysLost(ss, acts, c, e, r, |acts|);
    }
  }

  /**
   Over all runs of all requests, step by step, whatever the cloud and the database answer: a PublicIP
   that a user has created and not deleted is lost exactly when it is attached to the VM of some
   Unassign after that request's scan is done with it, or unseen by the scan, is not moved again, and
   is then taken by that request's removal.
   */
  lemma LostIff(ss: seq<State>, acts: seq<Action>, c: nat, e: Entry)
    requires IsRun(ss, acts) && UsersOwn(ss, acts, c, e)
    ensures !P.Alive(ss[|acts|].w, e.name, e.id) <==> exists t, v, a, r :: CaughtBetween(ss, acts, c, e, t, v, a, r)
  {
    if t, v, a, r :| CaughtBetween(ss, acts, c, e, t, v, a, r) {
      CaughtIsLost(ss, acts, c, e, t, v, a, r);
    } else if !P.Alive(ss[|acts|].w, e.name, e.id) {
      var t, v, a, r := LossIsCaught(ss, acts, c, e);
    }
  }

  // ------------------------------------------------------------------ what a caller can do about it

  /** An Unassign of the VM has been made and has not returned. */
  predicate Unassigning(s: State, t: Tid, vm: string) {
    t in s.callers && s.callers[t].op == UnassignVM(vm) && s.callers[t].pc != Returned
  }

  /** Scans list and see everything, and nobody attaches the PublicIP to a VM while an Unassign of that VM is at work. */
  predicate KeptApart(ss: seq<State>, acts: seq<Action>, name: string)
    requires IsRun(ss, acts)
  {
    (forall i | 0 <= i < |acts| :: acts[i].List? || acts[i].Visit? ==> Looks(acts[i])) &&
    forall i, t | 0 <= i < |acts| && t in ss[i].callers ::
      acts[i].Associate? && Target(ss[i].callers[acts[i].t].op) == name ==> !Unassigning(ss[i], t, ss[i].callers[acts[i].t].op.vm)
  }

  lemma {:induction false} CallerStays(ss: seq<State>, acts: seq<Action>, t: Tid, i: nat, j: nat)
    requires IsRun(ss, acts) && i <= j <= |acts| && t in ss[i].callers
    ensures t in ss[j].callers && ss[j].callers[t].op == ss[i].callers[t].op
    ensures ss[i].callers[t].pc == Returned ==> ss[j].callers[t].pc == Returned
  {
    if i < j { CallerStays(ss, acts, t, i, j - 1); }
  }

  /** In every run in which the two are kept apart, every PublicIP that a user created and did not delete is there. */
  lemma KeptApartKeeps(ss: seq<State>, acts: seq<Action>, c: nat, e: Entry)
    requires IsRun(ss, acts) && UsersOwn(ss, acts, c, e) && KeptApart(ss, acts, e.name)
    ensures P.Alive(ss[|acts|].w, e.name, e.id)
  {
    if !P.Alive(ss[|acts|].w, e.name, e.id) {
      var t, v, a, r := LossIsCaught(ss, acts, c, e);
      RunKeepsInv(ss, acts, r);
      CallerStays(ss, acts, t, v, a);
      CallerStays(ss, acts, t, a, r);
      assert Unassigning(ss[a], t, ss[r].callers[t].op.vm);
      assert false;
    }
  }

  // ------------------------------------------------------------------ a request that nobody disturbs

  function Steps(s: State, acts: seq<Action>): Option<State>
    decreases |acts|
  {
    if acts == [] then Some(s)
    else if Enabled(s, acts[0]) then Steps(Apply(s, acts[0]), acts[1..])
    else None
  }

  lemma {:induction false} OneMoreStep(s: State, acts: seq<Action>, a: Action)
    requires Steps(s, acts).Some? && Enabled(Steps(s, acts).value, a)
    ensures Steps(s, acts + [a]) == Some(Apply(Steps(s, acts).value, a))
    decreases |acts|
  {
    if acts == [] {
      assert [] + [a] == [a] && [a][1..] == [];
      assert Steps(Apply(s, a), []) == Some(Apply(s, a));
    } else {
      assert (acts + [a])[1..] == acts[1..] + [a];
      OneMoreStep(Apply(s, acts[0]), acts[1..], a);
    }
  }

  lemma Do(s: State, acts: seq<Action>, now: State, a: Action) returns (acts': seq<Action>, now': State)
    requires Steps(s, acts) == Some(now) && Enabled(now, a)
    ensures Steps(s, acts') == Some(now') && now' == Apply(now, a)
  {
    OneMoreStep(s, acts, a);
    acts', now' := acts + [a], Apply(now, a);
  }

  /** The state with the caller at that point of its request, everybody else as in `s`. */
  function With(s: State, w: World, t: Tid, op: Op, pc: Pc): State { State(w, s.callers[t := Caller(op, pc)]) }

  lemma EntersAlone(s: State, t: Tid, op: Op, answer: Option<bool>, provider: bool) returns (acts: seq<Action>)
    requires t !in s.callers
    ensures Steps(s, acts) == Some(With(s, s.w, t, op, AfterGetVM(op, answer, provider)))
  {
    var now;
    acts, now := Do(s, [], s, Arrive(t, op));
    acts, now := Do(s, acts, now, GetVM(t, answer, provider));
    assert now.callers == s.callers[t := Caller(op, AfterGetVM(op, answer, provider))];
  }

  lemma AssignAlone(s: State, t: Tid, q: P.Call) returns (acts: seq<Action>)
    requires q.Assign? && t !in s.callers && NewId(s.w, q.create)
    ensures Steps(s, acts) == Some(With(s, P.AssignEffect(s.w, q), t, AssignVM(q.vm), Returned))
  {
    var now, op := s, AssignVM(q.vm);
    acts := EntersAlone(s, t, op, q.getVM, q.provider);
    now := Steps(s, acts).value;
    if now.callers[t].pc == Creating {
      acts, now := Do(s, acts, now, CreateIP(t, q.create));
      if now.callers[t].pc == Associating {
        acts, now := Do(s, acts, now, Associate(t, q.associate));
        if now.callers[t].pc == RollingBack { acts, now := Do(s, acts, now, RollBack(t, q.rollback)); }
      }
    }
    assert now.callers == s.callers[t := Caller(op, Returned)];
  }

  lemma AttachAlone(s: State, t: Tid, q: P.Call) returns (acts: seq<Action>)
    requires (q.Attach? || q.Detach?) && t !in s.callers
    ensures Steps(s, acts) ==
            Some(With(s, P.Effect(s.w, q), t, if q.Attach? then AttachVM(q.vm, q.name) else DetachVM(q.vm, q.name), Returned))
  {
    var now, op := s, if q.Attach? then AttachVM(q.vm, q.name) else DetachVM(q.vm, q.name);
    acts := EntersAlone(s, t, op, q.getVM, q.Attach? && q.provider);
    now := Steps(s, acts).value;
    if now.callers[t].pc == Associating {
      acts, now := Do(s, acts, now, Associate(t, q.associate));
    } else if now.callers[t].pc == Disassociating {
      acts, now := Do(s, acts, now, Disassociate(t, q.disassociate));
    }
    assert now.callers == s.callers[t := Caller(op, Returned)];
  }

  lemma DeleteStep(s: State, w: World, t: Tid, vm: string, try: P.Try, again: bool)
    ensures var now, a, name := With(s, w, t, UnassignVM(vm), Deleting), DeleteIP(t, try, again), P.DefaultName(vm);
            Enabled(now, a) &&
            Apply(now, a) == With(s, P.DeleteEffect(w, name, try), t, UnassignVM(vm),
                                  if again && !P.DeleteOk(w, name, try) then Deleting else Returned)
  {
    assert s.callers[t := Caller(UnassignVM(vm), Deleting)][t := Caller(UnassignVM(vm), Returned)] ==
           s.callers[t := Caller(UnassignVM(vm), Returned)];
  }

  lemma VisitStep(s: State, w: World, t: Tid, vm: string, todo: seq<Entry>, found: bool, sees: bool)
    requires todo != []
    ensures var now := With(s, w, t, UnassignVM(vm), Scanning(todo, found));
            Enabled(now, Visit(t, sees)) &&
            Apply(now, Visit(t, sees)) ==
            With(s, w, t, UnassignVM(vm), Scanning(todo[1..], found || (sees && OnVM(w, todo[0].id, vm))))
  {}

  /** The retries of a deletion: all but the last of the attempts fail. */
  lemma {:induction false} RetryAlone(s: State, acts: seq<Action>, w: World, t: Tid, vm: string, tries: nat -> P.Try, k: nat, n: nat)
      returns (acts': seq<Action>)
    requires k < n && P.AllFail(w, P.DefaultName(vm), tries, n - 1)
    requires Steps(s, acts) == Some(With(s, P.Retried(w, P.DefaultName(vm), tries, k), t, UnassignVM(vm), Deleting))
    ensures Steps(s, acts') == Some(With(s, P.Retried(w, P.DefaultName(vm), tries, n), t, UnassignVM(vm), Returned))
    decreases n - k
  {
    var now := With(s, P.Retried(w, P.DefaultName(vm), tries, k), t, UnassignVM(vm), Deleting);
    DeleteStep(s, now.w, t, vm, tries(k), k < n - 1);
    acts', now := Do(s, acts, now, DeleteIP(t, tries(k), k < n - 1));
    if k < n - 1 {
      P.OneFails(w, P.DefaultName(vm), tries, n - 1, k);
      acts' := RetryAlone(s, acts', w, t, vm, tries, k + 1, n);
    }
  }

  function Entries(w: World, names: seq<string>): seq<Entry>
    requires forall n | n in names :: n in w.rows
  {
    seq(|names|, i requires 0 <= i < |names| => Entry(names[i], w.rows[names[i]]))
  }

  /** The visits of a scan: something is found exactly when one of the rows is seen on the VM. */
  lemma {:induction false} ScanAlone(s: State, acts: seq<Action>, w: World, t: Tid, vm: string, names: seq<string>, found: bool,
                                     seen: string -> bool) returns (acts': seq<Action>)
    requires forall n | n in names :: n in w.rows
    requires Steps(s, acts) == Some(With(s, w, t, UnassignVM(vm), Scanning(Entries(w, names), found)))
    ensures Steps(s, acts') ==
            Some(With(s, w, t, UnassignVM(vm), Scanning([], found || exists i | 0 <= i < |names| :: P.SeenOn(w, names[i], vm, seen))))
    decreases |names|
  {
    if names == [] {
      acts' := acts;
    } else {
      var now := With(s, w, t, UnassignVM(vm), Scanning(Entries(w, names), found));
      VisitStep(s, w, t, vm, Entries(w, names), found, seen(names[0]));
      acts', now := Do(s, acts, now, Visit(t, seen(names[0])));
      assert Entries(w, names)[1..] == Entries(w, names[1..]);
      var found' := found || P.SeenOn(w, names[0], vm, seen);
      acts' := ScanAlone(s, acts', w, t, vm, names[1..], found', seen);
      assert forall i | 0 < i < |names| :: names[i] == names[1..][i - 1];
      assert (exists i | 0 <= i < |names| :: P.SeenOn(w, names[i], vm, seen)) <==>
             P.SeenOn(w, names[0], vm, seen) || exists i | 0 <= i < |names[1..]| :: P.SeenOn(w, names[1..][i], vm, seen);
    }
  }

  /** Any list is of all rows, and an Unassign stops its attempts at the first without an error. */
  predicate Real(w: World, q: P.Call)
    requires q.Unassign?
  {
    var name := P.DefaultName(q.vm);
    "" !in w.rows &&
    (q.list.Some? ==> (forall n | n in q.list.value :: n in w.rows) && forall n | n in w.rows :: n in q.list.value) &&
    (P.TakesOff(w, q) ==>
       q.attempts > 0 && P.AllFail(P.DisassociateEffect(w, name, true), name, q.tries, q.attempts - 1))
  }

  lemma UnassignAlone(s: State, t: Tid, q: P.Call) returns (acts: seq<Action>)
    requires q.Unassign? && t !in s.callers && Real(s.w, q)
    ensures Steps(s, acts) == Some(With(s, P.UnassignEffect(s.w, q), t, UnassignVM(q.vm), Returned))
  {
    var now, op := s, UnassignVM(q.vm);
    acts := EntersAlone(s, t, op, q.getVM, true);
    now := Steps(s, acts).value;
    if q.getVM == Some(true) {
      acts, now := Do(s, acts, now, Disassociate(t, q.disassociate));
      if P.TakesOff(s.w, q) {
        var w := P.DisassociateEffect(s.w, P.DefaultName(q.vm), true);
        assert now == With(s, P.Retried(w, P.DefaultName(q.vm), q.tries, 0), t, op, Deleting);
        acts := RetryAlone(s, acts, w, t, q.vm, q.tries, 0, q.attempts);
      } else {
        assert now == With(s, s.w, t, op, Listing);
        acts := FallbackAlone(s, acts, t, q);
      }
    } else {
      assert now == With(s, s.w, t, op, Returned);
    }
  }

  lemma ListStep(s: State, w: World, t: Tid, vm: string, entries: Option<seq<Entry>>)
    requires entries.Some? ==> ListsRows(w, entries.value)
    ensures var now := With(s, w, t, UnassignVM(vm), Listing);
            Enabled(now, List(t, entries)) &&
            Apply(now, List(t, entries)) ==
            With(s, w, t, UnassignVM(vm), if entries.None? then Removing else Scanning(entries.value, false))
  {}

  lemma DecideStep(s: State, w: World, t: Tid, vm: string, found: bool)
    ensures var now := With(s, w, t, UnassignVM(vm), Scanning([], found));
            Enabled(now, Decide(t)) &&
            Apply(now, Decide(t)) == With(s, w, t, UnassignVM(vm), if found then Returned else Removing)
  {}

  lemma RemoveStep(s: State, w: World, t: Tid, vm: string, vmRow: bool, removes: set<string>)
    ensures var now := With(s, w, t, UnassignVM(vm), Removing);
            Enabled(now, Remove(t, vmRow, removes)) &&
            Apply(now, Remove(t, vmRow, removes)) == With(s, P.RemoveNative(w, vm, vmRow, removes), t, UnassignVM(vm), Returned)
  {
    assert s.callers[t := Caller(UnassignVM(vm), Removing)][t := Caller(UnassignVM(vm), Returned)] ==
           s.callers[t := Caller(UnassignVM(vm), Returned)];
  }

  /** The list and its scan: the state in which the request has decided. */
  lemma SearchAlone(s: State, acts: seq<Action>, t: Tid, q: P.Call) returns (acts': seq<Action>)
    requires q.Unassign? && Real(s.w, q) && Steps(s, acts) == Some(With(s, s.w, t, UnassignVM(q.vm), Listing))
    ensures Steps(s, acts') ==
            Some(With(s, s.w, t, UnassignVM(q.vm), if P.Tracked(s.w, q.vm, q.list, q.seen) != "" then Returned else Removing))
  {
    var now := With(s, s.w, t, UnassignVM(q.vm), Listing);
    if q.list.None? {
      ListStep(s, s.w, t, q.vm, None);
      acts', now := Do(s, acts, now, List(t, None));
    } else {
      var names := q.list.value;
      ListsAll(s.w, names);
      ListStep(s, s.w, t, q.vm, Some(Entries(s.w, names)));
      acts', now := Do(s, acts, now, List(t, Some(Entries(s.w, names))));
      acts' := ScanAlone(s, acts', s.w, t, q.vm, names, false, q.seen);
      var found := exists i | 0 <= i < |names| :: P.SeenOn(s.w, names[i], q.vm, q.seen);
      TrackedIff(s.w, q.vm, names, q.seen);
      DecideStep(s, s.w, t, q.vm, found);
      acts', now := Do(s, acts', With(s, s.w, t, UnassignVM(q.vm), Scanning([], found)), Decide(t));
    }
  }

  lemma FallbackAlone(s: State, acts: seq<Action>, t: Tid, q: P.Call) returns (acts': seq<Action>)
    requires q.Unassign? && Real(s.w, q) && Steps(s, acts) == Some(With(s, s.w, t, UnassignVM(q.vm), Listing))
    ensures Steps(s, acts') ==
            Some(With(s, if P.Tracked(s.w, q.vm, q.list, q.seen) != "" then s.w else P.RemoveNative(s.w, q.vm, q.vmRow, q.removes),
                      t, UnassignVM(q.vm), Returned))
  {
    acts' := SearchAlone(s, acts, t, q);
    if P.Tracked(s.w, q.vm, q.list, q.seen) == "" {
      var now := With(s, s.w, t, UnassignVM(q.vm), Removing);
      RemoveStep(s, s.w, t, q.vm, q.vmRow, q.removes);
      acts', now := Do(s, acts', now, Remove(t, q.vmRow, q.removes));
    }
  }

  lemma ListsAll(w: World, names: seq<string>)
    requires (forall n | n in names :: n in w.rows) && forall n | n in w.rows :: n in names
    ensures ListsRows(w, Entries(w, names))
  {
    var l := Entries(w, names);
    forall n | n in w.rows ensures Entry(n, w.rows[n]) in l {
      var i :| 0 <= i < |names| && names[i] == n;
      assert l[i] == Entry(n, w.rows[n]);
    }
  }

  lemma TrackedIff(w: World, vm: string, names: seq<string>, seen: string -> bool)
    requires "" !in w.rows
    ensures P.FirstSeen(w, vm, names, seen) != "" <==> exists i | 0 <= i < |names| :: P.SeenOn(w, names[i], vm, seen)
  {
    P.FirstSeenFinds(w, vm, names, seen);
    P.FirstSeenIn(w, vm, names, seen);
    if P.FirstSeen(w, vm, names, seen) != "" {
      var i :| 0 <= i < |names| && names[i] == P.FirstSeen(w, vm, names, seen);
      assert P.SeenOn(w, names[i], vm, seen);
    }
    if i :| 0 <= i < |names| && P.SeenOn(w, names[i], vm, seen) { assert names[i] in names; }
  }

  /**
   A request of PublicIp, which takes effect at once, is what the request's steps come to when nobody
   comes in between: whatever the answers, the machine can take them, and then it has returned.
   */
  lemma AloneIsEffect(s: State, t: Tid, q: P.Call) returns (acts: seq<Action>)
    requires t !in s.callers && P.FreshIds(s.w, q) && (q.Unassign? ==> Real(s.w, q))
    ensures Steps(s, acts).Some? && Steps(s, acts).value.w == P.Effect(s.w, q)
    ensures forall u | u in s.callers :: u in Steps(s, acts).value.callers && Steps(s, acts).value.callers[u] == s.callers[u]
    ensures forall u | u in Steps(s, acts).value.callers && u !in s.callers :: Steps(s, acts).value.callers[u].pc == Returned
  {
    match q
    case Assign(_, _, _, _, _, _) => acts := AssignAlone(s, t, q);
    case Unassign(_, _, _, _, _, _, _, _, _) => acts := UnassignAlone(s, t, q);
    case UserCreate(name, answers) => var now; acts, now := Do(s, [], s, UserCreates(name, answers));
    case UserDelete(name, try) => var now; acts, now := Do(s, [], s, UserDeletes(name, try));
    case _ => acts := AttachAlone(s, t, q);
  }
}
