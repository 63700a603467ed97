/**
 A VM's default public IP, VMPublicIPManager.go over PublicIPManager.go, within one connection. On one
 side the rows that name PublicIPs, on the other the addresses of the cloud and the VMs they are
 associated with. The answers of the cloud and the database are passed in, call by call.
 */
module PublicIp {
  import opened Strings
  import Polling

  /**
   `rows`: a PublicIP's name and the ID of its address. `addresses`: an address's ID and the VM it is
   associated with. `native`: the VMs with an address the cloud gave them by itself.
   */
  datatype World = World(rows: map<string, string>, addresses: map<string, Option<string>>, native: set<string>)

  function DefaultName(vm: string): string { vm + "-defaultpip" }

  /** A PublicIP that a user has created under a name of their own. */
  predicate UserNamed(name: string) { !HasSuffix(name, "-defaultpip") }

  lemma DefaultNameIsNotUserNamed(vm: string)
    ensures !UserNamed(DefaultName(vm))
  {}

  // ------------------------------------------------------------------ which VM an association names

  datatype Nic = Nic(systemId: string, deviceIndex: nat, privateIPs: seq<string>)

  datatype Args = Args(vmName: string, nicName: string, privateIP: string)

  /** resolveDefaultNIC: the first NIC with device index 0, or what the VM itself reports. */
  method ResolveDefaultNIC(nics: seq<Nic>, networkInterface: string, vmPrivateIP: string) returns (id: string, privateIP: string)
    ensures (forall i | 0 <= i < |nics| :: nics[i].deviceIndex != 0) ==> id == networkInterface && privateIP == vmPrivateIP
    ensures forall i | 0 <= i < |nics| && nics[i].deviceIndex == 0 && forall j | 0 <= j < i :: nics[j].deviceIndex != 0 ::
              id == nics[i].systemId && privateIP == if nics[i].privateIPs == [] then vmPrivateIP else nics[i].privateIPs[0]
  {
    for i := 0 to |nics|
      invariant forall j | 0 <= j < i :: nics[j].deviceIndex != 0
    {
      if nics[i].deviceIndex == 0 {
        return nics[i].systemId, if |nics[i].privateIPs| > 0 then nics[i].privateIPs[0] else vmPrivateIP;
      }
    }
    return networkInterface, vmPrivateIP;
  }

  /** buildAssociateArgs. */
  function BuildAssociateArgs(provider: string, vm: string, nicId: string, privateIP: string): Args {
    if EqualFold(AsciiFold, provider, "NCP") then Args(vm, "", "")
    else if EqualFold(AsciiFold, provider, "GCP") then Args("", vm + "/nic0", "")
    else if EqualFold(AsciiFold, provider, "KT") then Args(vm, nicId, privateIP)
    else Args("", nicId, privateIP)
  }

  /** The VM that AssociatePublicIP looks up: the given one, or on GCP the NIC name up to its "/". */
  function EffectiveVMName(provider: string, a: Args): string {
    if a.vmName == "" && a.nicName != "" && EqualFold(AsciiFold, provider, "GCP") && Index(a.nicName, "/") > 0
    then a.nicName[..Index(a.nicName, "/")] else a.vmName
  }

  /** What else the association is told: the NIC of a VM, or on NCP and KT the VM, and the address inside it. */
  lemma OthersAreNamed(provider: string, vm: string, nicId: string, privateIP: string)
    requires !EqualFold(AsciiFold, provider, "GCP")
    ensures var a := BuildAssociateArgs(provider, vm, nicId, privateIP);
            && EffectiveVMName(provider, a) ==
               (if EqualFold(AsciiFold, provider, "NCP") || EqualFold(AsciiFold, provider, "KT") then vm else "")
            && (if EqualFold(AsciiFold, provider, "NCP") then a.nicName == a.privateIP == ""
                else a.nicName == nicId && a.privateIP == privateIP)
  {}

  /** On GCP the VM's name goes through the NIC's name and comes back exactly when it has no "/". */
  lemma GcpVMNameComesBack(provider: string, vm: string, nicId: string, privateIP: string)
    requires EqualFold(AsciiFold, provider, "GCP")
    ensures EffectiveVMName(provider, BuildAssociateArgs(provider, vm, nicId, privateIP)) == vm <==> '/' !in vm
  {
    assert AsciiFold(provider[0]) == AsciiFold("GCP"[0]) != AsciiFold("NCP"[0]);
    FirstSlash(vm, "nic0");
    assert vm + "/nic0" == vm + "/" + "nic0";
  }

  lemma FirstSlash(vm: string, rest: string)
    ensures var i := Index(vm + "/" + rest, "/");
            0 <= i <= |vm| && (i == |vm| <==> '/' !in vm)
  {
    var nic := vm + "/" + rest;
    if '/' !in vm {
      FirstChar(vm, '/', rest);
    } else {
      var k :| 0 <= k < |vm| && vm[k] == '/';
      assert nic[k..k + 1] == "/";
      assert At(nic, "/", k) && Occurs(nic, "/");
    }
  }

  // ------------------------------------------------------------------ PublicIPManager.go

  /** How the driver's DeletePublicIP answers, and whether the row deletion succeeds. */
  datatype DeleteAnswer = Deleted | Refused | NotFound | Failed
  datatype Try = Try(lookup: bool, answer: DeleteAnswer, dropRow: bool)

  datatype CreateAnswers = CreateAnswers(has: bool, existing: bool, made: Option<string>, save: bool, undo: bool)

  /** CreatePublicIP: an existing PublicIP that the cloud knows is returned as it is. */
  function CreateEffect(w: World, name: string, a: CreateAnswers): World {
    if !a.has || name in w.rows || a.made.None? then w
    else
      var id := a.made.value;
      if a.save then w.(rows := w.rows[name := id], addresses := w.addresses[id := None])
      else if a.undo then w.(addresses := w.addresses[id := None] - {id})
      else w.(addresses := w.addresses[id := None])
  }

  predicate CreateOk(w: World, name: string, a: CreateAnswers) {
    a.has && if name in w.rows then a.existing else a.made.Some? && a.save
  }

  /** DeletePublicIP without force; "not found" in the cloud counts as force. */
  function DeleteEffect(w: World, name: string, t: Try): World {
    if !t.lookup || name !in w.rows then w
    else
      var w1 := if t.answer == Deleted then w.(addresses := w.addresses - {w.rows[name]}) else w;
      if (t.answer == Deleted || t.answer == NotFound) && t.dropRow then w1.(rows := w1.rows - {name}) else w1
  }

  /** Whether DeletePublicIP returns without an error. */
  predicate DeleteOk(w: World, name: string, t: Try) {
    t.lookup && name in w.rows &&
    match t.answer
    case Deleted | NotFound => t.dropRow
    case Refused => true
    case Failed => false
  }

  /** The driver's Associate and Disassociate, on an address that it finds. */
  function AssociateEffect(w: World, name: string, vm: string, ok: bool): World {
    if ok && name in w.rows && w.rows[name] in w.addresses
    then w.(addresses := w.addresses[w.rows[name] := Some(vm)]) else w
  }

  function DisassociateEffect(w: World, name: string, ok: bool): World {
    if ok && name in w.rows && w.rows[name] in w.addresses
    then w.(addresses := w.addresses[w.rows[name] := None]) else w
  }

  /** The world after `n` attempts of deletePublicIPWithRetry. */
  function Retried(w: World, name: string, tries: nat -> Try, n: nat): World {
    if n == 0 then w else DeleteEffect(Retried(w, name, tries, n - 1), name, tries(n - 1))
  }

  /** The first `n` attempts end with errors. */
  predicate AllFail(w: World, name: string, tries: nat -> Try, n: nat) {
    n == 0 || (AllFail(w, name, tries, n - 1) && !DeleteOk(Retried(w, name, tries, n - 1), name, tries(n - 1)))
  }

  lemma {:induction false} OneFails(w: World, name: string, tries: nat -> Try, n: nat, k: nat)
    requires AllFail(w, name, tries, n) && k < n
    ensures !DeleteOk(Retried(w, name, tries, k), name, tries(k))
  {
    if k < n - 1 { OneFails(w, name, tries, n - 1, k); }
  }

  // ------------------------------------------------------------------ VMPublicIPManager.go

  /** `getVM`: an error, or whether the VM shows a public IP. */
  datatype Call =
    | Assign(vm: string, getVM: Option<bool>, provider: bool, create: CreateAnswers, associate: bool, rollback: Try)
    | Unassign(vm: string, getVM: Option<bool>, disassociate: bool, tries: nat -> Try, attempts: nat,
               list: Option<seq<string>>, seen: string -> bool, vmRow: bool, removes: set<string>)
    | Attach(vm: string, name: string, getVM: Option<bool>, provider: bool, associate: bool)
    | Detach(vm: string, name: string, getVM: Option<bool>, disassociate: bool)
    | UserCreate(name: string, answers: CreateAnswers)
    | UserDelete(name: string, try: Try)

  function AssignEffect(w: World, q: Call): World
    requires q.Assign?
  {
    if q.getVM != Some(false) || !q.provider then w
    else
      var name := DefaultName(q.vm);
      var w1 := CreateEffect(w, name, q.create);
      if !CreateOk(w, name, q.create) then w1
      else if q.associate then AssociateEffect(w1, name, q.vm, true)
      else DeleteEffect(w1, name, q.rollback)
  }

  /** The scan recognises the PublicIP as the VM's. */
  predicate SeenOn(w: World, name: string, vm: string, seen: string -> bool) {
    name in w.rows && w.rows[name] in w.addresses && w.addresses[w.rows[name]] == Some(vm) && seen(name)
  }

  /** findTrackedPublicIPNameForVM on the listed names, "" when the list fails. */
  function Tracked(w: World, vm: string, list: Option<seq<string>>, seen: string -> bool): string {
    if list.None? then "" else FirstSeen(w, vm, list.value, seen)
  }

  function FirstSeen(w: World, vm: string, names: seq<string>, seen: string -> bool): string {
    if names == [] then ""
    else if SeenOn(w, names[0], vm, seen) then names[0]
    else FirstSeen(w, vm, names[1..], seen)
  }

  /** The driver's RemoveDefaultPublicIP: it may delete any of the addresses associated with the VM. */
  function RemoveNative(w: World, vm: string, vmRow: bool, removes: set<string>): World {
    if !vmRow then w
    else World(w.rows,
               map id | id in w.addresses && !(id in removes && w.addresses[id] == Some(vm)) :: w.addresses[id],
               w.native - {vm})
  }

  /** The default-named PublicIP exists and its disassociation succeeds. */
  predicate TakesOff(w: World, q: Call)
    requires q.Unassign?
  {
    q.disassociate && DefaultName(q.vm) in w.rows
  }

  function UnassignEffect(w: World, q: Call): World
    requires q.Unassign?
  {
    if q.getVM != Some(true) then w
    else
      var name := DefaultName(q.vm);
      if TakesOff(w, q) then Retried(DisassociateEffect(w, name, true), name, q.tries, q.attempts)
      else if Tracked(w, q.vm, q.list, q.seen) != "" then w
      else RemoveNative(w, q.vm, q.vmRow, q.removes)
  }

  function Effect(w: World, q: Call): World {
    match q
    case Assign(_, _, _, _, _, _) => AssignEffect(w, q)
    case Unassign(_, _, _, _, _, _, _, _, _) => UnassignEffect(w, q)
    case Attach(vm, name, getVM, provider, associate) =>
      if getVM == Some(false) && provider then AssociateEffect(w, name, vm, associate) else w
    case Detach(vm, name, getVM, disassociate) =>
      if getVM == Some(true) then DisassociateEffect(w, name, disassociate) else w
    case UserCreate(name, answers) => CreateEffect(w, name, answers)
    case UserDelete(name, try) => DeleteEffect(w, name, try)
  }

  predicate SameAddress(a: map<string, Option<string>>, b: map<string, Option<string>>, id: string) {
    (id in a <==> id in b) && (id in a && id in b ==> a[id] == b[id])
  }

  predicate SameRow(a: map<string, string>, b: map<string, string>, name: string) {
    (name in a <==> name in b) && (name in a && name in b ==> a[name] == b[name])
  }

  /** From `w` to `w'` only the PublicIP of the name has changed, if it was there. */
  ghost predicate TouchesOnly(w: World, w': World, name: string) {
    && w'.native == w.native
    && (forall m | m != name :: SameRow(w'.rows, w.rows, m))
    && (name in w'.rows ==> name in w.rows && w'.rows[name] == w.rows[name])
    && (forall id | name !in w.rows || id != w.rows[name] :: SameAddress(w'.addresses, w.addresses, id))
  }

  lemma DeleteTouches(w: World, name: string, t: Try)
    ensures TouchesOnly(w, DeleteEffect(w, name, t), name)
  {}

  /** Deletion attempts touch nothing but the PublicIP of the name. */
  lemma {:induction false} RetriedTouches(w: World, name: string, tries: nat -> Try, n: nat)
    ensures TouchesOnly(w, Retried(w, name, tries, n), name)
  {
    if n > 0 {
      RetriedTouches(w, name, tries, n - 1);
      DeleteTouches(Retried(w, name, tries, n - 1), name, tries(n - 1));
      TouchesAgain(w, Retried(w, name, tries, n - 1), Retried(w, name, tries, n), name);
    }
  }

  lemma TouchesAgain(w: World, v: World, u: World, name: string)
    requires TouchesOnly(w, v, name) && TouchesOnly(v, u, name)
    ensures TouchesOnly(w, u, name)
  {
    forall m | m != name ensures SameRow(u.rows, w.rows, m) {
      assert SameRow(v.rows, w.rows, m) && SameRow(u.rows, v.rows, m);
    }
    forall id | name !in w.rows || id != w.rows[name] ensures SameAddress(u.addresses, w.addresses, id) {
      assert SameAddress(v.addresses, w.addresses, id) && SameAddress(u.addresses, v.addresses, id);
    }
  }

  /** The PublicIP has a row whose address is on the VM, and the scan sees it. */
  predicate SeesOn(rows: map<string, string>, addresses: map<string, Option<string>>, vm: string, name: string, seen: string -> bool) {
    name in rows && rows[name] in addresses && addresses[rows[name]] == Some(vm) && seen(name)
  }

  predicate FirstOn(rows: map<string, string>, addresses: map<string, Option<string>>, vm: string, names: seq<string>,
                    seen: string -> bool, i: int) {
    0 <= i < |names| && SeesOn(rows, addresses, vm, names[i], seen) &&
    forall j | 0 <= j < i :: !SeesOn(rows, addresses, vm, names[j], seen)
  }

  class Connection {
    var rows: map<string, string>
    var addresses: map<string, Option<string>>
    var native: set<string>

    ghost function View(): World
      reads this
    {
      World(rows, addresses, native)
    }

    constructor (native: set<string>)
      ensures View() == World(map[], map[], native)
    {
      rows, addresses, this.native := map[], map[], native;
    }

    method CreatePublicIP(name: string, a: CreateAnswers) returns (ok: bool)
      modifies this`rows, this`addresses
      ensures View() == CreateEffect(old(View()), name, a) && ok == CreateOk(old(View()), name, a)
      ensures ok <==> a.has && if name in old(rows) then a.existing else a.made.Some? && a.save
      ensures name in old(rows) || !a.has || a.made.None? ==> rows == old(rows) && addresses == old(addresses)
      ensures ok && name !in old(rows) ==> rows == old(rows)[name := a.made.value] && addresses == old(addresses)[a.made.value := None]
      ensures !ok ==> rows == old(rows) && forall id | a.made != Some(id) :: SameAddress(addresses, old(addresses), id)
    {
      if !a.has { return false; }
      if name in rows { return a.existing; }
      if a.made.None? { return false; }
      var id := a.made.value;
      addresses := addresses[id := None];
      if !a.save {
        if a.undo { addresses := addresses - {id}; }
        return false;
      }
      rows := rows[name := id];
      return true;
    }

    method DeletePublicIP(name: string, t: Try) returns (ok: bool, done: bool)
      modifies this`rows, this`addresses
      ensures View() == DeleteEffect(old(View()), name, t) && ok == DeleteOk(old(View()), name, t)
      ensures done ==> name in old(rows) && rows == old(rows) - {name} && t.answer in {Deleted, NotFound}
      ensures !done ==> rows == old(rows)
      ensures ok <==> t.lookup && name in old(rows) && t.answer != Failed && (t.answer != Refused ==> t.dropRow)
      ensures done <==> ok && t.answer != Refused
      ensures addresses == if t.lookup && name in old(rows) && t.answer == Deleted then old(addresses) - {old(rows)[name]} else old(addresses)
    {
      if !t.lookup || name !in rows { return false, false; }
      match t.answer {
        case Deleted => addresses := addresses - {rows[name]};
        case NotFound =>
        case Refused => return true, false;
        case Failed => return false, false;
      }
      if !t.dropRow { return false, false; }
      rows := rows - {name};
      return true, true;
    }

    method AssociatePublicIP(name: string, vm: string, answer: bool) returns (ok: bool)
      modifies this`addresses
      ensures View() == AssociateEffect(old(View()), name, vm, answer) && ok == (answer && name in rows)
      ensures ok && rows[name] in old(addresses) ==> addresses == old(addresses)[rows[name] := Some(vm)]
      ensures !ok || rows[name] !in old(addresses) ==> addresses == old(addresses)
    {
      if name !in rows { return false; }
      if answer && rows[name] in addresses {
        addresses := addresses[rows[name] := Some(vm)];
      }
      return answer;
    }

    method DisassociatePublicIP(name: string, answer: bool) returns (ok: bool)
      modifies this`addresses
      ensures View() == DisassociateEffect(old(View()), name, answer) && ok == (answer && name in rows)
      ensures ok && rows[name] in old(addresses) ==> addresses == old(addresses)[rows[name] := None]
      ensures !ok || rows[name] !in old(addresses) ==> addresses == old(addresses)
    {
      if name !in rows { return false; }
      if answer && rows[name] in addresses {
        addresses := addresses[rows[name] := None];
      }
      return answer;
    }

    method AssignVMDefaultPublicIP(q: Call) returns (ok: bool)
      requires q.Assign?
      modifies this`rows, this`addresses
      ensures View() == AssignEffect(old(View()), q)
      ensures ok <==> q.getVM == Some(false) && q.provider && q.create.has && q.associate &&
                      if q.vm + "-defaultpip" in old(rows) then q.create.existing else q.create.made.Some? && q.create.save
      // the default-named PublicIP is there, an existing one or the one just made, and on the VM
      ensures ok ==> var name := q.vm + "-defaultpip";
                name in rows && rows == (if name in old(rows) then old(rows) else old(rows)[name := q.create.made.value]) &&
                (name !in old(rows) || rows[name] in old(addresses) ==> rows[name] in addresses && addresses[rows[name]] == Some(q.vm)) &&
                forall id | id != rows[name] :: SameAddress(addresses, old(addresses), id)
      ensures forall n | n != q.vm + "-defaultpip" :: SameRow(rows, old(rows), n)
    {
      if q.getVM != Some(false) || !q.provider { return false; }
      var name := DefaultName(q.vm);
      var created := CreatePublicIP(name, q.create);
      if !created { return false; }
      ok := AssociatePublicIP(name, q.vm, q.associate);
      if !ok {
        var _, _ := DeletePublicIP(name, q.rollback);
      }
    }

    /** deletePublicIPWithRetry: as long as there is an error and the 15 seconds last. */
    method DeleteWithRetry(name: string, tries: nat -> Try, clock: Polling.Clock, late: nat -> nat)
        returns (ok: bool, attempts: nat)
      modifies this`rows, this`addresses, clock
      ensures 0 < attempts <= Polling.WaitBound(3, 15) + 1
      ensures View() == Retried(old(View()), name, tries, attempts)
      ensures !ok ==> clock.now - old(clock.now) >= 15 * Polling.SECOND
      ensures ok ==> DeleteOk(Retried(old(View()), name, tries, attempts - 1), name, tries(attempts - 1))
      ensures AllFail(old(View()), name, tries, attempts - 1)
      // a success is the last attempt's: the row is gone unless the driver has refused, and so is a deleted address
      ensures ok && tries(attempts - 1).answer != Refused ==> name !in rows
      ensures ok && tries(attempts - 1).answer == Deleted ==> name in old(rows) && old(rows)[name] !in addresses
      ensures TouchesOnly(old(View()), View(), name)
    {
      attempts := 0;
      var waiter := new Polling.Waiter(clock, 3, 15);
      while true
        invariant waiter.Valid() && waiter.clock == clock && waiter.sleep == 3 && waiter.timeout == 15
        invariant waiter.start == old(clock.now) && attempts == waiter.granted
        invariant View() == Retried(old(View()), name, tries, attempts)
        invariant AllFail(old(View()), name, tries, attempts)
        decreases Polling.WaitBound(3, 15) - waiter.granted
      {
        var done;
        ok, done := DeletePublicIP(name, tries(attempts));
        attempts := attempts + 1;
        RetriedTouches(old(View()), name, tries, attempts - 1);
        RetriedTouches(old(View()), name, tries, attempts);
        if ok { return; }
        var more := waiter.Wait(late(attempts));
        if !more { return; }
      }
    }

    /** The scan of Spider's own records for one on the VM, in the order of the list. */
    method FindTracked(vm: string, list: Option<seq<string>>, seen: string -> bool) returns (name: string)
      ensures name == Tracked(View(), vm, list, seen)
      ensures list.None? ==> name == ""
      ensures list.Some? ==>
                (exists i | 0 <= i < |list.value| :: name == list.value[i] && FirstOn(rows, addresses, vm, list.value, seen, i)) ||
                (name == "" && forall i | 0 <= i < |list.value| :: !SeesOn(rows, addresses, vm, list.value[i], seen))
    {
      if list.None? { return ""; }
      var names := list.value;
      for i := 0 to |names|
        invariant FirstSeen(View(), vm, names, seen) == FirstSeen(View(), vm, names[i..], seen)
        invariant forall j | 0 <= j < i :: !SeesOn(rows, addresses, vm, names[j], seen)
      {
        if names[i] in rows && rows[names[i]] in addresses && addresses[rows[names[i]]] == Some(vm) && seen(names[i]) {
          assert FirstOn(rows, addresses, vm, names, seen, i);
          return names[i];
        }
      }
      return "";
    }

    /** The number of attempts, which the clock decides, is part of the specification's call. */
    method UnassignVMDefaultPublicIP(q: Call, clock: Polling.Clock, late: nat -> nat) returns (ok: bool, attempts: nat)
      requires q.Unassign?
      modifies this, clock
      ensures View() == UnassignEffect(old(View()), q.(attempts := attempts))
      ensures attempts <= 6 && (attempts > 0 <==> q.getVM == Some(true) && q.disassociate && q.vm + "-defaultpip" in old(rows))
      ensures attempts == 0 ==> (ok <==> q.getVM == Some(true) && Tracked(old(View()), q.vm, q.list, q.seen) == "" && q.vmRow)
      ensures attempts == 0 && ok && q.list.Some? && "" !in old(rows) ==>
                forall n | n in q.list.value :: !SeesOn(old(rows), old(addresses), q.vm, n, q.seen)
      ensures attempts > 0 && !ok ==> clock.now - old(clock.now) >= 15 * Polling.SECOND
      // the default-named PublicIP was on the VM: it goes, or its deletion is refused, and nothing else changes
      ensures attempts > 0 ==> var name := q.vm + "-defaultpip";
                name in old(rows) && native == old(native) && (forall n | n != name :: SameRow(rows, old(rows), n)) &&
                (ok && q.tries(attempts - 1).answer != Refused ==> name !in rows) &&
                (ok && q.tries(attempts - 1).answer == Deleted ==> old(rows)[name] !in addresses) &&
                forall id | id != old(rows)[name] :: SameAddress(addresses, old(addresses), id)
      // it was not: the addresses on the VM that the driver removes go, or nothing changes
      ensures attempts == 0 ==> rows == old(rows) && native == if ok then old(native) - {q.vm} else old(native)
      ensures attempts == 0 ==> forall id ::
                if ok && id in q.removes && id in old(addresses) && old(addresses)[id] == Some(q.vm) then id !in addresses
                else SameAddress(addresses, old(addresses), id)
    {
      if q.getVM != Some(true) { return false, 0; }
      var name := DefaultName(q.vm);
      var off := DisassociatePublicIP(name, q.disassociate);
      if off {
        ghost var freed := View();
        assert forall id | id != rows[name] :: SameAddress(freed.addresses, old(addresses), id);
        ok, attempts := DeleteWithRetry(name, q.tries, clock, late);
        forall id | id != old(rows)[name] ensures SameAddress(addresses, old(addresses), id) {
          assert SameAddress(addresses, freed.addresses, id);
        }
        return;
      }
      var tracked := FindTracked(q.vm, q.list, q.seen);
      if tracked != "" { return false, 0; }
      if !q.vmRow { return false, 0; }
      addresses := map id | id in addresses && !(id in q.removes && addresses[id] == Some(q.vm)) :: addresses[id];
      native := native - {q.vm};
      return true, 0;
    }
  }

  // ------------------------------------------------------------------ user-created PublicIPs survive

  /** No two rows share an address, and no row is nameless. */
  predicate Distinct(w: World) {
    "" !in w.rows && forall n, m | n in w.rows && m in w.rows && n != m :: w.rows[n] != w.rows[m]
  }

  /** The cloud gives a new address an ID that is not in use, and users name what they create. */
  predicate FreshIds(w: World, q: Call) {
    var made := if q.Assign? then q.create.made else if q.UserCreate? then q.answers.made else None;
    (made.Some? ==> made.value !in w.addresses && forall n | n in w.rows :: w.rows[n] != made.value) &&
    (q.UserCreate? ==> q.name != "")
  }

  /** The scan that Unassign falls back to lists every row and learns the VM of each. */
  predicate ScanComplete(w: World, q: Call) {
    q.Unassign? ==> q.list.Some? && forall n | n in w.rows :: n in q.list.value && q.seen(n)
  }

  /** The PublicIP is there, with its address. */
  predicate Alive(w: World, name: string, id: string) {
    name in w.rows && w.rows[name] == id && id in w.addresses
  }

  lemma {:induction false} FirstSeenFinds(w: World, vm: string, names: seq<string>, seen: string -> bool)
    requires "" !in w.rows
    ensures FirstSeen(w, vm, names, seen) == "" || SeenOn(w, FirstSeen(w, vm, names, seen), vm, seen)
    ensures FirstSeen(w, vm, names, seen) == "" ==> forall n | n in names :: !SeenOn(w, n, vm, seen)
  {
    if names != [] { FirstSeenFinds(w, vm, names[1..], seen); }
  }

  lemma {:induction false} RetriedKeeps(w: World, name: string, tries: nat -> Try, n: nat, other: string, id: string)
    requires Distinct(w)
    ensures var w' := Retried(w, name, tries, n);
            Distinct(w') && (name in w'.rows ==> name in w.rows && w'.rows[name] == w.rows[name]) &&
            (Alive(w, other, id) && other != name ==> Alive(w', other, id))
  {
    if n > 0 { RetriedKeeps(w, name, tries, n - 1, other, id); }
  }

  lemma EffectKeepsDistinct(w: World, q: Call)
    requires Distinct(w) && FreshIds(w, q)
    ensures Distinct(Effect(w, q))
  {
    if q.Unassign? {
      RetriedKeeps(DisassociateEffect(w, DefaultName(q.vm), true), DefaultName(q.vm), q.tries, q.attempts, "", "");
    }
  }

  /** No request but the user's own DeletePublicIP deletes a user-created PublicIP, when scans are complete. */
  lemma EffectKeepsUsers(w: World, q: Call, name: string, id: string)
    requires Distinct(w) && FreshIds(w, q) && ScanComplete(w, q)
    requires UserNamed(name) && Alive(w, name, id) && !(q.UserDelete? && q.name == name)
    ensures Alive(Effect(w, q), name, id)
  {
    match q
    case Assign(vm, _, _, _, _, _) => DefaultNameIsNotUserNamed(vm);
    case Unassign(vm, _, _, tries, attempts, list, seen, _, removes) =>
      DefaultNameIsNotUserNamed(vm);
      RetriedKeeps(DisassociateEffect(w, DefaultName(vm), true), DefaultName(vm), tries, attempts, name, id);
      FirstSeenFinds(w, vm, list.value, seen);
      assert SeenOn(w, name, vm, seen) <==> w.addresses[id] == Some(vm);
    case _ =>
  }

  function Run(w: World, calls: seq<Call>): World
    decreases |calls|
  {
    if calls == [] then w else Run(Effect(w, calls[0]), calls[1..])
  }

  predicate Regular(w: World, calls: seq<Call>)
    decreases |calls|
  {
    calls == [] || (FreshIds(w, calls[0]) && ScanComplete(w, calls[0]) && Regular(Effect(w, calls[0]), calls[1..]))
  }

  /**
   Over every run of requests on any VMs, whatever the drivers answer, a PublicIP whose name does not
   end in "-defaultpip" is still there with its address at the end, unless its user has deleted it.
   */
  lemma {:induction false} RunKeepsUsers(w: World, calls: seq<Call>, name: string, id: string)
    requires Distinct(w) && Regular(w, calls) && UserNamed(name) && Alive(w, name, id)
    requires forall i | 0 <= i < |calls| :: !(calls[i].UserDelete? && calls[i].name == name)
    ensures Alive(Run(w, calls), name, id)
    decreases |calls|
  {
    if calls != [] {
      EffectKeepsUsers(w, calls[0], name, id);
      EffectKeepsDistinct(w, calls[0]);
      assert forall i | 0 <= i < |calls[1..]| :: calls[1..][i] == calls[i + 1];
      RunKeepsUsers(Effect(w, calls[0]), calls[1..], name, id);
    }
  }

  /**
   When the scan is not complete: an Unassign deletes a user's PublicIP exactly when the VM has it,
   nothing on the VM is seen, and the driver's removal takes it.
   */
  lemma UnassignDeletesUserIff(w: World, q: Call, name: string, id: string)
    requires Distinct(w) && q.Unassign? && UserNamed(name) && Alive(w, name, id)
    ensures !Alive(UnassignEffect(w, q), name, id) <==>
              q.getVM == Some(true) && !TakesOff(w, q) && q.vmRow && w.addresses[id] == Some(q.vm) && id in q.removes &&
              (q.list.None? || forall n | n in q.list.value :: !SeenOn(w, n, q.vm, q.seen))
  {
    DefaultNameIsNotUserNamed(q.vm);
    RetriedKeeps(DisassociateEffect(w, DefaultName(q.vm), true), DefaultName(q.vm), q.tries, q.attempts, name, id);
    if q.list.Some? {
      FirstSeenFinds(w, q.vm, q.list.value, q.seen);
      FirstSeenIn(w, q.vm, q.list.value, q.seen);
    }
  }

  lemma {:induction false} FirstSeenIn(w: World, vm: string, names: seq<string>, seen: string -> bool)
    ensures FirstSeen(w, vm, names, seen) != "" ==> FirstSeen(w, vm, names, seen) in names
  {
    if names != [] { FirstSeenIn(w, vm, names[1..], seen); }
  }

  // ------------------------------------------------------------------ a failed Assign undoes itself

  /** Assign fails at the insertion of the row or at the association, and its compensation succeeds. */
  predicate FailsUndone(w: World, q: Call)
    requires q.Assign?
  {
    var name := DefaultName(q.vm);
    q.getVM == Some(false) && q.provider && q.create.has &&
    if name in w.rows then q.create.existing && !q.associate && q.rollback == Try(true, Deleted, true)
    else q.create.made.Some? && if q.create.save then !q.associate && q.rollback == Try(true, Deleted, true) else q.create.undo
  }

  /**
   A failed Assign with successful compensation leaves rows and addresses as they were exactly when no
   default-named PublicIP was there before; one that was is deleted with its address.
   */
  lemma FailedAssignRestores(w: World, q: Call)
    requires q.Assign? && FreshIds(w, q) && FailsUndone(w, q)
    ensures AssignEffect(w, q) == w <==> DefaultName(q.vm) !in w.rows
  {}

  // ------------------------------------------------------------------ interleaved requests

  /**
   The requests take no lock on the VM. When another Unassign and an Attach come between the scan of
   an Unassign and its removal, the removal can hit the PublicIP that the user has just attached.
   */
  lemma InterleavedUnassignDeletesUser(vm: string, name: string, id: string, none: nat -> Try, all: string -> bool)
    requires UserNamed(name) && name != "" && all(name)
    ensures var w := World(map[name := id], map[id := None], {vm});
            var unassign := Unassign(vm, Some(true), true, none, 0, Some([name]), all, true, {id});
            var attach := Attach(vm, name, Some(false), true, true);
            && ScanComplete(w, unassign)
            && Tracked(w, vm, unassign.list, all) == "" && !TakesOff(w, unassign)  // the first Unassign decides to remove
            && var w1 := Effect(Effect(w, unassign), attach);                      // the other two run
            && Alive(w1, name, id) && w1.native == {}
            && !Alive(RemoveNative(w1, vm, true, {id}), name, id)                  // the first one removes
  {
    DefaultNameIsNotUserNamed(vm);
    var w := World(map[name := id], map[id := None], {vm});
    assert Tracked(w, vm, Some([name]), all) == FirstSeen(w, vm, [name], all) == FirstSeen(w, vm, [], all);
    var w1 := RemoveNative(w, vm, true, {id});
    assert w1 == World(map[name := id], map[id := None], {});
  }
}
