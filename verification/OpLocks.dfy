/**
 The operation lock table shared by all control sockets (src/engine/oplock_manager.cpp).

 A table is a vector of per-socket vectors; a lock is addressed by a pair of indices.  The
 first part gives every operation as a function on values and proves what it keeps; the
 classes at the end are the mutable table and the movable handle, proved against them.
 */
module OpLocks {
  import opened Options
  import opened ServerPaths

  type Server = nat
  type Socket = nat

  datatype Reason = Unknown | List | Mkdir | Private1

  datatype LockInfo = LockInfo(path: ServerPath, reason: Reason, inclusive: bool, waiting: bool, released: bool) {
    predicate Held() {
      !waiting && !released
    }
  }

  /** `socket.None?` is a hole: the null `control_socket_` of a slot that could not be popped. */
  datatype SocketLocks = SocketLocks(server: Server, socket: Option<Socket>, locks: seq<LockInfo>)

  type Table = seq<SocketLocks>

  /** An address of a lock, as stored in a handle. */
  datatype Address = Address(socket: nat, lock: nat)

  /** Two locks that must not be held together: same reason, and one path covers the other. */
  predicate Clash(a: LockInfo, b: LockInfo) {
    && a.reason == b.reason
    && (a.path == b.path || (a.inclusive && IsParentOf(a.path, b.path)) || (b.inclusive && IsParentOf(b.path, a.path)))
  }

  lemma ClashIsSymmetric(a: LockInfo, b: LockInfo)
    ensures Clash(a, b) <==> Clash(b, a)
  {
  }

  lemma ClashIgnoresWaiting(a: LockInfo, b: LockInfo, w: bool)
    ensures Clash(a, b) <==> Clash(a, b.(waiting := w))
  {
  }

  predicate InRange(t: Table, i: int, j: int) {
    0 <= i < |t| && 0 <= j < |t[i].locks|
  }

  predicate LiveAt(t: Table, i: int, j: int) {
    InRange(t, i, j) && !t[i].locks[j].released
  }

  predicate HeldAt(t: Table, i: int, j: int) {
    InRange(t, i, j) && t[i].locks[j].Held()
  }

  predicate WaitingAt(t: Table, i: int, j: int) {
    InRange(t, i, j) && t[i].locks[j].waiting
  }

  /** A held lock outside slot `i`, on the given server if there is one, clashes with `info`. */
  ghost predicate Blocked(t: Table, i: int, server: Option<Server>, info: LockInfo) {
    exists k, l ::
      HeldAt(t, k, l) && k != i && (server == None || server == Some(t[k].server)) && Clash(t[k].locks[l], info)
  }

  /** Event loop state around the table: undelivered wakeups, and sockets whose handler was removed. */
  datatype State = State(table: Table, events: multiset<Socket>, closing: set<Socket>)

  // ---- What every reachable state satisfies ----

  /** A hole has no locks, a slot never ends in a released lock, and a released lock does not wait. */
  ghost predicate SlotOk(sli: SocketLocks) {
    && (sli.socket.Some? <==> sli.locks != [])
    && (sli.locks != [] ==> !sli.locks[|sli.locks| - 1].released)
    && (forall j :: 0 <= j < |sli.locks| && sli.locks[j].released ==> !sli.locks[j].waiting)
  }

  /** The table never ends in a hole, its slots are well formed, and a socket has one slot. */
  ghost predicate WellFormed(t: Table) {
    && (|t| > 0 ==> t[|t| - 1].socket.Some?)
    && (forall i :: 0 <= i < |t| ==> SlotOk(t[i]))
    && (forall i, k :: 0 <= i < |t| && 0 <= k < |t| && t[i].socket.Some? && t[i].socket == t[k].socket ==> i == k)
  }

  ghost predicate MutuallyExclusive(t: Table) {
    forall i, j, k, l ::
      HeldAt(t, i, j) && HeldAt(t, k, l) && i != k && t[i].server == t[k].server ==>
        !Clash(t[i].locks[j], t[k].locks[l])
  }

  /** A waiting lock that somebody will look at again: its socket has an event, is going away, or is blocked. */
  ghost predicate Attended(s: State, i: int, j: int)
    requires InRange(s.table, i, j)
  {
    && s.table[i].socket.Some?
    && (|| s.table[i].socket.value in s.events
        || s.table[i].socket.value in s.closing
        || Blocked(s.table, i, None, s.table[i].locks[j]))
  }

  ghost predicate NoLostWakeup(s: State) {
    forall i, j :: WaitingAt(s.table, i, j) ==> Attended(s, i, j)
  }

  ghost predicate Inv(s: State) {
    WellFormed(s.table) && MutuallyExclusive(s.table) && NoLostWakeup(s)
  }

  // ---- Lock ----

  /** The index of the socket's slot, or the length of the table. */
  ghost function SlotOf(t: Table, socket: Socket): (r: nat)
    ensures r <= |t|
    ensures r < |t| ==> t[r].socket == Some(socket)
    ensures forall k :: 0 <= k < r ==> t[k].socket != Some(socket)
  {
    if t == [] then 0
    else if t[0].socket == Some(socket) then 0
    else
      var r := SlotOf(t[1..], socket);
      assert forall k :: 1 <= k < |t| ==> t[k] == t[1..][k - 1];
      1 + r
  }

  /** `Lock`: the new lock waits exactly when a held lock of another socket on the same server clashes. */
  ghost function LockInfoFor(t: Table, i: nat, server: Server, reason: Reason, path: ServerPath, inclusive: bool): LockInfo {
    var info := LockInfo(path, reason, inclusive, false, false);
    info.(waiting := Blocked(t, i, Some(server), info))
  }

  /** The server of a slot is the one its socket had when the slot was created. */
  ghost function LockTable(t: Table, socket: Socket, server: Server, reason: Reason, path: ServerPath, inclusive: bool): Table {
    var i := SlotOf(t, socket);
    if i < |t| then
      t[i := t[i].(locks := t[i].locks + [LockInfoFor(t, i, t[i].server, reason, path, inclusive)])]
    else
      t + [SocketLocks(server, Some(socket), [LockInfoFor(t, i, server, reason, path, inclusive)])]
  }

  ghost function LockAddress(t: Table, socket: Socket): Address {
    var i := SlotOf(t, socket);
    Address(i, if i < |t| then |t[i].locks| else 0)
  }

  // ---- Unlock ----

  function TrimReleased(s: seq<LockInfo>): (r: seq<LockInfo>)
    ensures r <= s
    ensures r != [] ==> !r[|r| - 1].released
    ensures forall j :: |r| <= j < |s| ==> s[j].released
  {
    if s != [] && s[|s| - 1].released then TrimReleased(s[..|s| - 1]) else s
  }

  function TrimHoles(t: Table): (r: Table)
    ensures r <= t
    ensures r != [] ==> r[|r| - 1].socket.Some?
    ensures forall j :: |r| <= j < |t| ==> t[j].socket.None?
  {
    if t != [] && t[|t| - 1].socket.None? then TrimHoles(t[..|t| - 1]) else t
  }

  /** `Unlock`: flag an inner lock as released; pop a last one together with everything dead below it. */
  ghost function UnlockTable(t: Table, a: Address): Table
    requires InRange(t, a.socket, a.lock)
  {
    var sli := t[a.socket];
    if a.lock + 1 != |sli.locks| then
      t[a.socket := sli.(locks := sli.locks[a.lock := sli.locks[a.lock].(waiting := false, released := true)])]
    else
      var rest := TrimReleased(sli.locks[..a.lock]);
      if rest != [] then
        t[a.socket := sli.(locks := rest)]
      else if a.socket + 1 == |t| then
        TrimHoles(t[..a.socket])
      else
        t[a.socket := sli.(locks := [], socket := None)]
  }

  ghost predicate HasWaiting(sli: SocketLocks) {
    exists j :: 0 <= j < |sli.locks| && sli.locks[j].waiting
  }

  /** `Wakeup`: one event per slot with a waiting lock; a removed handler receives nothing. */
  ghost function WokenBy(sli: SocketLocks, closing: set<Socket>): multiset<Socket> {
    if HasWaiting(sli) && sli.socket.Some? && sli.socket.value !in closing then multiset{sli.socket.value} else multiset{}
  }

  ghost function Woken(t: Table, closing: set<Socket>): multiset<Socket> {
    if t == [] then multiset{} else Woken(t[..|t| - 1], closing) + WokenBy(t[|t| - 1], closing)
  }

  ghost function UnlockState(s: State, a: Address): State
    requires InRange(s.table, a.socket, a.lock)
  {
    var t := UnlockTable(s.table, a);
    State(t, if s.table[a.socket].locks[a.lock].waiting then s.events else s.events + Woken(t, s.closing), s.closing)
  }

  // ---- ObtainWaiting ----

  /** `ObtainWaiting`: each waiting lock of the slot that no held lock of another slot blocks becomes held. */
  ghost function Obtained(t: Table, i: nat): seq<LockInfo>
    requires i < |t|
  {
    seq(|t[i].locks|, j requires 0 <= j < |t[i].locks| =>
      if t[i].locks[j].waiting && !Blocked(t, i, None, t[i].locks[j]) then t[i].locks[j].(waiting := false)
      else t[i].locks[j])
  }

  ghost function ObtainTable(t: Table, socket: Socket): Table {
    var i := SlotOf(t, socket);
    if i == |t| then t else t[i := t[i].(locks := Obtained(t, i))]
  }

  /** Whether the call reports that at least one lock was obtained. */
  ghost predicate Obtains(t: Table, socket: Socket) {
    var i := SlotOf(t, socket);
    i < |t| && ObtainsAny(t, i, |t[i].locks|)
  }

  ghost predicate ObtainsAny(t: Table, i: nat, n: nat)
    requires i < |t| && n <= |t[i].locks|
  {
    exists j :: 0 <= j < n && t[i].locks[j].waiting && !Blocked(t, i, None, t[i].locks[j])
  }

  /** Delivery of one `CObtainLockEvent` (`CControlSocket::OnObtainLock`). */
  ghost function DeliverState(s: State, socket: Socket): State {
    State(ObtainTable(s.table, socket), s.events - multiset{socket}, s.closing)
  }

  // ---- Handle stability ----

  /** A live lock that keeps its address, its data, its socket and its server. */
  ghost predicate SameAt(t: Table, t': Table, i: int, j: int) {
    && LiveAt(t, i, j) && LiveAt(t', i, j)
    && t'[i].locks[j] == t[i].locks[j]
    && t'[i].server == t[i].server && t'[i].socket == t[i].socket
  }

  /** Locking creates exactly one live address, unused before, and disturbs no other. */
  lemma LockFrame(t: Table, socket: Socket, server: Server, reason: Reason, path: ServerPath, inclusive: bool)
    requires WellFormed(t)
    ensures
      var t' := LockTable(t, socket, server, reason, path, inclusive);
      var a := LockAddress(t, socket);
      && !LiveAt(t, a.socket, a.lock) && LiveAt(t', a.socket, a.lock)
      && t'[a.socket].socket == Some(socket)
      && (forall i, j :: LiveAt(t, i, j) ==> SameAt(t, t', i, j))
      && (forall i, j :: LiveAt(t', i, j) && Address(i, j) != a ==> LiveAt(t, i, j))
  {
  }

  /** Unlocking removes exactly the given live address; popping and compaction move no other lock. */
  lemma UnlockFrame(t: Table, a: Address)
    requires WellFormed(t) && LiveAt(t, a.socket, a.lock)
    ensures
      var t' := UnlockTable(t, a);
      && !LiveAt(t', a.socket, a.lock)
      && (forall i, j :: LiveAt(t, i, j) && Address(i, j) != a ==> SameAt(t, t', i, j))
      && (forall i, j :: LiveAt(t', i, j) ==> LiveAt(t, i, j))
  {
    var t', sli := UnlockTable(t, a), t[a.socket];
    forall i, j | LiveAt(t, i, j) && Address(i, j) != a
      ensures SameAt(t, t', i, j)
    {
      if i == a.socket {
        assert sli.locks[j] == t[i].locks[j];
      } else {
        assert t[i].locks != [];
      }
    }
  }

  /** Obtaining changes nothing but waiting flags, and only of the socket's own locks. */
  lemma ObtainFrame(t: Table, socket: Socket)
    requires WellFormed(t)
    ensures
      var t' := ObtainTable(t, socket);
      && |t'| == |t|
      && (forall i :: 0 <= i < |t| ==> t'[i].socket == t[i].socket && t'[i].server == t[i].server && |t'[i].locks| == |t[i].locks|)
      && (forall i :: 0 <= i < |t| && t[i].socket != Some(socket) ==> t'[i] == t[i])
      && (forall i, j :: InRange(t, i, j) ==>
            && t'[i].locks[j] == t[i].locks[j].(waiting := t'[i].locks[j].waiting)
            && (t'[i].locks[j].waiting <==> t[i].locks[j].waiting && (t[i].socket == Some(socket) ==> Blocked(t, i, None, t[i].locks[j]))))
  {
    var i := SlotOf(t, socket);
    forall k, j | InRange(t, k, j) && t[k].socket == Some(socket)
      ensures k == i
    {
    }
  }

  // ---- Preservation of the invariant ----

  lemma LockKeepsWellFormed(t: Table, socket: Socket, server: Server, reason: Reason, path: ServerPath, inclusive: bool)
    requires WellFormed(t)
    ensures WellFormed(LockTable(t, socket, server, reason, path, inclusive))
  {
    hide Blocked;
    var i := SlotOf(t, socket);
    var t' := LockTable(t, socket, server, reason, path, inclusive);
    assert SlotOk(t'[i]);
    hide SlotOk;
    assert forall k :: 0 <= k < |t| ==> t'[k].socket == t[k].socket;
    assert forall k :: 0 <= k < |t| && k != i ==> t'[k] == t[k];
  }

  lemma LockKeepsExclusion(t: Table, socket: Socket, server: Server, reason: Reason, path: ServerPath, inclusive: bool)
    requires WellFormed(t) && MutuallyExclusive(t)
    ensures MutuallyExclusive(LockTable(t, socket, server, reason, path, inclusive))
  {
    hide Clash;
    LockFrame(t, socket, server, reason, path, inclusive);
    var t' := LockTable(t, socket, server, reason, path, inclusive);
    var a := LockAddress(t, socket);
    forall b, c, d, e | HeldAt(t', b, c) && HeldAt(t', d, e) && b != d && t'[b].server == t'[d].server
      ensures !Clash(t'[b].locks[c], t'[d].locks[e])
    {
      ClashIsSymmetric(t'[b].locks[c], t'[d].locks[e]);
      if Address(b, c) == a {
        assert HeldAt(t, d, e);
      } else if Address(d, e) == a {
        assert HeldAt(t, b, c);
      } else {
        assert HeldAt(t, b, c) && HeldAt(t, d, e);
      }
    }
  }

  /** A blocked lock stays blocked while every held lock stays. */
  lemma BlockedPersists(t: Table, t': Table, i: int, server: Option<Server>, info: LockInfo)
    requires Blocked(t, i, server, info)
    requires forall k, l :: HeldAt(t, k, l) ==> SameAt(t, t', k, l)
    ensures Blocked(t', i, server, info)
  {
    var k, l :| HeldAt(t, k, l) && k != i && (server == None || server == Some(t[k].server)) && Clash(t[k].locks[l], info);
    assert HeldAt(t', k, l) && Clash(t'[k].locks[l], info);
  }

  /** A waiting lock stays attended while held locks stay and its socket loses no event. */
  lemma AttendedPersists(s: State, s': State, k: int, l: int)
    requires WaitingAt(s.table, k, l) && SameAt(s.table, s'.table, k, l) && Attended(s, k, l)
    requires forall i, j :: HeldAt(s.table, i, j) ==> SameAt(s.table, s'.table, i, j)
    requires s.closing <= s'.closing
    requires s.table[k].socket.value in s.events ==> Blocked(s.table, k, None, s.table[k].locks[l]) || s.table[k].socket.value in s'.events
    ensures Attended(s', k, l)
  {
    if Blocked(s.table, k, None, s.table[k].locks[l]) {
      BlockedPersists(s.table, s'.table, k, None, s.table[k].locks[l]);
    }
  }

  lemma LockKeepsWakeups(s: State, socket: Socket, server: Server, reason: Reason, path: ServerPath, inclusive: bool)
    requires WellFormed(s.table) && NoLostWakeup(s)
    ensures NoLostWakeup(s.(table := LockTable(s.table, socket, server, reason, path, inclusive)))
  {
    var t, t' := s.table, LockTable(s.table, socket, server, reason, path, inclusive);
    var a := LockAddress(t, socket);
    LockFrame(t, socket, server, reason, path, inclusive);
    forall k, l | WaitingAt(t', k, l)
      ensures Attended(s.(table := t'), k, l)
    {
      if Address(k, l) == a {
        NewLockAttended(s, t', socket, server, reason, path, inclusive);
      } else {
        assert LiveAt(t, k, l);
        AttendedPersists(s, s.(table := t'), k, l);
      }
    }
  }

  lemma NewLockAttended(s: State, t': Table, socket: Socket, server: Server, reason: Reason, path: ServerPath, inclusive: bool)
    requires WellFormed(s.table)
    requires t' == LockTable(s.table, socket, server, reason, path, inclusive)
    ensures var a := LockAddress(s.table, socket);
      WaitingAt(t', a.socket, a.lock) ==> Attended(s.(table := t'), a.socket, a.lock)
  {
    var t, a := s.table, LockAddress(s.table, socket);
    LockFrame(t, socket, server, reason, path, inclusive);
    if WaitingAt(t', a.socket, a.lock) {
      var info := t'[a.socket].locks[a.lock];
      var plain := LockInfo(path, reason, inclusive, false, false);
      assert info == plain.(waiting := true);
      var k, l :| HeldAt(t, k, l) && k != a.socket && Clash(t[k].locks[l], plain);
      assert SameAt(t, t', k, l) && HeldAt(t', k, l);
      ClashIgnoresWaiting(t[k].locks[l], plain, true);
      assert Clash(t'[k].locks[l], info);
    }
  }

  lemma LockKeepsInv(s: State, socket: Socket, server: Server, reason: Reason, path: ServerPath, inclusive: bool)
    requires Inv(s)
    ensures Inv(s.(table := LockTable(s.table, socket, server, reason, path, inclusive)))
  {
    LockKeepsWellFormed(s.table, socket, server, reason, path, inclusive);
    LockKeepsExclusion(s.table, socket, server, reason, path, inclusive);
    LockKeepsWakeups(s, socket, server, reason, path, inclusive);
  }

  /** Exactly the sockets with a waiting lock and a handler get an event, one each. */
  lemma {:induction false} WokenCounts(t: Table, closing: set<Socket>, s: Socket)
    requires forall i, k :: 0 <= i < |t| && 0 <= k < |t| && t[i].socket.Some? && t[i].socket == t[k].socket ==> i == k
    ensures Woken(t, closing)[s] == if s !in closing && WaitsInSome(t, s) then 1 else 0
  {
    hide HasWaiting;
    if t != [] {
      var init, last := t[..|t| - 1], t[|t| - 1];
      WokenCounts(init, closing, s);
      WaitsInInit(t, s);
      assert Woken(t, closing) == Woken(init, closing) + WokenBy(last, closing);
      assert WokenBy(last, closing)[s] == if s !in closing && last.socket == Some(s) && HasWaiting(last) then 1 else 0;
      hide Woken, WokenBy, WaitsInSome;
    }
  }

  ghost predicate WaitsInSome(t: Table, s: Socket) {
    exists i :: 0 <= i < |t| && t[i].socket == Some(s) && HasWaiting(t[i])
  }

  lemma WaitsInInit(t: Table, s: Socket)
    requires t != []
    requires forall i, k :: 0 <= i < |t| && 0 <= k < |t| && t[i].socket.Some? && t[i].socket == t[k].socket ==> i == k
    ensures
      var init, last := t[..|t| - 1], t[|t| - 1];
      && (WaitsInSome(t, s) <==> WaitsInSome(init, s) || (last.socket == Some(s) && HasWaiting(last)))
      && !(WaitsInSome(init, s) && last.socket == Some(s))
  {
    var init := t[..|t| - 1];
    hide HasWaiting;
    assert forall i :: 0 <= i < |init| ==> init[i] == t[i];
    if i :| 0 <= i < |init| && init[i].socket == Some(s) && HasWaiting(init[i]) {
      assert t[i].socket == Some(s) && HasWaiting(t[i]);
    }
  }

  lemma UnlockKeepsWellFormed(t: Table, a: Address)
    requires WellFormed(t) && LiveAt(t, a.socket, a.lock)
    ensures WellFormed(UnlockTable(t, a))
  {
    var t' := UnlockTable(t, a);
    assert SlotOk(t[a.socket]);
    assert a.socket < |t'| ==> SlotOk(t'[a.socket]);
    hide SlotOk;
    assert forall k :: 0 <= k < |t'| && k != a.socket ==> t'[k] == t[k];
    assert forall k :: 0 <= k < |t'| && t'[k].socket.Some? ==> t'[k].socket == t[k].socket;
  }

  lemma UnlockKeepsWakeups(s: State, a: Address)
    requires Inv(s) && LiveAt(s.table, a.socket, a.lock)
    ensures NoLostWakeup(UnlockState(s, a))
  {
    var t, s' := s.table, UnlockState(s, a);
    var t' := s'.table;
    UnlockKeepsWellFormed(t, a);
    UnlockFrame(t, a);
    forall k, l | WaitingAt(t', k, l)
      ensures Attended(s', k, l)
    {
      assert LiveAt(t, k, l);
      if WaitingAt(t, a.socket, a.lock) {
        AttendedPersists(s, s', k, l);
      } else {
        assert HasWaiting(t'[k]);
        WokenCounts(t', s.closing, t'[k].socket.value);
      }
    }
  }

  lemma UnlockKeepsExclusion(t: Table, a: Address)
    requires WellFormed(t) && MutuallyExclusive(t) && LiveAt(t, a.socket, a.lock)
    ensures MutuallyExclusive(UnlockTable(t, a))
  {
    var t' := UnlockTable(t, a);
    UnlockFrame(t, a);
    forall b, c, d, e | HeldAt(t', b, c) && HeldAt(t', d, e) && b != d && t'[b].server == t'[d].server
      ensures !Clash(t'[b].locks[c], t'[d].locks[e])
    {
      assert LiveAt(t', b, c) && LiveAt(t', d, e);
      assert SameAt(t, t', b, c) && SameAt(t, t', d, e);
      assert HeldAt(t, b, c) && HeldAt(t, d, e);
    }
  }

  lemma UnlockKeepsInv(s: State, a: Address)
    requires Inv(s) && LiveAt(s.table, a.socket, a.lock)
    ensures Inv(UnlockState(s, a))
  {
    UnlockKeepsWellFormed(s.table, a);
    UnlockKeepsExclusion(s.table, a);
    UnlockKeepsWakeups(s, a);
  }

  lemma DeliverKeepsWakeups(s: State, socket: Socket)
    requires Inv(s)
    ensures NoLostWakeup(DeliverState(s, socket))
  {
    var t, s' := s.table, DeliverState(s, socket);
    var t' := s'.table;
    ObtainFrame(t, socket);
    assert forall k, l :: HeldAt(t, k, l) ==> SameAt(t, t', k, l);
    forall k, l | WaitingAt(t', k, l)
      ensures Attended(s', k, l)
    {
      assert WaitingAt(t, k, l) && t'[k].locks[l] == t[k].locks[l];
      assert LiveAt(t, k, l);
      AttendedPersists(s, s', k, l);
    }
  }

  lemma ObtainKeepsWellFormed(t: Table, socket: Socket)
    requires WellFormed(t)
    ensures WellFormed(ObtainTable(t, socket))
  {
    hide Blocked;
    var i, t' := SlotOf(t, socket), ObtainTable(t, socket);
    assert i < |t| ==> SlotOk(t[i]) && SlotOk(t'[i]);
    hide SlotOk;
    assert forall k :: 0 <= k < |t| ==> t'[k].socket == t[k].socket;
    assert forall k :: 0 <= k < |t| && k != i ==> t'[k] == t[k];
  }

  lemma ObtainKeepsExclusion(t: Table, socket: Socket)
    requires WellFormed(t) && MutuallyExclusive(t)
    ensures MutuallyExclusive(ObtainTable(t, socket))
  {
    var t' := ObtainTable(t, socket);
    forall b, c, d, e | HeldAt(t', b, c) && HeldAt(t', d, e) && b != d && t'[b].server == t'[d].server
      ensures !Clash(t'[b].locks[c], t'[d].locks[e])
    {
      ExclusionAfterObtain(t, t', socket, b, c, d, e);
    }
  }

  lemma DeliverKeepsInv(s: State, socket: Socket)
    requires Inv(s)
    ensures Inv(DeliverState(s, socket))
  {
    ObtainKeepsWellFormed(s.table, socket);
    ObtainKeepsExclusion(s.table, socket);
    DeliverKeepsWakeups(s, socket);
  }

  lemma ExclusionAfterObtain(t: Table, t': Table, socket: Socket, b: int, c: int, d: int, e: int)
    requires WellFormed(t) && MutuallyExclusive(t)
    requires t' == ObtainTable(t, socket)
    requires HeldAt(t', b, c) && HeldAt(t', d, e) && b != d && t'[b].server == t'[d].server
    ensures !Clash(t'[b].locks[c], t'[d].locks[e])
  {
    ObtainFrame(t, socket);
    if WaitingAt(t, b, c) {
      assert t[d].socket != Some(socket) && HeldAt(t, d, e);
      assert !Blocked(t, b, None, t[b].locks[c]);
    } else if WaitingAt(t, d, e) {
      assert t[b].socket != Some(socket) && HeldAt(t, b, c);
      assert !Blocked(t, d, None, t[d].locks[e]);
    } else {
      assert HeldAt(t, b, c) && HeldAt(t, d, e);
    }
  }

  // ---- Whole runs ----

  /** The state together with the addresses of the handles that exist. */
  datatype World = World(s: State, handles: set<Address>)

  datatype Step =
    | DoLock(socket: Socket, server: Server, reason: Reason, path: ServerPath, inclusive: bool)
    | DoUnlock(address: Address)
    | DoDeliver(socket: Socket)
    | DoRemoveHandler(socket: Socket)
    | DoForget(socket: Socket)

  const EMPTY := World(State([], multiset{}, {}), {})

  /** Only owners unlock; a socket under destruction is gone once it holds no lock. */
  ghost predicate Enabled(w: World, step: Step) {
    match step
    case DoLock(_, _, _, _, _) => true
    case DoUnlock(a) => a in w.handles
    case DoDeliver(socket) => socket in w.s.events
    case DoRemoveHandler(socket) => true
    case DoForget(socket) => SlotOf(w.s.table, socket) == |w.s.table|
  }

  ghost predicate WorldInv(w: World) {
    && Inv(w.s)
    && forall i, j :: 0 <= i && 0 <= j ==> (LiveAt(w.s.table, i, j) <==> Address(i, j) in w.handles)
  }

  ghost function Next(w: World, step: Step): World {
    match step
    case DoLock(socket, server, reason, path, inclusive) =>
      World(w.s.(table := LockTable(w.s.table, socket, server, reason, path, inclusive)),
            w.handles + {LockAddress(w.s.table, socket)})
    case DoUnlock(a) =>
      World(if InRange(w.s.table, a.socket, a.lock) then UnlockState(w.s, a) else w.s, w.handles - {a})
    case DoDeliver(socket) =>
      World(DeliverState(w.s, socket), w.handles)
    case DoRemoveHandler(socket) =>
      World(w.s.(events := w.s.events[socket := 0], closing := w.s.closing + {socket}), w.handles)
    case DoForget(socket) =>
      World(w.s.(closing := w.s.closing - {socket}), w.handles)
  }

  /** One step: the address a lock call hands out was free, and an owned address is always a live one. */
  lemma StepKeepsWorldInv(w: World, step: Step)
    requires WorldInv(w) && Enabled(w, step)
    ensures WorldInv(Next(w, step)) && WellFormed(Next(w, step).s.table)
    ensures step.DoLock? ==> LockAddress(w.s.table, step.socket) !in w.handles
    ensures step.DoUnlock? ==> LiveAt(w.s.table, step.address.socket, step.address.lock)
  {
    hide Blocked;
    hide MutuallyExclusive;
    hide NoLostWakeup;
    match step
    case DoLock(socket, server, reason, path, inclusive) =>
      LockKeepsInv(w.s, socket, server, reason, path, inclusive);
      LockFrame(w.s.table, socket, server, reason, path, inclusive);
    case DoUnlock(a) =>
      UnlockKeepsInv(w.s, a);
      UnlockFrame(w.s.table, a);
    case DoDeliver(socket) =>
      DeliverKeepsInv(w.s, socket);
      ObtainFrame(w.s.table, socket);
    case DoRemoveHandler(socket) =>
      RemoveHandlerKeepsInv(w.s, socket);
    case DoForget(socket) =>
      ForgetKeepsInv(w.s, socket);
  }

  lemma RemoveHandlerKeepsInv(s: State, socket: Socket)
    requires Inv(s)
    ensures Inv(State(s.table, s.events[socket := 0], s.closing + {socket}))
  {
    hide Blocked;
  }

  lemma ForgetKeepsInv(s: State, socket: Socket)
    requires Inv(s) && SlotOf(s.table, socket) == |s.table|
    ensures Inv(s.(closing := s.closing - {socket}))
  {
    hide Blocked;
  }

  ghost predicate Runs(w: World, steps: seq<Step>, w': World)
    decreases |steps|
  {
    if steps == [] then w == w' else Enabled(w, steps[0]) && Runs(Next(w, steps[0]), steps[1..], w')
  }

  /** Every world any run reaches from the empty table is well formed, exclusive and loses no wakeup. */
  lemma {:induction false} RunsKeepWorldInv(w: World, steps: seq<Step>, w': World)
    requires WorldInv(w) && Runs(w, steps, w')
    ensures WorldInv(w')
    decreases |steps|
  {
    if steps != [] {
      StepKeepsWorldInv(w, steps[0]);
      RunsKeepWorldInv(Next(w, steps[0]), steps[1..], w');
    }
  }

  /** With nothing held and nothing under way, nothing waits. */
  lemma QuietMeansNoWaiter(steps: seq<Step>, w: World, i: int, j: int)
    requires Runs(EMPTY, steps, w)
    requires w.s.events == multiset{} && w.s.closing == {}
    requires forall k, l :: !HeldAt(w.s.table, k, l)
    ensures !WaitingAt(w.s.table, i, j)
  {
    RunsKeepWorldInv(EMPTY, steps, w);
  }

  /**
   In every reachable world, the delivery of its socket's event obtains a waiting lock exactly if no held lock of
   another socket clashes, on whatever server; and if none does, that event is on its way, unless the socket is
   under destruction.
   */
  lemma DeliveryObtainsIff(steps: seq<Step>, w: World, i: int, j: int)
    requires Runs(EMPTY, steps, w) && WaitingAt(w.s.table, i, j)
    ensures
      var t := w.s.table;
      && t[i].socket.Some?
      && (HeldAt(Next(w, DoDeliver(t[i].socket.value)).s.table, i, j) <==> !Blocked(t, i, None, t[i].locks[j]))
      && (!Blocked(t, i, None, t[i].locks[j]) && t[i].socket.value !in w.s.closing ==> Enabled(w, DoDeliver(t[i].socket.value)))
  {
    RunsKeepWorldInv(EMPTY, steps, w);
    assert Attended(w.s, i, j);
    ObtainFrame(w.s.table, w.s.table[i].socket.value);
    hide Blocked;
  }

  /** So with nothing held, a waiting lock's event is on its way and its delivery obtains that lock. */
  lemma WaiterIsServed(steps: seq<Step>, w: World, i: int, j: int)
    requires Runs(EMPTY, steps, w)
    requires WaitingAt(w.s.table, i, j) && forall x :: x in w.s.closing ==> w.s.table[i].socket != Some(x)
    requires forall k, l :: !HeldAt(w.s.table, k, l)
    ensures
      exists x ::
        && w.s.table[i].socket == Some(x) && Enabled(w, DoDeliver(x))
        && HeldAt(Next(w, DoDeliver(x)).s.table, i, j)
  {
    DeliveryObtainsIff(steps, w, i, j);
    var x := w.s.table[i].socket.value;
    assert Enabled(w, DoDeliver(x)) && HeldAt(Next(w, DoDeliver(x)).s.table, i, j);
  }

  // ---- Which locks exclude each other ----

  /** Two locks for the same reason and place, or one taken with all below its place and the other there. */
  predicate Exclude(a: LockInfo, b: LockInfo) {
    && a.reason == b.reason
    && (|| a.path == b.path
        || (a.inclusive && LiesBelow(b.path, a.path))
        || (b.inclusive && LiesBelow(a.path, b.path)))
  }

  lemma ClashIsExclusion(a: LockInfo, b: LockInfo)
    ensures Clash(a, b) <==> Exclude(a, b)
  {
    SubdirLiesBelow(a.path, b.path);
    SubdirLiesBelow(b.path, a.path);
    hide IsParentOf, LiesBelow;
  }

  /** A held lock of another socket, on the server if one is given, that excludes the lock asked for. */
  ghost predicate HeldElsewhere(t: Table, socket: Option<Socket>, server: Option<Server>, info: LockInfo) {
    exists k, l :: HeldAt(t, k, l) && t[k].socket != socket && (server.Some? ==> t[k].server == server.value) && Exclude(t[k].locks[l], info)
  }

  lemma BlockedIsElsewhere(t: Table, i: nat, socket: Socket, server: Option<Server>, info: LockInfo)
    requires WellFormed(t) && i == SlotOf(t, socket)
    ensures Blocked(t, i, server, info) <==> HeldElsewhere(t, Some(socket), server, info)
  {
    hide Clash, Exclude;
    forall k, l | HeldAt(t, k, l) ensures (k != i <==> t[k].socket != Some(socket)) && (Clash(t[k].locks[l], info) <==> Exclude(t[k].locks[l], info)) {
      ClashIsExclusion(t[k].locks[l], info);
      assert SlotOk(t[k]);
    }
    if Blocked(t, i, server, info) {
      var k, l :| HeldAt(t, k, l) && k != i && (server == None || server == Some(t[k].server)) && Clash(t[k].locks[l], info);
      assert Exclude(t[k].locks[l], info) && t[k].socket != Some(socket);
    }
    if HeldElsewhere(t, Some(socket), server, info) {
      var k, l :| HeldAt(t, k, l) && t[k].socket != Some(socket) && (server.Some? ==> t[k].server == server.value) && Exclude(t[k].locks[l], info);
      assert Clash(t[k].locks[l], info) && k != i;
    }
  }

  /**
   Mutual exclusion, said of the paths.  Of two locks that different sockets hold on the same server for the same
   reason, the paths differ, and neither lies below the other if that was taken with all below it.
   */
  lemma HeldLocksAreApart(steps: seq<Step>, w: World, i: int, j: int, k: int, l: int)
    requires Runs(EMPTY, steps, w)
    requires HeldAt(w.s.table, i, j) && HeldAt(w.s.table, k, l) && i != k
    ensures
      var a, b := w.s.table[i].locks[j], w.s.table[k].locks[l];
      w.s.table[i].server == w.s.table[k].server && a.reason == b.reason ==>
        && a.path != b.path
        && (a.inclusive ==> !LiesBelow(b.path, a.path))
        && (b.inclusive ==> !LiesBelow(a.path, b.path))
  {
    RunsKeepWorldInv(EMPTY, steps, w);
    ClashIsExclusion(w.s.table[i].locks[j], w.s.table[k].locks[l]);
    hide Clash;
  }

  /** A new lock waits exactly if another socket holds a lock on the same server that excludes it. */
  lemma NewLockWaitsIff(steps: seq<Step>, w: World, socket: Socket, server: Server, reason: Reason, path: ServerPath, inclusive: bool)
    requires Runs(EMPTY, steps, w)
    ensures
      var t, a := w.s.table, LockAddress(w.s.table, socket);
      var t' := Next(w, DoLock(socket, server, reason, path, inclusive)).s.table;
      && InRange(t', a.socket, a.lock)
      && t'[a.socket].socket == Some(socket)
      && t'[a.socket].server == (if a.socket < |t| then t[a.socket].server else server)
      && t'[a.socket].locks[a.lock] ==
           LockInfo(path, reason, inclusive,
                    HeldElsewhere(t, Some(socket), Some(t'[a.socket].server), LockInfo(path, reason, inclusive, false, false)), false)
  {
    var t, i := w.s.table, SlotOf(w.s.table, socket);
    RunsKeepWorldInv(EMPTY, steps, w);
    BlockedIsElsewhere(t, i, socket, Some(if i < |t| then t[i].server else server), LockInfo(path, reason, inclusive, false, false));
    hide Blocked, HeldElsewhere, WorldInv;
  }

  /** The socket is told to go on exactly if one of its locks waits no more. */
  lemma GoesOnIff(t: Table, socket: Socket)
    ensures Obtains(t, socket) <==> exists i, j :: WaitingAt(t, i, j) && !WaitingAt(ObtainTable(t, socket), i, j)
  {
    var i := SlotOf(t, socket);
    hide Blocked;
    if Obtains(t, socket) {
      var j :| 0 <= j < |t[i].locks| && t[i].locks[j].waiting && !Blocked(t, i, None, t[i].locks[j]);
      assert WaitingAt(t, i, j) && !WaitingAt(ObtainTable(t, socket), i, j);
    }
    if k, j :| WaitingAt(t, k, j) && !WaitingAt(ObtainTable(t, socket), k, j) {
      assert k == i;
    }
  }

  /** A waiting lock is obtained exactly if no other socket holds a lock that excludes it, on any server. */
  lemma WaitingLockObtainedIff(steps: seq<Step>, w: World, i: int, j: int)
    requires Runs(EMPTY, steps, w) && WaitingAt(w.s.table, i, j)
    ensures
      var t := w.s.table;
      && t[i].socket.Some?
      && (HeldAt(Next(w, DoDeliver(t[i].socket.value)).s.table, i, j) <==> !HeldElsewhere(t, t[i].socket, None, t[i].locks[j]))
  {
    RunsKeepWorldInv(EMPTY, steps, w);
    DeliveryObtainsIff(steps, w, i, j);
    assert SlotOk(w.s.table[i]);
    var socket := w.s.table[i].socket.value;
    assert i == SlotOf(w.s.table, socket);
    BlockedIsElsewhere(w.s.table, i, socket, None, w.s.table[i].locks[j]);
    hide Blocked, HeldElsewhere, WorldInv, ObtainTable;
  }

  // ---- A lock on another server ----

  function TwoServers(path: ServerPath): seq<Step> {
    [DoLock(0, 1, List, path, false), DoLock(1, 1, List, path, false), DoLock(2, 2, List, path, false),
     DoUnlock(Address(0, 0)), DoDeliver(1)]
  }

  function Slot(server: Server, socket: Socket, path: ServerPath, waiting: bool): SocketLocks {
    SocketLocks(server, Some(socket), [LockInfo(path, List, false, waiting, false)])
  }

  lemma SlotOfMore(a: SocketLocks, rest: Table, socket: Socket)
    ensures SlotOf([a] + rest, socket) == if a.socket == Some(socket) then 0 else 1 + SlotOf(rest, socket)
  {
    assert ([a] + rest)[0] == a && ([a] + rest)[1..] == rest;
  }

  lemma SlotsOf(a: SocketLocks, b: SocketLocks, c: SocketLocks, socket: Socket)
    ensures SlotOf([], socket) == 0
    ensures SlotOf([a], socket) == if a.socket == Some(socket) then 0 else 1
    ensures SlotOf([a, b], socket) == if a.socket == Some(socket) then 0 else if b.socket == Some(socket) then 1 else 2
    ensures SlotOf([a, b, c], socket) ==
      if a.socket == Some(socket) then 0 else if b.socket == Some(socket) then 1 else if c.socket == Some(socket) then 2 else 3
  {
    assert SlotOf([], socket) == 0;
    hide SlotOf;
    SlotOfMore(a, [], socket);
    SlotOfMore(b, [], socket);
    SlotOfMore(c, [], socket);
    SlotOfMore(a, [b], socket);
    SlotOfMore(b, [c], socket);
    SlotOfMore(a, [b, c], socket);
    assert [a] + [] == [a] && [b] + [] == [b] && [c] + [] == [c];
    assert [a] + [b] == [a, b] && [b] + [c] == [b, c] && [a] + [b, c] == [a, b, c];
  }

  lemma TheyLock(path: ServerPath)
    ensures
      var a, b, c := Slot(1, 0, path, false), Slot(1, 1, path, true), Slot(2, 2, path, false);
      && LockTable([], 0, 1, List, path, false) == [a]
      && LockTable([a], 1, 1, List, path, false) == [a, b]
      && LockTable([a, b], 2, 2, List, path, false) == [a, b, c]
  {
    var a, b, c := Slot(1, 0, path, false), Slot(1, 1, path, true), Slot(2, 2, path, false);
    var info := LockInfo(path, List, false, false, false);
    SlotsOf(a, b, c, 0);
    SlotsOf(a, b, c, 1);
    SlotsOf(a, b, c, 2);
    assert HeldAt([a], 0, 0) && Clash(a.locks[0], info);
    assert Blocked([a], 1, Some(1), info) && !Blocked([], 0, Some(1), info) && !Blocked([a, b], 2, Some(2), info);
    hide Blocked, SlotOf, Clash;
  }

  lemma OneUnlocks(path: ServerPath)
    ensures
      var a, b, c, hole := Slot(1, 0, path, false), Slot(1, 1, path, true), Slot(2, 2, path, false), SocketLocks(1, None, []);
      && UnlockTable([a, b, c], Address(0, 0)) == [hole, b, c]
      && Woken([hole, b, c], {}) == multiset{1}
  {
    var a, b, c, hole := Slot(1, 0, path, false), Slot(1, 1, path, true), Slot(2, 2, path, false), SocketLocks(1, None, []);
    assert TrimReleased(a.locks[..0]) == [];
    assert [a, b, c][0 := hole] == [hole, b, c];
    assert b.locks[0].waiting;
    assert WokenBy(hole, {}) == multiset{} && WokenBy(b, {}) == multiset{1} && WokenBy(c, {}) == multiset{};
    WokenByThree(hole, b, c);
    hide *;
  }

  lemma WokenByThree(a: SocketLocks, b: SocketLocks, c: SocketLocks)
    ensures Woken([a, b, c], {}) == WokenBy(a, {}) + WokenBy(b, {}) + WokenBy(c, {})
  {
    hide WokenBy;
    assert [a, b, c][..2] == [a, b] && [a, b][..1] == [a] && [a][..0] == [];
    assert Woken([a], {}) == multiset{} + WokenBy(a, {});
    assert Woken([a, b], {}) == Woken([a], {}) + WokenBy(b, {});
  }

  lemma NobodyObtains(path: ServerPath)
    ensures
      var t := [SocketLocks(1, None, []), Slot(1, 1, path, true), Slot(2, 2, path, false)];
      ObtainTable(t, 1) == t
  {
    var hole, b, c := SocketLocks(1, None, []), Slot(1, 1, path, true), Slot(2, 2, path, false);
    var t := [hole, b, c];
    SlotsOf(hole, b, c, 1);
    assert HeldAt(t, 2, 0) && Clash(c.locks[0], b.locks[0]);
    assert Blocked(t, 1, None, b.locks[0]);
    hide Blocked, SlotOf, Clash;
    assert Obtained(t, 1) == b.locks;
    assert t[1 := b] == t;
  }

  lemma RunsOn(w: World, step: Step, rest: seq<Step>, w': World)
    requires Enabled(w, step) && Runs(Next(w, step), rest, w')
    ensures Runs(w, [step] + rest, w')
  {
    assert ([step] + rest)[1..] == rest;
    hide Enabled, Next;
  }

  lemma NothingToRun(w: World)
    ensures Runs(w, [], w)
  {
  }

  /** The worlds that the steps of `TwoServers` lead through. */
  function WorldAfter(path: ServerPath, n: nat): World {
    var a, b, c, hole := Slot(1, 0, path, false), Slot(1, 1, path, true), Slot(2, 2, path, false), SocketLocks(1, None, []);
    if n == 0 then EMPTY
    else if n == 1 then World(State([a], multiset{}, {}), {Address(0, 0)})
    else if n == 2 then World(State([a, b], multiset{}, {}), {Address(0, 0), Address(1, 0)})
    else if n == 3 then World(State([a, b, c], multiset{}, {}), {Address(0, 0), Address(1, 0), Address(2, 0)})
    else if n == 4 then World(State([hole, b, c], multiset{1}, {}), {Address(1, 0), Address(2, 0)})
    else World(State([hole, b, c], multiset{}, {}), {Address(1, 0), Address(2, 0)})
  }

  lemma LockLeadsOn(path: ServerPath, n: nat)
    requires n < 3
    ensures Enabled(WorldAfter(path, n), TwoServers(path)[n])
    ensures Next(WorldAfter(path, n), TwoServers(path)[n]) == WorldAfter(path, n + 1)
  {
    var a, b, c := Slot(1, 0, path, false), Slot(1, 1, path, true), Slot(2, 2, path, false);
    hide LockTable, SlotOf;
    TheyLock(path);
    SlotsOf(a, b, c, n);
    assert TwoServers(path)[n].DoLock? && TwoServers(path)[n].socket == n;
    hide Slot, UnlockTable, UnlockState, ObtainTable, DeliverState, Woken, Blocked;
  }

  lemma StepLeadsOn(path: ServerPath, n: nat)
    requires n < 5
    ensures Enabled(WorldAfter(path, n), TwoServers(path)[n])
    ensures Next(WorldAfter(path, n), TwoServers(path)[n]) == WorldAfter(path, n + 1)
  {
    hide LockTable, UnlockTable, ObtainTable, Woken, SlotOf, Blocked;
    if n < 3 {
      hide Next, Enabled, WorldAfter, TwoServers;
      LockLeadsOn(path, n);
    } else if n == 3 {
      OneUnlocks(path);
    } else {
      NobodyObtains(path);
    }
  }

  lemma {:induction false} StepsLeadOn(path: ServerPath, n: nat)
    requires n <= 5
    ensures Runs(WorldAfter(path, n), TwoServers(path)[n..], WorldAfter(path, 5))
    decreases 5 - n
  {
    var steps := TwoServers(path);
    assert |steps| == 5;
    hide Next, Enabled, WorldAfter, TwoServers, Runs;
    if n == 5 {
      NothingToRun(WorldAfter(path, 5));
      assert steps[5..] == [];
    } else {
      StepLeadsOn(path, n);
      StepsLeadOn(path, n + 1);
      RunsOn(WorldAfter(path, n), steps[n], steps[n + 1..], WorldAfter(path, 5));
      assert [steps[n]] + steps[n + 1..] == steps[n..];
    }
  }

  /**
   Taking a lock compares servers, obtaining a waiting one does not.  Here sockets 0 and 1 of server 1 and socket 2
   of server 2 want the same path; when socket 0 gives it up, the lock of socket 1 goes on waiting although
   nothing is held on its server, because socket 2 was let in meanwhile.
   */
  lemma WaitsForOtherServer(path: ServerPath) returns (w: World)
    ensures Runs(EMPTY, TwoServers(path), w) && w.s.events == multiset{} && w.s.closing == {}
    ensures WaitingAt(w.s.table, 1, 0)
    ensures forall k, l :: HeldAt(w.s.table, k, l) ==> w.s.table[k].server != w.s.table[1].server
  {
    w := WorldAfter(path, 5);
    assert WorldAfter(path, 0) == EMPTY;
    hide Runs;
    StepsLeadOn(path, 0);
    assert TwoServers(path)[0..] == TwoServers(path);
  }

  // ---- The mutable table and its handles ----

  lemma NobodyToWake(closing: set<Socket>)
    ensures Woken([], closing) == multiset{}
  {
  }

  lemma WokenUpTo(t: Table, closing: set<Socket>, k: nat)
    requires k < |t|
    ensures Woken(t[..k + 1], closing) == Woken(t[..k], closing) + WokenBy(t[k], closing)
  {
    assert t[..k + 1][..k] == t[..k];
  }

  lemma OwnSlotDoesNotBlock(t: Table, t': Table, i: nat, info: LockInfo)
    requires i < |t| == |t'| && forall k :: 0 <= k < |t| && k != i ==> t[k] == t'[k]
    ensures Blocked(t, i, None, info) <==> Blocked(t', i, None, info)
  {
    assert forall k, l :: k != i ==> (HeldAt(t, k, l) <==> HeldAt(t', k, l));
  }

  lemma EmptySlotBlocksNothing(t: Table, t': Table, i: int, server: Option<Server>, info: LockInfo)
    requires t <= t' && forall k :: |t| <= k < |t'| ==> t'[k].locks == []
    ensures Blocked(t, i, server, info) <==> Blocked(t', i, server, info)
  {
    assert forall k, l :: HeldAt(t, k, l) <==> HeldAt(t', k, l);
    assert forall k, l :: HeldAt(t, k, l) ==> t[k] == t'[k];
  }

  /** A movable handle; `mgr == null` is the empty handle. */
  class OpLock {
    var mgr: OpLockManager?
    var socket: nat
    var lock: nat

    constructor ()
      ensures mgr == null
    {
      mgr, socket, lock := null, 0, 0;
    }

    constructor At(mgr: OpLockManager, socket: nat, lock: nat)
      ensures this.mgr == mgr && this.socket == socket && this.lock == lock
    {
      this.mgr, this.socket, this.lock := mgr, socket, lock;
    }

    ghost function Where(): Address
      reads this
    {
      Address(socket, lock)
    }

    /** Either empty, or known to its manager as the owner of its address. */
    ghost predicate Valid()
      reads this, mgr, if mgr != null then mgr.owner.Values else {}
    {
      mgr != null ==> mgr.Valid() && mgr.Owns(this)
    }

    /** The destructor. */
    method Release()
      requires Valid()
      modifies this, mgr
      ensures mgr == null
      ensures old(mgr) != null ==>
        old(mgr).Valid() && old(mgr).owner == old(mgr.owner) - {old(Where())} &&
        old(mgr).Value() == UnlockState(old(mgr.Value()), old(Where()))
    {
      if mgr != null {
        mgr.Unlock(this);
      }
    }

    /** The part of a move that takes over the other's address. */
    method TakeOver(op: OpLock)
      requires mgr == null && op.Valid() && this != op
      modifies this, op, op.mgr
      ensures op.mgr == null && mgr == old(op.mgr) && (mgr != null ==> Where() == old(op.Where()))
      ensures mgr != null ==> mgr.Value() == old(op.mgr.Value())
      ensures Valid()
    {
      hide WorldInv;
      mgr, socket, lock := op.mgr, op.socket, op.lock;
      op.mgr := null;
      if mgr != null {
        assert mgr.owner[Where() := this].Keys == mgr.owner.Keys;
        mgr.owner := mgr.owner[Where() := this];
      }
    }

    /** Gives up what this handle owns, which no other handle notices. */
    method GiveUp(ghost op: OpLock)
      requires Valid() && op.Valid() && this != op
      modifies this, mgr
      ensures mgr == null && op.Valid() && op.mgr == old(op.mgr) && op.Where() == old(op.Where())
      ensures old(mgr) != null ==> old(mgr).Valid() && old(mgr).Value() == UnlockState(old(mgr.Value()), old(Where()))
    {
      hide WorldInv, UnlockState;
      if mgr != null {
        assert op.mgr == mgr ==> op.Where() != Where();
        assert op.mgr != null && op.mgr != mgr ==> this !in op.mgr.owner.Values;
        mgr.Unlock(this);
      }
    }

    /** Move assignment: what this handle owned is unlocked, and it takes over the other's address. */
    method MoveFrom(op: OpLock)
      requires Valid() && op.Valid()
      modifies this, op, mgr, op.mgr
      ensures this == op ==> mgr == old(mgr) && Where() == old(Where())
      ensures this != op ==> op.mgr == null && mgr == old(op.mgr) && (mgr != null ==> Where() == old(op.Where()))
      ensures this != op && old(mgr) != null ==> old(mgr).Value() == UnlockState(old(mgr.Value()), old(Where()))
      ensures this != op && mgr != null && mgr != old(mgr) ==> mgr.Value() == old(op.mgr.Value())
      ensures Valid() && op.Valid()
    {
      hide WorldInv, UnlockState;
      if this != op {
        GiveUp(op);
        TakeOver(op);
      }
    }
  }

  class OpLockManager {
    var socketLocks: Table
    /** Undelivered `CObtainLockEvent`s of the event loop, and the sockets it no longer delivers to. */
    var obtainEvents: multiset<Socket>
    var closing: set<Socket>
    /** Which handle holds which address. */
    ghost var owner: map<Address, OpLock>

    ghost function Value(): State
      reads this
    {
      State(socketLocks, obtainEvents, closing)
    }

    ghost predicate Owns(h: OpLock)
      reads this, h
    {
      h.mgr == this && h.Where() in owner && owner[h.Where()] == h
    }

    ghost function AsWorld(): World
      reads this
    {
      World(Value(), owner.Keys)
    }

    /** The invariant of all runs, with a bijection between the handles and the live addresses. */
    ghost predicate Valid()
      reads this, owner.Values
    {
      && WorldInv(AsWorld())
      && (forall a :: a in owner ==> owner[a].mgr == this && owner[a].Where() == a)
    }

    constructor ()
      ensures Valid() && Value() == EMPTY.s && owner == map[]
    {
      socketLocks, obtainEvents, closing, owner := [], multiset{}, {}, map[];
    }

    method GetOrCreate(socket: Socket, server: Server) returns (index: nat)
      modifies this`socketLocks
      ensures index == SlotOf(old(socketLocks), socket)
      ensures socketLocks == old(socketLocks) + if index < |old(socketLocks)| then [] else [SocketLocks(server, Some(socket), [])]
    {
      index := 0;
      while index < |socketLocks|
        invariant 0 <= index <= |socketLocks|
        invariant forall k :: 0 <= k < index ==> socketLocks[k].socket != Some(socket)
      {
        if socketLocks[index].socket == Some(socket) {
          return;
        }
        index := index + 1;
      }
      socketLocks := socketLocks + [SocketLocks(server, Some(socket), [])];
    }

    /** The conflict scan of `Lock` and of `ObtainWaiting`; the two differ only in the slots they skip. */
    method IsBlocked(index: nat, info: LockInfo, server: Option<Server>) returns (blocked: bool)
      requires index < |socketLocks|
      ensures blocked <==> Blocked(socketLocks, index, server, info)
    {
      blocked := false;
      var k := 0;
      while k < |socketLocks|
        invariant 0 <= k <= |socketLocks|
        invariant forall i, j ::
                    0 <= i < k && HeldAt(socketLocks, i, j) && i != index ==>
                      (server == None || server == Some(socketLocks[i].server)) ==> !Clash(socketLocks[i].locks[j], info)
      {
        if k != index && (server == None || server == Some(socketLocks[k].server)) {
          var l := 0;
          while l < |socketLocks[k].locks|
            invariant 0 <= l <= |socketLocks[k].locks|
            invariant forall j :: 0 <= j < l && HeldAt(socketLocks, k, j) ==> !Clash(socketLocks[k].locks[j], info)
          {
            var other := socketLocks[k].locks[l];
            if info.reason == other.reason && !other.waiting && !other.released {
              if other.path == info.path || (other.inclusive && IsParentOf(other.path, info.path)) {
                assert HeldAt(socketLocks, k, l) && Clash(socketLocks[k].locks[l], info);
                return true;
              }
              if info.inclusive && IsParentOf(info.path, other.path) {
                assert HeldAt(socketLocks, k, l) && Clash(socketLocks[k].locks[l], info);
                return true;
              }
            }
            l := l + 1;
          }
        }
        k := k + 1;
      }
    }

    /** The table part of `Lock`. */
    method AppendLock(socket: Socket, server: Server, reason: Reason, path: ServerPath, inclusive: bool) returns (index: nat, pos: nat)
      modifies this`socketLocks
      ensures socketLocks == LockTable(old(socketLocks), socket, server, reason, path, inclusive)
      ensures Address(index, pos) == LockAddress(old(socketLocks), socket)
    {
      ghost var t := socketLocks;
      index := GetOrCreate(socket, server);
      var info := LockInfo(path, reason, inclusive, false, false);
      var blocked := IsBlocked(index, info, Some(socketLocks[index].server));
      EmptySlotBlocksNothing(t, socketLocks, index, Some(socketLocks[index].server), info);
      pos := |socketLocks[index].locks|;
      info := info.(waiting := blocked);
      socketLocks := socketLocks[index := socketLocks[index].(locks := socketLocks[index].locks + [info])];
      if index < |t| {
        assert info == LockInfoFor(t, index, t[index].server, reason, path, inclusive);
      } else {
        assert info == LockInfoFor(t, index, server, reason, path, inclusive);
        assert [] + [info] == [info];
        assert socketLocks == t + [SocketLocks(server, Some(socket), [info])];
      }
    }

    method Lock(socket: Socket, server: Server, reason: Reason, path: ServerPath, inclusive: bool) returns (lock: OpLock)
      requires Valid()
      modifies this
      ensures fresh(lock) && Valid() && Owns(lock)
      ensures Value() == old(Value()).(table := LockTable(old(socketLocks), socket, server, reason, path, inclusive))
      ensures lock.Where() == LockAddress(old(socketLocks), socket) && lock.Where() !in old(owner)
      ensures owner == old(owner)[lock.Where() := lock]
    {
      hide WorldInv;
      hide LockTable;
      StepKeepsWorldInv(AsWorld(), DoLock(socket, server, reason, path, inclusive));
      var index, pos := AppendLock(socket, server, reason, path, inclusive);
      lock := new OpLock.At(this, index, pos);
      owner := owner[lock.Where() := lock];
      assert AsWorld() == Next(old(AsWorld()), DoLock(socket, server, reason, path, inclusive));
    }

    /** The table part of `Unlock`. */
    method RemoveLock(a: Address)
      requires InRange(socketLocks, a.socket, a.lock)
      modifies this`socketLocks
      ensures socketLocks == UnlockTable(old(socketLocks), a)
    {
      var sli := socketLocks[a.socket];
      if a.lock + 1 == |sli.locks| {
        var locks := PopReleased(sli.locks[..|sli.locks| - 1]);
        if locks == [] {
          if a.socket + 1 == |socketLocks| {
            socketLocks := PopHoles(socketLocks[..|socketLocks| - 1]);
          } else {
            socketLocks := socketLocks[a.socket := sli.(locks := locks, socket := None)];
          }
        } else {
          socketLocks := socketLocks[a.socket := sli.(locks := locks)];
        }
      } else {
        var released := sli.locks[a.lock].(waiting := false, released := true);
        socketLocks := socketLocks[a.socket := sli.(locks := sli.locks[a.lock := released])];
      }
    }

    method Unlock(lock: OpLock)
      requires Valid() && Owns(lock)
      modifies this, lock`mgr
      ensures lock.mgr == null && Valid()
      ensures Value() == UnlockState(old(Value()), lock.Where())
      ensures owner == old(owner) - {lock.Where()}
    {
      hide WorldInv;
      hide UnlockTable;
      ghost var a := lock.Where();
      StepKeepsWorldInv(AsWorld(), DoUnlock(a));
      assert lock.socket < |socketLocks|;
      assert lock.lock < |socketLocks[lock.socket].locks|;
      var wasWaiting := socketLocks[lock.socket].locks[lock.lock].waiting;
      RemoveLock(Address(lock.socket, lock.lock));
      lock.mgr := null;
      owner := owner - {a};
      if !wasWaiting {
        Wakeup();
      }
      assert AsWorld() == Next(old(AsWorld()), DoUnlock(a));
    }

    static method PopReleased(locks: seq<LockInfo>) returns (r: seq<LockInfo>)
      ensures r == TrimReleased(locks)
    {
      r := locks;
      while r != [] && r[|r| - 1].released
        invariant TrimReleased(r) == TrimReleased(locks)
      {
        r := r[..|r| - 1];
      }
    }

    static method PopHoles(t: Table) returns (r: Table)
      ensures r == TrimHoles(t)
    {
      r := t;
      while r != [] && r[|r| - 1].socket.None?
        invariant TrimHoles(r) == TrimHoles(t)
      {
        r := r[..|r| - 1];
      }
    }

    method Wakeup()
      requires forall k :: 0 <= k < |socketLocks| && socketLocks[k].locks != [] ==> socketLocks[k].socket.Some?
      modifies this`obtainEvents
      ensures obtainEvents == old(obtainEvents) + Woken(socketLocks, closing)
    {
      hide Woken;
      var k := 0;
      assert obtainEvents == old(obtainEvents) + Woken(socketLocks[..k], closing) by {
        NobodyToWake(closing);
      }
      while k < |socketLocks|
        invariant 0 <= k <= |socketLocks|
        invariant obtainEvents == old(obtainEvents) + Woken(socketLocks[..k], closing)
      {
        var sli := socketLocks[k];
        WokenUpTo(socketLocks, closing, k);
        var waits := AnyWaiting(sli.locks);
        if waits {
          var socket := sli.socket.value;
          if socket !in closing {
            obtainEvents := obtainEvents + multiset{socket};
          }
        }
        k := k + 1;
      }
      assert socketLocks[..k] == socketLocks;
    }

    static method AnyWaiting(locks: seq<LockInfo>) returns (r: bool)
      ensures r <==> exists j :: 0 <= j < |locks| && locks[j].waiting
    {
      var j := 0;
      while j < |locks|
        invariant 0 <= j <= |locks| && forall l :: 0 <= l < j ==> !locks[l].waiting
      {
        if locks[j].waiting {
          return true;
        }
        j := j + 1;
      }
      return false;
    }

    /** `ObtainWaiting` of a socket: every slot is scanned, and every waiting lock of its own slot retried. */
    method ObtainWaiting(socket: Socket) returns (obtained: bool)
      requires Valid()
      modifies this`socketLocks
      ensures socketLocks == ObtainTable(old(socketLocks), socket)
      ensures obtained <==> Obtains(old(socketLocks), socket)
    {
      ghost var t := socketLocks;
      ghost var own := SlotOf(t, socket);
      obtained := false;
      var k := 0;
      while k < |socketLocks|
        invariant 0 <= k <= |socketLocks|
        invariant socketLocks == if k <= own then t else ObtainTable(t, socket)
        invariant obtained <==> k > own && Obtains(t, socket)
      {
        if socketLocks[k].socket == Some(socket) {
          obtained := ObtainSlot(k);
        }
        k := k + 1;
      }
    }

    method ObtainSlot(k: nat) returns (obtained: bool)
      requires k < |socketLocks|
      modifies this`socketLocks
      ensures socketLocks == old(socketLocks)[k := old(socketLocks)[k].(locks := Obtained(old(socketLocks), k))]
      ensures obtained <==> ObtainsAny(old(socketLocks), k, |old(socketLocks)[k].locks|)
    {
      hide Blocked;
      ghost var t := socketLocks;
      obtained := false;
      var j := 0;
      while j < |socketLocks[k].locks|
        invariant |socketLocks| == |t| && |socketLocks[k].locks| == |t[k].locks| && 0 <= j <= |t[k].locks|
        invariant socketLocks == t[k := t[k].(locks := socketLocks[k].locks)]
        invariant forall l :: 0 <= l < j ==> socketLocks[k].locks[l] == Obtained(t, k)[l]
        invariant forall l :: j <= l < |t[k].locks| ==> socketLocks[k].locks[l] == t[k].locks[l]
        invariant obtained <==> ObtainsAny(t, k, j)
      {
        if socketLocks[k].locks[j].waiting {
          var blocked := IsBlocked(k, socketLocks[k].locks[j], None);
          OwnSlotDoesNotBlock(t, socketLocks, k, t[k].locks[j]);
          if !blocked {
            socketLocks := socketLocks[k := socketLocks[k].(locks := socketLocks[k].locks[j := socketLocks[k].locks[j].(waiting := false)])];
            obtained := true;
          }
        }
        j := j + 1;
      }
      assert socketLocks[k].locks == Obtained(t, k);
    }

    /** The event loop hands one obtain event to its socket; the result tells it to go on with its operation. */
    method OnObtainLock(socket: Socket) returns (proceed: bool)
      requires Valid() && socket in obtainEvents
      modifies this
      ensures Valid() && owner == old(owner)
      ensures Value() == DeliverState(old(Value()), socket)
      ensures proceed <==> Obtains(old(socketLocks), socket)
    {
      hide WorldInv;
      StepKeepsWorldInv(AsWorld(), DoDeliver(socket));
      proceed := ObtainWaiting(socket);
      obtainEvents := obtainEvents - multiset{socket};
      assert AsWorld() == Next(old(AsWorld()), DoDeliver(socket));
    }

    /** Destruction of a control socket starts by removing its handler: queued events are dropped. */
    method RemoveHandler(socket: Socket)
      requires Valid()
      modifies this
      ensures Valid() && owner == old(owner)
      ensures Value() == State(old(socketLocks), old(obtainEvents)[socket := 0], old(closing) + {socket})
    {
      obtainEvents, closing := obtainEvents[socket := 0], closing + {socket};
    }

    method WaitingLock(lock: OpLock) returns (r: bool)
      requires Valid() && Owns(lock)
      ensures r <==> WaitingAt(socketLocks, lock.socket, lock.lock)
    {
      assert lock.Where() in owner;
      r := socketLocks[lock.socket].locks[lock.lock].waiting;
    }

    method WaitingSocket(socket: Socket) returns (r: bool)
      ensures r <==> exists i, j :: WaitingAt(socketLocks, i, j) && socketLocks[i].socket == Some(socket)
    {
      var k := 0;
      while k < |socketLocks|
        invariant 0 <= k <= |socketLocks|
        invariant forall i, j :: 0 <= i < k && WaitingAt(socketLocks, i, j) ==> socketLocks[i].socket != Some(socket)
      {
        if socketLocks[k].socket == Some(socket) {
          var waits := AnyWaiting(socketLocks[k].locks);
          if waits {
            var l :| 0 <= l < |socketLocks[k].locks| && socketLocks[k].locks[l].waiting;
            assert WaitingAt(socketLocks, k, l);
            return true;
          }
        }
        k := k + 1;
      }
      return false;
    }
  }
}
