/**
 Account onboarding: six commands, each a sequence of writes to the key store and the
 database that may stop between any two of them.

 Keys, ids and devices are numbers; what the relay answers and what the generator draws
 come with the command. `Writes` says what a command would write, in order, if it were
 never stopped: its guards look at the state it starts from and, where the program reads
 again on the way, at the state its own earlier writes have left. A run is a list of
 commands, each with the number of writes after which it stops; a failing relay call is
 such a stop. `Device` performs the commands write by write.
 */
module Onboarding {
  import opened Wrappers

  // ----------------------------------------------------------------------
  // State
  // ----------------------------------------------------------------------

  /** What the key store holds for one account handle. */
  datatype Material = Material(device: Option<nat>, ark: Option<nat>, id: Option<nat>)

  datatype Flow = Create | Attach | Join

  /** The one relay binding of the database, pending until it is active. */
  datatype Binding = Binding(relay: string, handle: string, content: nat, device: nat, flow: Flow, active: bool)

  datatype Db = Db(account: Option<nat>, device: Option<nat>, server: Option<string>, binding: Option<Binding>, hasContent: bool)

  datatype State = State(store: map<string, Material>, sessions: set<(string, string)>, db: Db)

  function Held(s: State, handle: string): Material {
    if handle in s.store then s.store[handle] else Material(None, None, None)
  }

  function TrimSlash(relay: string): string {
    if relay != "" && relay[|relay| - 1] == '/' then TrimSlash(relay[..|relay| - 1]) else relay
  }

  datatype Write =
    | SaveDevice(handle: string, device: nat)
    | SaveArk(handle: string, ark: nat)
    | SaveId(handle: string, id: nat)
    | SaveSession(handle: string, relay: string)
    | Begin(binding: Binding)
    | Activate
    | SetIdentity(account: nat, device: nat, server: string)
    | SetContent(hasContent: bool)

  function Apply(s: State, w: Write): State {
    match w
    case SaveDevice(l, d) => s.(store := s.store[l := Held(s, l).(device := Some(d))])
    case SaveArk(l, a) => s.(store := s.store[l := Held(s, l).(ark := Some(a))])
    case SaveId(l, i) => s.(store := s.store[l := Held(s, l).(id := Some(i))])
    case SaveSession(l, r) => s.(sessions := s.sessions + {(l, TrimSlash(r))})
    case Begin(b) => s.(db := s.db.(binding := Some(b)))
    case Activate =>
      (match s.db.binding
       case None => s
       case Some(b) =>
         s.(db := s.db.(account := Some(b.content), device := Some(b.device), server := Some(b.relay),
                        binding := Some(b.(active := true)))))
    case SetIdentity(account, device, server) =>
      s.(db := s.db.(account := Some(account), device := Some(device), server := Some(server)))
    case SetContent(h) => s.(db := s.db.(hasContent := h))
  }

  function ApplyAll(s: State, writes: seq<Write>): State {
    if writes == [] then s else Apply(ApplyAll(s, writes[..|writes| - 1]), writes[|writes| - 1])
  }

  // ----------------------------------------------------------------------
  // Guards
  // ----------------------------------------------------------------------

  datatype Local = Local(hasDeviceKeys: bool, hasArk: bool, hasId: bool, isSyncBound: bool, hasContent: bool)

  datatype Block = AlreadyHasAccount | NeedsExplicitConfirmation | MissingKeys | ExistingLibrary

  function GuardCreateNew(l: Local, confirm: bool): Option<Block> {
    if l.hasArk || l.isSyncBound then Some(AlreadyHasAccount)
    else if l.hasContent && !confirm then Some(NeedsExplicitConfirmation)
    else None
  }

  function GuardAttachExisting(l: Local): Option<Block> {
    if !l.hasArk || !l.hasDeviceKeys then Some(MissingKeys) else None
  }

  function GuardJoinNewDevice(l: Local, matching: bool): Option<Block> {
    if l.hasContent || (l.hasArk && !matching) || l.isSyncBound || (l.hasId && !matching) then Some(ExistingLibrary)
    else None
  }

  function LocalState(s: State, handle: string, bound: bool): Local {
    var held := Held(s, handle);
    Local(held.device.Some?, held.ark.Some?, held.id.Some?, bound, s.db.hasContent)
  }

  predicate Differs<T(==)>(o: Option<T>, v: T) { o.Some? && o.value != v }

  /** A join of `handle` with this relay has begun and is not finished. */
  predicate PendingJoin(db: Db, server: string, handle: string) {
    && db.binding.Some? && db.binding.value.flow.Join? && !db.binding.value.active
    && db.binding.value.handle == handle && db.binding.value.relay == TrimSlash(server)
  }

  predicate PendingJoinFor(db: Db, server: string, handle: string, account: nat) {
    PendingJoin(db, server, handle) && db.binding.value.content == account
  }

  predicate GuardCliJoin(s: State, handle: string, server: string, account: nat) {
    var matching := PendingJoinFor(s.db, server, handle, account);
    && !Differs(Held(s, handle).id, account)
    && !Differs(s.db.account, account)
    && GuardJoinNewDevice(LocalState(s, handle, s.db.server.Some? && !matching), matching).None?
  }

  /** Recording an intent never overwrites an established identity or another intent. */
  predicate BeginAllowed(db: Db, b: Binding) {
    && !Differs(db.account, b.content) && !Differs(db.device, b.device)
    && (db.server.Some? ==> TrimSlash(db.server.value) == b.relay)
    && (db.binding.Some? ==>
          var was := db.binding.value;
          && was.relay == b.relay && was.handle == b.handle && was.content == b.content && was.device == b.device
          && (was.active || was.flow == b.flow))
  }

  function BeginWrites(db: Db, b: Binding): seq<Write> {
    if db.binding.None? then [Begin(b)] else []
  }

  predicate ActivateAllowed(db: Db) {
    && db.binding.Some? && !Differs(db.account, db.binding.value.content) && !Differs(db.device, db.binding.value.device)
  }

  // ----------------------------------------------------------------------
  // Commands
  // ----------------------------------------------------------------------

  datatype Command =
    | Bootstrap(server: string, handle: string, confirm: bool, identity: bool, newDevice: nat, newArk: nat, newId: nat)
    | AttachExisting(server: string, handle: string, newId: nat)
    | Login(server: string, handle: string, join: bool, newDevice: nat, content: nat)
    | Enroll(server: string, handle: string, account: nat, newDevice: nat)
    | Accept(via: Option<string>, handle: string, requested: Option<nat>, bundleArk: nat, bundleId: nat)
    | Recover(server: string, handle: string, account: nat, recovered: nat, newDevice: nat)
    | EditLibrary(hasContent: bool)

  function EnsureDevice(s: State, handle: string, drawn: nat): seq<Write> {
    if Held(s, handle).device.Some? then [] else [SaveDevice(handle, drawn)]
  }

  function DeviceOf(s: State, handle: string, drawn: nat): nat {
    if Held(s, handle).device.Some? then Held(s, handle).device.value else drawn
  }

  function MissingArk(s: State, handle: string, drawn: nat): seq<Write> {
    if Held(s, handle).ark.Some? then [] else [SaveArk(handle, drawn)]
  }

  function MissingId(s: State, handle: string, id: nat): seq<Write> {
    if Held(s, handle).id.Some? then [] else [SaveId(handle, id)]
  }

  function SessionWrites(server: string, handle: string, activate: bool): seq<Write> {
    [SaveSession(handle, server)] + if activate then [Activate] else []
  }

  /** What a joining device adopts at login. */
  function AdoptWrites(handle: string, join: bool, device: nat, content: nat): seq<Write> {
    if join then [SaveDevice(handle, device), SaveId(handle, content)] else []
  }

  /** Adopting a pending binding once the identity is set. */
  function FinishWrites(s: State, server: string, handle: string): seq<Write> {
    if s.db.binding.None? || s.db.binding.value.active then []
    else if s.db.binding.value.handle != handle || s.db.binding.value.relay != TrimSlash(server) then []
    else if (handle, TrimSlash(server)) !in s.sessions then []
    else if !ActivateAllowed(s.db) then []
    else [Activate]
  }

  function AttachId(s: State, handle: string, newId: nat): nat {
    if Held(s, handle).id.Some? then Held(s, handle).id.value
    else if s.db.account.Some? then s.db.account.value
    else newId
  }

  predicate AttachAllowed(s: State, server: string, handle: string, flow: Flow, newId: nat) {
    var held := Held(s, handle);
    && held.device.Some?
    && GuardAttachExisting(LocalState(s, handle, false)).None?
    && !(held.id.None? && s.db.account.None? && ((handle, TrimSlash(server)) in s.sessions || s.db.binding.Some?))
    && BeginAllowed(s.db, Binding(TrimSlash(server), handle, AttachId(s, handle, newId), held.device.value, flow, false))
  }

  function AttachWrites(s: State, server: string, handle: string, flow: Flow, newId: nat): seq<Write> {
    if !AttachAllowed(s, server, handle, flow, newId) then []
    else
      var held, id := Held(s, handle), AttachId(s, handle, newId);
      BeginWrites(s.db, Binding(TrimSlash(server), handle, id, held.device.value, flow, false))
      + MissingId(s, handle, id)
      + SessionWrites(server, handle, !flow.Create?)
  }

  predicate PendingCreationKeys(s: State, b: Binding) {
    var held := Held(s, b.handle);
    held.device == Some(b.device) && held.id == Some(b.content) && held.ark.Some?
  }

  predicate Resumes(s: State, server: string, handle: string, identity: bool) {
    && s.db.binding.Some? && !s.db.binding.value.active && s.db.binding.value.flow.Create?
    && s.db.binding.value.handle == handle && s.db.binding.value.relay == TrimSlash(server) && identity
  }

  predicate BootstrapAllowed(s: State, server: string, handle: string, confirm: bool, identity: bool) {
    if Resumes(s, server, handle, identity) then PendingCreationKeys(s, s.db.binding.value)
    else GuardCreateNew(LocalState(s, handle, s.db.server.Some? || s.db.account.Some?), confirm).None?
  }

  function BootstrapLocal(s: State, handle: string, newDevice: nat, newArk: nat, newId: nat): seq<Write> {
    EnsureDevice(s, handle, newDevice) + MissingArk(s, handle, newArk) + MissingId(s, handle, newId)
  }

  /** The identity is set and a pending binding adopted. */
  function BindWrites(s: State, server: string, handle: string, account: nat, device: nat): seq<Write> {
    var first := [SetIdentity(account, device, server)];
    first + FinishWrites(ApplyAll(s, first), server, handle)
  }

  predicate RenewalAllowed(s: State, server: string, handle: string) {
    var held := Held(s, handle);
    && held.id.Some? && held.device.Some? && s.db.binding.Some?
    && (var b := s.db.binding.value;
        && b.relay == TrimSlash(server) && b.handle == handle && b.content == held.id.value && b.device == held.device.value
        && (b.active || b.flow.Attach?)
        && !Differs(s.db.account, held.id.value) && !Differs(s.db.device, held.device.value)
        && (s.db.server.Some? ==> TrimSlash(s.db.server.value) == b.relay))
  }

  predicate LoginAllowed(s: State, server: string, handle: string, join: bool, newDevice: nat, content: nat) {
    var held := Held(s, handle);
    var pending := PendingJoin(s.db, server, handle);
    && (pending ==> held.device == Some(s.db.binding.value.device) && held.id == Some(s.db.binding.value.content))
    && (if join then GuardJoinNewDevice(LocalState(s, handle, s.db.server.Some?), pending).None?
        else held.ark.Some? && RenewalAllowed(s, server, handle))
    && !Differs(held.id, content)
    && BeginAllowed(s.db, LoginBinding(s, server, handle, join, newDevice, content))
  }

  function LoginBinding(s: State, server: string, handle: string, join: bool, newDevice: nat, content: nat): Binding {
    Binding(TrimSlash(server), handle, content, DeviceOf(s, handle, newDevice), if join then Join else Attach, false)
  }

  function LoginWrites(s: State, server: string, handle: string, join: bool, newDevice: nat, content: nat): seq<Write> {
    if !LoginAllowed(s, server, handle, join, newDevice, content) then []
    else
      BeginWrites(s.db, LoginBinding(s, server, handle, join, newDevice, content))
      + AdoptWrites(handle, join, DeviceOf(s, handle, newDevice), content)
      + SessionWrites(server, handle, !join)
  }

  predicate EnrollAllowed(s: State, server: string, handle: string, account: nat) {
    var matching := PendingJoinFor(s.db, server, handle, account);
    && GuardJoinNewDevice(LocalState(s, handle, s.db.server.Some?), matching).None?
    && (Held(s, handle).device.Some? ==> matching)
  }

  /** The relay and account an accept is for. */
  function AcceptServer(s: State, server: Option<string>): Option<string> {
    if server.Some? then server else s.db.server
  }

  function AcceptAccount(s: State, handle: string, requested: Option<nat>): Option<nat> {
    if requested.Some? then requested else Held(s, handle).id
  }

  predicate AcceptAllowed(s: State, server: Option<string>, handle: string, requested: Option<nat>, bundleArk: nat) {
    var account, relay := AcceptAccount(s, handle, requested), AcceptServer(s, server);
    && Held(s, handle).device.Some? && account.Some? && relay.Some?
    && GuardCliJoin(s, handle, relay.value, account.value)
    && !Differs(Held(s, handle).ark, bundleArk)
  }

  function EnrollWrites(s: State, server: string, handle: string, account: nat, newDevice: nat): seq<Write> {
    if EnrollAllowed(s, server, handle, account) then EnsureDevice(s, handle, newDevice) + [SaveId(handle, account)] else []
  }

  function AcceptWrites(
    s: State, via: Option<string>, handle: string, requested: Option<nat>, bundleArk: nat, bundleId: nat): seq<Write> {
    if !AcceptAllowed(s, via, handle, requested, bundleArk) then []
    else
      var keys := [SaveArk(handle, bundleArk), SaveId(handle, bundleId)];
      keys + BindWrites(ApplyAll(s, keys), AcceptServer(s, via).value, handle, bundleId, Held(s, handle).device.value)
  }

  predicate RecoverAllowed(s: State, server: string, handle: string, account: nat, recovered: nat) {
    GuardCliJoin(s, handle, server, account) && !Differs(Held(s, handle).ark, recovered)
  }

  function RecoverWrites(s: State, server: string, handle: string, account: nat, recovered: nat, newDevice: nat): seq<Write> {
    if !RecoverAllowed(s, server, handle, account, recovered) then []
    else
      var keys := EnsureDevice(s, handle, newDevice) + [SaveArk(handle, recovered), SaveId(handle, account)];
      keys + BindWrites(ApplyAll(s, keys), server, handle, account, DeviceOf(s, handle, newDevice))
  }

  function IdOf(s: State, handle: string, drawn: nat): nat {
    if Held(s, handle).id.Some? then Held(s, handle).id.value else drawn
  }

  /** The part of bootstrap after the local keys are there. */
  function PublishWrites(s: State, server: string, handle: string, identity: bool, id: nat, device: nat): seq<Write> {
    if !identity then BindWrites(s, server, handle, id, device)
    else if !AttachAllowed(s, server, handle, Create, id) then []
    else
      var attach := AttachWrites(s, server, handle, Create, id);
      attach + BindWrites(ApplyAll(s, attach), server, handle, id, device)
  }

  function BootstrapWrites(
    s: State, server: string, handle: string, confirm: bool, identity: bool, newDevice: nat, newArk: nat, newId: nat): seq<Write> {
    if !BootstrapAllowed(s, server, handle, confirm, identity) then []
    else
      var local := BootstrapLocal(s, handle, newDevice, newArk, newId);
      local + PublishWrites(ApplyAll(s, local), server, handle, identity, IdOf(s, handle, newId), DeviceOf(s, handle, newDevice))
  }

  /** The writes of a command that is not stopped, in order; none when a guard refuses. */
  function Writes(s: State, c: Command): seq<Write> {
    match c
    case Bootstrap(server, handle, confirm, identity, newDevice, newArk, newId) =>
      BootstrapWrites(s, server, handle, confirm, identity, newDevice, newArk, newId)
    case AttachExisting(server, handle, newId) => AttachWrites(s, server, handle, Attach, newId)
    case Login(server, handle, join, newDevice, content) => LoginWrites(s, server, handle, join, newDevice, content)
    case Enroll(server, handle, account, newDevice) => EnrollWrites(s, server, handle, account, newDevice)
    case Accept(via, handle, requested, bundleArk, bundleId) => AcceptWrites(s, via, handle, requested, bundleArk, bundleId)
    case Recover(server, handle, account, recovered, newDevice) =>
      RecoverWrites(s, server, handle, account, recovered, newDevice)
    case EditLibrary(h) => [SetContent(h)]
  }

  function Prefix(writes: seq<Write>, n: nat): seq<Write> { if n < |writes| then writes[..n] else writes }

  /** A command together with the number of writes after which it stops. */
  datatype Attempt = Attempt(command: Command, writes: nat)

  function After(s: State, a: Attempt): State { ApplyAll(s, Prefix(Writes(s, a.command), a.writes)) }

  function Run(s: State, attempts: seq<Attempt>): State {
    if attempts == [] then s
    else After(Run(s, attempts[..|attempts| - 1]), attempts[|attempts| - 1])
  }

  // ----------------------------------------------------------------------
  // The commands, write by write
  // ----------------------------------------------------------------------

  /** From `s`, with `n` writes left before the stop, the writes `ws` lead to `t` with `m`
      left; `ran` tells whether they were all made. */
  ghost predicate Does(s: State, n: nat, ws: seq<Write>, t: State, m: int, ran: bool) {
    t == ApplyAll(s, Prefix(ws, n)) && m == n - |Prefix(ws, n)| && (ran <==> |ws| <= n)
  }

  lemma {:induction false} ApplyConcat(s: State, a: seq<Write>, b: seq<Write>)
    ensures ApplyAll(s, a + b) == ApplyAll(ApplyAll(s, a), b)
  {
    if b == [] {
      assert a + b == a;
    } else {
      var front := b[..|b| - 1];
      assert (a + b)[..|a + b| - 1] == a + front;
      ApplyConcat(s, a, front);
    }
  }

  lemma DoesThen(s: State, n: nat, a: seq<Write>, t: State, m: nat, b: seq<Write>, u: State, k: nat, ran: bool)
    requires Does(s, n, a, t, m, true) && Does(t, m, b, u, k, ran)
    ensures Does(s, n, a + b, u, k, ran)
  {
    ApplyConcat(s, a, Prefix(b, m));
    assert Prefix(a + b, n) == a + Prefix(b, m);
  }

  lemma DoesStop(s: State, n: nat, a: seq<Write>, t: State, m: nat, b: seq<Write>)
    requires Does(s, n, a, t, m, false)
    ensures Does(s, n, a + b, t, m, false)
  {
    assert Prefix(a + b, n) == Prefix(a, n);
  }

  lemma {:induction false} MissingUntouched(s: State, handle: string, writes: seq<Write>)
    ensures (forall w <- writes :: !w.SaveArk?) ==> Held(ApplyAll(s, writes), handle).ark == Held(s, handle).ark
    ensures (forall w <- writes :: !w.SaveId?) ==> Held(ApplyAll(s, writes), handle).id == Held(s, handle).id
  {
    if writes != [] {
      var front, last := writes[..|writes| - 1], writes[|writes| - 1];
      assert writes == front + [last];
      MissingUntouched(s, handle, front);
    }
  }

  /** A device whose process is stopped after `budget` more writes. */
  class Device {
    var state: State
    var budget: nat

    method Perform(w: Write) returns (ran: bool)
      modifies this
      ensures Does(old(state), old(budget), [w], state, budget, ran)
      ensures ran ==> state == Apply(old(state), w)
    {
      assert [w][..0] == [];
      if budget == 0 { return false; }
      state := Apply(state, w);
      budget := budget - 1;
      ran := true;
    }

    method EnsureDeviceKeys(handle: string, drawn: nat) returns (ran: bool)
      modifies this
      ensures Does(old(state), old(budget), EnsureDevice(old(state), handle, drawn), state, budget, ran)
    {
      if Held(state, handle).device.Some? { return true; }
      ran := Perform(SaveDevice(handle, drawn));
    }

    method FinishLocalAdoption(server: string, handle: string) returns (ran: bool)
      modifies this
      ensures Does(old(state), old(budget), FinishWrites(old(state), server, handle), state, budget, ran)
    {
      if state.db.binding.None? { return true; }
      var intent := state.db.binding.value;
      if intent.active { return true; }
      if intent.handle != handle || intent.relay != TrimSlash(server) { return true; }
      if (handle, TrimSlash(server)) !in state.sessions { return true; }
      if !ActivateAllowed(state.db) { return true; }
      ran := Perform(Activate);
    }

    method SetSyncIdentity(server: string, handle: string, account: nat, device: nat) returns (ran: bool)
      modifies this
      ensures Does(old(state), old(budget), BindWrites(old(state), server, handle, account, device), state, budget, ran)
    {
      ghost var s, n := state, budget;
      ghost var identity := [SetIdentity(account, device, server)];
      AppliedOnce(s, identity[0]);
      ghost var finish := FinishWrites(ApplyAll(s, identity), server, handle);
      ran := Perform(SetIdentity(account, device, server));
      if !ran {
        DoesStop(s, n, identity, state, budget, finish);
        return;
      }
      ghost var t, m := state, budget;
      ran := FinishLocalAdoption(server, handle);
      DoesThen(s, n, identity, t, m, finish, state, budget, ran);
    }

    method Enroll(server: string, handle: string, account: nat, newDevice: nat) returns (ran: bool)
      modifies this
      ensures Does(old(state), old(budget), EnrollWrites(old(state), server, handle, account, newDevice), state, budget, ran)
    {
      ghost var s, n := state, budget;
      if !EnrollAllowed(state, server, handle, account) { return true; }
      ghost var device, id := EnsureDevice(s, handle, newDevice), [SaveId(handle, account)];
      ran := EnsureDeviceKeys(handle, newDevice);
      if !ran {
        DoesStop(s, n, device, state, budget, id);
        return;
      }
      ghost var t, m := state, budget;
      ran := Perform(SaveId(handle, account));
      DoesThen(s, n, device, t, m, id, state, budget, ran);
    }

    /** Two writes in a row. */
    method SaveKeys(handle: string, ark: nat, id: nat) returns (ran: bool)
      modifies this
      ensures Does(old(state), old(budget), [SaveArk(handle, ark), SaveId(handle, id)], state, budget, ran)
    {
      ghost var s, n := state, budget;
      ghost var first, second := [SaveArk(handle, ark)], [SaveId(handle, id)];
      assert first + second == [SaveArk(handle, ark), SaveId(handle, id)];
      ran := Perform(SaveArk(handle, ark));
      if !ran {
        DoesStop(s, n, first, state, budget, second);
        return;
      }
      ghost var t, m := state, budget;
      ran := Perform(SaveId(handle, id));
      DoesThen(s, n, first, t, m, second, state, budget, ran);
    }

    method Accept(via: Option<string>, handle: string, requested: Option<nat>, bundleArk: nat, bundleId: nat) returns (ran: bool)
      modifies this
      ensures Does(old(state), old(budget), AcceptWrites(old(state), via, handle, requested, bundleArk, bundleId),
                   state, budget, ran)
    {
      ghost var s, n := state, budget;
      if !AcceptAllowed(state, via, handle, requested, bundleArk) { return true; }
      var device, server := Held(state, handle).device.value, AcceptServer(state, via).value;
      ghost var keys := [SaveArk(handle, bundleArk), SaveId(handle, bundleId)];
      ghost var bind := BindWrites(ApplyAll(s, keys), server, handle, bundleId, device);
      ran := SaveKeys(handle, bundleArk, bundleId);
      if !ran {
        DoesStop(s, n, keys, state, budget, bind);
        return;
      }
      ghost var t, m := state, budget;
      ran := SetSyncIdentity(server, handle, bundleId, device);
      DoesThen(s, n, keys, t, m, bind, state, budget, ran);
    }

    method Recover(server: string, handle: string, account: nat, recovered: nat, newDevice: nat) returns (ran: bool)
      modifies this
      ensures Does(old(state), old(budget), RecoverWrites(old(state), server, handle, account, recovered, newDevice),
                   state, budget, ran)
    {
      ghost var s, n := state, budget;
      if !RecoverAllowed(state, server, handle, account, recovered) { return true; }
      var device := DeviceOf(state, handle, newDevice);
      ghost var ensured, saved := EnsureDevice(s, handle, newDevice), [SaveArk(handle, recovered), SaveId(handle, account)];
      ghost var keys := ensured + saved;
      ghost var bind := BindWrites(ApplyAll(s, keys), server, handle, account, device);
      ran := EnsureDeviceKeys(handle, newDevice);
      if !ran {
        DoesStop(s, n, ensured, state, budget, saved);
        DoesStop(s, n, keys, state, budget, bind);
        return;
      }
      ghost var t, m := state, budget;
      ran := SaveKeys(handle, recovered, account);
      DoesThen(s, n, ensured, t, m, saved, state, budget, ran);
      if !ran {
        DoesStop(s, n, keys, state, budget, bind);
        return;
      }
      ghost var u, k := state, budget;
      ran := SetSyncIdentity(server, handle, account, device);
      DoesThen(s, n, keys, u, k, bind, state, budget, ran);
    }

    method BeginBinding(b: Binding) returns (ran: bool)
      modifies this
      ensures Does(old(state), old(budget), BeginWrites(old(state.db), b), state, budget, ran)
      ensures state.store == old(state.store)
    {
      if state.db.binding.Some? { return true; }
      ran := Perform(Begin(b));
      assert [Begin(b)][..0] == [];
    }

    method SaveMissingId(handle: string, id: nat) returns (ran: bool)
      modifies this
      ensures Does(old(state), old(budget), MissingId(old(state), handle, id), state, budget, ran)
    {
      if Held(state, handle).id.Some? { return true; }
      ran := Perform(SaveId(handle, id));
    }

    /** The session, and the activation unless the flow finishes later. */
    method SaveRelaySession(server: string, handle: string, activate: bool) returns (ran: bool)
      modifies this
      ensures Does(old(state), old(budget), SessionWrites(server, handle, activate), state, budget, ran)
    {
      ghost var s, n := state, budget;
      ghost var session, rest := [SaveSession(handle, server)], if activate then [Activate] else [];
      ran := Perform(SaveSession(handle, server));
      if !ran {
        DoesStop(s, n, session, state, budget, rest);
        return;
      }
      ghost var t, m := state, budget;
      if activate { ran := Perform(Activate); }
      DoesThen(s, n, session, t, m, rest, state, budget, ran);
    }

    method AuthenticatedAttach(server: string, handle: string, flow: Flow, newId: nat) returns (ran: bool)
      modifies this
      ensures Does(old(state), old(budget), AttachWrites(old(state), server, handle, flow, newId), state, budget, ran)
    {
      ghost var s, n := state, budget;
      if !AttachAllowed(state, server, handle, flow, newId) { return true; }
      var id := AttachId(state, handle, newId);
      var b := Binding(TrimSlash(server), handle, id, Held(state, handle).device.value, flow, false);
      ghost var begin, missing, rest := BeginWrites(s.db, b), MissingId(s, handle, id), SessionWrites(server, handle, !flow.Create?);
      ran := BeginBinding(b);
      if !ran {
        DoesStop(s, n, begin, state, budget, missing);
        DoesStop(s, n, begin + missing, state, budget, rest);
        return;
      }
      ghost var t, m := state, budget;
      ran := SaveMissingId(handle, id);
      DoesThen(s, n, begin, t, m, missing, state, budget, ran);
      if !ran {
        DoesStop(s, n, begin + missing, state, budget, rest);
        return;
      }
      ghost var u, k := state, budget;
      ran := SaveRelaySession(server, handle, !flow.Create?);
      DoesThen(s, n, begin + missing, u, k, rest, state, budget, ran);
    }

    method Login(server: string, handle: string, join: bool, newDevice: nat, content: nat) returns (ran: bool)
      modifies this
      ensures Does(old(state), old(budget), LoginWrites(old(state), server, handle, join, newDevice, content), state, budget, ran)
    {
      ghost var s, n := state, budget;
      if !LoginAllowed(state, server, handle, join, newDevice, content) { return true; }
      var device, b := DeviceOf(state, handle, newDevice), LoginBinding(state, server, handle, join, newDevice, content);
      ghost var begin, adopt, rest := BeginWrites(s.db, b), AdoptWrites(handle, join, device, content), SessionWrites(server, handle, !join);
      ran := BeginBinding(b);
      if !ran {
        DoesStop(s, n, begin, state, budget, adopt);
        DoesStop(s, n, begin + adopt, state, budget, rest);
        return;
      }
      ghost var t, m := state, budget;
      if join { ran := SaveIdentity(handle, device, content); }
      DoesThen(s, n, begin, t, m, adopt, state, budget, ran);
      if !ran {
        DoesStop(s, n, begin + adopt, state, budget, rest);
        return;
      }
      ghost var u, k := state, budget;
      ran := SaveRelaySession(server, handle, !join);
      DoesThen(s, n, begin + adopt, u, k, rest, state, budget, ran);
    }

    method SaveIdentity(handle: string, device: nat, content: nat) returns (ran: bool)
      modifies this
      ensures Does(old(state), old(budget), AdoptWrites(handle, true, device, content), state, budget, ran)
    {
      ghost var s, n := state, budget;
      ghost var first, second := [SaveDevice(handle, device)], [SaveId(handle, content)];
      assert first + second == AdoptWrites(handle, true, device, content);
      ran := Perform(SaveDevice(handle, device));
      if !ran {
        DoesStop(s, n, first, state, budget, second);
        return;
      }
      ghost var t, m := state, budget;
      ran := Perform(SaveId(handle, content));
      DoesThen(s, n, first, t, m, second, state, budget, ran);
    }

    method CreateMissing(handle: string, newDevice: nat, newArk: nat, newId: nat) returns (ran: bool)
      modifies this
      ensures Does(old(state), old(budget), BootstrapLocal(old(state), handle, newDevice, newArk, newId), state, budget, ran)
    {
      ghost var s, n := state, budget;
      ghost var device, ark, id := EnsureDevice(s, handle, newDevice), MissingArk(s, handle, newArk), MissingId(s, handle, newId);
      ran := EnsureDeviceKeys(handle, newDevice);
      if !ran {
        DoesStop(s, n, device, state, budget, ark);
        DoesStop(s, n, device + ark, state, budget, id);
        return;
      }
      ghost var t, m := state, budget;
      MissingUntouched(s, handle, device);
      if Held(state, handle).ark.None? { ran := Perform(SaveArk(handle, newArk)); }
      DoesThen(s, n, device, t, m, ark, state, budget, ran);
      if !ran {
        DoesStop(s, n, device + ark, state, budget, id);
        return;
      }
      ghost var u, k := state, budget;
      MissingUntouched(s, handle, device + ark);
      ran := SaveMissingId(handle, newId);
      DoesThen(s, n, device + ark, u, k, id, state, budget, ran);
    }

    method Publish(server: string, handle: string, identity: bool, id: nat, device: nat) returns (ran: bool)
      modifies this
      ensures Does(old(state), old(budget), PublishWrites(old(state), server, handle, identity, id, device), state, budget, ran)
    {
      ghost var s, n := state, budget;
      if identity {
        if !AttachAllowed(state, server, handle, Create, id) { return true; }
        ghost var attach := AttachWrites(s, server, handle, Create, id);
        ghost var bind := BindWrites(ApplyAll(s, attach), server, handle, id, device);
        ran := AuthenticatedAttach(server, handle, Create, id);
        if !ran {
          DoesStop(s, n, attach, state, budget, bind);
          return;
        }
        ghost var t, m := state, budget;
        ran := SetSyncIdentity(server, handle, id, device);
        DoesThen(s, n, attach, t, m, bind, state, budget, ran);
      } else {
        ran := SetSyncIdentity(server, handle, id, device);
      }
    }

    method Bootstrap(
      server: string, handle: string, confirm: bool, identity: bool, newDevice: nat, newArk: nat, newId: nat) returns (ran: bool)
      modifies this
      ensures Does(old(state), old(budget),
                   BootstrapWrites(old(state), server, handle, confirm, identity, newDevice, newArk, newId), state, budget, ran)
    {
      ghost var s, n := state, budget;
      if !BootstrapAllowed(state, server, handle, confirm, identity) { return true; }
      var id, device := IdOf(state, handle, newId), DeviceOf(state, handle, newDevice);
      ghost var local := BootstrapLocal(s, handle, newDevice, newArk, newId);
      ghost var publish := PublishWrites(ApplyAll(s, local), server, handle, identity, id, device);
      ran := CreateMissing(handle, newDevice, newArk, newId);
      if !ran {
        DoesStop(s, n, local, state, budget, publish);
        return;
      }
      ghost var t, m := state, budget;
      ran := Publish(server, handle, identity, id, device);
      DoesThen(s, n, local, t, m, publish, state, budget, ran);
    }
  }

  // ----------------------------------------------------------------------
  // What a sequence of writes keeps
  // ----------------------------------------------------------------------

  /** A stored key is only written over by itself. */
  ghost predicate KeepsKeys(s: State, writes: seq<Write>) {
    forall w <- writes ::
      && (w.SaveArk? ==> !Differs(Held(s, w.handle).ark, w.ark))
      && (w.SaveDevice? ==> !Differs(Held(s, w.handle).device, w.device))
  }

  ghost predicate KeepsIds(s: State, writes: seq<Write>) {
    forall w <- writes :: w.SaveId? ==> !Differs(Held(s, w.handle).id, w.id)
  }

  /** No intent to join is recorded. */
  ghost predicate NoJoin(writes: seq<Write>) {
    forall w <- writes :: w.Begin? ==> !w.binding.flow.Join?
  }

  ghost predicate SameKeys(s: State, t: State, handle: string) {
    && (Held(s, handle).ark.Some? ==> Held(t, handle).ark == Held(s, handle).ark)
    && (Held(s, handle).device.Some? ==> Held(t, handle).device == Held(s, handle).device)
  }

  ghost predicate SameId(s: State, t: State, handle: string) {
    Held(s, handle).id.Some? ==> Held(t, handle).id == Held(s, handle).id
  }

  lemma {:induction false} KeysKept(s: State, writes: seq<Write>, handle: string)
    requires KeepsKeys(s, writes)
    ensures SameKeys(s, ApplyAll(s, writes), handle)
  {
    if writes != [] {
      var front, last := writes[..|writes| - 1], writes[|writes| - 1];
      assert writes == front + [last];
      KeysKept(s, front, handle);
    }
  }

  lemma {:induction false} IdsKept(s: State, writes: seq<Write>, handle: string)
    requires KeepsIds(s, writes)
    ensures SameId(s, ApplyAll(s, writes), handle)
  {
    if writes != [] {
      var front, last := writes[..|writes| - 1], writes[|writes| - 1];
      assert writes == front + [last];
      IdsKept(s, front, handle);
    }
  }

  lemma BindIsQuiet(s: State, server: string, handle: string, account: nat, device: nat)
    ensures forall w <- BindWrites(s, server, handle, account, device) :: w.SetIdentity? || w.Activate?
  {
  }

  lemma AppliedOnce(s: State, w: Write)
    ensures ApplyAll(s, [w]) == Apply(s, w)
  {
    assert [w][..0] == [];
  }

  lemma AppliedTwice(s: State, v: Write, w: Write)
    ensures ApplyAll(s, [v, w]) == Apply(Apply(s, v), w)
  {
    assert [v, w][..1] == [v];
    AppliedOnce(s, v);
  }

  /** A write that touches no key material. */
  ghost predicate Quiet(w: Write) { !w.SaveArk? && !w.SaveDevice? && !w.SaveId? }

  /** Publishing on a device that has its id saves no key material. */
  lemma PublishIsQuiet(s: State, server: string, handle: string, identity: bool, id: nat, device: nat)
    requires Held(s, handle).id.Some?
    ensures forall w <- PublishWrites(s, server, handle, identity, id, device) :: Quiet(w) && (w.Begin? ==> w.binding.flow.Create?)
  {
    if !identity {
      BindIsQuiet(s, server, handle, id, device);
    } else if AttachAllowed(s, server, handle, Create, id) {
      var attach := AttachWrites(s, server, handle, Create, id);
      CreationIsQuiet(s, server, handle, id);
      BindIsQuiet(ApplyAll(s, attach), server, handle, id, device);
      assert PublishWrites(s, server, handle, identity, id, device)
          == attach + BindWrites(ApplyAll(s, attach), server, handle, id, device);
    }
  }

  lemma CreationIsQuiet(s: State, server: string, handle: string, id: nat)
    requires Held(s, handle).id.Some?
    ensures forall w <- AttachWrites(s, server, handle, Create, id) :: Quiet(w) && (w.Begin? ==> w.binding.flow.Create?)
  {
  }

  ghost predicate Careful(s: State, writes: seq<Write>) {
    KeepsKeys(s, writes) && KeepsIds(s, writes) && NoJoin(writes)
  }

  lemma CarefulConcat(s: State, a: seq<Write>, b: seq<Write>)
    requires Careful(s, a) && Careful(s, b)
    ensures Careful(s, a + b)
  {
  }

  lemma LocalIsCareful(s: State, handle: string, newDevice: nat, newArk: nat, newId: nat)
    ensures Careful(s, BootstrapLocal(s, handle, newDevice, newArk, newId))
  {
    var device, ark, id := EnsureDevice(s, handle, newDevice), MissingArk(s, handle, newArk), MissingId(s, handle, newId);
    CarefulConcat(s, device, ark);
    CarefulConcat(s, device + ark, id);
  }

  lemma LocalSavesId(s: State, handle: string, newDevice: nat, newArk: nat, newId: nat)
    ensures Held(ApplyAll(s, BootstrapLocal(s, handle, newDevice, newArk, newId)), handle).id.Some?
  {
    var local := BootstrapLocal(s, handle, newDevice, newArk, newId);
    if Held(s, handle).id.Some? {
      LocalIsCareful(s, handle, newDevice, newArk, newId);
      IdsKept(s, local, handle);
    } else {
      assert local[|local| - 1] == SaveId(handle, newId);
    }
  }

  lemma QuietAdds(s: State, writes: seq<Write>, quiet: seq<Write>)
    requires Careful(s, writes)
    requires forall w <- quiet :: Quiet(w) && (w.Begin? ==> w.binding.flow.Create?)
    ensures Careful(s, writes + quiet)
  {
  }

  lemma BootstrapSaves(
    s: State, server: string, handle: string, confirm: bool, identity: bool, newDevice: nat, newArk: nat, newId: nat)
    ensures Careful(s, BootstrapWrites(s, server, handle, confirm, identity, newDevice, newArk, newId))
  {
    if BootstrapAllowed(s, server, handle, confirm, identity) {
      var local := BootstrapLocal(s, handle, newDevice, newArk, newId);
      LocalIsCareful(s, handle, newDevice, newArk, newId);
      LocalSavesId(s, handle, newDevice, newArk, newId);
      var id, device := IdOf(s, handle, newId), DeviceOf(s, handle, newDevice);
      PublishIsQuiet(ApplyAll(s, local), server, handle, identity, id, device);
      var publish := PublishWrites(ApplyAll(s, local), server, handle, identity, id, device);
      QuietAdds(s, local, publish);
      assert BootstrapWrites(s, server, handle, confirm, identity, newDevice, newArk, newId) == local + publish;
    }
  }

  lemma AttachSaves(s: State, server: string, handle: string, newId: nat)
    ensures Careful(s, AttachWrites(s, server, handle, Attach, newId))
  {
    if AttachAllowed(s, server, handle, Attach, newId) {
      var held, id := Held(s, handle), AttachId(s, handle, newId);
      var begin := BeginWrites(s.db, Binding(TrimSlash(server), handle, id, held.device.value, Attach, false));
      CarefulConcat(s, begin, MissingId(s, handle, id));
      CarefulConcat(s, begin + MissingId(s, handle, id), SessionWrites(server, handle, true));
    }
  }

  lemma LoginSaves(s: State, server: string, handle: string, join: bool, newDevice: nat, content: nat)
    ensures var ws := LoginWrites(s, server, handle, join, newDevice, content);
            KeepsKeys(s, ws) && KeepsIds(s, ws)
  {
  }

  lemma EnrollSaves(s: State, server: string, handle: string, account: nat, newDevice: nat)
    ensures var ws := EnrollWrites(s, server, handle, account, newDevice);
            && KeepsKeys(s, ws) && NoJoin(ws)
            && (KeepsIds(s, ws) <==> !(EnrollAllowed(s, server, handle, account) && Differs(Held(s, handle).id, account)))
  {
    var ws := EnrollWrites(s, server, handle, account, newDevice);
    if EnrollAllowed(s, server, handle, account) { assert ws[|ws| - 1] == SaveId(handle, account); }
  }

  lemma AcceptSaves(s: State, via: Option<string>, handle: string, requested: Option<nat>, bundleArk: nat, bundleId: nat)
    ensures var ws := AcceptWrites(s, via, handle, requested, bundleArk, bundleId);
            && KeepsKeys(s, ws) && NoJoin(ws)
            && (KeepsIds(s, ws) <==>
                !(AcceptAllowed(s, via, handle, requested, bundleArk) && Differs(Held(s, handle).id, bundleId)))
  {
    var ws := AcceptWrites(s, via, handle, requested, bundleArk, bundleId);
    if AcceptAllowed(s, via, handle, requested, bundleArk) {
      var keys := [SaveArk(handle, bundleArk), SaveId(handle, bundleId)];
      BindIsQuiet(ApplyAll(s, keys), AcceptServer(s, via).value, handle, bundleId, Held(s, handle).device.value);
      assert ws[1] == SaveId(handle, bundleId);
    }
  }

  lemma RecoverSaves(s: State, server: string, handle: string, account: nat, recovered: nat, newDevice: nat)
    ensures Careful(s, RecoverWrites(s, server, handle, account, recovered, newDevice))
  {
    var keys := EnsureDevice(s, handle, newDevice) + [SaveArk(handle, recovered), SaveId(handle, account)];
    BindIsQuiet(ApplyAll(s, keys), server, handle, account, DeviceOf(s, handle, newDevice));
  }

  /** The two ways a command writes another id over a stored one: enrolling into the account
      of a pending join while the store holds another, and accepting a bundle whose account
      is not the stored one. */
  ghost predicate ReplacesId(s: State, c: Command) {
    match c
    case Enroll(server, handle, account, _) =>
      EnrollAllowed(s, server, handle, account) && Differs(Held(s, handle).id, account)
    case Accept(via, handle, requested, bundleArk, bundleId) =>
      AcceptAllowed(s, via, handle, requested, bundleArk) && Differs(Held(s, handle).id, bundleId)
    case _ => false
  }

  lemma CommandSaves(s: State, c: Command)
    ensures KeepsKeys(s, Writes(s, c))
    ensures KeepsIds(s, Writes(s, c)) <==> !ReplacesId(s, c)
    ensures NoJoin(Writes(s, c)) || (c.Login? && c.join)
  {
    match c
    case Bootstrap(server, handle, confirm, identity, newDevice, newArk, newId) =>
      BootstrapSaves(s, server, handle, confirm, identity, newDevice, newArk, newId);
    case AttachExisting(server, handle, newId) => AttachSaves(s, server, handle, newId);
    case Login(server, handle, join, newDevice, content) => LoginSaves(s, server, handle, join, newDevice, content);
    case Enroll(server, handle, account, newDevice) => EnrollSaves(s, server, handle, account, newDevice);
    case Accept(via, handle, requested, bundleArk, bundleId) => AcceptSaves(s, via, handle, requested, bundleArk, bundleId);
    case Recover(server, handle, account, recovered, newDevice) =>
      RecoverSaves(s, server, handle, account, recovered, newDevice);
    case EditLibrary(h) =>
  }

  lemma PrefixKeeps(s: State, writes: seq<Write>, n: nat)
    ensures forall w <- Prefix(writes, n) :: w in writes
    ensures KeepsKeys(s, writes) ==> KeepsKeys(s, Prefix(writes, n))
    ensures KeepsIds(s, writes) ==> KeepsIds(s, Prefix(writes, n))
    ensures NoJoin(writes) ==> NoJoin(Prefix(writes, n))
  {
  }

  // ----------------------------------------------------------------------
  // Root keys
  // ----------------------------------------------------------------------

  /** In every run, however the commands mix and wherever they stop, a stored account root
      key keeps its value, and so do stored device keys. */
  lemma {:induction false} RootKeyNeverChanges(s: State, attempts: seq<Attempt>, handle: string)
    ensures SameKeys(s, Run(s, attempts), handle)
  {
    if attempts != [] {
      var front, a := attempts[..|attempts| - 1], attempts[|attempts| - 1];
      var t := Run(s, front);
      RootKeyNeverChanges(s, front, handle);
      AttemptKeepsKeys(t, a, handle);
    }
  }

  lemma AttemptKeepsKeys(s: State, a: Attempt, handle: string)
    ensures SameKeys(s, After(s, a), handle)
  {
    CommandSaves(s, a.command);
    PrefixKeeps(s, Writes(s, a.command), a.writes);
    KeysKept(s, Prefix(Writes(s, a.command), a.writes), handle);
  }

  // ----------------------------------------------------------------------
  // Account ids
  // ----------------------------------------------------------------------

  /** While a join is pending, the store holds the id it is for. */
  ghost predicate Bound(s: State) {
    s.db.binding.Some? && s.db.binding.value.flow.Join? && !s.db.binding.value.active ==>
      Held(s, s.db.binding.value.handle).id == Some(s.db.binding.value.content)
  }

  /** A first login of a joining device stops before its intent or after the id is saved, and
      an accepted bundle is for the account that was asked for. */
  ghost predicate Orderly(s: State, a: Attempt) {
    match a.command
    case Login(_, _, join, _, _) => join && s.db.binding.None? ==> a.writes == 0 || a.writes >= 3
    case Accept(_, handle, requested, _, bundleId) => AcceptAccount(s, handle, requested) == Some(bundleId)
    case _ => true
  }

  lemma OrderlyKeepsIds(s: State, a: Attempt)
    requires Bound(s) && Orderly(s, a)
    ensures !ReplacesId(s, a.command)
  {
  }

  lemma {:induction false} BindingKept(s: State, writes: seq<Write>)
    requires NoJoin(writes)
    ensures var b := ApplyAll(s, writes).db.binding;
            b == s.db.binding || (b.Some? && (b.value.active || !b.value.flow.Join?))
  {
    if writes != [] {
      var front, last := writes[..|writes| - 1], writes[|writes| - 1];
      assert writes == front + [last];
      BindingKept(s, front);
    }
  }

  lemma BoundKept(s: State, writes: seq<Write>)
    requires Bound(s) && NoJoin(writes) && KeepsIds(s, writes)
    ensures Bound(ApplyAll(s, writes))
  {
    BindingKept(s, writes);
    if s.db.binding.Some? { IdsKept(s, writes, s.db.binding.value.handle); }
  }

  /** A join that begins here saves the id right after its intent. */
  lemma LoginBinds(s: State, c: Command, n: nat)
    requires c.Login? && c.join && s.db.binding.None? && (n == 0 || n >= 3) && Bound(s)
    ensures Bound(ApplyAll(s, Prefix(Writes(s, c), n)))
  {
    var ws := Writes(s, c);
    if n >= 3 && ws != [] {
      var device := DeviceOf(s, c.handle, c.newDevice);
      var first := [Begin(LoginBinding(s, c.server, c.handle, true, c.newDevice, c.content)), SaveDevice(c.handle, device),
                    SaveId(c.handle, c.content)];
      var rest := SessionWrites(c.server, c.handle, false);
      assert ws == first + rest;
      assert first[..2] == [first[0], first[1]];
      AppliedTwice(s, first[0], first[1]);
      var t := ApplyAll(s, first);
      var last := Prefix(rest, n - 3);
      assert Prefix(ws, n) == first + last;
      ApplyConcat(s, first, last);
      PrefixKeeps(t, rest, n - 3);
      BoundKept(t, last);
    }
  }

  lemma AttemptKeepsBound(s: State, a: Attempt)
    requires Bound(s) && Orderly(s, a)
    ensures Bound(After(s, a))
  {
    var c, ws := a.command, Writes(s, a.command);
    OrderlyKeepsIds(s, a);
    CommandSaves(s, c);
    PrefixKeeps(s, ws, a.writes);
    if c.Login? && c.join {
      if s.db.binding.None? {
        LoginBinds(s, c, a.writes);
      } else {
        assert NoJoin(ws);
        BoundKept(s, Prefix(ws, a.writes));
      }
    } else {
      BoundKept(s, Prefix(ws, a.writes));
    }
  }

  ghost predicate OrderlyRun(s: State, attempts: seq<Attempt>) {
    attempts == [] ||
    (var front := attempts[..|attempts| - 1];
     OrderlyRun(s, front) && Orderly(Run(s, front), attempts[|attempts| - 1]))
  }

  /** In every orderly run a stored account id keeps its value. */
  lemma {:induction false} AccountIdNeverChanges(s: State, attempts: seq<Attempt>, handle: string)
    requires Bound(s) && OrderlyRun(s, attempts)
    ensures SameId(s, Run(s, attempts), handle) && Bound(Run(s, attempts))
  {
    if attempts != [] {
      var front, a := attempts[..|attempts| - 1], attempts[|attempts| - 1];
      AccountIdNeverChanges(s, front, handle);
      var t := Run(s, front);
      AttemptKeepsBound(t, a);
      OrderlyKeepsIds(t, a);
      CommandSaves(t, a.command);
      PrefixKeeps(t, Writes(t, a.command), a.writes);
      IdsKept(t, Prefix(Writes(t, a.command), a.writes), handle);
    }
  }

  /** Which write of a command that replaces an id is the one that does it. */
  ghost function ReplacingWrite(s: State, c: Command): nat {
    match c
    case Enroll(_, handle, _, newDevice) => |EnsureDevice(s, handle, newDevice)|
    case _ => 1
  }

  lemma ReplacingCommand(s: State, c: Command)
    requires ReplacesId(s, c)
    ensures var ws, at := Writes(s, c), ReplacingWrite(s, c);
            && at < |ws| && ws[at].SaveId? && Differs(Held(s, ws[at].handle).id, ws[at].id)
            && forall k :: 0 <= k < |ws| && k != at ==> !ws[k].SaveId?
  {
    if c.Accept? {
      var keys := [SaveArk(c.handle, c.bundleArk), SaveId(c.handle, c.bundleId)];
      BindIsQuiet(ApplyAll(s, keys), AcceptServer(s, c.via).value, c.handle, c.bundleId, Held(s, c.handle).device.value);
    }
  }

  /** One write of an id among writes that save none: it shows exactly once it has been made. */
  lemma OneIdWritten(s: State, ws: seq<Write>, at: nat, n: nat)
    requires at < |ws| && ws[at].SaveId? && Differs(Held(s, ws[at].handle).id, ws[at].id)
    requires forall k :: 0 <= k < |ws| && k != at ==> !ws[k].SaveId?
    ensures n > at ==> Held(ApplyAll(s, Prefix(ws, n)), ws[at].handle).id == Some(ws[at].id)
    ensures n <= at ==> KeepsIds(s, Prefix(ws, n))
  {
    if n > at {
      var made, done := Prefix(ws, n), ws[..at + 1];
      var rest := made[at + 1..];
      assert made == done + rest;
      ApplyConcat(s, done, rest);
      LastIdWritten(s, done);
      NoIdBehind(ws, at, n);
      MissingUntouched(ApplyAll(s, done), ws[at].handle, rest);
    }
  }

  lemma NoIdBehind(ws: seq<Write>, at: nat, n: nat)
    requires at < |ws| && n > at && forall k :: 0 <= k < |ws| && k != at ==> !ws[k].SaveId?
    ensures forall w <- Prefix(ws, n)[at + 1..] :: !w.SaveId?
  {
    var rest := Prefix(ws, n)[at + 1..];
    forall w | w in rest
      ensures !w.SaveId?
    {
      var k :| 0 <= k < |rest| && rest[k] == w;
      assert rest[k] == ws[at + 1 + k];
    }
  }

  lemma LastIdWritten(s: State, ws: seq<Write>)
    requires ws != [] && ws[|ws| - 1].SaveId?
    ensures Held(ApplyAll(s, ws), ws[|ws| - 1].handle).id == Some(ws[|ws| - 1].id)
  {
  }

  /** Exactly when a command that stops after `n` writes leaves another id behind: it is one
      of the two that replace ids, and it came as far as the write that does it. */
  lemma IdReplacedExactly(s: State, c: Command, n: nat)
    ensures (exists handle :: !SameId(s, After(s, Attempt(c, n)), handle))
            <==> ReplacesId(s, c) && n > ReplacingWrite(s, c)
  {
    var ws := Writes(s, c);
    CommandSaves(s, c);
    PrefixKeeps(s, ws, n);
    if ReplacesId(s, c) {
      var at := ReplacingWrite(s, c);
      ReplacingCommand(s, c);
      OneIdWritten(s, ws, at, n);
      if n > at { assert !SameId(s, After(s, Attempt(c, n)), ws[at].handle); }
    }
    if KeepsIds(s, Prefix(ws, n)) {
      forall handle
        ensures SameId(s, After(s, Attempt(c, n)), handle)
      {
        IdsKept(s, Prefix(ws, n), handle);
      }
    }
  }

  lemma RunSnoc(s: State, done: seq<Attempt>, a: Attempt)
    ensures Run(s, done + [a]) == After(Run(s, done), a)
  {
    assert (done + [a])[..|done|] == done;
  }

  lemma RunTwice(s: State, first: Attempt, second: Attempt)
    ensures Run(s, [first, second]) == After(After(s, first), second)
  {
    RunSnoc(s, [], first);
    RunSnoc(s, [first], second);
    assert [] + [first] == [first] && [first] + [second] == [first, second];
  }

  /** A join split between its intent and its keys lets two enrollments put one id over
      another. */
  lemma SplitLoginLosesId()
    ensures var empty := State(map[], {}, Db(None, None, None, None, false));
            var run := [Attempt(Login("r", "h", true, 7, 1), 1), Attempt(Enroll("r", "h", 2, 8), 2)];
            && Bound(empty)
            && Held(Run(empty, run), "h").id == Some(2)
            && Held(After(Run(empty, run), Attempt(Enroll("r", "h", 1, 9), 1)), "h").id == Some(1)
  {
    var empty := State(map[], {}, Db(None, None, None, None, false));
    var login, enroll := Attempt(Login("r", "h", true, 7, 1), 1), Attempt(Enroll("r", "h", 2, 8), 2);
    var run := [login, enroll];
    var b := Binding("r", "h", 1, 7, Join, false);
    assert TrimSlash("r") == "r";
    var ws := Writes(empty, login.command);
    assert ws[..1] == [Begin(b)];
    AppliedOnce(empty, Begin(b));
    var s1 := After(empty, login);
    assert s1 == Apply(empty, Begin(b));
    var es := Writes(s1, enroll.command);
    assert es == [SaveDevice("h", 8), SaveId("h", 2)];
    AppliedTwice(s1, es[0], es[1]);
    var s2 := After(s1, enroll);
    RunTwice(empty, login, enroll);
    assert Writes(s2, Enroll("r", "h", 1, 9)) == [SaveId("h", 1)];
    AppliedOnce(s2, SaveId("h", 1));
  }

  /** After an enrollment that ran to its end, an accept is let through exactly when it is
      for the enrolled account, a join of that account with that relay is pending, the
      database has no other account, and the store holds no other root key. */
  lemma AcceptAfterEnroll(
    s: State, server: string, handle: string, account: nat, newDevice: nat,
    via: Option<string>, requested: Option<nat>, bundleArk: nat)
    requires EnrollAllowed(s, server, handle, account)
    ensures var t, relay := ApplyAll(s, EnrollWrites(s, server, handle, account, newDevice)), AcceptServer(s, via);
            AcceptAllowed(t, via, handle, requested, bundleArk)
            <==>
            && relay.Some? && (requested.Some? ==> requested.value == account)
            && PendingJoinFor(s.db, relay.value, handle, account)
            && !Differs(s.db.account, account)
            && !Differs(Held(s, handle).ark, bundleArk)
  {
    var ws := EnrollWrites(s, server, handle, account, newDevice);
    var t := ApplyAll(s, ws);
    var front := ws[..|ws| - 1];
    assert ws == front + [SaveId(handle, account)];
    EnsuredDevice(s, handle, newDevice);
    assert t == Apply(ApplyAll(s, front), SaveId(handle, account));
    assert t.db == s.db && Held(t, handle).id == Some(account) && Held(t, handle).device.Some?;
    assert Held(t, handle).ark == Held(s, handle).ark;
    assert s.db.server.None?;
  }

  lemma EnsuredDevice(s: State, handle: string, drawn: nat)
    ensures var t := ApplyAll(s, EnsureDevice(s, handle, drawn));
            t.db == s.db && Held(t, handle).device.Some? && Held(t, handle).ark == Held(s, handle).ark
  {
    AppliedOnce(s, SaveDevice(handle, drawn));
  }

  /** So without a pending join for the account and the relay, an enrollment that ran to its
      end leaves the device unable to accept: the id it stored counts as an existing account. */
  lemma PlainEnrollCannotAccept(
    s: State, server: string, handle: string, account: nat, newDevice: nat,
    via: Option<string>, requested: Option<nat>, bundleArk: nat, bundleId: nat)
    requires EnrollAllowed(s, server, handle, account)
    requires AcceptServer(s, via).Some? ==> !PendingJoinFor(s.db, AcceptServer(s, via).value, handle, account)
    ensures var t := ApplyAll(s, Writes(s, Enroll(server, handle, account, newDevice)));
            Writes(t, Accept(via, handle, requested, bundleArk, bundleId)) == []
  {
    AcceptAfterEnroll(s, server, handle, account, newDevice, via, requested, bundleArk);
    RefusedWritesNothing(ApplyAll(s, EnrollWrites(s, server, handle, account, newDevice)), via, handle, requested, bundleArk, bundleId);
  }

  lemma RefusedWritesNothing(s: State, via: Option<string>, handle: string, requested: Option<nat>, bundleArk: nat, bundleId: nat)
    requires !AcceptAllowed(s, via, handle, requested, bundleArk)
    ensures Writes(s, Accept(via, handle, requested, bundleArk, bundleId)) == []
  {
  }
}
