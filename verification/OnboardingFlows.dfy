/** What the account commands are for: which states admit them, what a device holds once they
    are through, and what a bootstrap that stopped on the way can still do. */
module OnboardingFlows {
  import opened Wrappers
  import opened Onboarding

  // ----------------------------------------------------------------------
  // Which states admit a command
  // ----------------------------------------------------------------------

  /** A device that knows nothing of the handle, and a database without account or relay. */
  ghost predicate Untouched(s: State, handle: string) {
    && Held(s, handle) == Material(None, None, None)
    && s.db.account.None? && s.db.device.None? && s.db.server.None? && s.db.binding.None?
  }

  /** A new account is created exactly where there is no root key for the handle, no account
      and no relay, and a library that has content is only taken along when confirmed. */
  lemma BootstrapAdmits(s: State, server: string, handle: string, confirm: bool, identity: bool)
    requires s.db.binding.None? || s.db.binding.value.active || !s.db.binding.value.flow.Create?
             || s.db.binding.value.handle != handle || s.db.binding.value.relay != TrimSlash(server) || !identity
    ensures BootstrapAllowed(s, server, handle, confirm, identity) <==>
            && Held(s, handle).ark.None? && s.db.account.None? && s.db.server.None?
            && (s.db.hasContent ==> confirm)
  {
  }

  /** A creation of this handle at this relay that is pending is taken up again exactly when
      the keys it was begun with are all there. */
  lemma BootstrapResumesExactly(s: State, server: string, handle: string, confirm: bool)
    requires s.db.binding.Some? && !s.db.binding.value.active && s.db.binding.value.flow.Create?
    requires s.db.binding.value.handle == handle && s.db.binding.value.relay == TrimSlash(server)
    ensures BootstrapAllowed(s, server, handle, confirm, true) <==>
            && Held(s, handle).device == Some(s.db.binding.value.device)
            && Held(s, handle).id == Some(s.db.binding.value.content) && Held(s, handle).ark.Some?
  {
  }

  /** A device without a binding joins exactly when it has no content, no relay and neither
      root key nor id for the handle, and its database names no other account or device. */
  lemma JoinAdmits(s: State, server: string, handle: string, newDevice: nat, content: nat)
    requires s.db.binding.None?
    ensures LoginAllowed(s, server, handle, true, newDevice, content) <==>
            && !s.db.hasContent && s.db.server.None? && Held(s, handle).ark.None? && Held(s, handle).id.None?
            && (s.db.account.Some? ==> s.db.account.value == content)
            && (s.db.device.Some? && Held(s, handle).device.Some? ==> s.db.device == Held(s, handle).device)
            && (s.db.device.Some? && Held(s, handle).device.None? ==> s.db.device.value == newDevice)
  {
  }

  /** Enrolling exactly where nothing but perhaps a pending join of the same account stands. */
  lemma EnrollAdmits(s: State, server: string, handle: string, account: nat)
    ensures EnrollAllowed(s, server, handle, account) <==>
            && !s.db.hasContent && s.db.server.None?
            && ((Held(s, handle).device.None? && Held(s, handle).ark.None? && Held(s, handle).id.None?)
                || (s.db.binding.Some? && s.db.binding.value ==
                    Binding(TrimSlash(server), handle, account, s.db.binding.value.device, Join, false)))
  {
  }

  /** Recovering exactly where the account can be adopted: nothing names another account or
      another root key, there is no content, and what else is there belongs to a pending join
      of the same account with the same relay. */
  lemma RecoverAdmits(s: State, server: string, handle: string, account: nat, recovered: nat)
    ensures RecoverAllowed(s, server, handle, account, recovered) <==>
            var matching := s.db.binding.Some? && s.db.binding.value ==
                            Binding(TrimSlash(server), handle, account, s.db.binding.value.device, Join, false);
            && !s.db.hasContent
            && (s.db.account.Some? ==> s.db.account.value == account)
            && (Held(s, handle).id.Some? ==> matching && Held(s, handle).id.value == account)
            && (Held(s, handle).ark.Some? ==> matching && Held(s, handle).ark.value == recovered)
            && (s.db.server.Some? ==> matching)
  {
  }

  /** What is recorded of account, device and relay agrees with these. */
  ghost predicate Agrees(db: Db, account: nat, device: nat, relay: string) {
    && (db.account.Some? ==> db.account.value == account)
    && (db.device.Some? ==> db.device.value == device)
    && (db.server.Some? ==> TrimSlash(db.server.value) == relay)
  }

  /** Attaching a device that is not bound exactly where it has its keys and root key, and
      nothing recorded stands against it. */
  lemma AttachAdmits(s: State, server: string, handle: string, newId: nat)
    requires s.db.binding.None?
    ensures AttachAllowed(s, server, handle, Attach, newId) <==>
            var held := Held(s, handle);
            && held.device.Some? && held.ark.Some?
            && Agrees(s.db, if held.id.Some? then held.id.value else s.db.account.GetOr(newId), held.device.value, TrimSlash(server))
            && (held.id.None? && s.db.account.None? ==> (handle, TrimSlash(server)) !in s.sessions)
  {
  }

  /** A bound device is attached again exactly where the binding is its own, and active or an
      attachment itself. */
  lemma AttachAgainAdmits(s: State, server: string, handle: string, newId: nat)
    requires s.db.binding.Some?
    ensures AttachAllowed(s, server, handle, Attach, newId) <==>
            var held, b := Held(s, handle), s.db.binding.value;
            && held.device.Some? && held.ark.Some? && (held.id.Some? || s.db.account.Some?)
            && b.relay == TrimSlash(server) && b.handle == handle && b.device == held.device.value
            && b.content == (if held.id.Some? then held.id.value else s.db.account.value)
            && (b.active || b.flow.Attach?) && Agrees(s.db, b.content, b.device, b.relay)
  {
  }

  /** A join that is pending is taken up again exactly with the keys and the account it was
      begun with, as long as the library is empty and has no relay. */
  lemma JoinAgainAdmits(s: State, server: string, handle: string, newDevice: nat, content: nat)
    requires s.db.binding.Some? && s.db.binding.value.flow.Join? && !s.db.binding.value.active
    requires s.db.binding.value.handle == handle && s.db.binding.value.relay == TrimSlash(server)
    ensures LoginAllowed(s, server, handle, true, newDevice, content) <==>
            var b := s.db.binding.value;
            && Held(s, handle).device == Some(b.device) && Held(s, handle).id == Some(b.content) && b.content == content
            && !s.db.hasContent && s.db.server.None? && Agrees(s.db, b.content, b.device, b.relay)
  {
  }

  /** A session is renewed exactly on a device that has root key, keys and id, is bound with
      them to this relay, actively or by an attachment, and logs in to the same account. */
  lemma RenewalAdmits(s: State, server: string, handle: string, newDevice: nat, content: nat)
    ensures LoginAllowed(s, server, handle, false, newDevice, content) <==>
            var held := Held(s, handle);
            && held.ark.Some? && held.device.Some? && held.id == Some(content) && s.db.binding.Some?
            && (var b := s.db.binding.value;
                && b.relay == TrimSlash(server) && b.handle == handle && b.content == content && b.device == held.device.value
                && (b.active || b.flow.Attach?) && Agrees(s.db, content, b.device, b.relay))
  {
  }

  // ----------------------------------------------------------------------
  // Creating an account
  // ----------------------------------------------------------------------

  /** Where the creation of an account ends: the three keys stored, a session with the relay,
      and the database bound to the account. */
  ghost function Created(s: State, server: string, handle: string, device: nat, ark: nat, id: nat): State {
    var b := Binding(TrimSlash(server), handle, id, device, Create, true);
    State(s.store[handle := Material(Some(device), Some(ark), Some(id))],
          s.sessions + {(handle, TrimSlash(server))},
          s.db.(account := Some(id), device := Some(device), server := Some(TrimSlash(server)), binding := Some(b)))
  }

  ghost function CreationWrites(server: string, handle: string, device: nat, ark: nat, id: nat): seq<Write> {
    [SaveDevice(handle, device), SaveArk(handle, ark), SaveId(handle, id)]
    + [Begin(Binding(TrimSlash(server), handle, id, device, Create, false)), SaveSession(handle, server)]
    + [SetIdentity(id, device, server), Activate]
  }

  lemma KeysWritten(s: State, handle: string, device: nat, ark: nat, id: nat)
    ensures ApplyAll(s, [SaveDevice(handle, device), SaveArk(handle, ark), SaveId(handle, id)])
         == s.(store := s.store[handle := Material(Some(device), Some(ark), Some(id))])
  {
    var ws := [SaveDevice(handle, device), SaveArk(handle, ark), SaveId(handle, id)];
    assert ws[..2] == [SaveDevice(handle, device), SaveArk(handle, ark)];
    AppliedTwice(s, ws[0], ws[1]);
    var t := Apply(s, ws[0]);
    var u := Apply(t, ws[1]);
    assert Held(t, handle).device == Some(device) && Held(u, handle) == Material(Some(device), Some(ark), Held(s, handle).id);
    assert Apply(u, ws[2]).store == s.store[handle := Material(Some(device), Some(ark), Some(id))];
  }

  /** The writes of a creation from the stored keys on. */
  lemma PublishedFrom(t: State, server: string, handle: string, device: nat, ark: nat, id: nat)
    requires Held(t, handle) == Material(Some(device), Some(ark), Some(id))
    requires t.db.account.None? && t.db.device.None? && t.db.server.None? && t.db.binding.None?
    ensures var b := Binding(TrimSlash(server), handle, id, device, Create, false);
            && PublishWrites(t, server, handle, true, id, device)
               == [Begin(b), SaveSession(handle, server)] + [SetIdentity(id, device, server), Activate]
            && ApplyAll(t, [Begin(b), SaveSession(handle, server)])
               == State(t.store, t.sessions + {(handle, TrimSlash(server))}, t.db.(binding := Some(b)))
  {
    var b := Binding(TrimSlash(server), handle, id, device, Create, false);
    assert AttachWrites(t, server, handle, Create, id) == [Begin(b)] + [] + [SaveSession(handle, server)] == [Begin(b), SaveSession(handle, server)];
    AppliedTwice(t, Begin(b), SaveSession(handle, server));
    var u := State(t.store, t.sessions + {(handle, TrimSlash(server))}, t.db.(binding := Some(b)));
    AppliedOnce(u, SetIdentity(id, device, server));
    assert FinishWrites(Apply(u, SetIdentity(id, device, server)), server, handle) == [Activate];
  }

  /** On an untouched device a bootstrap makes seven writes, and they leave the account
      created. */
  lemma BootstrapCompletes(s: State, server: string, handle: string, confirm: bool, device: nat, ark: nat, id: nat)
    requires Untouched(s, handle) && (s.db.hasContent ==> confirm)
    ensures Writes(s, Bootstrap(server, handle, confirm, true, device, ark, id)) == CreationWrites(server, handle, device, ark, id)
    ensures ApplyAll(s, CreationWrites(server, handle, device, ark, id)) == Created(s, server, handle, device, ark, id)
  {
    var keys := [SaveDevice(handle, device), SaveArk(handle, ark), SaveId(handle, id)];
    var t := ApplyAll(s, keys);
    KeysWritten(s, handle, device, ark, id);
    assert BootstrapLocal(s, handle, device, ark, id) == keys;
    PublishedFrom(t, server, handle, device, ark, id);
    CreationApplied(s, server, handle, device, ark, id);
  }

  lemma CreationApplied(s: State, server: string, handle: string, device: nat, ark: nat, id: nat)
    requires s.db.binding.None?
    ensures ApplyAll(s, CreationWrites(server, handle, device, ark, id)) == Created(s, server, handle, device, ark, id)
  {
    var b := Binding(TrimSlash(server), handle, id, device, Create, false);
    var keys := [SaveDevice(handle, device), SaveArk(handle, ark), SaveId(handle, id)];
    KeysWritten(s, handle, device, ark, id);
    var t := s.(store := s.store[handle := Material(Some(device), Some(ark), Some(id))]);
    var attach := [Begin(b), SaveSession(handle, server)];
    AppliedTwice(t, Begin(b), SaveSession(handle, server));
    var u := State(t.store, t.sessions + {(handle, TrimSlash(server))}, t.db.(binding := Some(b)));
    AppliedTwice(u, SetIdentity(id, device, server), Activate);
    ApplyConcat(s, keys, attach);
    ApplyConcat(s, keys + attach, [SetIdentity(id, device, server), Activate]);
  }

  // ----------------------------------------------------------------------
  // A bootstrap that stopped
  // ----------------------------------------------------------------------

  /** After `n` writes of a creation. */
  ghost function Stopped(s: State, server: string, handle: string, device: nat, ark: nat, id: nat, n: nat): State
    requires n <= 7
  {
    ApplyAll(s, CreationWrites(server, handle, device, ark, id)[..n])
  }

  lemma StoppedNext(s: State, server: string, handle: string, device: nat, ark: nat, id: nat, n: nat)
    requires n < 7
    ensures Stopped(s, server, handle, device, ark, id, n + 1)
         == Apply(Stopped(s, server, handle, device, ark, id, n), CreationWrites(server, handle, device, ark, id)[n])
  {
    var ws := CreationWrites(server, handle, device, ark, id);
    assert ws[..n + 1][..n] == ws[..n];
  }

  /** The states in between, in a few fields. */
  lemma StoppedStates(s: State, server: string, handle: string, device: nat, ark: nat, id: nat, n: nat)
    requires Untouched(s, handle) && n <= 7
    ensures var t := Stopped(s, server, handle, device, ark, id, n);
            var b := Binding(TrimSlash(server), handle, id, device, Create, n == 7);
            && Held(t, handle) == Material(if n > 0 then Some(device) else None, if n > 1 then Some(ark) else None, if n > 2 then Some(id) else None)
            && t.db.binding == (if n > 3 then Some(b) else None)
            && t.db.account == (if n > 5 then Some(id) else None)
            && t.db.device == (if n > 5 then Some(device) else None)
            && t.db.hasContent == s.db.hasContent
            && t.db.server == (if n > 6 then Some(TrimSlash(server)) else if n > 5 then Some(server) else None)
            && (n == 0 ==> t.store == s.store) && (n > 0 ==> t.store == s.store[handle := Held(t, handle)])
            && t.sessions == (if n > 4 then s.sessions + {(handle, TrimSlash(server))} else s.sessions)
  {
    var ws := CreationWrites(server, handle, device, ark, id);
    assert ws[..0] == [];
    if n > 0 {
      StoppedStates(s, server, handle, device, ark, id, n - 1);
      StoppedNext(s, server, handle, device, ark, id, n - 1);
    }
  }

  /** A bootstrap that stopped can simply be run again, whatever it draws this time, exactly
      when it stopped before the root key was stored, or after its intent was recorded and
      before it was through. In between, with a root key and no intent, it is refused. */
  lemma BootstrapAgain(
    s: State, server: string, handle: string, confirm: bool, device: nat, ark: nat, id: nat, n: nat)
    requires Untouched(s, handle) && (s.db.hasContent ==> confirm) && n <= 7
    ensures var t := After(s, Attempt(Bootstrap(server, handle, confirm, true, device, ark, id), n));
            BootstrapAllowed(t, server, handle, confirm, true) <==> n <= 1 || 4 <= n <= 6
  {
    BootstrapCompletes(s, server, handle, confirm, device, ark, id);
    assert Prefix(CreationWrites(server, handle, device, ark, id), n) == CreationWrites(server, handle, device, ark, id)[..n];
    StoppedStates(s, server, handle, device, ark, id, n);
  }

  /** Stopped in between, the device can still be attached. */
  lemma AttachAfterStop(
    s: State, server: string, handle: string, confirm: bool, device: nat, ark: nat, id: nat, n: nat, newId: nat)
    requires Untouched(s, handle) && (s.db.hasContent ==> confirm) && 2 <= n <= 3
    requires (handle, TrimSlash(server)) !in s.sessions
    ensures var t := After(s, Attempt(Bootstrap(server, handle, confirm, true, device, ark, id), n));
            AttachAllowed(t, server, handle, Attach, newId)
  {
    BootstrapCompletes(s, server, handle, confirm, device, ark, id);
    var ws := CreationWrites(server, handle, device, ark, id);
    assert Prefix(ws, n) == ws[..n];
    StoppedStates(s, server, handle, device, ark, id, n);
    AttachAdmits(Stopped(s, server, handle, device, ark, id, n), server, handle, newId);
  }

  /** Run again after its intent was recorded, a bootstrap ends where it would have ended at
      first, whatever is drawn the second time. */
  lemma BootstrapAgainCompletes(
    s: State, server: string, handle: string, confirm: bool, device: nat, ark: nat, id: nat, n: nat,
    device': nat, ark': nat, id': nat)
    requires Untouched(s, handle) && (s.db.hasContent ==> confirm) && 4 <= n <= 6
    ensures var again := Bootstrap(server, handle, confirm, true, device', ark', id');
            var t := After(s, Attempt(Bootstrap(server, handle, confirm, true, device, ark, id), n));
            ApplyAll(t, Writes(t, again)) == Created(s, server, handle, device, ark, id)
  {
    BootstrapCompletes(s, server, handle, confirm, device, ark, id);
    var ws := CreationWrites(server, handle, device, ark, id);
    assert Prefix(ws, n) == ws[..n];
    StoppedStates(s, server, handle, device, ark, id, n);
    ResumedWrites(Stopped(s, server, handle, device, ark, id, n), server, handle, confirm, device, ark, id, device', ark', id');
  }

  /** What a bootstrap writes on a device whose creation is pending, and where it leads. */
  lemma ResumedWrites(
    t: State, server: string, handle: string, confirm: bool, device: nat, ark: nat, id: nat, device': nat, ark': nat, id': nat)
    requires Held(t, handle) == Material(Some(device), Some(ark), Some(id))
    requires t.db.binding == Some(Binding(TrimSlash(server), handle, id, device, Create, false))
    requires Agrees(t.db, id, device, TrimSlash(server))
    ensures var b := Binding(TrimSlash(server), handle, id, device, Create, true);
            ApplyAll(t, Writes(t, Bootstrap(server, handle, confirm, true, device', ark', id')))
            == State(t.store, t.sessions + {(handle, TrimSlash(server))},
                     t.db.(account := Some(id), device := Some(device), server := Some(TrimSlash(server)), binding := Some(b)))
  {
    BootstrapResumesExactly(t, server, handle, confirm);
    assert BootstrapLocal(t, handle, device', ark', id') == [];
    assert ApplyAll(t, []) == t;
    var attach := [SaveSession(handle, server)];
    assert AttachWrites(t, server, handle, Create, id) == [] + [] + (attach + []) == attach;
    AppliedOnce(t, SaveSession(handle, server));
    var u := Apply(t, SaveSession(handle, server));
    ResumedBind(u, server, handle, device, id);
    var last := [SetIdentity(id, device, server), Activate];
    ApplyConcat(t, attach, last);
    assert Writes(t, Bootstrap(server, handle, confirm, true, device', ark', id')) == [] + (attach + last) == attach + last;
  }

  lemma ResumedBind(u: State, server: string, handle: string, device: nat, id: nat)
    requires u.db.binding == Some(Binding(TrimSlash(server), handle, id, device, Create, false))
    requires (handle, TrimSlash(server)) in u.sessions
    ensures BindWrites(u, server, handle, id, device) == [SetIdentity(id, device, server), Activate]
    ensures ApplyAll(u, [SetIdentity(id, device, server), Activate])
         == u.(db := u.db.(account := Some(id), device := Some(device), server := Some(TrimSlash(server)),
                           binding := Some(Binding(TrimSlash(server), handle, id, device, Create, true))))
  {
    AppliedOnce(u, SetIdentity(id, device, server));
    assert FinishWrites(Apply(u, SetIdentity(id, device, server)), server, handle) == [Activate];
    AppliedTwice(u, SetIdentity(id, device, server), Activate);
  }

  // ----------------------------------------------------------------------
  // Joining from a new device
  // ----------------------------------------------------------------------

  /** Where a join ends: like a creation, but bound as a join and with what the account has. */
  ghost function Joined(s: State, server: string, handle: string, device: nat, ark: nat, account: nat): State {
    var b := Binding(TrimSlash(server), handle, account, device, Join, true);
    State(s.store[handle := Material(Some(device), Some(ark), Some(account))],
          s.sessions + {(handle, TrimSlash(server))},
          s.db.(account := Some(account), device := Some(device), server := Some(TrimSlash(server)), binding := Some(b)))
  }

  ghost function LoggedIn(s: State, server: string, handle: string, device: nat, account: nat): State {
    State(s.store[handle := Material(Some(device), None, Some(account))],
          s.sessions + {(handle, TrimSlash(server))},
          s.db.(binding := Some(Binding(TrimSlash(server), handle, account, device, Join, false))))
  }

  lemma JoinWrites(s: State, server: string, handle: string, device: nat, account: nat)
    requires Untouched(s, handle) && !s.db.hasContent
    ensures Writes(s, Login(server, handle, true, device, account))
         == [Begin(Binding(TrimSlash(server), handle, account, device, Join, false))]
            + [SaveDevice(handle, device), SaveId(handle, account)] + [SaveSession(handle, server)]
  {
    JoinAdmits(s, server, handle, device, account);
    assert SessionWrites(server, handle, false) == [SaveSession(handle, server)] + [] == [SaveSession(handle, server)];
  }

  lemma JoinLogsIn(s: State, server: string, handle: string, device: nat, account: nat)
    requires Untouched(s, handle) && !s.db.hasContent
    ensures ApplyAll(s, Writes(s, Login(server, handle, true, device, account))) == LoggedIn(s, server, handle, device, account)
  {
    JoinWrites(s, server, handle, device, account);
    JoinApplied(s, server, handle, device, account);
  }

  lemma JoinApplied(s: State, server: string, handle: string, device: nat, account: nat)
    requires Held(s, handle).ark.None?
    ensures ApplyAll(s, [Begin(Binding(TrimSlash(server), handle, account, device, Join, false))]
                        + [SaveDevice(handle, device), SaveId(handle, account)] + [SaveSession(handle, server)])
         == LoggedIn(s, server, handle, device, account)
  {
    var b := Binding(TrimSlash(server), handle, account, device, Join, false);
    var adopt := [SaveDevice(handle, device), SaveId(handle, account)];
    var t := s.(db := s.db.(binding := Some(b)));
    AppliedOnce(s, Begin(b));
    AdoptApplied(t, handle, device, account);
    var u := t.(store := t.store[handle := Material(Some(device), None, Some(account))]);
    AppliedOnce(u, SaveSession(handle, server));
    ApplyConcat(s, [Begin(b)], adopt);
    ApplyConcat(s, [Begin(b)] + adopt, [SaveSession(handle, server)]);
  }

  lemma AdoptApplied(t: State, handle: string, device: nat, account: nat)
    requires Held(t, handle).ark.None?
    ensures ApplyAll(t, [SaveDevice(handle, device), SaveId(handle, account)])
         == t.(store := t.store[handle := Material(Some(device), None, Some(account))])
  {
    AppliedTwice(t, SaveDevice(handle, device), SaveId(handle, account));
    var once := Apply(t, SaveDevice(handle, device));
    assert Held(once, handle).device == Some(device) && Held(once, handle).ark.None?;
    assert Apply(once, SaveId(handle, account)).store == t.store[handle := Material(Some(device), None, Some(account))];
  }

  lemma AcceptFinishes(s: State, server: string, handle: string, device: nat, account: nat, ark: nat)
    requires Untouched(s, handle) && !s.db.hasContent
    ensures var t := LoggedIn(s, server, handle, device, account);
            ApplyAll(t, Writes(t, Accept(Some(server), handle, None, ark, account))) == Joined(s, server, handle, device, ark, account)
  {
    var t := LoggedIn(s, server, handle, device, account);
    var keys := [SaveArk(handle, ark), SaveId(handle, account)];
    AppliedTwice(t, keys[0], keys[1]);
    var u := Apply(Apply(t, keys[0]), keys[1]);
    assert Held(Apply(t, keys[0]), handle) == Material(Some(device), Some(ark), Some(account));
    assert u.store == s.store[handle := Material(Some(device), Some(ark), Some(account))];
    AppliedOnce(u, SetIdentity(account, device, server));
    var last := [SetIdentity(account, device, server), Activate];
    assert BindWrites(u, server, handle, account, device) == [SetIdentity(account, device, server)] + [Activate] == last;
    AppliedTwice(u, last[0], last[1]);
    assert AcceptAllowed(t, Some(server), handle, None, ark);
    ApplyConcat(t, keys, last);
  }

  /** A join on an untouched device: log in, then accept what another device sealed for it.
      The device then holds its own keys, the account's root key and id, and is bound. */
  lemma JoinCompletes(s: State, server: string, handle: string, device: nat, account: nat, ark: nat)
    requires Untouched(s, handle) && !s.db.hasContent
    ensures var login := Attempt(Login(server, handle, true, device, account), 4);
            var accept := Attempt(Accept(Some(server), handle, None, ark, account), 4);
            Run(s, [login, accept]) == Joined(s, server, handle, device, ark, account)
  {
    var login := Attempt(Login(server, handle, true, device, account), 4);
    var accept := Attempt(Accept(Some(server), handle, None, ark, account), 4);
    JoinLogsIn(s, server, handle, device, account);
    AcceptFinishes(s, server, handle, device, account, ark);
    RunTwice(s, login, accept);
    FourWrites(s, login);
    FourWrites(After(s, login), accept);
  }

  lemma FourWrites(s: State, a: Attempt)
    requires a.writes == 4 && (a.command.Login? || a.command.Accept?)
    ensures After(s, a) == ApplyAll(s, Writes(s, a.command))
  {
    var ws := Writes(s, a.command);
    assert |ws| <= 4;
    assert |ws| == 4 ==> ws[..4] == ws;
  }

  // ----------------------------------------------------------------------
  // Recovering on a new device
  // ----------------------------------------------------------------------

  /** A recovery on an untouched device stores new device keys, the recovered root key and the
      account, and sets the identity; the relay is not bound yet. */
  lemma RecoverCompletes(s: State, server: string, handle: string, account: nat, recovered: nat, device: nat)
    requires Untouched(s, handle) && !s.db.hasContent
    ensures ApplyAll(s, Writes(s, Recover(server, handle, account, recovered, device)))
         == State(s.store[handle := Material(Some(device), Some(recovered), Some(account))], s.sessions,
                  s.db.(account := Some(account), device := Some(device), server := Some(server)))
  {
    RecoveryWrites(s, server, handle, account, recovered, device);
    RecoveryApplied(s, server, handle, account, recovered, device);
  }

  lemma RecoveryApplied(s: State, server: string, handle: string, account: nat, recovered: nat, device: nat)
    ensures ApplyAll(s, [SaveDevice(handle, device), SaveArk(handle, recovered), SaveId(handle, account)]
                        + [SetIdentity(account, device, server)])
         == State(s.store[handle := Material(Some(device), Some(recovered), Some(account))], s.sessions,
                  s.db.(account := Some(account), device := Some(device), server := Some(server)))
  {
    var keys := [SaveDevice(handle, device), SaveArk(handle, recovered), SaveId(handle, account)];
    KeysWritten(s, handle, device, recovered, account);
    var last := [SetIdentity(account, device, server)];
    AppliedOnce(ApplyAll(s, keys), last[0]);
    ApplyConcat(s, keys, last);
  }

  lemma RecoveryWrites(s: State, server: string, handle: string, account: nat, recovered: nat, device: nat)
    requires Untouched(s, handle) && !s.db.hasContent
    ensures Writes(s, Recover(server, handle, account, recovered, device))
         == [SaveDevice(handle, device), SaveArk(handle, recovered), SaveId(handle, account)]
            + [SetIdentity(account, device, server)]
  {
    var keys := [SaveDevice(handle, device), SaveArk(handle, recovered), SaveId(handle, account)];
    KeysWritten(s, handle, device, recovered, account);
    assert EnsureDevice(s, handle, device) + [SaveArk(handle, recovered), SaveId(handle, account)] == keys;
    var t, last := ApplyAll(s, keys), [SetIdentity(account, device, server)];
    AppliedOnce(t, last[0]);
    assert BindWrites(t, server, handle, account, device) == last + [] == last;
    assert RecoverAllowed(s, server, handle, account, recovered);
  }

  // ----------------------------------------------------------------------
  // Attaching a device that has its keys
  // ----------------------------------------------------------------------

  /** Attaching a device that is not bound yet binds it, under the id it has, or the
      database's account, or a new one. */
  lemma AttachCompletes(s: State, server: string, handle: string, newId: nat)
    requires s.db.binding.None? && AttachAllowed(s, server, handle, Attach, newId)
    ensures var held := Held(s, handle);
            var id := if held.id.Some? then held.id.value else if s.db.account.Some? then s.db.account.value else newId;
            var b := Binding(TrimSlash(server), handle, id, held.device.value, Attach, true);
            ApplyAll(s, Writes(s, AttachExisting(server, handle, newId)))
            == State(if held.id.Some? then s.store else s.store[handle := held.(id := Some(id))],
                     s.sessions + {(handle, TrimSlash(server))},
                     s.db.(account := Some(id), device := held.device, server := Some(TrimSlash(server)), binding := Some(b)))
  {
    var held := Held(s, handle);
    var id := AttachId(s, handle, newId);
    var b := Binding(TrimSlash(server), handle, id, held.device.value, Attach, false);
    AppliedOnce(s, Begin(b));
    var t := s.(db := s.db.(binding := Some(b)));
    var missing := MissingId(s, handle, id);
    if held.id.None? { AppliedOnce(t, SaveId(handle, id)); }
    var u := ApplyAll(t, missing);
    assert u == t.(store := if held.id.Some? then s.store else s.store[handle := held.(id := Some(id))]);
    var last := [SaveSession(handle, server), Activate];
    AppliedTwice(u, last[0], last[1]);
    assert SessionWrites(server, handle, true) == [SaveSession(handle, server)] + [Activate] == last;
    ApplyConcat(s, [Begin(b)], missing);
    ApplyConcat(s, [Begin(b)] + missing, [SaveSession(handle, server), Activate]);
  }
}
