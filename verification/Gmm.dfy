/** The GMM machine as the AMF runs it: callbacks change the UE in place and send events from inside one another. Every
    nested call is proved to end where the sequential reading of the same events ends. */
module Gmm {
  import opened Octets
  import opened GmmSpec

  /** The reaction of a callback, and then everything the events it sends lead to. */
  ghost function After(u: Ue, r: Reaction, p: Peers): Ue { Drain(Absorb(u, r), r.sends, p) }

  /** A queue can be cut anywhere. */
  lemma {:induction false} DrainAppend(u: Ue, q: seq<Post>, q': seq<Post>, p: Peers)
    ensures Drain(u, q + q', p) == Drain(Drain(u, q, p), q', p)
    decreases CostAll(q)
  {
    hide Step;
    if q == [] {
      assert q + q' == q';
    } else {
      var (n, sends) := Step(u, q[0].access, q[0].event, p);
      StepCost(u, q[0].access, q[0].event, p);
      CostAppend(sends, q[1..]);
      DrainAppend(n, sends + q[1..], q', p);
      assert (sends + q[1..]) + q' == sends + (q + q')[1..];
    }
  }

  lemma {:induction false} AfterNothing(u: Ue, r: Reaction, p: Peers)
    requires r.sends == []
    ensures After(u, r, p) == Absorb(u, r)
  {
  }

  /** A failure ends the authentication for two causes always, and for a second synch failure. */
  lemma {:induction false} AkaSends(d: Data, a: Access, c: Cause, resynchronised: Option<AuthType>)
    ensures var r := AkaFailed(d, a, c, resynchronised);
            && r.marks == [] && !r.crash
            && r.sends == if c.MacFailure? || c.Non5GUnacceptable? || (c.SynchFailure? && d.synchFailures >= 1)
                          then [Post(a, AuthFail)] else []
  {
    hide Mild;
  }

  lemma {:induction false} AfterOne(u: Ue, r: Reaction, p: Peers)
    requires |r.sends| == 1
    ensures After(u, r, p) == Drain(Absorb(u, r), [r.sends[0]], p)
  {
    assert r.sends == [r.sends[0]];
  }

  class AmfUe {
    var state3GPP: State
    var stateNon3GPP: State
    /** The UE's other fields. */
    var data: Data
    /** A callback panicked; the process ends. */
    var crashed: bool
    ghost var log: seq<Mark>

    ghost function Snap(): Ue
      reads this
    {
      Ue(state3GPP, stateNon3GPP, data, crashed, log)
    }

    constructor ()
      ensures Snap() == NewUe()
    {
      state3GPP, stateNon3GPP, data, crashed, log := Deregistered, Deregistered, NewUe().data, false, [];
    }

    /** A sequence of NAS messages, each handled to its end before the next one. */
    method HandleAll(inputs: seq<Input>)
      modifies this
      ensures Snap() == Run(old(Snap()), inputs)
    {
      for n := 0 to |inputs|
        invariant Snap() == Run(old(Snap()), inputs[..n])
      {
        assert inputs[..n + 1][..n] == inputs[..n];
        HandleNas(inputs[n]);
      }
      assert inputs[..|inputs|] == inputs;
    }

    /** `HandleNAS` and `Dispatch`: records the integrity check and sends the message to the access's machine. */
    method HandleNas(i: Input)
      modifies this
      ensures Snap() == Handle(old(Snap()), i)
    {
      hide Drain;
      if !crashed {
        data := data.(macFailed := i.macFailed);
        SendEvent(i.access, GmmMessage(i.message), i.peers);
      }
    }

    // ---- The machine ----

    method Current(a: Access) returns (s: State)
      ensures s == At(Snap(), a)
    {
      s := if a == Access3GPP then state3GPP else stateNon3GPP;
    }

    method Set(a: Access, s: State)
      modifies this`state3GPP, this`stateNon3GPP
      ensures Snap() == Move(old(Snap()), a, s)
    {
      if a == Access3GPP {
        state3GPP := s;
      } else {
        stateNon3GPP := s;
      }
    }

    /** `SendEvent`, re-entered by the callbacks it runs: no outer call overwrites what a nested one did. */
    method SendEvent(a: Access, e: Event, p: Peers)
      modifies this
      ensures Snap() == Drain(old(Snap()), [Post(a, e)], p)
      decreases Cost(e), 2
    {
      hide Source, Enter, Drain, Cost, Step, Mild;
      DrainOne(Snap(), a, e, p);
      var s := Current(a);
      ghost var before := Snap();
      log := log + [Sent(a, e)];
      ghost var u := Snap();
      assert u == Note(before, Sent(a, e));
      match Next(s, e)
      case None =>
        StepRefused(before, a, e, p);
        AfterNothing(u, Quiet(u.data), p);
        assert Absorb(u, Quiet(u.data)) == u;
      case Some(t) =>
        ghost var r := Source(data, s, a, e, p);
        OnEvent(s, a, e, p);
        if t == s {
          StepStays(before, a, e, p);
        } else {
          StepGoes(before, a, e, p, t);
          GoesQuietly(s, e, t);
          AfterNothing(u, r, p);
          assert Absorb(u, r) == u;
          data := Exited(data, s);
          Set(a, t);
          OnEntry(t, a, e, p);
        }
    }

    /** The callback of a state on an event other than entry and exit. */
    method OnEvent(s: State, a: Access, e: Event, p: Peers)
      requires s == At(Snap(), a)
      modifies this
      ensures Snap() == After(old(Snap()), Source(old(data), s, a, e, p), p)
      decreases Cost(e), 1
    {
      hide Drain, Mild, After, AtRest, InAuthentication, InContextSetup, ModeCompleted, Authenticate;
      AfterNothing(Snap(), Quiet(data), p);
      assert Absorb(Snap(), Quiet(data)) == Snap();
      if e.AuthRestart? {
        AuthenticationProcedure(a, p);
      } else if e.GmmMessage? {
        match s
        case Deregistered =>
          RestMessage(s, a, e.message, p);
        case Registered =>
          if e.message.DeregistrationRequest? {
            Send(a, InitDeregistration(e.message.target), p, 5);
          } else {
            RestMessage(s, a, e.message, p);
          }
        case Authentication =>
          AuthenticationMessage(a, e.message, p);
        case SecurityMode =>
          if e.message.SecurityModeComplete? {
            HandleSecurityModeComplete(s, a, e.message, p);
          } else if e.message.SecurityModeReject? {
            Send(a, SecurityModeFail, p, 5);
          }
        case ContextSetup =>
          ContextSetupMessage(a, e.message, p);
        case DeregistrationInitiated =>
      }
    }

    /** Sending one event as the last act of a callback that has changed nothing else. */
    method Send(a: Access, e: Event, p: Peers, ghost bound: nat)
      requires Cost(e) < bound
      modifies this
      ensures Snap() == After(old(Snap()), Sends(old(data), a, e), p)
      decreases bound, 0
    {
      hide Drain, Mild, Cost;
      assert Absorb(Snap(), Sends(data, a, e)) == Snap();
      SendEvent(a, e, p);
    }

    /** The entry callbacks. */
    method OnEntry(s: State, a: Access, e: Event, p: Peers)
      requires exists from :: Next(from, e) == Some(s) && from != s
      modifies this
      ensures Snap() == After(old(Snap()), Enter(old(data), s, a, e, p), p)
      decreases Cost(e), 1
    {
      hide Drain, Mild, After, Authenticate, EnterSecurityMode, EnterContextSetup, Accepts;
      match s
      case Deregistered =>
        AfterNothing(Snap(), Quiet(Cleared(data)), p);
        data := Cleared(data);
      case Registered =>
        AfterNothing(Snap(), Quiet(Cleared(data)), p);
        data := Cleared(data);
      case Authentication =>
        AuthenticationProcedure(a, p);
      case SecurityMode =>
        SecurityModeEntry(a, e.eap, p);
      case ContextSetup =>
        ContextSetupEntry(a, e.nas, p);
      case DeregistrationInitiated =>
        HandleDeregistrationRequest(e.target, p);
    }

    // ---- Entry callbacks ----

    /** The authentication procedure, run on entry and on a restart. */
    method AuthenticationProcedure(a: Access, p: Peers)
      modifies this
      ensures Snap() == After(old(Snap()), Authenticate(old(data), a, p), p)
      decreases 4, 0
    {
      hide Drain, Mild;
      ghost var u, r := Snap(), Authenticate(data, a, p);
      var known := Known(data);
      var ok := GmmSpec.Valid(data);
      log := log + [Checked(a, known, ok)];
      if r.sends == [] {
        AfterNothing(u, r, p);
      }
      if !known {
        data := data.(identityRequests := data.identityRequests + 1);
        assert Snap() == Absorb(u, r);
      } else if ok {
        assert Snap() == Absorb(u, r);
        SendEvent(a, AuthSuccess(None), p);
      } else if !p.discovered || p.authenticate.None? {
        assert Snap() == Absorb(u, r);
        SendEvent(a, AuthError, p);
      } else {
        data := data.(authCtx := p.authenticate);
        assert Snap() == Absorb(u, r);
      }
    }

    /** Entering SecurityMode reads the EAP arguments only without a valid security context. */
    method SecurityModeEntry(a: Access, eap: Option<bool>, p: Peers)
      modifies this
      ensures Snap() == After(old(Snap()), EnterSecurityMode(old(data), a, eap, p), p)
      decreases 3, 0
    {
      hide Drain, Mild, After;
      ghost var u, r := Snap(), EnterSecurityMode(data, a, eap, p);
      var ok := GmmSpec.Valid(data);
      log := log + [Entered(a, ok)];
      var next: Option<Event> := None;
      if ok {
        next := Some(SecurityModeSuccess(FromUe));
      } else if eap.None? {
        crashed := true;
      } else if !p.algorithmChosen {
        next := Some(SecurityModeFail);
      } else if p.commandEncoded.Some? {
        data := data.(available := p.commandEncoded.value);
      }
      assert Snap() == Absorb(u, r) && r.sends == if next.Some? then [Post(a, next.value)] else [];
      if next.Some? {
        AfterOne(u, r, p);
        SendEvent(a, next.value, p);
      } else {
        AfterNothing(u, r, p);
      }
    }

    method ContextSetupEntry(a: Access, nas: Nas, p: Peers)
      modifies this
      ensures Snap() == After(old(Snap()), EnterContextSetup(old(data), a, nas, p), p)
      decreases 2, 0
    {
      hide Drain, Mild, SetUp;
      ghost var u, r := Snap(), EnterContextSetup(data, a, nas, p);
      match nas
      case FromUe =>
        RunSetUp(a, p);
      case FromContainer =>
        data := data.(hasRequest := true);
        ghost var v := Snap();
        RunSetUp(a, p);
        assert Absorb(v, r) == Absorb(u, r);
      case Service =>
        AfterNothing(u, r, p);
        data := Served(data, p.serviceUndecipherable);
        assert Snap() == Absorb(u, r);
    }

    /** `HandleInitialRegistration` or `HandleMobilityAndPeriodicRegistrationUpdating`. */
    method RunSetUp(a: Access, p: Peers)
      modifies this
      ensures Snap() == After(old(Snap()), SetUp(old(data), a, p), p)
      decreases 1, 3
    {
      hide Drain, Mild;
      ghost var u, r := Snap(), SetUp(data, a, p);
      if r.sends == [] {
        AfterNothing(u, r, p);
      }
      if data.registrationType == INITIAL || data.registrationType == MOBILITY || data.registrationType == PERIODIC {
        if !data.hasRequest {
          crashed := true;
        }
        assert Snap() == Absorb(u, r);
        if data.hasRequest && !p.setUp {
          SendEvent(a, ContextSetupFail, p);
        }
      } else {
        assert Snap() == Absorb(u, r);
      }
    }

    /** Sends an acceptance to every access type asked for. */
    method HandleDeregistrationRequest(t: Target, p: Peers)
      modifies this
      ensures Snap() == After(old(Snap()), Reaction(old(data), [], Accepts(t), false), p)
      decreases 3, 0
    {
      hide Drain, Mild;
      ghost var u, r := Snap(), Reaction(data, [], Accepts(t), false);
      assert Absorb(u, r) == u;
      match t
      case Only(a) =>
        SendAccept(a, p);
      case Both =>
        DrainAppend(u, [Post(Access3GPP, DeregistrationAccept)], [Post(AccessNon3GPP, DeregistrationAccept)], p);
        assert [Post(Access3GPP, DeregistrationAccept)] + [Post(AccessNon3GPP, DeregistrationAccept)] == Accepts(t);
        SendAccept(Access3GPP, p);
        SendAccept(AccessNon3GPP, p);
      case Neither =>
        AfterNothing(u, r, p);
    }

    method SendAccept(a: Access, p: Peers)
      modifies this
      ensures Snap() == Drain(old(Snap()), [Post(a, DeregistrationAccept)], p)
      decreases 2, 0
    {
      hide Drain, Mild;
      SendEvent(a, DeregistrationAccept, p);
    }

    // ---- NAS messages ----

    /** A message in Deregistered or Registered. */
    method RestMessage(s: State, a: Access, m: Message, p: Peers)
      requires s == At(Snap(), a)
      modifies this
      ensures Snap() == After(old(Snap()), AtRest(old(data), s, a, m), p)
      decreases 5, 0
    {
      hide Drain, Mild, Requested;
      ghost var u, r := Snap(), AtRest(data, s, a, m);
      if r.sends == [] {
        AfterNothing(u, r, p);
      }
      if m.RegistrationRequest? {
        var (n, how) := Requested(data, s, m.request);
        data := n;
        if how.Panicked? {
          crashed := true;
        }
        assert Snap() == Absorb(u, r);
        if how.Accepted? {
          SendEvent(a, StartAuth, p);
        }
      } else if m.ServiceRequest? {
        data := Served(data, m.undecipherable);
        assert Snap() == Absorb(u, r);
      } else {
        assert Snap() == Absorb(u, r);
      }
    }

    /** A message in Authentication. */
    method AuthenticationMessage(a: Access, m: Message, p: Peers)
      modifies this
      ensures Snap() == After(old(Snap()), InAuthentication(old(data), a, m, p), p)
      decreases 5, 0
    {
      hide Drain, Mild, Responded, Failed, IdentityGiven;
      ghost var u, r := Snap(), InAuthentication(data, a, m, p);
      if m.IdentityResponse? {
        if r.sends == [] {
          AfterNothing(u, r, p);
        }
        var (n, ok) := IdentityGiven(data, m.identity, m.requested, m.decodes);
        data := n;
        if ok {
          data := data.(identity := m.identity);
          assert Snap() == Absorb(u, r);
          SendEvent(a, AuthRestart, p);
        } else {
          assert Snap() == Absorb(u, r);
        }
      } else if m.AuthenticationResponse? {
        HandleAuthenticationResponse(a, m, p);
      } else if m.AuthenticationFailure? {
        HandleAuthenticationFailure(a, m, p);
      } else {
        AfterNothing(u, r, p);
        assert Snap() == Absorb(u, r);
      }
    }

    method HandleAuthenticationResponse(a: Access, m: Message, p: Peers)
      requires m.AuthenticationResponse?
      modifies this
      ensures Snap() == After(old(Snap()), Responded(old(data), a, m, p), p)
      decreases 4, 2
    {
      hide Drain, Mild, After, Confirm, Refused;
      ghost var u, r := Snap(), Responded(data, a, m, p);
      if r.sends == [] {
        AfterNothing(u, r, p);
      }
      assert r == Quiet(u.data) ==> Snap() == Absorb(u, r);
      if data.authCtx == Some(Aka5G) {
        if m.decodes && m.hasParameter {
          if !m.matches {
            RefuseResponse(a, p);
          } else if p.confirm.Some? {
            TakeConfirmation(a, Aka5G, p);
          }
        }
      } else if data.authCtx == Some(EapAkaPrime) {
        if !m.hasEap {
          crashed := true;
          assert Snap() == Absorb(u, r);
        } else if p.confirm.Some? {
          TakeConfirmation(a, EapAkaPrime, p);
        }
      }
    }

    method RefuseResponse(a: Access, p: Peers)
      modifies this
      ensures Snap() == After(old(Snap()), Refused(old(data), a), p)
      decreases 2, 0
    {
      hide Drain, Mild;
      ghost var u, r := Snap(), Refused(data, a);
      if data.identity.Guti? && data.identityRequests == 0 {
        AfterNothing(u, r, p);
        data := data.(identityRequests := data.identityRequests + 1);
        assert Snap() == Absorb(u, r);
      } else {
        assert Snap() == Absorb(u, r);
        SendEvent(a, AuthFail, p);
      }
    }

    /** The AUSF's answer. */
    method TakeConfirmation(a: Access, t: AuthType, p: Peers)
      requires p.confirm.Some?
      modifies this
      ensures Snap() == After(old(Snap()), Confirm(old(data), a, t, p.confirm.value), p)
      decreases 4, 1
    {
      hide Drain, Mild, Refused;
      ghost var u, r := Snap(), Confirm(data, a, t, p.confirm.value);
      log := log + [Confirmed(a, t, p.confirm.value)];
      match p.confirm.value
      case Success(s) =>
        data := data.(hasSupi := s);
        assert Snap() == Absorb(u, r);
        SendEvent(a, AuthSuccess(Some(t.EapAkaPrime?)), p);
      case Failure =>
        ghost var v := Snap();
        assert Absorb(v, Refused(v.data, a)) == Absorb(u, r);
        RefuseResponse(a, p);
      case Ongoing =>
        AfterNothing(u, r, p);
        assert Snap() == Absorb(u, r);
    }

    method HandleAuthenticationFailure(a: Access, m: Message, p: Peers)
      requires m.AuthenticationFailure?
      modifies this
      ensures Snap() == After(old(Snap()), Failed(old(data), a, m, p), p)
      decreases 2, 1
    {
      hide Drain, Mild, After, AkaFailed;
      ghost var u, r := Snap(), Failed(data, a, m, p);
      if data.authCtx == Some(Aka5G) {
        HandleAkaFailure(a, m.cause, if m.decodes && m.hasParameter then p.authenticate else None, p);
      } else {
        AfterNothing(u, r, p);
        if data.authCtx.None? {
          crashed := true;
        } else if data.authCtx.value.EapAkaPrime? && m.cause.KsiInUse? {
          data := data.(ksi := NextKsi(data.ksi));
        }
        assert Snap() == Absorb(u, r);
      }
    }

    /** The 5G-AKA causes: ngKSI and counter in place, then the rejection where one is due. */
    method HandleAkaFailure(a: Access, c: Cause, resynchronised: Option<AuthType>, p: Peers)
      modifies this
      ensures Snap() == After(old(Snap()), AkaFailed(old(data), a, c, resynchronised), p)
      decreases 2, 0
    {
      hide Drain, After, AkaFailed;
      ghost var u, r := Snap(), AkaFailed(data, a, c, resynchronised);
      AkaSends(data, a, c, resynchronised);
      var reject := c.MacFailure? || c.Non5GUnacceptable? || (c.SynchFailure? && data.synchFailures >= 1);
      data := AkaFailed(data, a, c, resynchronised).data;
      assert Snap() == Absorb(u, r);
      if reject {
        AfterOne(u, r, p);
        SendEvent(a, AuthFail, p);
      } else {
        AfterNothing(u, r, p);
      }
    }

    /** A completed security mode; a service request in the container is honoured only in Registered. */
    method HandleSecurityModeComplete(s: State, a: Access, m: Message, p: Peers)
      requires m.SecurityModeComplete?
      modifies this
      ensures Snap() == After(old(Snap()), ModeCompleted(old(data), s, a, m), p)
      decreases 3, 0
    {
      hide Drain, Mild;
      ghost var u, r := Snap(), ModeCompleted(data, s, a, m);
      log := log + [Completed(a, data.macFailed)];
      assert Snap() == Absorb(u, r);
      if r.sends == [] {
        AfterNothing(u, r, p);
      }
      if data.macFailed || !m.imeisvDecodes || m.container.Undecipherable? || m.container.Malformed? {
        return;
      }
      var e := SecurityModeSuccess(FromUe);
      if m.container.HoldsRegistration? {
        e := SecurityModeSuccess(FromContainer);
      } else if m.container.HoldsService? {
        e := if s == Registered then SecurityModeSuccess(Service) else SecurityModeFail;
      }
      SendEvent(a, e, p);
    }

    /** A message in ContextSetup. */
    method ContextSetupMessage(a: Access, m: Message, p: Peers)
      modifies this
      ensures Snap() == After(old(Snap()), InContextSetup(old(data), a, m, p), p)
      decreases 3, 0
    {
      hide Drain, Mild, SetUp, IdentityGiven;
      ghost var u, r := Snap(), InContextSetup(data, a, m, p);
      if m.IdentityResponse? {
        var (n, ok) := IdentityGiven(data, m.identity, m.requested, m.decodes);
        data := n;
        if ok {
          ghost var v := Snap();
          RunSetUp(a, p);
          assert Absorb(v, r) == Absorb(u, r);
        } else {
          AfterNothing(u, r, p);
          assert Snap() == Absorb(u, r);
        }
      } else if m.RegistrationComplete? {
        HandleRegistrationComplete(a, p);
      } else {
        AfterNothing(u, r, p);
        assert Snap() == Absorb(u, r);
      }
    }

    method HandleRegistrationComplete(a: Access, p: Peers)
      modifies this
      ensures Snap() == After(old(Snap()), InContextSetup(old(data), a, RegistrationComplete, p), p)
      decreases 2, 0
    {
      hide Drain, Mild;
      ghost var u, r := Snap(), InContextSetup(data, a, RegistrationComplete, p);
      if !data.hasRequest {
        AfterNothing(u, r, p);
        crashed := true;
        assert Snap() == Absorb(u, r);
      } else {
        assert Snap() == Absorb(u, r);
        SendEvent(a, ContextSetupSuccess, p);
      }
    }
  }
}
