/** Where every message ends: a decision table over the UE's fields, the message and the peers' answers, without the
    events in between, and the proof that the event machine ends where the table says. */
module GmmEnds {
  import opened Octets
  import opened GmmSpec
  import opened GmmLaws

  // ---- What a registration request leaves in each field ----

  predicate Begun(d: Data, r: Registration) {
    r.hasRanUe && (d.macFailed || !(r.container.Malformed? || r.container.HoldsService?))
  }

  predicate Named(d: Data, s: State, r: Registration) {
    && Begun(d, r) && r.kind != EMERGENCY && (r.kind == MOBILITY || r.kind == PERIODIC ==> s != Deregistered)
    && r.identity.Some? && (r.identityDecodes || r.identity.value.NoIdentity? || r.identity.value.STmsi?)
  }

  predicate Typed(d: Data, s: State, r: Registration) {
    && Begun(d, r) && r.kind != EMERGENCY && (r.kind == MOBILITY || r.kind == PERIODIC ==> s != Deregistered)
    && r.identity.Some?
  }

  /** The old AMF is asked for the UE's context. */
  predicate Asked(d: Data, s: State, r: Registration) {
    Admitted(d, s, r) && Moved(d, r)
  }

  function KsiLeft(d: Data, s: State, r: Registration): int {
    if HandedKsi(d, s, r).Some? then HandedKsi(d, s, r).value
    else if !Named(d, s, r) then d.ksi
    else if r.native && r.ksi != 7 then r.ksi
    else 0
  }

  /** Whether there is a security context afterwards: an old AMF's answer decides it, and otherwise it is lost to an initial
      registration and to a container that cannot be deciphered. */
  predicate ContextLeft(d: Data, s: State, r: Registration) {
    if Asked(d, s, r) && r.transfer.Some? then r.transfer.value.Incomplete? || r.transfer.value.seafKsi.Some?
    else d.available && !(Begun(d, r) && (r.kind == INITIAL || (r.container.Undecipherable? && !d.macFailed)))
  }

  /** Every field after a registration request, admitted or not. */
  function RequestData(d: Data, s: State, r: Registration): Data {
    var known := Asked(d, s, r) && r.transfer.Some?;
    d.(hasRequest := d.hasRequest || Begun(d, r),
       registrationType := if !Begun(d, r) then d.registrationType else if 1 <= r.kind <= 4 then r.kind else INITIAL,
       identity := if Typed(d, s, r) then r.identity.value else d.identity,
       hasSuci := d.hasSuci || (Named(d, s, r) && r.identity == Some(Suci)),
       hasSupi := d.hasSupi || (known && r.transfer.value.Handed? && r.transfer.value.namesSupi),
       ksi := KsiLeft(d, s, r),
       available := ContextLeft(d, s, r),
       macFailed := d.macFailed && !known,
       amfChanged := if Asked(d, s, r) && r.transfer.None? then false
                     else if Named(d, s, r) && r.identity == Some(Guti) then r.otherAmf
                     else d.amfChanged)
  }

  /** The first half: the container is opened and the registration typed. */
  lemma {:induction false} BegunLeaves(d: Data, s: State, r: Registration)
    ensures var (n, ok) := Opened(d, r.container);
            var (typed, ok') := GmmSpec.Typed(n.(hasRequest := true), s, r.kind);
            && (r.hasRanUe ==> (ok <==> Begun(d, r))) && (!ok ==> n == d)
            && typed == d.(hasRequest := true, registrationType := if 1 <= r.kind <= 4 then r.kind else INITIAL,
                           available := d.available && r.kind != INITIAL && (d.macFailed || !r.container.Undecipherable?))
            && (ok' <==> r.kind != EMERGENCY && (r.kind == MOBILITY || r.kind == PERIODIC ==> s != Deregistered))
  {
  }

  lemma {:induction false} NamedLeaves(d: Data, otherAmf: bool)
    ensures GmmSpec.Named(d, otherAmf) == d.(hasSuci := d.hasSuci || d.identity.Suci?,
                                             amfChanged := if d.identity.Guti? then otherAmf else d.amfChanged)
  {
  }

  /** A request whose sender could be named gets as far as the old AMF, if there is one. */
  predicate Reached(d: Data, r: Registration) {
    && (r.identityDecodes || d.identity.NoIdentity? || d.identity.STmsi?)
    && r.taiServed && (r.hasCapability || r.kind == PERIODIC) && (if d.identity.Guti? then r.otherAmf else d.amfChanged)
  }

  function IdentifiedData(d: Data, r: Registration): Data {
    var named := r.identityDecodes || d.identity.NoIdentity? || d.identity.STmsi?;
    var known := Reached(d, r) && r.transfer.Some?;
    var handed := known && r.transfer.value.Handed?;
    d.(hasSuci := d.hasSuci || (named && d.identity.Suci?),
       hasSupi := d.hasSupi || (handed && r.transfer.value.namesSupi),
       ksi := if handed && r.transfer.value.seafKsi.Some? then r.transfer.value.seafKsi.value
              else if !named then d.ksi else if r.native && r.ksi != 7 then r.ksi else 0,
       available := if known then r.transfer.value.Incomplete? || r.transfer.value.seafKsi.Some? else d.available,
       macFailed := d.macFailed && !known,
       amfChanged := if Reached(d, r) && r.transfer.None? then false
                     else if named && d.identity.Guti? then r.otherAmf else d.amfChanged)
  }

  /** The UE is named and its ngKSI noted. */
  function Keyed(d: Data, r: Registration): Data {
    d.(hasSuci := d.hasSuci || d.identity.Suci?, amfChanged := if d.identity.Guti? then r.otherAmf else d.amfChanged,
       ksi := if r.native && r.ksi != 7 then r.ksi else 0)
  }

  lemma {:induction false} IdentifiedHalves(d: Data, r: Registration)
    ensures Identified(d, r).0
            == if !(r.identityDecodes || d.identity.NoIdentity? || d.identity.STmsi?) then d
               else if Reached(d, r) then Transferred(Keyed(d, r), r.transfer).0
               else Keyed(d, r)
  {
    hide Transferred;
    NamedLeaves(d, r.otherAmf);
  }

  /** The second half: the UE is named and, if it comes from another AMF, its context asked for. */
  lemma {:induction false} IdentifiedLeaves(d: Data, r: Registration)
    ensures Identified(d, r).0 == IdentifiedData(d, r)
  {
    hide Identified, Transferred;
    IdentifiedHalves(d, r);
    if Reached(d, r) {
      TransferLeaves(Keyed(d, r), r.transfer);
    }
  }

  lemma {:induction false} TransferLeaves(d: Data, t: Option<Transfer>)
    ensures Transferred(d, t).0
            == d.(available := if t.Some? then t.value.Incomplete? || t.value.seafKsi.Some? else d.available,
                  macFailed := d.macFailed && t.None?,
                  hasSupi := d.hasSupi || (t.Some? && t.value.Handed? && t.value.namesSupi),
                  ksi := if t.Some? && t.value.Handed? && t.value.seafKsi.Some? then t.value.seafKsi.value else d.ksi,
                  amfChanged := d.amfChanged && t.Some?)
  {
  }

  function Opening(d: Data, r: Registration): Data {
    d.(hasRequest := true, registrationType := if 1 <= r.kind <= 4 then r.kind else INITIAL,
       available := d.available && r.kind != INITIAL && (d.macFailed || !r.container.Undecipherable?))
  }

  lemma {:induction false} RequestHalves(d: Data, s: State, r: Registration)
    ensures if !Begun(d, r) then Requested(d, s, r).0 == d
            else if !Typed(d, s, r) then Requested(d, s, r).0 == Opening(d, r)
            else Requested(d, s, r) == Identified(Opening(d, r).(identity := r.identity.value), r)
  {
    hide Identified, Opened, GmmSpec.Typed;
    BegunLeaves(d, s, r);
  }

  lemma {:induction false} ReachedWhen(d: Data, s: State, r: Registration)
    requires Typed(d, s, r)
    ensures Reached(Opening(d, r).(identity := r.identity.value), r) <==> Asked(d, s, r)
  {
  }

  lemma {:induction false} KsiTable(d: Data, s: State, r: Registration)
    requires Typed(d, s, r)
    ensures IdentifiedData(Opening(d, r).(identity := r.identity.value), r).ksi == KsiLeft(d, s, r)
  {
    hide Reached, Asked, Admitted, Moved;
    ReachedWhen(d, s, r);
    AskedHands(d, s, r);
  }

  lemma {:induction false} AskedHands(d: Data, s: State, r: Registration)
    ensures HandedKsi(d, s, r)
            == if Asked(d, s, r) && r.transfer.Some? && r.transfer.value.Handed? then r.transfer.value.seafKsi else None
  {
  }

  lemma {:induction false} TypedTable(d: Data, s: State, r: Registration)
    requires Typed(d, s, r)
    ensures IdentifiedData(Opening(d, r).(identity := r.identity.value), r) == RequestData(d, s, r)
  {
    hide Reached, Asked, Admitted, Moved, KsiLeft;
    ReachedWhen(d, s, r);
    KsiTable(d, s, r);
  }

  /** The table of fields is what the handler leaves. */
  lemma {:induction false} RequestLeaves(d: Data, s: State, r: Registration)
    ensures Requested(d, s, r).0 == RequestData(d, s, r)
  {
    hide Identified, Requested, IdentifiedData;
    RequestHalves(d, s, r);
    if Typed(d, s, r) {
      hide RequestData, Opening, Typed;
      var n := Opening(d, r).(identity := r.identity.value);
      IdentifiedLeaves(n, r);
      TypedTable(d, s, r);
    }
  }

  // ---- Where a registration ends ----

  /** Where an access comes to rest, with what data, and whether the AMF has panicked. */
  datatype End = End(state: State, data: Data, panics: bool)

  /** The registration is over: its data cleared. */
  function Over(d: Data): End {
    End(Deregistered, d.(hasRequest := false, registrationType := 0, identity := NoIdentity, synchFailures := 0,
                         identityRequests := 0, amfChanged := false), false)
  }

  /** The authentication is over: its data cleared. */
  function Left(d: Data): Data { d.(authCtx := None, synchFailures := 0, identityRequests := 0) }

  predicate Protected(d: Data) { d.available && d.ksi != 7 && !d.macFailed }

  /** The registration handlers: an unknown type does nothing, a missing request panics, a handler that fails ends it. */
  function SetUpEnd(d: Data, p: Peers): End {
    if !(1 <= d.registrationType <= 3) then End(ContextSetup, d, false)
    else if !d.hasRequest then End(ContextSetup, d, true)
    else if p.setUp then End(ContextSetup, d, false)
    else Over(d)
  }

  /** After a successful authentication: a valid context needs no security mode; otherwise a command goes out, unless there
      is no algorithm to choose or the result of the authentication was not passed on. */
  function ModeEnd(d: Data, eap: Option<bool>, p: Peers): End {
    if Protected(d) then SetUpEnd(d, p)
    else if eap.None? then End(SecurityMode, d, true)
    else if !p.algorithmChosen then Over(d)
    else End(SecurityMode, d.(available := if p.commandEncoded.Some? then p.commandEncoded.value else d.available), false)
  }

  /** On entering Authentication: an unknown UE is asked who it is, a known one with a valid context goes on, and for the
      others the AUSF gives a challenge or ends the registration. */
  function ChallengeEnd(d: Data, p: Peers): End {
    if !d.hasSupi && !d.hasSuci then End(Authentication, d.(identityRequests := d.identityRequests + 1), false)
    else if Protected(d) then ModeEnd(Left(d), None, p)
    else if p.discovered && p.authenticate.Some? then End(Authentication, d.(authCtx := p.authenticate), false)
    else Over(Left(d))
  }

  /** A UE that registered by its 5G-GUTI may still say who it is, once; for every other the registration is over. */
  function RefusedEnd(d: Data): End {
    if d.identity.Guti? && d.identityRequests == 0 then End(Authentication, d.(identityRequests := 1), false)
    else Over(Left(d))
  }

  function ConfirmedEnd(d: Data, eap: bool, p: Peers): End {
    match p.confirm
    case Some(Success(namesSupi)) => ModeEnd(Left(d.(hasSupi := namesSupi)), Some(eap), p)
    case Some(Failure) => RefusedEnd(d)
    case _ => End(Authentication, d, false)
  }

  /** An authentication response to the challenge that was sent. */
  function ResponseEnd(d: Data, m: Message, p: Peers): End
    requires m.AuthenticationResponse?
  {
    if d.authCtx == Some(Aka5G) && m.decodes && m.hasParameter then
      if m.matches then ConfirmedEnd(d, false, p) else RefusedEnd(d)
    else if d.authCtx == Some(EapAkaPrime) then
      if m.hasEap then ConfirmedEnd(d, true, p) else End(Authentication, d, true)
    else End(Authentication, d, false)
  }

  /** An authentication failure after a 5G-AKA challenge: a wrong MAC and the wrong kind of authentication end the
      registration, and so does the second synch failure pending; the first is answered with a new challenge if the AUSF
      gives one. */
  function AkaEnd(d: Data, c: Cause, resynchronised: Option<AuthType>): End {
    if c.MacFailure? || c.Non5GUnacceptable? || (c.SynchFailure? && d.synchFailures >= 1) then Over(Left(d))
    else if c.KsiInUse? then End(Authentication, d.(ksi := AfterKsi(d.ksi), synchFailures := 0), false)
    else if c.SynchFailure? then
      End(Authentication, d.(synchFailures := 1, authCtx := if resynchronised.Some? then resynchronised else d.authCtx), false)
    else End(Authentication, d, false)
  }

  function AfterKsi(k: int): int { if k < 6 then k + 1 else 0 }

  function FailureEnd(d: Data, m: Message, p: Peers): End
    requires m.AuthenticationFailure?
  {
    match d.authCtx
    case None => End(Authentication, d, true)
    case Some(Aka5G) => AkaEnd(d, m.cause, if m.decodes && m.hasParameter then p.authenticate else None)
    case Some(EapAkaPrime) => End(Authentication, d.(ksi := if m.cause.KsiInUse? then AfterKsi(d.ksi) else d.ksi), false)
    case _ => End(Authentication, d, false)
  }

  /** An identity counts when it was asked for: a SUCI that decodes, no identity at all, or another one that decodes under
      integrity protection. */
  predicate Identifies(d: Data, m: Message)
    requires m.IdentityResponse?
  {
    m.requested && (if m.identity.Suci? then m.decodes else m.identity.NoIdentity? || (m.decodes && !d.macFailed))
  }

  function IdentifiedAs(d: Data, m: Message): Data
    requires m.IdentityResponse?
  {
    d.(hasSuci := d.hasSuci || (m.requested && m.identity.Suci? && m.decodes))
  }

  /** A completed security mode goes on with the request that was stored or came along; a service request in its place ends
      the registration. */
  function CompletedEnd(d: Data, m: Message, p: Peers): End
    requires m.SecurityModeComplete?
  {
    if d.macFailed || !m.imeisvDecodes || m.container.Undecipherable? || m.container.Malformed? then End(SecurityMode, d, false)
    else if m.container.HoldsService? then Over(d)
    else SetUpEnd(if m.container.HoldsRegistration? then d.(hasRequest := true) else d, p)
  }

  /** Where a message ends that arrives in state `s`, deregistrations apart. */
  function MessageEnd(d: Data, s: State, m: Message, p: Peers): End {
    match (s, m)
    case (Authentication, IdentityResponse(i, _, _)) =>
      if Identifies(d, m) then ChallengeEnd(IdentifiedAs(d, m).(identity := i), p) else End(s, IdentifiedAs(d, m), false)
    case (Authentication, AuthenticationResponse(_, _, _, _)) => ResponseEnd(d, m, p)
    case (Authentication, AuthenticationFailure(_, _, _)) => FailureEnd(d, m, p)
    case (SecurityMode, SecurityModeComplete(_, _)) => CompletedEnd(d, m, p)
    case (SecurityMode, SecurityModeReject) => Over(d)
    case (ContextSetup, IdentityResponse(_, _, _)) =>
      if Identifies(d, m) then SetUpEnd(IdentifiedAs(d, m), p) else End(s, IdentifiedAs(d, m), false)
    case (ContextSetup, RegistrationComplete) => if d.hasRequest then Over(d).(state := Registered) else End(s, d, true)
    case (_, RegistrationRequest(r)) =>
      if s != Deregistered && s != Registered then End(s, d, false)
      else
        var n := RequestData(d, s, r);
        if Broken(d, s, r) then End(s, n, true) else if Admitted(d, s, r) then ChallengeEnd(n, p) else End(s, n, false)
    case (_, ServiceRequest(undecipherable)) =>
      if s == Deregistered || s == Registered then End(s, d.(available := d.available && !(Protected(d) && undecipherable)), false)
      else End(s, d, false)
    case (_, _) => End(s, d, false)
  }

  // ---- The event machine ends there ----

  /** An access ends there, and the other is as it was. */
  predicate Ends(u: Ue, v: Ue, a: Access, e: End) {
    && At(v, a) == e.state && v.data == e.data && At(v, Other(a)) == At(u, Other(a))
    && v.crashed == (u.crashed || e.panics)
  }

  lemma {:induction false} OverReached(u: Ue, a: Access, e: Event, p: Peers)
    requires Next(At(u, a), e) == Some(Deregistered) && At(u, a) != Deregistered
    ensures Ends(u, Drain(u, [Post(a, e)], p), a, Over(if At(u, a) == Authentication then Left(u.data) else u.data))
  {
    hide Drain, Step, Next;
    DrainOne(u, a, e, p);
    StepGoes(u, a, e, p, Deregistered);
    DrainNothing(Step(u, a, e, p).0, p);
  }

  /** What a reaction of the set-up handlers leads to in ContextSetup. */
  lemma {:induction false} SetUpReached(u: Ue, a: Access, d: Data, p: Peers)
    requires At(u, a) == ContextSetup
    ensures var r := SetUp(d, a, p); Ends(u, Drain(Absorb(u, r), r.sends, p), a, SetUpEnd(d, p))
  {
    hide Drain, Over;
    var r := SetUp(d, a, p);
    var n := Absorb(u, r);
    if r.sends == [] {
      DrainNothing(n, p);
    } else {
      OverReached(n, a, ContextSetupFail, p);
    }
  }

  lemma {:induction false} SecuredReached(u: Ue, a: Access, nas: Nas, p: Peers)
    requires At(u, a) == SecurityMode && !nas.Service?
    ensures Ends(u, Drain(u, [Post(a, SecurityModeSuccess(nas))], p), a,
                 SetUpEnd(if nas.FromContainer? then u.data.(hasRequest := true) else u.data, p))
  {
    hide Drain, Step, SetUp, SetUpEnd;
    var e := SecurityModeSuccess(nas);
    var d := if nas.FromContainer? then u.data.(hasRequest := true) else u.data;
    DrainOne(u, a, e, p);
    StepGoes(u, a, e, p, ContextSetup);
    SetUpReached(Move(Note(u, Sent(a, e)), a, ContextSetup), a, d, p);
  }

  /** What a reaction of the SecurityMode entry leads to. */
  lemma {:induction false} EnteredReached(u: Ue, a: Access, d: Data, eap: Option<bool>, p: Peers)
    requires At(u, a) == SecurityMode
    ensures var r := EnterSecurityMode(d, a, eap, p); Ends(u, Drain(Absorb(u, r), r.sends, p), a, ModeEnd(d, eap, p))
  {
    hide Drain, Over, SetUpEnd;
    var r := EnterSecurityMode(d, a, eap, p);
    var n := Absorb(u, r);
    if r.sends == [] {
      DrainNothing(n, p);
    } else if Protected(d) {
      SecuredReached(n, a, FromUe, p);
    } else {
      OverReached(n, a, SecurityModeFail, p);
    }
  }

  lemma {:induction false} ModeReached(u: Ue, a: Access, eap: Option<bool>, p: Peers)
    requires At(u, a) == Authentication
    ensures Ends(u, Drain(u, [Post(a, AuthSuccess(eap))], p), a, ModeEnd(Left(u.data), eap, p))
  {
    hide Drain, Step, EnterSecurityMode, ModeEnd;
    var e := AuthSuccess(eap);
    DrainOne(u, a, e, p);
    StepGoes(u, a, e, p, SecurityMode);
    EnteredReached(Move(Note(u, Sent(a, e)), a, SecurityMode), a, Left(u.data), eap, p);
  }

  /** What the authentication procedure leads to. */
  lemma {:induction false} ChallengeReached(u: Ue, a: Access, d: Data, p: Peers)
    requires At(u, a) == Authentication
    ensures var r := Authenticate(d, a, p); Ends(u, Drain(Absorb(u, r), r.sends, p), a, ChallengeEnd(d, p))
  {
    hide Drain, Over, ModeEnd;
    var r := Authenticate(d, a, p);
    var n := Absorb(u, r);
    if r.sends == [] {
      DrainNothing(n, p);
    } else if Protected(d) {
      ModeReached(n, a, None, p);
    } else {
      OverReached(n, a, AuthError, p);
    }
  }

  lemma {:induction false} RefusedReached(u: Ue, a: Access, d: Data, p: Peers)
    requires At(u, a) == Authentication
    ensures var r := Refused(d, a); Ends(u, Drain(Absorb(u, r), r.sends, p), a, RefusedEnd(d))
  {
    hide Drain, Over, Mild;
    var r := Refused(d, a);
    var n := Absorb(u, r);
    if r.sends == [] {
      DrainNothing(n, p);
    } else {
      OverReached(n, a, AuthFail, p);
    }
  }

  lemma {:induction false} ConfirmedReached(u: Ue, a: Access, d: Data, t: AuthType, p: Peers)
    requires At(u, a) == Authentication && p.confirm.Some?
    ensures var r := Confirm(d, a, t, p.confirm.value);
            Ends(u, Drain(Absorb(u, r), r.sends, p), a, ConfirmedEnd(d, t.EapAkaPrime?, p))
  {
    hide Drain, ModeEnd, Refused, RefusedEnd, Mild;
    var r := Confirm(d, a, t, p.confirm.value);
    var n := Absorb(u, r);
    match p.confirm.value
    case Success(namesSupi) => ModeReached(n, a, Some(t.EapAkaPrime?), p);
    case Failure =>
      var noted := u.(log := u.log + [Confirmed(a, t, Failure)]);
      RefusedMarked(u, d, a, t);
      RefusedReached(noted, a, d, p);
    case Ongoing => DrainNothing(n, p);
  }

  lemma {:induction false} RefusedMarked(u: Ue, d: Data, a: Access, t: AuthType)
    ensures Absorb(u, Marked(Confirmed(a, t, Failure), Refused(d, a)))
            == Absorb(u.(log := u.log + [Confirmed(a, t, Failure)]), Refused(d, a))
  {
    hide Mild;
    assert u.log + [Confirmed(a, t, Failure)] + [] == u.log + ([Confirmed(a, t, Failure)] + []);
  }

  lemma {:induction false} ResponseReached(u: Ue, a: Access, m: Message, p: Peers)
    requires At(u, a) == Authentication && m.AuthenticationResponse?
    ensures var r := Responded(u.data, a, m, p); Ends(u, Drain(Absorb(u, r), r.sends, p), a, ResponseEnd(u.data, m, p))
  {
    hide Drain, Confirm, Refused, ConfirmedEnd, RefusedEnd, Mild;
    var r := Responded(u.data, a, m, p);
    var n := Absorb(u, r);
    if p.confirm.Some? {
      ConfirmedReached(u, a, u.data, Aka5G, p);
      ConfirmedReached(u, a, u.data, EapAkaPrime, p);
    } else {
      Unconfirmed(u.data, p);
    }
    RefusedReached(u, a, u.data, p);
    if r.sends == [] {
      DrainNothing(n, p);
    }
  }

  lemma {:induction false} Unconfirmed(d: Data, p: Peers)
    requires p.confirm.None?
    ensures forall eap :: ConfirmedEnd(d, eap, p) == End(Authentication, d, false)
  {
  }

  /** A reaction that stays with its data, or rejects the authentication. */
  predicate StaysOrFails(r: Reaction, a: Access, e: End) {
    && r.marks == [] && r.crash == e.panics
    && if r.sends == [] then e.state == Authentication && e.data == r.data
       else r.sends == [Post(a, AuthFail)] && e == Over(Left(r.data))
  }

  lemma {:induction false} Stays(d: Data, a: Access)
    ensures StaysOrFails(Quiet(d), a, End(Authentication, d, false)) && StaysOrFails(Crash(d), a, End(Authentication, d, true))
    ensures StaysOrFails(Sends(d, a, AuthFail), a, Over(Left(d)))
  {
    hide Over, Left;
    OverStays(Left(d));
  }

  lemma {:induction false} LeftForgets(d: Data, n: nat)
    ensures Left(d.(synchFailures := n)) == Left(d)
  {
  }

  lemma {:induction false} AkaFails(d: Data, a: Access, c: Cause, resynchronised: Option<AuthType>)
    ensures StaysOrFails(AkaFailed(d, a, c, resynchronised), a, AkaEnd(d, c, resynchronised))
  {
    hide Mild, StaysOrFails, Left, Over;
    var r := AkaFailed(d, a, c, resynchronised);
    LeftForgets(d, d.synchFailures + 1);
    Stays(r.data, a);
  }

  lemma {:induction false} FailureReacts(d: Data, a: Access, m: Message, p: Peers)
    requires m.AuthenticationFailure?
    ensures StaysOrFails(Failed(d, a, m, p), a, FailureEnd(d, m, p))
  {
    hide Mild, AkaFailed, AkaEnd, StaysOrFails, Cost;
    match d.authCtx
    case None => Stays(d, a);
    case Some(Aka5G) => AkaFails(d, a, m.cause, if m.decodes && m.hasParameter then p.authenticate else None);
    case Some(EapAkaPrime) => Stays(if m.cause.KsiInUse? then d.(ksi := NextKsi(d.ksi)) else d, a);
    case Some(OtherAuth) => Stays(d, a);
  }

  lemma {:induction false} FailureReached(u: Ue, a: Access, m: Message, p: Peers)
    requires At(u, a) == Authentication && m.AuthenticationFailure?
    ensures var r := Failed(u.data, a, m, p); Ends(u, Drain(Absorb(u, r), r.sends, p), a, FailureEnd(u.data, m, p))
  {
    hide Drain, Mild, Failed, FailureEnd, Over, Left;
    var r := Failed(u.data, a, m, p);
    var n := Absorb(u, r);
    FailureReacts(u.data, a, m, p);
    if r.sends == [] {
      DrainNothing(n, p);
    } else {
      OverReached(n, a, AuthFail, p);
      OverStays(r.data);
    }
  }

  lemma {:induction false} OverStays(d: Data)
    ensures !Over(d).panics && Over(d).state == Deregistered
  {
  }

  /** A reaction that sends nothing ends where it is. */
  lemma {:induction false} QuietReached(u: Ue, a: Access, d: Data, crash: bool, p: Peers)
    ensures var r := Reaction(d, [], [], crash); Ends(u, Drain(Absorb(u, r), r.sends, p), a, End(At(u, a), d, crash))
  {
    hide Drain;
    DrainNothing(Absorb(u, Reaction(d, [], [], crash)), p);
  }

  lemma {:induction false} RestartReached(u: Ue, a: Access, d: Data, p: Peers)
    requires At(u, a) == Authentication
    ensures var r := Sends(d, a, AuthRestart); Ends(u, Drain(Absorb(u, r), r.sends, p), a, ChallengeEnd(d, p))
  {
    hide Drain, Step, Authenticate, ChallengeEnd;
    var n := Absorb(u, Sends(d, a, AuthRestart));
    DrainOne(n, a, AuthRestart, p);
    StepStays(n, a, AuthRestart, p);
    ChallengeReached(Note(n, Sent(a, AuthRestart)), a, d, p);
  }

  lemma {:induction false} StartReached(u: Ue, a: Access, d: Data, p: Peers)
    requires At(u, a) == Deregistered || At(u, a) == Registered
    ensures var r := Sends(d, a, StartAuth); Ends(u, Drain(Absorb(u, r), r.sends, p), a, ChallengeEnd(d, p))
  {
    hide Drain, Step, Authenticate, ChallengeEnd;
    var n := Absorb(u, Sends(d, a, StartAuth));
    DrainOne(n, a, StartAuth, p);
    StepGoes(n, a, StartAuth, p, Authentication);
    ChallengeReached(Move(Note(n, Sent(a, StartAuth)), a, Authentication), a, d, p);
  }

  lemma {:induction false} IdentityTold(d: Data, m: Message)
    requires m.IdentityResponse?
    ensures IdentityGiven(d, m.identity, m.requested, m.decodes) == (IdentifiedAs(d, m), Identifies(d, m))
  {
  }

  /** What a message leads to, in the state that it arrives in. */
  ghost predicate Arrives(u: Ue, a: Access, m: Message, p: Peers) {
    var r := Source(u.data, At(u, a), a, GmmMessage(m), p);
    Ends(u, Drain(Absorb(u, r), r.sends, p), a, MessageEnd(u.data, At(u, a), m, p))
  }

  lemma {:induction false} AuthenticationReached(u: Ue, a: Access, m: Message, p: Peers)
    requires At(u, a) == Authentication
    ensures Arrives(u, a, m, p)
  {
    hide Drain, Ends, Responded, Failed, ResponseEnd, FailureEnd, ChallengeEnd, IdentityGiven, Identifies, IdentifiedAs, Mild, Cost;
    var d := u.data;
    if m.IdentityResponse? {
      IdentityTold(d, m);
      if Identifies(d, m) {
        RestartReached(u, a, IdentifiedAs(d, m).(identity := m.identity), p);
      } else {
        QuietReached(u, a, IdentifiedAs(d, m), false, p);
      }
    } else if m.AuthenticationResponse? {
      ResponseReached(u, a, m, p);
    } else if m.AuthenticationFailure? {
      FailureReached(u, a, m, p);
    } else {
      QuietReached(u, a, d, false, p);
    }
  }

  lemma {:induction false} RestReached(u: Ue, a: Access, m: Message, p: Peers)
    requires At(u, a) == Deregistered || (At(u, a) == Registered && !m.DeregistrationRequest?)
    ensures Arrives(u, a, m, p)
  {
    hide Drain, Ends, Requested, RequestData, Admitted, Moved, ChallengeEnd, Mild, Cost;
    var d, s := u.data, At(u, a);
    if m.RegistrationRequest? {
      RequestedExactly(d, s, m.request);
      RequestLeaves(d, s, m.request);
      var n := RequestData(d, s, m.request);
      if Broken(d, s, m.request) {
        QuietReached(u, a, n, true, p);
      } else if Admitted(d, s, m.request) {
        StartReached(u, a, n, p);
      } else {
        QuietReached(u, a, n, false, p);
      }
    } else if m.ServiceRequest? {
      QuietReached(u, a, Served(d, m.undecipherable), false, p);
    } else {
      QuietReached(u, a, d, false, p);
    }
  }

  lemma {:induction false} ContextSetupReached(u: Ue, a: Access, m: Message, p: Peers)
    requires At(u, a) == ContextSetup
    ensures Arrives(u, a, m, p)
  {
    hide Drain, SetUp, SetUpEnd, IdentityGiven, Identifies, IdentifiedAs, Mild, Cost;
    var d := u.data;
    if m.IdentityResponse? {
      IdentityTold(d, m);
      if Identifies(d, m) {
        SetUpReached(u, a, IdentifiedAs(d, m), p);
      } else {
        QuietReached(u, a, IdentifiedAs(d, m), false, p);
      }
    } else if m.RegistrationComplete? && d.hasRequest {
      CompletionReached(u, a, p);
    } else {
      QuietReached(u, a, d, m.RegistrationComplete?, p);
    }
  }

  lemma {:induction false} CompletionReached(u: Ue, a: Access, p: Peers)
    requires At(u, a) == ContextSetup
    ensures var r := Sends(u.data, a, ContextSetupSuccess);
            Ends(u, Drain(Absorb(u, r), r.sends, p), a, Over(u.data).(state := Registered))
  {
    hide Drain, Step;
    var n := Absorb(u, Sends(u.data, a, ContextSetupSuccess));
    DrainOne(n, a, ContextSetupSuccess, p);
    StepGoes(n, a, ContextSetupSuccess, p, Registered);
    DrainNothing(Step(n, a, ContextSetupSuccess, p).0, p);
  }

  lemma {:induction false} SecurityModeReached(u: Ue, a: Access, m: Message, p: Peers)
    requires At(u, a) == SecurityMode
    ensures Arrives(u, a, m, p)
  {
    hide Drain, SetUpEnd, Over, Mild, Cost;
    var d := u.data;
    var r := Source(d, SecurityMode, a, GmmMessage(m), p);
    var n := Absorb(u, r);
    if r.sends == [] {
      DrainNothing(n, p);
    } else if r.sends[0].event.SecurityModeFail? {
      OverReached(n, a, SecurityModeFail, p);
    } else {
      SecuredReached(n, a, r.sends[0].event.nas, p);
    }
  }

  /** Where every message but a registered UE's deregistration ends: the access it arrived on comes to rest in the state and
      with the data of the table, the AMF panics if the table says so, and the other access has not moved. */
  lemma {:induction false} MessageEnds(u: Ue, i: Input)
    requires !u.crashed && !(At(u, i.access) == Registered && i.message.DeregistrationRequest?)
    ensures Ends(u, Handle(u, i), i.access, MessageEnd(Received(u, i).data, At(u, i.access), i.message, i.peers))
  {
    hide Drain, Source, MessageEnd, Step, Next;
    var w, a, e, s := Received(u, i), i.access, GmmMessage(i.message), At(u, i.access);
    var n := Note(w, Sent(a, e));
    HandleUnfold(u, i);
    if s == DeregistrationInitiated {
      MessageRefused(i.message);
      StepRefused(w, a, e, i.peers);
      DrainNothing(n, i.peers);
      RefusedStays(w.data, i.message, i.peers);
    } else {
      MessageStays(s, i.message);
      StepStays(w, a, e, i.peers);
      match s
      case Authentication => AuthenticationReached(n, a, i.message, i.peers);
      case SecurityMode => SecurityModeReached(n, a, i.message, i.peers);
      case ContextSetup => ContextSetupReached(n, a, i.message, i.peers);
      case _ => RestReached(n, a, i.message, i.peers);
    }
  }

  lemma {:induction false} MessageRefused(m: Message)
    ensures Next(DeregistrationInitiated, GmmMessage(m)) == None
  {
  }

  lemma {:induction false} RefusedStays(d: Data, m: Message, p: Peers)
    ensures MessageEnd(d, DeregistrationInitiated, m, p) == End(DeregistrationInitiated, d, false)
  {
  }

  // ---- The table read out ----

  /** The UE says who it is, or is known already, or its old AMF names its SUPI. */
  predicate KnownAfter(d: Data, s: State, r: Registration) {
    || d.hasSupi || d.hasSuci || r.identity == Some(Suci)
    || (Asked(d, s, r) && r.transfer.Some? && r.transfer.value.Handed? && r.transfer.value.namesSupi)
  }

  predicate ProtectedAfter(d: Data, s: State, r: Registration) {
    ContextLeft(d, s, r) && KsiLeft(d, s, r) != 7 && !(d.macFailed && !(Asked(d, s, r) && r.transfer.Some?))
  }

  /** An access at rest on which nothing of a registration is left. */
  predicate Unregistered(v: Ue, a: Access) {
    && At(v, a) == Deregistered && v.data.authCtx.None? && !v.data.hasRequest && v.data.registrationType == 0
    && v.data.identity.NoIdentity? && v.data.synchFailures == 0 && v.data.identityRequests == 0 && !v.data.amfChanged
  }

  /** An admitted registration request ends where its fields and the peers' answers say: an unknown UE is asked once more
      who it is; without a valid context, a missing AUSF ends the registration and an answering one leaves its challenge;
      with one, only the set-up can still fail. */
  lemma {:induction false} RegistrationEnds(u: Ue, i: Input)
    requires !u.crashed && (At(u, i.access) == Deregistered || At(u, i.access) == Registered) && i.message.RegistrationRequest?
    requires Admitted(Received(u, i).data, At(u, i.access), i.message.request)
    requires !Broken(Received(u, i).data, At(u, i.access), i.message.request)
    ensures var d, s, r := Received(u, i).data, At(u, i.access), i.message.request;
            var v := Handle(u, i);
            !v.crashed && At(v, Other(i.access)) == At(u, Other(i.access)) &&
            if !KnownAfter(d, s, r) then
              At(v, i.access) == Authentication && v.data.identityRequests == d.identityRequests + 1 && v.data.authCtx == d.authCtx
            else if ProtectedAfter(d, s, r) then
              if i.peers.setUp then At(v, i.access) == ContextSetup && v.data.hasRequest else Unregistered(v, i.access)
            else if !i.peers.discovered || i.peers.authenticate.None? then Unregistered(v, i.access)
            else At(v, i.access) == Authentication && v.data.authCtx == i.peers.authenticate
  {
    hide Handle, Admitted, Moved, ContextLeft, KsiLeft, Asked;
    MessageEnds(u, i);
    var d, s, r := Received(u, i).data, At(u, i.access), i.message.request;
    AdmittedNamed(d, s, r);
  }

  lemma {:induction false} AdmittedNamed(d: Data, s: State, r: Registration)
    requires Admitted(d, s, r)
    ensures Begun(d, r) && Typed(d, s, r) && Named(d, s, r) && r.kind != EMERGENCY
  {
  }

  /** A challenge that is answered wrongly, or by an answer that the AUSF refuses, ends the registration, unless the UE came
      with its 5G-GUTI and has not been asked for its identity yet. */
  lemma {:induction false} RefusalEnds(u: Ue, i: Input)
    requires !u.crashed && At(u, i.access) == Authentication && i.message.AuthenticationResponse?
    requires u.data.authCtx == Some(Aka5G) && i.message.decodes && i.message.hasParameter
    requires !i.message.matches || i.peers.confirm == Some(Failure)
    ensures var v := Handle(u, i);
            if u.data.identity.Guti? && u.data.identityRequests == 0 then
              At(v, i.access) == Authentication && v.data.identityRequests == 1 && v.data.authCtx == Some(Aka5G)
            else Unregistered(v, i.access)
  {
    hide Handle;
    MessageEnds(u, i);
  }

  /** A confirmed answer leads to a security mode command, to the end of the registration when no algorithm can be chosen,
      and past the security mode when there is a valid context already. */
  lemma {:induction false} ConfirmationEnds(u: Ue, i: Input)
    requires !u.crashed && At(u, i.access) == Authentication && i.message.AuthenticationResponse?
    requires i.peers.confirm.Some? && i.peers.confirm.value.Success?
    requires (u.data.authCtx == Some(Aka5G) && i.message.decodes && i.message.hasParameter && i.message.matches)
             || (u.data.authCtx == Some(EapAkaPrime) && i.message.hasEap)
    ensures var v := Handle(u, i);
            var valid := u.data.available && u.data.ksi != 7 && !i.macFailed;
            && (!valid && i.peers.algorithmChosen ==> At(v, i.access) == SecurityMode && v.data.hasSupi == i.peers.confirm.value.namesSupi)
            && (!valid && !i.peers.algorithmChosen ==> Unregistered(v, i.access))
            && (valid ==> At(v, i.access) == ContextSetup || At(v, i.access) == Deregistered)
            && (v.crashed ==> valid && !u.data.hasRequest)
  {
    hide Handle;
    MessageEnds(u, i);
  }

  /** A security mode that the UE rejects, or completes with a service request, ends the registration. */
  lemma {:induction false} SecurityModeEnds(u: Ue, i: Input)
    requires !u.crashed && At(u, i.access) == SecurityMode
    requires i.message.SecurityModeReject?
             || (i.message.SecurityModeComplete? && !i.macFailed && i.message.imeisvDecodes && i.message.container.HoldsService?)
    ensures var v := Handle(u, i); !v.crashed && At(v, i.access) == Deregistered && !v.data.hasRequest
  {
    hide Handle;
    MessageEnds(u, i);
  }

  /** The ngKSI after an admitted request: the one an old AMF hands over, or else the request's own when it is native and
      not 7, or else 0. */
  lemma {:induction false} KsiTaken(d: Data, s: State, r: Registration)
    requires Admitted(d, s, r)
    ensures Requested(d, s, r).0.ksi
            == if HandedKsi(d, s, r).Some? then HandedKsi(d, s, r).value else if r.native && r.ksi != 7 then r.ksi else 0
  {
    hide Requested, HandedKsi, Admitted, Moved;
    RequestLeaves(d, s, r);
    AdmittedNamed(d, s, r);
  }

  // ---- Deregistrations ----

  lemma {:induction false} AcceptLeaves(u: Ue, a: Access, p: Peers)
    ensures var n := Step(u, a, DeregistrationAccept, p).0;
            && n.data == (if At(u, a) == DeregistrationInitiated then Over(u.data).data else u.data)
            && n.crashed == u.crashed
  {
    hide Source;
    if At(u, a) == DeregistrationInitiated {
      StepGoes(u, a, DeregistrationAccept, p, Deregistered);
    } else {
      StepRefused(u, a, DeregistrationAccept, p);
    }
  }

  lemma {:induction false} AcceptsLeave(u: Ue, t: Target, p: Peers)
    ensures var v := Drain(u, Accepts(t), p);
            && v.data == (if exists b :: Covers(t, b) && At(u, b) == DeregistrationInitiated then Over(u.data).data else u.data)
            && v.crashed == u.crashed
  {
    hide Drain, Step, Over;
    match t
    case Only(a) =>
      AcceptMoves(u, a, p, []);
      AcceptLeaves(u, a, p);
      assert [Post(a, DeregistrationAccept)] + [] == Accepts(t);
      DrainNothing(Step(u, a, DeregistrationAccept, p).0, p);
    case Both =>
      AcceptMoves(u, Access3GPP, p, [Post(AccessNon3GPP, DeregistrationAccept)]);
      AcceptLeaves(u, Access3GPP, p);
      var n := Step(u, Access3GPP, DeregistrationAccept, p).0;
      AcceptMoves(n, AccessNon3GPP, p, []);
      AcceptLeaves(n, AccessNon3GPP, p);
      OverTwice(u.data);
      assert [Post(AccessNon3GPP, DeregistrationAccept)] + [] == [Post(AccessNon3GPP, DeregistrationAccept)];
      assert [Post(Access3GPP, DeregistrationAccept)] + [Post(AccessNon3GPP, DeregistrationAccept)] == Accepts(t);
      DrainNothing(Step(n, AccessNon3GPP, DeregistrationAccept, p).0, p);
    case Neither =>
      DrainNothing(u, p);
  }

  lemma {:induction false} OverTwice(d: Data)
    ensures Over(Over(d).data).data == Over(d).data
  {
  }

  /** A registered UE's deregistration never panics, and clears the registration's data exactly when it names an access that
      is deregistering, its own included. */
  lemma {:induction false} DeregistrationLeaves(u: Ue, i: Input)
    requires !u.crashed && At(u, i.access) == Registered && i.message.DeregistrationRequest?
    ensures var v, d, t := Handle(u, i), Received(u, i).data, i.message.target;
            !v.crashed && v.data == if Covers(t, i.access)
                                       || (Covers(t, Other(i.access)) && At(u, Other(i.access)) == DeregistrationInitiated)
                                    then Over(d).data else d
  {
    hide Drain, Accepts, Covers, Over, Step, Source;
    var a, t, p := i.access, i.message.target, i.peers;
    var w := Received(u, i);
    HandleUnfold(u, i);
    StepStays(w, a, GmmMessage(i.message), p);
    DeregistrationSent(w.data, a, i.message, p);
    var n := Step(w, a, GmmMessage(i.message), p).0;
    DrainOne(n, a, InitDeregistration(t), p);
    StepGoes(n, a, InitDeregistration(t), p, DeregistrationInitiated);
    var n' := Step(n, a, InitDeregistration(t), p).0;
    AcceptsLeave(n', t, p);
  }

  lemma {:induction false} DeregistrationSent(d: Data, a: Access, m: Message, p: Peers)
    requires m.DeregistrationRequest?
    ensures Source(d, Registered, a, GmmMessage(m), p) == Sends(d, a, InitDeregistration(m.target))
  {
    hide Mild;
  }

  // ---- Whole runs ----

  /** The UE without the record of what happened to it. */
  function Bare(u: Ue): Ue { u.(log := []) }

  function DeregistrationEnd(u: Ue, t: Target, a: Access, b: Access): State {
    if b == a then (if Covers(t, b) then Deregistered else DeregistrationInitiated)
    else if Covers(t, b) && At(u, b) == DeregistrationInitiated then Deregistered
    else At(u, b)
  }

  /** One message by the table. */
  function Settle(u: Ue, i: Input): Ue {
    var a, d := i.access, u.data.(macFailed := i.macFailed);
    if u.crashed then u
    else if At(u, a) == Registered && i.message.DeregistrationRequest? then
      var t, b := i.message.target, Other(a);
      var cleared := Covers(t, a) || (Covers(t, b) && At(u, b) == DeregistrationInitiated);
      Move(Move(u, a, DeregistrationEnd(u, t, a, a)), b, DeregistrationEnd(u, t, a, b)).(data := if cleared then Over(d).data else d)
    else
      var e := MessageEnd(d, At(u, a), i.message, i.peers);
      Move(u, a, e.state).(data := e.data, crashed := e.panics)
  }

  function SettleAll(u: Ue, inputs: seq<Input>): Ue {
    if inputs == [] then u else Settle(SettleAll(u, inputs[..|inputs| - 1]), inputs[|inputs| - 1])
  }

  lemma {:induction false} HandleSettles(u: Ue, i: Input)
    ensures Bare(Handle(u, i)) == Settle(Bare(u), i)
  {
    hide Handle, MessageEnd, Over, Covers;
    if u.crashed {
      HandleCrashed(u, i);
    } else if At(u, i.access) == Registered && i.message.DeregistrationRequest? {
      DeregistrationEnds(u, i);
      DeregistrationLeaves(u, i);
    } else {
      MessageEnds(u, i);
    }
  }

  /** A whole run of the event machine, with all its nested events, leaves the UE where the table leaves it message by
      message. */
  lemma {:induction false} RunSettles(u: Ue, inputs: seq<Input>)
    ensures Bare(Run(u, inputs)) == SettleAll(Bare(u), inputs)
    decreases |inputs|
  {
    hide Handle, Settle;
    if inputs != [] {
      var before := inputs[..|inputs| - 1];
      RunSettles(u, before);
      HandleSettles(Run(u, before), inputs[|inputs| - 1]);
    }
  }
}
