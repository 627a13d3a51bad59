/** When handling a message panics, what the failure counters and the key set identifier keep, and where a
    deregistration ends. */
module GmmLaws {
  import opened Octets
  import opened GmmSpec

  // ---- What every chain of events keeps ----

  /** A registration type that a handler acts on comes with a stored request. */
  predicate Stored(d: Data) {
    d.registrationType == INITIAL || d.registrationType == MOBILITY || d.registrationType == PERIODIC ==> d.hasRequest
  }

  predicate Authenticating(u: Ue) { u.state3GPP == Authentication || u.stateNon3GPP == Authentication }

  /** At most one synch failure is pending, and only while an access is in Authentication. */
  predicate Counted(u: Ue) {
    u.data.synchFailures == 0 || (u.data.synchFailures == 1 && Authenticating(u))
  }

  /** An event that a callback may send: one that says authentication succeeded either carries EAP arguments or comes
      with a valid security context. */
  predicate Offered(d: Data, e: Event) {
    !e.GmmMessage? && (e == AuthSuccess(None) ==> GmmSpec.Valid(d))
  }

  predicate Tail(q: seq<Post>) { forall n :: 1 <= n < |q| ==> q[n].event.DeregistrationAccept? }

  /** Between two events: no panic, a stored request, and counters in order unless a rejection is about to clear them. */
  predicate Tidy(u: Ue, q: seq<Post>) {
    && !u.crashed && Stored(u.data) && Tail(q)
    && (q != [] ==> Offered(u.data, q[0].event))
    && (Counted(u) || (q != [] && q[0].event.AuthFail? && At(u, q[0].access) == Authentication))
  }

  /** A callback that is not handling a NAS message keeps the ngKSI, does not panic and offers what it sends. */
  predicate Orderly(d: Data, r: Reaction) {
    && !r.crash && Stored(r.data) && r.data.ksi == d.ksi
    && (r.data.synchFailures == d.synchFailures || r.data.synchFailures == 0)
    && Tail(r.sends) && (r.sends != [] ==> Offered(r.data, r.sends[0].event) && !r.sends[0].event.AuthFail?)
  }

  lemma {:induction false} AuthenticateOrderly(d: Data, a: Access, p: Peers)
    requires Stored(d)
    ensures Orderly(d, Authenticate(d, a, p))
  {
  }

  /** Entering SecurityMode finds its EAP arguments whenever it needs them. */
  lemma {:induction false} SecurityModeOrderly(d: Data, a: Access, eap: Option<bool>, p: Peers)
    requires Stored(d) && (eap.None? ==> GmmSpec.Valid(d))
    ensures Orderly(d, EnterSecurityMode(d, a, eap, p))
  {
  }

  lemma {:induction false} ContextSetupOrderly(d: Data, a: Access, nas: Nas, p: Peers)
    requires Stored(d)
    ensures Orderly(d, EnterContextSetup(d, a, nas, p))
  {
  }

  lemma {:induction false} EnterOrderly(d: Data, s: State, a: Access, e: Event, p: Peers)
    requires Stored(d) && Offered(d, e)
    requires s == SecurityMode ==> e.AuthSuccess?
    ensures Orderly(d, Enter(d, s, a, e, p))
    ensures s == Deregistered ==> Enter(d, s, a, e, p).data.synchFailures == 0
  {
    hide Authenticate, EnterSecurityMode, EnterContextSetup;
    AuthenticateOrderly(d, a, p);
    if e.AuthSuccess? {
      SecurityModeOrderly(d, a, e.eap, p);
    } else if e.SecurityModeSuccess? {
      ContextSetupOrderly(d, a, e.nas, p);
    }
  }

  lemma {:induction false} StepTidy(u: Ue, q: seq<Post>, p: Peers)
    requires q != [] && Tidy(u, q)
    ensures var (n, sends) := Step(u, q[0].access, q[0].event, p);
            Tidy(n, sends + q[1..]) && n.data.ksi == u.data.ksi
  {
    hide Source, Enter, Step, Authenticate, Orderly, Stored, Offered, Cost;
    var a, e := q[0].access, q[0].event;
    var s := At(u, a);
    var (n, sends) := Step(u, a, e, p);
    ExitedKeeps(u.data, s, e);
    TailOffered(n.data, q);
    match Next(s, e)
    case None =>
      StepRefused(u, a, e, p);
      assert sends + q[1..] == q[1..];
    case Some(t) =>
      if t == s {
        StepStays(u, a, e, p);
        RestartOrderly(u.data, s, a, e, p);
        OrderlyFacts(u.data, Source(u.data, s, a, e, p));
      } else {
        var d := Exited(u.data, s);
        StepGoes(u, a, e, p, t);
        EnterOrderly(d, t, a, e, p);
        OrderlyFacts(d, Enter(d, t, a, e, p));
      }
      assert sends == [] ==> sends + q[1..] == q[1..];
  }

  lemma {:induction false} ExitedKeeps(d: Data, s: State, e: Event)
    ensures var n := Exited(d, s);
            && n.ksi == d.ksi && (Stored(d) ==> Stored(n)) && (Offered(d, e) ==> Offered(n, e) && !e.GmmMessage?)
            && n.synchFailures == if s == Authentication then 0 else d.synchFailures
  {
  }

  lemma {:induction false} RestartOrderly(d: Data, s: State, a: Access, e: Event, p: Peers)
    requires Stored(d) && Offered(d, e) && Next(s, e) == Some(s)
    ensures Orderly(d, Source(d, s, a, e, p))
  {
    hide Authenticate, Orderly;
    AuthenticateOrderly(d, a, p);
  }

  /** Behind the first event of a queue there are only acceptances, which may always follow. */
  lemma {:induction false} TailOffered(n: Data, q: seq<Post>)
    requires Tail(q)
    ensures |q| > 1 ==> Offered(n, q[1].event) && !q[1].event.AuthFail?
  {
  }

  lemma {:induction false} OrderlyFacts(d: Data, r: Reaction)
    requires Orderly(d, r)
    ensures !r.crash && Stored(r.data) && r.data.ksi == d.ksi
    ensures r.data.synchFailures == d.synchFailures || r.data.synchFailures == 0
    ensures Tail(r.sends) && (r.sends != [] ==> Offered(r.data, r.sends[0].event) && !r.sends[0].event.AuthFail?)
  {
  }

  lemma {:induction false} DrainTidy(u: Ue, q: seq<Post>, p: Peers)
    requires Tidy(u, q)
    ensures Tidy(Drain(u, q, p), []) && Drain(u, q, p).data.ksi == u.data.ksi
    decreases CostAll(q)
  {
    hide Step, Tidy, Cost;
    if q != [] {
      var (n, sends) := Step(u, q[0].access, q[0].event, p);
      StepCost(u, q[0].access, q[0].event, p);
      CostAppend(sends, q[1..]);
      StepTidy(u, q, p);
      DrainTidy(n, sends + q[1..], p);
    }
  }

  // ---- Registration requests ----

  predicate InRange(ksi: int) { 0 <= ksi <= 6 }

  lemma {:induction false} RequestKsi(native: bool, ksi: Octal)
    ensures InRange(if native && ksi != NO_KEY then ksi else 0)
  {
  }

  /** A request that gets as far as the context transfer. */
  predicate Admitted(d: Data, s: State, r: Registration) {
    && r.hasRanUe && (d.macFailed || !(r.container.Malformed? || r.container.HoldsService?))
    && r.kind != EMERGENCY && (r.kind == MOBILITY || r.kind == PERIODIC ==> s != Deregistered)
    && r.identity.Some? && (r.identityDecodes || r.identity.value.NoIdentity? || r.identity.value.STmsi?)
    && r.taiServed && (r.hasCapability || r.kind == PERIODIC)
  }

  /** The UE comes from another AMF: by this request's GUTI, or by an earlier one that is not settled yet. */
  predicate Moved(d: Data, r: Registration) {
    if r.identity == Some(Guti) then r.otherAmf else d.amfChanged
  }

  /** The old AMF's context is asked for and arrives without a part that is dereferenced. */
  predicate Broken(d: Data, s: State, r: Registration) {
    Admitted(d, s, r) && Moved(d, r) && r.transfer.Some? && r.transfer.value.Incomplete?
  }

  /** The ngKSI that an old AMF hands over with its security data. */
  function HandedKsi(d: Data, s: State, r: Registration): Option<int> {
    if Admitted(d, s, r) && Moved(d, r) && r.transfer.Some? && r.transfer.value.Handed?
    then r.transfer.value.seafKsi else None
  }

  /** What is left of the security context: a transferred one if there is one, and otherwise the old one, unless the
      registration is initial or its container could not be deciphered. */
  predicate Secure(d: Data, r: Registration) {
    if Moved(d, r) && r.transfer.Some? then r.transfer.value.Incomplete? || r.transfer.value.seafKsi.Some?
    else d.available && r.kind != INITIAL && (d.macFailed || !r.container.Undecipherable?)
  }

  lemma {:induction false} TransferredExactly(d: Data, t: Option<Transfer>)
    ensures var (n, how) := Transferred(d, t);
            && n.hasRequest == d.hasRequest && n.registrationType == d.registrationType
            && n.synchFailures == d.synchFailures
            && how == (if t.Some? && t.value.Incomplete? then Panicked else Accepted)
            && n.available == (if t.None? then d.available else t.value.Incomplete? || t.value.seafKsi.Some?)
            && n.ksi == (if t.Some? && t.value.Handed? && t.value.seafKsi.Some? then t.value.seafKsi.value else d.ksi)
  {
  }

  lemma {:induction false} NamedKeeps(d: Data, otherAmf: bool)
    ensures var n := Named(d, otherAmf);
            n == d.(hasSuci := n.hasSuci, amfChanged := if d.identity.Guti? then otherAmf else d.amfChanged)
  {
  }

  lemma {:induction false} IdentifiedExactly(d: Data, r: Registration)
    ensures var (n, how) := Identified(d, r);
            var moved := if d.identity.Guti? then r.otherAmf else d.amfChanged;
            var reached := (r.identityDecodes || d.identity.NoIdentity? || d.identity.STmsi?)
                           && r.taiServed && (r.hasCapability || r.kind == PERIODIC);
            && n.hasRequest == d.hasRequest && n.registrationType == d.registrationType
            && n.synchFailures == d.synchFailures
            && how == (if !reached then Rejected
                       else if moved && r.transfer.Some? && r.transfer.value.Incomplete? then Panicked else Accepted)
            && (reached ==> n.available == if moved && r.transfer.Some?
                                           then r.transfer.value.Incomplete? || r.transfer.value.seafKsi.Some?
                                           else d.available)
            && (if reached && moved && r.transfer.Some? && r.transfer.value.Handed? && r.transfer.value.seafKsi.Some?
                then n.ksi == r.transfer.value.seafKsi.value else n.ksi == d.ksi || InRange(n.ksi))
  {
    hide Named, Transferred, InRange;
    RequestKsi(r.native, r.ksi);
    var named := Named(d, r.otherAmf);
    NamedKeeps(d, r.otherAmf);
    var keyed := named.(ksi := if r.native && r.ksi != NO_KEY then r.ksi else 0);
    TransferredExactly(keyed, r.transfer);
  }

  lemma {:induction false} OpenedKeeps(d: Data, c: Container)
    ensures var (n, ok) := Opened(d, c);
            && n == d.(available := d.available && (d.macFailed || !c.Undecipherable?))
            && (ok <==> d.macFailed || !(c.Malformed? || c.HoldsService?))
  {
  }

  lemma {:induction false} TypedKeeps(d: Data, s: State, kind: Octal)
    ensures var (n, ok) := Typed(d, s, kind);
            && n == d.(available := d.available && kind != INITIAL, registrationType := n.registrationType)
            && (ok <==> kind != EMERGENCY && (kind == MOBILITY || kind == PERIODIC ==> s != Deregistered))
  {
  }

  /** How a registration request ends, and what becomes of the security context, told from its fields. */
  lemma {:induction false} RequestedExactly(d: Data, s: State, r: Registration)
    ensures var (n, how) := Requested(d, s, r);
            && how == (if !Admitted(d, s, r) then Rejected else if Broken(d, s, r) then Panicked else Accepted)
            && (Admitted(d, s, r) ==> n.hasRequest && (n.available <==> Secure(d, r)))
  {
    hide Identified, Opened, Typed;
    var (n, _) := Opened(d, r.container);
    var (typed, _) := Typed(n.(hasRequest := true), s, r.kind);
    OpenedKeeps(d, r.container);
    TypedKeeps(n.(hasRequest := true), s, r.kind);
    if r.identity.Some? {
      IdentifiedExactly(typed.(identity := r.identity.value), r);
    }
  }

  /** A request keeps the synch failures and the stored request, and the ngKSI stays within 0..6 exactly unless an old
      AMF hands over one that is not. */
  lemma {:induction false} RequestedKeeps(d: Data, s: State, r: Registration)
    requires Stored(d)
    ensures Stored(Requested(d, s, r).0) && (d.hasRequest ==> Requested(d, s, r).0.hasRequest)
    ensures Requested(d, s, r).0.synchFailures == d.synchFailures
    ensures InRange(d.ksi) ==>
              (InRange(Requested(d, s, r).0.ksi) <==>
               (HandedKsi(d, s, r).Some? ==> InRange(HandedKsi(d, s, r).value)))
  {
    hide Requested, HandedKsi, InRange;
    RequestedStores(d, s, r);
    if InRange(d.ksi) {
      RequestedKsi(d, s, r);
    }
  }

  lemma {:induction false} RequestedStores(d: Data, s: State, r: Registration)
    requires Stored(d)
    ensures Stored(Requested(d, s, r).0) && (d.hasRequest ==> Requested(d, s, r).0.hasRequest)
    ensures Requested(d, s, r).0.synchFailures == d.synchFailures
  {
    hide Identified, Opened, Typed, InRange;
    var (n, _) := Opened(d, r.container);
    var (typed, _) := Typed(n.(hasRequest := true), s, r.kind);
    OpenedKeeps(d, r.container);
    TypedKeeps(n.(hasRequest := true), s, r.kind);
    if r.identity.Some? {
      IdentifiedExactly(typed.(identity := r.identity.value), r);
    }
  }

  lemma {:induction false} RequestedKsi(d: Data, s: State, r: Registration)
    requires InRange(d.ksi)
    ensures InRange(Requested(d, s, r).0.ksi) <==>
            (HandedKsi(d, s, r).Some? ==> InRange(HandedKsi(d, s, r).value))
  {
    hide Identified, Opened, Typed, InRange;
    var (n, _) := Opened(d, r.container);
    var (typed, _) := Typed(n.(hasRequest := true), s, r.kind);
    OpenedKeeps(d, r.container);
    TypedKeeps(n.(hasRequest := true), s, r.kind);
    if r.identity.Some? {
      IdentifiedExactly(typed.(identity := r.identity.value), r);
    }
  }

  /** Only a SUCI that was asked for and decodes makes an unknown UE known; other identities count only under integrity
      protection. */
  lemma {:induction false} IdentityNames(d: Data, i: IdentityType, requested: bool, decodes: bool)
    ensures var (n, ok) := IdentityGiven(d, i, requested, decodes);
            && (Known(n) <==> Known(d) || (i.Suci? && ok))
            && (ok && d.macFailed ==> i.Suci? || i.NoIdentity?)
            && (ok ==> requested && (decodes || i.NoIdentity?))
            && n == d.(hasSuci := n.hasSuci)
  {
  }

  // ---- Panics ----

  /** The messages that make a handler dereference what is not there. */
  predicate Crashes(d: Data, s: State, m: Message) {
    match s
    case Deregistered => m.RegistrationRequest? && Broken(d, s, m.request)
    case Registered => m.RegistrationRequest? && Broken(d, s, m.request)
    case Authentication =>
      || (m.AuthenticationFailure? && d.authCtx.None?)
      || (m.AuthenticationResponse? && d.authCtx == Some(EapAkaPrime) && !m.hasEap)
    case ContextSetup => m.RegistrationComplete? && !d.hasRequest
    case _ => false
  }

  /** What a message leaves for the events it sends. */
  predicate Prepared(d: Data, s: State, a: Access, r: Reaction) {
    && Stored(r.data) && Tail(r.sends)
    && (r.sends != [] ==> Offered(r.data, r.sends[0].event) && r.sends[0].access == a)
    && (|| r.data.synchFailures == d.synchFailures || r.data.synchFailures == 0
        || (s == Authentication && (r.data.synchFailures == 1 || r.sends == [Post(a, AuthFail)])))
  }

  lemma {:induction false} RestPrepared(d: Data, s: State, a: Access, m: Message)
    requires Stored(d)
    ensures Prepared(d, s, a, AtRest(d, s, a, m))
    ensures AtRest(d, s, a, m).crash <==> m.RegistrationRequest? && Broken(d, s, m.request)
  {
    hide Requested, Admitted;
    if m.RegistrationRequest? {
      RequestedKeeps(d, s, m.request);
      RequestedExactly(d, s, m.request);
    }
  }

  lemma {:induction false} AkaPrepared(d: Data, a: Access, c: Cause, resynchronised: Option<AuthType>)
    requires Stored(d)
    ensures Prepared(d, Authentication, a, AkaFailed(d, a, c, resynchronised))
    ensures !AkaFailed(d, a, c, resynchronised).crash
  {
    hide Mild;
  }

  lemma {:induction false} QuietPrepared(d: Data, a: Access, ksi: int)
    requires Stored(d)
    ensures Prepared(d, Authentication, a, Quiet(d.(ksi := ksi)))
    ensures Prepared(d, Authentication, a, Crash(d))
  {
  }

  lemma {:induction false} FailedPrepared(d: Data, a: Access, m: Message, p: Peers)
    requires Stored(d) && m.AuthenticationFailure?
    ensures Prepared(d, Authentication, a, Failed(d, a, m, p))
    ensures Failed(d, a, m, p).crash <==> d.authCtx.None?
  {
    hide AkaFailed, Mild, Prepared, Stored, Cost;
    QuietPrepared(d, a, d.ksi);
    QuietPrepared(d, a, NextKsi(d.ksi));
    AkaPrepared(d, a, m.cause, if m.decodes && m.hasParameter then p.authenticate else None);
  }

  lemma {:induction false} ConfirmPrepared(d: Data, a: Access, t: AuthType, result: AuthResult)
    requires Stored(d)
    ensures Prepared(d, Authentication, a, Confirm(d, a, t, result)) && !Confirm(d, a, t, result).crash
    ensures Prepared(d, Authentication, a, Refused(d, a)) && !Refused(d, a).crash
  {
    hide Mild;
  }

  lemma {:induction false} RespondedPrepared(d: Data, a: Access, m: Message, p: Peers)
    requires Stored(d) && m.AuthenticationResponse?
    ensures Prepared(d, Authentication, a, Responded(d, a, m, p))
    ensures Responded(d, a, m, p).crash <==> d.authCtx == Some(EapAkaPrime) && !m.hasEap
  {
    hide Confirm, Refused, Mild;
    ConfirmPrepared(d, a, Aka5G, Ongoing);
    if d.authCtx.Some? && p.confirm.Some? {
      ConfirmPrepared(d, a, d.authCtx.value, p.confirm.value);
    }
  }

  lemma {:induction false} AuthenticationPrepared(d: Data, a: Access, m: Message, p: Peers)
    requires Stored(d)
    ensures Prepared(d, Authentication, a, InAuthentication(d, a, m, p))
    ensures InAuthentication(d, a, m, p).crash <==> Crashes(d, Authentication, m)
  {
    hide Failed, Responded, Mild;
    if m.AuthenticationFailure? {
      FailedPrepared(d, a, m, p);
    } else if m.AuthenticationResponse? {
      RespondedPrepared(d, a, m, p);
    }
  }

  lemma {:induction false} ContextSetupPrepared(d: Data, a: Access, m: Message, p: Peers)
    requires Stored(d)
    ensures Prepared(d, ContextSetup, a, InContextSetup(d, a, m, p))
    ensures InContextSetup(d, a, m, p).crash <==> Crashes(d, ContextSetup, m)
  {
    hide SetUp, Mild, Cost;
    if m.IdentityResponse? {
      var n := IdentityGiven(d, m.identity, m.requested, m.decodes).0;
      assert n == d.(hasSuci := n.hasSuci);
      SetUpPrepared(d, n, a, p);
    }
  }

  lemma {:induction false} SetUpPrepared(d: Data, n: Data, a: Access, p: Peers)
    requires Stored(d) && n == d.(hasSuci := n.hasSuci)
    ensures Prepared(d, ContextSetup, a, SetUp(n, a, p)) && !SetUp(n, a, p).crash
  {
    hide Mild;
  }

  lemma {:induction false} MessagePrepared(d: Data, s: State, a: Access, m: Message, p: Peers)
    requires Stored(d)
    ensures Prepared(d, s, a, Source(d, s, a, GmmMessage(m), p))
    ensures Source(d, s, a, GmmMessage(m), p).crash <==> Crashes(d, s, m)
  {
    hide AtRest, InAuthentication, InContextSetup, Broken;
    RestPrepared(d, s, a, m);
    AuthenticationPrepared(d, a, m, p);
    ContextSetupPrepared(d, a, m, p);
  }

  /** Handling a message panics exactly when it is one of `Crashes`; otherwise the machine is left tidy. */
  lemma {:induction false} HandleTidy(u: Ue, i: Input)
    requires Tidy(u, [])
    ensures Handle(u, i).crashed <==> Crashes(Received(u, i).data, At(u, i.access), i.message)
    ensures !Handle(u, i).crashed ==> Tidy(Handle(u, i), [])
  {
    hide Source, Drain, Crashes;
    var w, a, e := Received(u, i), i.access, GmmMessage(i.message);
    var s := At(u, a);
    var (n, sends) := Step(w, a, e, i.peers);
    HandleUnfold(u, i);
    CrashesNowhere(w.data, i.message);
    if s != DeregistrationInitiated {
      MessagePrepared(w.data, s, a, i.message, i.peers);
      if n.crashed {
        DrainNothing(n, i.peers);
      } else {
        DrainTidy(n, sends, i.peers);
      }
    } else {
      DrainNothing(n, i.peers);
    }
  }

  lemma {:induction false} CrashesNowhere(d: Data, m: Message)
    ensures !Crashes(d, DeregistrationInitiated, m)
  {
  }

  lemma {:induction false} DrainNothing(u: Ue, p: Peers)
    ensures Drain(u, [], p) == u
  {
  }

  lemma {:induction false} HandleUnfold(u: Ue, i: Input)
    requires !u.crashed
    ensures var (n, sends) := Step(Received(u, i), i.access, GmmMessage(i.message), i.peers);
            Handle(u, i) == Drain(n, sends, i.peers)
  {
    hide Step;
    var (n, sends) := Step(Received(u, i), i.access, GmmMessage(i.message), i.peers);
    var q := [Post(i.access, GmmMessage(i.message))];
    assert sends + q[1..] == sends;
  }

  lemma {:induction false} RunTidy(inputs: seq<Input>)
    ensures Run(NewUe(), inputs).crashed || Tidy(Run(NewUe(), inputs), [])
    decreases |inputs|
  {
    hide Handle, Crashes;
    if inputs != [] {
      var u, i := Run(NewUe(), inputs[..|inputs| - 1]), inputs[|inputs| - 1];
      RunTidy(inputs[..|inputs| - 1]);
      if u.crashed {
        HandleCrashed(u, i);
      } else {
        HandleTidy(u, i);
      }
    }
  }

  lemma {:induction false} HandleCrashed(u: Ue, i: Input)
    requires u.crashed
    ensures Handle(u, i) == u
  {
  }

  /** In every run, the next message panics exactly when it is one of `Crashes`. In particular entering SecurityMode
      never reads EAP arguments that were not supplied. */
  lemma {:induction false} PanicsExactly(inputs: seq<Input>, i: Input)
    requires !Run(NewUe(), inputs).crashed
    ensures var u := Run(NewUe(), inputs); Handle(u, i).crashed <==> Crashes(Received(u, i).data, At(u, i.access), i.message)
  {
    RunTidy(inputs);
    HandleTidy(Run(NewUe(), inputs), i);
  }

  /** In every run at most one synch failure is pending when the machine rests, and none outside Authentication. */
  lemma {:induction false} SynchFailuresBounded(inputs: seq<Input>)
    requires !Run(NewUe(), inputs).crashed
    ensures Counted(Run(NewUe(), inputs))
  {
    RunTidy(inputs);
  }

  // ---- The key set identifier ----

  /** The ngKSI an input's registration request brings from an old AMF. */
  function HandedBy(u: Ue, i: Input): Option<int> {
    var s := At(u, i.access);
    if i.message.RegistrationRequest? && (s == Deregistered || s == Registered)
    then HandedKsi(Received(u, i).data, s, i.message.request) else None
  }

  lemma {:induction false} MessageKsi(d: Data, s: State, a: Access, m: Message, p: Peers)
    requires Stored(d) && InRange(d.ksi)
    ensures InRange(Source(d, s, a, GmmMessage(m), p).data.ksi) <==>
            (m.RegistrationRequest? && (s == Deregistered || s == Registered) && HandedKsi(d, s, m.request).Some? ==>
               InRange(HandedKsi(d, s, m.request).value))
  {
    hide Requested, Confirm, Refused, SetUp, HandedKsi, InAuthentication, InContextSetup, Mild;
    if m.RegistrationRequest? {
      RequestedKeeps(d, s, m.request);
    }
    InAuthenticationKsi(d, a, m, p);
    InContextSetupKsi(d, a, m, p);
  }

  lemma {:induction false} RespondedKsi(d: Data, a: Access, m: Message, p: Peers)
    requires m.AuthenticationResponse?
    ensures Responded(d, a, m, p).data.ksi == d.ksi
  {
    hide Confirm, Refused, Mild;
  }

  lemma {:induction false} FailedKsi(d: Data, a: Access, m: Message, p: Peers)
    requires m.AuthenticationFailure?
    ensures var k := Failed(d, a, m, p).data.ksi; k == d.ksi || k == NextKsi(d.ksi)
  {
    hide AkaFailed, Mild;
  }

  lemma {:induction false} InAuthenticationKsi(d: Data, a: Access, m: Message, p: Peers)
    ensures var k := InAuthentication(d, a, m, p).data.ksi; k == d.ksi || k == NextKsi(d.ksi)
  {
    hide Responded, Failed, Mild;
    if m.AuthenticationResponse? {
      RespondedKsi(d, a, m, p);
    } else if m.AuthenticationFailure? {
      FailedKsi(d, a, m, p);
    }
  }

  lemma {:induction false} InContextSetupKsi(d: Data, a: Access, m: Message, p: Peers)
    ensures InContextSetup(d, a, m, p).data.ksi == d.ksi
  {
    hide Mild, Cost;
  }

  /** One message keeps the ngKSI within 0..6 exactly unless an old AMF hands over one that is not. */
  lemma {:induction false} KsiExactly(u: Ue, i: Input)
    requires Tidy(u, []) && InRange(u.data.ksi)
    ensures InRange(Handle(u, i).data.ksi) <==> (HandedBy(u, i).Some? ==> InRange(HandedBy(u, i).value))
  {
    hide Source, Drain, HandedKsi, InRange;
    var w, a, e := Received(u, i), i.access, GmmMessage(i.message);
    var s := At(u, a);
    var (n, sends) := Step(w, a, e, i.peers);
    HandleUnfold(u, i);
    if s == DeregistrationInitiated {
      DrainNothing(n, i.peers);
    } else {
      MessagePrepared(w.data, s, a, i.message, i.peers);
      MessageKsi(w.data, s, a, i.message, i.peers);
      if n.crashed {
        DrainNothing(n, i.peers);
      } else {
        DrainTidy(n, sends, i.peers);
      }
    }
  }

  /** Over a run the ngKSI stays within 0..6 as long as the old AMFs keep to it. */
  lemma {:induction false} KsiStays(inputs: seq<Input>)
    requires forall n {:trigger inputs[n]} :: 0 <= n < |inputs| ==>
               var k := HandedBy(Run(NewUe(), inputs[..n]), inputs[n]); k.Some? ==> InRange(k.value)
    ensures InRange(Run(NewUe(), inputs).data.ksi)
    decreases |inputs|
  {
    hide Handle, HandedBy, Tidy;
    if inputs != [] {
      var last := |inputs| - 1;
      var before := inputs[..last];
      assert forall n :: 0 <= n < last ==> before[..n] == inputs[..n] && before[n] == inputs[n];
      KsiStays(before);
      var u := Run(NewUe(), before);
      if u.crashed {
        HandleCrashed(u, inputs[last]);
      } else {
        RunTidy(before);
        KsiExactly(u, inputs[last]);
      }
    }
  }

  predicate InUse(i: Input, a: Access) {
    i.access == a && i.message.AuthenticationFailure? && i.message.cause.KsiInUse?
  }

  /** The machine waits in Authentication for the answer to a challenge. */
  predicate Challenged(u: Ue, a: Access) {
    !u.crashed && At(u, a) == Authentication && (u.data.authCtx == Some(Aka5G) || u.data.authCtx == Some(EapAkaPrime))
  }

  lemma {:induction false} KsiAdvances(u: Ue, i: Input, a: Access)
    requires Challenged(u, a) && InUse(i, a)
    ensures Challenged(Handle(u, i), a) && Handle(u, i).data.ksi == NextKsi(u.data.ksi)
  {
    hide Drain, Mild, InAuthentication;
    HandleUnfold(u, i);
    var d := Received(u, i).data;
    InUseReaction(d, a, i.message, i.peers);
    DrainNothing(Step(Received(u, i), a, GmmMessage(i.message), i.peers).0, i.peers);
  }

  lemma {:induction false} InUseReaction(d: Data, a: Access, m: Message, p: Peers)
    requires m.AuthenticationFailure? && m.cause.KsiInUse?
    requires d.authCtx == Some(Aka5G) || d.authCtx == Some(EapAkaPrime)
    ensures exists k :: InAuthentication(d, a, m, p) == Quiet(d.(synchFailures := k, ksi := NextKsi(d.ksi)))
  {
    var k := if d.authCtx == Some(Aka5G) then 0 else d.synchFailures;
    assert InAuthentication(d, a, m, p) == Quiet(d.(synchFailures := k, ksi := NextKsi(d.ksi)));
  }

  /** Each "already in use" advances the ngKSI by one, modulo 7. */
  lemma {:induction false} KsiCycles(u: Ue, inputs: seq<Input>, a: Access)
    requires Challenged(u, a) && InRange(u.data.ksi)
    requires forall n :: 0 <= n < |inputs| ==> InUse(inputs[n], a)
    ensures Challenged(Run(u, inputs), a) && Run(u, inputs).data.ksi == (u.data.ksi + |inputs|) % 7
    decreases |inputs|
  {
    hide Handle, Challenged;
    if inputs != [] {
      var before := inputs[..|inputs| - 1];
      KsiCycles(u, before, a);
      KsiAdvances(Run(u, before), inputs[|inputs| - 1], a);
      assert (u.data.ksi + |inputs|) % 7 == NextKsi((u.data.ksi + |before|) % 7);
    }
  }

  /** Seven in a row visit every value of the ngKSI exactly once. */
  lemma {:induction false} SevenVisitAll(u: Ue, inputs: seq<Input>, a: Access, ksi: int)
    requires Challenged(u, a) && InRange(u.data.ksi) && InRange(ksi)
    requires |inputs| == 7 && forall n :: 0 <= n < |inputs| ==> InUse(inputs[n], a)
    ensures exists n :: 0 <= n < 7 && Run(u, inputs[..n]).data.ksi == ksi
                        && forall m :: 0 <= m < 7 && Run(u, inputs[..m]).data.ksi == ksi ==> m == n
  {
    hide Run, Challenged, InUse;
    var n := (ksi - u.data.ksi) % 7;
    forall m | 0 <= m < 7 ensures Run(u, inputs[..m]).data.ksi == ksi <==> m == n {
      KsiCycles(u, inputs[..m], a);
    }
    assert Run(u, inputs[..n]).data.ksi == ksi;
  }

  // ---- Synch failures ----

  lemma {:induction false} AuthFailEnds(u: Ue, a: Access, p: Peers)
    requires At(u, a) == Authentication
    ensures var v := Drain(u, [Post(a, AuthFail)], p); At(v, a) == Deregistered && v.data.synchFailures == 0
  {
    hide Drain, Mild, Step, Source;
    DrainOne(u, a, AuthFail, p);
    StepGoes(u, a, AuthFail, p, Deregistered);
    DrainNothing(Step(u, a, AuthFail, p).0, p);
  }

  lemma {:induction false} SynchReaction(d: Data, a: Access, m: Message, p: Peers)
    requires d.authCtx == Some(Aka5G) && m.AuthenticationFailure? && m.cause.SynchFailure?
    ensures var r := Source(d, Authentication, a, GmmMessage(m), p);
            r.data.synchFailures == d.synchFailures + 1
            && r.sends == if d.synchFailures >= 1 then [Post(a, AuthFail)] else []
  {
    hide Mild, Cost;
  }

  /** A synch failure ends the authentication exactly when it is the second one pending. */
  lemma {:induction false} SynchTerminates(u: Ue, i: Input)
    requires Tidy(u, []) && At(u, i.access) == Authentication && u.data.authCtx == Some(Aka5G)
    requires i.message.AuthenticationFailure? && i.message.cause.SynchFailure?
    ensures var v := Handle(u, i);
            if u.data.synchFailures == 1 then At(v, i.access) == Deregistered && v.data.synchFailures == 0
            else At(v, i.access) == Authentication && v.data.synchFailures == 1
  {
    hide Drain, Handle, Mild, Cost, Next, Stored, Source, Step;
    var w := Received(u, i);
    MessageStays(Authentication, i.message);
    HandleUnfold(u, i);
    StepStays(w, i.access, GmmMessage(i.message), i.peers);
    SynchReaction(w.data, i.access, i.message, i.peers);
    var n := Step(w, i.access, GmmMessage(i.message), i.peers).0;
    if u.data.synchFailures == 1 {
      AuthFailEnds(n, i.access, i.peers);
    } else {
      DrainNothing(n, i.peers);
    }
  }

  lemma {:induction false} MessageStays(s: State, m: Message)
    requires s != DeregistrationInitiated
    ensures Next(s, GmmMessage(m)) == Some(s)
  {
  }

  // ---- Deregistration ----

  predicate Covers(t: Target, a: Access) { t == Both || t == Only(a) }

  /** An acceptance clears an access that is deregistering and no other. */
  lemma {:induction false} AcceptMoves(u: Ue, a: Access, p: Peers, q: seq<Post>)
    ensures var n := Step(u, a, DeregistrationAccept, p).0;
            && Drain(u, [Post(a, DeregistrationAccept)] + q, p) == Drain(n, q, p)
            && (forall b :: At(n, b) == if b == a && At(u, b) == DeregistrationInitiated then Deregistered else At(u, b))
  {
    var q' := [Post(a, DeregistrationAccept)] + q;
    var (n, sends) := Step(u, a, DeregistrationAccept, p);
    assert q'[0] == Post(a, DeregistrationAccept);
    assert sends == [];
    assert sends + q'[1..] == q;
  }

  lemma {:induction false} AcceptsMove(u: Ue, t: Target, p: Peers)
    ensures forall b :: At(Drain(u, Accepts(t), p), b)
                        == if Covers(t, b) && At(u, b) == DeregistrationInitiated then Deregistered else At(u, b)
  {
    hide Drain, Step;
    match t
    case Only(a) =>
      AcceptMoves(u, a, p, []);
      assert [Post(a, DeregistrationAccept)] + [] == Accepts(t);
      DrainNothing(Step(u, a, DeregistrationAccept, p).0, p);
    case Both =>
      AcceptMoves(u, Access3GPP, p, [Post(AccessNon3GPP, DeregistrationAccept)]);
      var n := Step(u, Access3GPP, DeregistrationAccept, p).0;
      AcceptMoves(n, AccessNon3GPP, p, []);
      assert [Post(AccessNon3GPP, DeregistrationAccept)] + [] == [Post(AccessNon3GPP, DeregistrationAccept)];
      assert [Post(Access3GPP, DeregistrationAccept)] + [Post(AccessNon3GPP, DeregistrationAccept)] == Accepts(t);
      DrainNothing(Step(n, AccessNon3GPP, DeregistrationAccept, p).0, p);
    case Neither =>
      DrainNothing(u, p);
  }

  /** A deregistration request ends in Deregistered exactly on the access types it names; an access it arrives on but
      does not name stays in DeregistrationInitiated. */
  lemma {:induction false} DeregistrationEnds(u: Ue, i: Input)
    requires !u.crashed && At(u, i.access) == Registered && i.message.DeregistrationRequest?
    ensures forall b :: At(Handle(u, i), b) ==
                        if b == i.access then
                          (if Covers(i.message.target, b) then Deregistered else DeregistrationInitiated)
                        else if Covers(i.message.target, b) && At(u, b) == DeregistrationInitiated then Deregistered
                        else At(u, b)
  {
    hide Drain, Accepts, Covers;
    var a, t := i.access, i.message.target;
    HandleUnfold(u, i);
    var (n, sends) := Step(Received(u, i), a, GmmMessage(i.message), i.peers);
    assert sends == [Post(a, InitDeregistration(t))];
    DrainOne(n, a, InitDeregistration(t), i.peers);
    var (n', sends') := Step(n, a, InitDeregistration(t), i.peers);
    assert sends' == Accepts(t);
    AcceptsMove(n', t, i.peers);
  }

  /** The events of another access that are not the start of a deregistration. */
  predicate Elsewhere(q: seq<Post>, a: Access) {
    forall n :: 0 <= n < |q| ==> q[n].access != a && Cost(q[n].event) <= 4 && !q[n].event.InitDeregistration?
  }

  lemma {:induction false} StepElsewhere(u: Ue, b: Access, e: Event, p: Peers, a: Access)
    requires b != a && Cost(e) <= 4 && !e.InitDeregistration?
    ensures Elsewhere(Step(u, b, e, p).1, a) && At(Step(u, b, e, p).0, a) == At(u, a)
  {
    hide Source, Enter;
  }

  lemma {:induction false} DrainElsewhere(u: Ue, q: seq<Post>, p: Peers, a: Access)
    requires Elsewhere(q, a)
    ensures At(Drain(u, q, p), a) == At(u, a)
    decreases CostAll(q)
  {
    hide Step, Cost;
    if q != [] {
      var (n, sends) := Step(u, q[0].access, q[0].event, p);
      StepCost(u, q[0].access, q[0].event, p);
      CostAppend(sends, q[1..]);
      StepElsewhere(u, q[0].access, q[0].event, p, a);
      DrainElsewhere(n, sends + q[1..], p, a);
    }
  }

  /** An access in DeregistrationInitiated answers no message of its own: it leaves that state exactly when the other
      access, registered, is asked to deregister it too. */
  lemma {:induction false} InitiatedIsStuck(u: Ue, i: Input, a: Access)
    requires !u.crashed && At(u, a) == DeregistrationInitiated
    ensures At(Handle(u, i), a) != DeregistrationInitiated <==>
            i.access != a && At(u, i.access) == Registered && i.message.DeregistrationRequest?
            && Covers(i.message.target, a)
  {
    hide Drain, Source;
    var b := i.access;
    HandleUnfold(u, i);
    var (n, sends) := Step(Received(u, i), b, GmmMessage(i.message), i.peers);
    if b == a {
      DrainNothing(n, i.peers);
    } else if At(u, b) == Registered && i.message.DeregistrationRequest? {
      DeregistrationEnds(u, i);
    } else {
      MessageElsewhere(Received(u, i).data, At(u, b), b, i.message, i.peers);
      DrainElsewhere(n, sends, i.peers, a);
    }
  }

  lemma {:induction false} MessageElsewhere(d: Data, s: State, b: Access, m: Message, p: Peers)
    requires !(s == Registered && m.DeregistrationRequest?)
    ensures forall c :: c in Source(d, s, b, GmmMessage(m), p).sends ==> c.access == b && !c.event.InitDeregistration?
  {
    hide Requested, Responded, Failed, IdentityGiven, InContextSetup;
  }

  // ---- The longest chain ----

  /** A mobility update of a registered UE whose security context is valid runs through all the states in one call. */
  predicate Swift(u: Ue, i: Input) {
    && !u.crashed && At(u, i.access) == Registered && Known(u.data) && u.data.available && !u.data.amfChanged
    && !i.macFailed && i.message.RegistrationRequest?
    && var r := i.message.request;
       && r.hasRanUe && r.container.NoContainer? && r.kind == MOBILITY && r.identity == Some(NoIdentity)
       && r.native && r.ksi != NO_KEY && r.taiServed && r.hasCapability
  }

  /** The UE is known, its security context valid and its mobility update stored. */
  predicate Fit(u: Ue, a: Access, s: State) {
    && At(u, a) == s && Known(u.data) && GmmSpec.Valid(u.data) && u.data.hasRequest
    && u.data.registrationType == MOBILITY
  }

  /** One link of the chain: what it sends, logs and leads to. */
  ghost predicate Link(u: Ue, a: Access, e: Event, p: Peers, more: seq<Mark>, s: State, sends: seq<Post>) {
    var (n, q) := Step(u, a, e, p);
    q == sends && n.log == u.log + more && At(n, a) == s && (s != Deregistered ==> Fit(n, a, s))
  }

  lemma {:induction false} RequestLink(u: Ue, i: Input)
    requires Swift(u, i)
    ensures var e := GmmMessage(i.message);
            Link(Received(u, i), i.access, e, i.peers, [Sent(i.access, e)], Registered, [Post(i.access, StartAuth)])
  {
    hide Requested, Mild;
    SwiftRequest(u, i);
  }

  lemma {:induction false} StartLink(u: Ue, a: Access, p: Peers)
    requires Fit(u, a, Registered)
    ensures Link(u, a, StartAuth, p, [Sent(a, StartAuth), Checked(a, true, true)], Authentication,
                 [Post(a, AuthSuccess(None))])
  {
    hide Mild;
  }

  lemma {:induction false} AuthLink(u: Ue, a: Access, p: Peers)
    requires Fit(u, a, Authentication)
    ensures Link(u, a, AuthSuccess(None), p, [Sent(a, AuthSuccess(None)), Entered(a, true)], SecurityMode,
                 [Post(a, SecurityModeSuccess(FromUe))])
  {
    hide Mild;
  }

  lemma {:induction false} ModeLink(u: Ue, a: Access, p: Peers)
    requires Fit(u, a, SecurityMode)
    ensures Link(u, a, SecurityModeSuccess(FromUe), p, [Sent(a, SecurityModeSuccess(FromUe))], ContextSetup,
                 if p.setUp then [] else [Post(a, ContextSetupFail)])
  {
    hide Mild;
  }

  lemma {:induction false} FailLink(u: Ue, a: Access, p: Peers)
    requires Fit(u, a, ContextSetup)
    ensures Link(u, a, ContextSetupFail, p, [Sent(a, ContextSetupFail)], Deregistered, [])
  {
    hide Mild;
  }

  lemma {:induction false} Follow(u: Ue, a: Access, e: Event, p: Peers, more: seq<Mark>, s: State, sends: seq<Post>) returns (n: Ue)
    requires Link(u, a, e, p, more, s, sends)
    ensures Drain(u, [Post(a, e)], p) == Drain(n, sends, p) && n.log == u.log + more && At(n, a) == s
    ensures s != Deregistered ==> Fit(n, a, s)
  {
    hide Step, Drain, Fit;
    n := Step(u, a, e, p).0;
    DrainOne(u, a, e, p);
  }

  /** The bound of five events is reached: a registered UE with a valid security context that asks for a mobility update
      passes through all the states within one call, and a failing handler adds the fifth event. */
  lemma {:induction false} FiveEvents(u: Ue, i: Input)
    requires Swift(u, i)
    ensures var (v, a) := (Handle(u, i), i.access);
            && v.log == u.log + [Sent(a, GmmMessage(i.message)), Sent(a, StartAuth), Checked(a, true, true),
                                 Sent(a, AuthSuccess(None)), Entered(a, true), Sent(a, SecurityModeSuccess(FromUe))]
                        + (if i.peers.setUp then [] else [Sent(a, ContextSetupFail)])
            && At(v, a) == if i.peers.setUp then ContextSetup else Deregistered
  {
    hide Step, Drain, Link, Fit;
    var a, p := i.access, i.peers;
    RequestLink(u, i);
    var n := Follow(Received(u, i), a, GmmMessage(i.message), p, [Sent(a, GmmMessage(i.message))], Registered,
                    [Post(a, StartAuth)]);
    StartLink(n, a, p);
    n := Follow(n, a, StartAuth, p, [Sent(a, StartAuth), Checked(a, true, true)], Authentication,
                [Post(a, AuthSuccess(None))]);
    AuthLink(n, a, p);
    n := Follow(n, a, AuthSuccess(None), p, [Sent(a, AuthSuccess(None)), Entered(a, true)], SecurityMode,
                [Post(a, SecurityModeSuccess(FromUe))]);
    ModeLink(n, a, p);
    n := Follow(n, a, SecurityModeSuccess(FromUe), p, [Sent(a, SecurityModeSuccess(FromUe))], ContextSetup,
                if p.setUp then [] else [Post(a, ContextSetupFail)]);
    if !p.setUp {
      FailLink(n, a, p);
      n := Follow(n, a, ContextSetupFail, p, [Sent(a, ContextSetupFail)], Deregistered, []);
    }
    DrainNothing(n, p);
  }

  lemma {:induction false} SwiftRequest(u: Ue, i: Input)
    requires Swift(u, i)
    ensures var (d, how) := Requested(Received(u, i).data, Registered, i.message.request);
            how.Accepted? && Known(d) && GmmSpec.Valid(d) && d.hasRequest && d.registrationType == MOBILITY
  {
  }


  // ---- A UE that uses one access ----

  predicate InProgress(s: State) { s == Authentication || s == SecurityMode || s == ContextSetup }

  function Other(a: Access): Access { if a == Access3GPP then AccessNon3GPP else Access3GPP }

  /** Only `a` has left Deregistered, and a registration in progress there still has its request. */
  predicate Held(u: Ue, a: Access, q: seq<Post>) {
    && At(u, Other(a)) == Deregistered && (InProgress(At(u, a)) ==> u.data.hasRequest)
    && (forall n :: 0 <= n < |q| ==>
          !q[n].event.GmmMessage? && (q[n].access == a || q[n].event.DeregistrationAccept?))
    && (q != [] && q[0].event.StartAuth? ==> u.data.hasRequest)
  }

  lemma {:induction false} EnterHolds(d: Data, s: State, a: Access, e: Event, p: Peers)
    requires InProgress(s) ==> d.hasRequest
    ensures InProgress(s) ==> Enter(d, s, a, e, p).data.hasRequest
    ensures forall c :: c in Enter(d, s, a, e, p).sends ==>
              !c.event.GmmMessage? && !c.event.StartAuth? && (c.access == a || c.event.DeregistrationAccept?)
  {
    hide Authenticate, EnterSecurityMode, EnterContextSetup;
    AuthenticateHolds(d, a, p);
    if e.AuthSuccess? {
      SecurityModeHolds(d, a, e.eap, p);
    } else {
      SecurityModeHolds(d, a, None, p);
    }
    if e.SecurityModeSuccess? {
      ContextSetupHolds(d, a, e.nas, p);
    }
  }

  lemma {:induction false} AuthenticateHolds(d: Data, a: Access, p: Peers)
    ensures Authenticate(d, a, p).data.hasRequest == d.hasRequest
  {
    hide Mild;
  }

  lemma {:induction false} SecurityModeHolds(d: Data, a: Access, eap: Option<bool>, p: Peers)
    ensures EnterSecurityMode(d, a, eap, p).data.hasRequest == d.hasRequest
  {
    hide Mild;
  }

  lemma {:induction false} ContextSetupHolds(d: Data, a: Access, nas: Nas, p: Peers)
    ensures d.hasRequest ==> EnterContextSetup(d, a, nas, p).data.hasRequest
  {
    hide Mild;
  }

  lemma {:induction false} StepHeld(u: Ue, q: seq<Post>, p: Peers, a: Access)
    requires q != [] && Held(u, a, q)
    requires forall n :: 1 <= n < |q| ==> q[n].event.DeregistrationAccept?
    ensures var (n, sends) := Step(u, q[0].access, q[0].event, p); Held(n, a, sends + q[1..])
  {
    hide Enter, Source, Step, Mild, Cost, InProgress, Next;
    var b, e := q[0].access, q[0].event;
    var s := At(u, b);
    assert b == a || b == Other(a);
    TableHolds(s, e);
    var (n, sends) := Step(u, b, e, p);
    match Next(s, e)
    case None =>
      StepRefused(u, b, e, p);
      assert sends + q[1..] == q[1..];
    case Some(t) =>
      if t == s {
        StepStays(u, b, e, p);
        RestartHolds(u.data, s, b, e, p);
      } else {
        StepGoes(u, b, e, p, t);
        EnterHolds(Exited(u.data, s), t, b, e, p);
      }
      assert sends == [] ==> sends + q[1..] == q[1..];
  }

  /** A registration gets under way by StartAuth only, and an access at rest has nothing to accept. */
  lemma {:induction false} TableHolds(s: State, e: Event)
    ensures Next(s, e).Some? && InProgress(Next(s, e).value) ==> InProgress(s) || e.StartAuth?
    ensures s == Deregistered && e.DeregistrationAccept? ==> Next(s, e).None?
  {
  }

  lemma {:induction false} RestartHolds(d: Data, s: State, a: Access, e: Event, p: Peers)
    requires Next(s, e) == Some(s) && !e.GmmMessage?
    ensures var r := Source(d, s, a, e, p);
            && r.data.hasRequest == d.hasRequest && |r.sends| <= 1
            && forall c :: c in r.sends ==> c.access == a && !c.event.GmmMessage? && !c.event.StartAuth?
  {
    hide Authenticate;
    AuthenticateHolds(d, a, p);
  }

  lemma {:induction false} DrainHeld(u: Ue, q: seq<Post>, p: Peers, a: Access)
    requires Held(u, a, q) && Tail(q)
    ensures Held(Drain(u, q, p), a, [])
    decreases CostAll(q)
  {
    hide Step, Held, Cost;
    if q != [] {
      var (n, sends) := Step(u, q[0].access, q[0].event, p);
      StepCost(u, q[0].access, q[0].event, p);
      CostAppend(sends, q[1..]);
      StepHeld(u, q, p, a);
      StepTail(u, q[0].access, q[0].event, p);
      DrainHeld(n, sends + q[1..], p, a);
    }
  }

  lemma {:induction false} StepTail(u: Ue, a: Access, e: Event, p: Peers)
    ensures Tail(Step(u, a, e, p).1)
  {
    hide Source, Enter;
    var s := At(u, a);
    if Next(s, e).Some? && Next(s, e).value != s {
      EnterTail(Exited(Source(u.data, s, a, e, p).data, s), Next(s, e).value, a, e, p);
    }
  }

  lemma {:induction false} EnterTail(d: Data, s: State, a: Access, e: Event, p: Peers)
    ensures Tail(Enter(d, s, a, e, p).sends)
  {
    hide Authenticate, EnterSecurityMode, EnterContextSetup;
  }

  lemma {:induction false} InAuthenticationHolds(d: Data, a: Access, m: Message, p: Peers)
    requires d.hasRequest
    ensures InAuthentication(d, a, m, p).data.hasRequest
  {
    hide AkaFailed, Confirm, Refused, Mild;
  }

  lemma {:induction false} InContextSetupHolds(d: Data, a: Access, m: Message, p: Peers)
    requires d.hasRequest
    ensures InContextSetup(d, a, m, p).data.hasRequest
  {
    hide Mild, Cost;
  }

  lemma {:induction false} MessageHolds(d: Data, s: State, a: Access, m: Message, p: Peers)
    requires InProgress(s) ==> d.hasRequest
    ensures var r := Source(d, s, a, GmmMessage(m), p);
            && (InProgress(s) ==> r.data.hasRequest)
            && |r.sends| <= 1 && (forall c :: c in r.sends ==> c.access == a && !c.event.GmmMessage?)
            && (forall c :: c in r.sends && c.event.StartAuth? ==> r.data.hasRequest)
  {
    hide InAuthentication, InContextSetup, Requested;
    if InProgress(s) {
      InAuthenticationHolds(d, a, m, p);
      InContextSetupHolds(d, a, m, p);
    }
    if m.RegistrationRequest? {
      RequestedExactly(d, s, m.request);
    }
    AuthenticationStarts(d, a, m, p);
  }

  lemma {:induction false} AuthenticationStarts(d: Data, a: Access, m: Message, p: Peers)
    ensures forall c :: c in InAuthentication(d, a, m, p).sends ==> !c.event.StartAuth?
  {
    hide IdentityGiven;
  }

  lemma {:induction false} HandleHeld(u: Ue, i: Input)
    requires Held(u, i.access, [])
    ensures Held(Handle(u, i), i.access, [])
  {
    hide Source, Drain, Mild, InProgress;
    if !u.crashed {
      var w, a, e := Received(u, i), i.access, GmmMessage(i.message);
      var (n, sends) := Step(w, a, e, i.peers);
      HandleUnfold(u, i);
      if At(u, a) == DeregistrationInitiated {
        DrainNothing(n, i.peers);
      } else {
        MessageStays(At(u, a), i.message);
        MessageHolds(w.data, At(u, a), a, i.message, i.peers);
        DrainHeld(n, sends, i.peers, a);
      }
    }
  }

  lemma {:induction false} RunHeld(inputs: seq<Input>, a: Access)
    requires forall n :: 0 <= n < |inputs| ==> inputs[n].access == a
    ensures Held(Run(NewUe(), inputs), a, [])
    decreases |inputs|
  {
    hide Handle;
    if inputs != [] {
      RunHeld(inputs[..|inputs| - 1], a);
      HandleHeld(Run(NewUe(), inputs[..|inputs| - 1]), inputs[|inputs| - 1]);
    }
  }

  /** A UE that uses one access makes the AMF panic only while it authenticates, or by way of an old AMF's answer; never
      by completing its registration. */
  lemma {:induction false} OneAccessPanics(inputs: seq<Input>, i: Input)
    requires forall n :: 0 <= n < |inputs| ==> inputs[n].access == i.access
    requires !Run(NewUe(), inputs).crashed && Handle(Run(NewUe(), inputs), i).crashed
    ensures var u := Run(NewUe(), inputs);
            if At(u, i.access) == Authentication then i.message.AuthenticationFailure? || i.message.AuthenticationResponse?
            else i.message.RegistrationRequest? && Broken(Received(u, i).data, At(u, i.access), i.message.request)
  {
    hide Run, Handle;
    PanicsExactly(inputs, i);
    RunHeld(inputs, i.access);
  }

  lemma {:induction false} CompletionReaction(d: Data, a: Access, p: Peers)
    requires d.hasRequest
    ensures Source(d, ContextSetup, a, GmmMessage(RegistrationComplete), p) == Sends(d, a, ContextSetupSuccess)
  {
    hide Mild, Cost;
  }

  /** A completion that finds its request leads to Registered and clears it. */
  lemma {:induction false} CompletionTaken(u: Ue, i: Input)
    requires !u.crashed && At(u, i.access) == ContextSetup && u.data.hasRequest && i.message.RegistrationComplete?
    ensures var v := Handle(u, i);
            && !v.crashed && At(v, i.access) == Registered && !v.data.hasRequest
            && At(v, Other(i.access)) == At(u, Other(i.access))
  {
    hide Drain, Handle, Step, Source, Mild, Cost;
    var w, a, p := Received(u, i), i.access, i.peers;
    HandleUnfold(u, i);
    MessageStays(ContextSetup, i.message);
    StepStays(w, a, GmmMessage(i.message), p);
    CompletionReaction(w.data, a, p);
    var n := Step(w, a, GmmMessage(i.message), p).0;
    DrainOne(n, a, ContextSetupSuccess, p);
    StepGoes(n, a, ContextSetupSuccess, p, Registered);
    DrainNothing(Step(n, a, ContextSetupSuccess, p).0, p);
  }

  /** With both accesses in ContextSetup, the first completion clears the request that the second one reads. */
  lemma {:induction false} SecondCompletionPanics(u: Ue, i: Input, j: Input)
    requires Tidy(u, []) && u.data.hasRequest && i.access != j.access
    requires At(u, i.access) == ContextSetup && At(u, j.access) == ContextSetup
    requires i.message.RegistrationComplete? && j.message.RegistrationComplete?
    ensures At(Handle(u, i), i.access) == Registered && !Handle(u, i).crashed && Handle(Handle(u, i), j).crashed
  {
    hide Handle, Tidy;
    assert !u.crashed by { TidyRuns(u); }
    CompletionTaken(u, i);
    HandleTidy(u, i);
    HandleTidy(Handle(u, i), j);
  }

  lemma {:induction false} TidyRuns(u: Ue)
    requires Tidy(u, [])
    ensures !u.crashed
  {
  }
}
