/** The GMM registration machine of the AMF: its transition table, what each callback does to the UE and which events it
    sends, and the sequential reading of a run: events are taken one after another, each to its end, before the events
    it sent are taken. */
module GmmSpec {
  import opened Octets

  datatype State = Deregistered | DeregistrationInitiated | Authentication | SecurityMode | ContextSetup | Registered

  datatype Access = Access3GPP | AccessNon3GPP

  /** The access types a UE may ask to deregister. */
  datatype Target = Only(access: Access) | Both | Neither

  datatype AuthType = Aka5G | EapAkaPrime | OtherAuth

  datatype AuthResult = Success(namesSupi: bool) | Failure | Ongoing

  datatype IdentityType = NoIdentity | Suci | Guti | Imei | STmsi | Imeisv

  datatype Cause = MacFailure | Non5GUnacceptable | KsiInUse | SynchFailure | OtherCause

  /** A NAS message container as the handlers see it. */
  datatype Container = NoContainer | Undecipherable | Malformed | HoldsRegistration | HoldsService

  /** What an old AMF's answer may lack although it is dereferenced: the UE context, the ngKSI of its security data, the
      S-NSSAI of one of its sessions. */
  datatype Missing = MissingUeContext | MissingNgKsi | MissingSnssai

  /** The context an old AMF hands over: its ngKSI, if it comes with security data, and whether it names a SUPI. */
  datatype Transfer = Handed(seafKsi: Option<int>, namesSupi: bool) | Incomplete(missing: Missing)

  /** How a registration request is handled. */
  datatype Handling = Accepted | Rejected | Panicked

  type Octal = x: int | 0 <= x < 8

  const INITIAL: Octal := 1
  const MOBILITY: Octal := 2
  const PERIODIC: Octal := 3
  const EMERGENCY: Octal := 4
  const NO_KEY: Octal := 7

  /** A registration request: the fields of the request in force once its container is opened, and what its
      environment answers while it is handled. */
  datatype Registration = Registration(hasRanUe: bool, container: Container, kind: Octal, identity: Option<IdentityType>,
                                       identityDecodes: bool, otherAmf: bool, native: bool, ksi: Octal, taiServed: bool,
                                       hasCapability: bool, transfer: Option<Transfer>)

  datatype Message =
    | RegistrationRequest(request: Registration)
    | ServiceRequest(undecipherable: bool)
    | DeregistrationRequest(target: Target)
    | IdentityResponse(identity: IdentityType, requested: bool, decodes: bool)
    | AuthenticationResponse(hasParameter: bool, decodes: bool, matches: bool, hasEap: bool)
    | AuthenticationFailure(cause: Cause, hasParameter: bool, decodes: bool)
    | SecurityModeComplete(imeisvDecodes: bool, container: Container)
    | SecurityModeReject
    | RegistrationComplete
    | OtherMessage

  /** What the peers answer while one NAS message is handled; each answer is asked for at most once. */
  datatype Peers = Peers(discovered: bool, authenticate: Option<AuthType>, confirm: Option<AuthResult>,
                         algorithmChosen: bool, commandEncoded: Option<bool>, setUp: bool, serviceUndecipherable: bool)

  /** The NAS message that goes with a completed security mode: the UE's stored request, one from the container, or a
      service request. */
  datatype Nas = FromUe | FromContainer | Service

  /** The events of the machine, with the arguments their receivers read. */
  datatype Event =
    | GmmMessage(message: Message)
    | StartAuth
    | AuthRestart
    | AuthSuccess(eap: Option<bool>)
    | AuthError
    | AuthFail
    | SecurityModeSuccess(nas: Nas)
    | SecurityModeFail
    | ContextSetupSuccess
    | ContextSetupFail
    | InitDeregistration(target: Target)
    | DeregistrationAccept

  datatype Post = Post(access: Access, event: Event)

  /** What happened, in order: an event was sent, or a decision was taken on the values recorded. */
  datatype Mark =
    | Sent(access: Access, event: Event)
    | Checked(access: Access, known: bool, valid: bool)
    | Confirmed(access: Access, auth: AuthType, result: AuthResult)
    | Entered(access: Access, valid: bool)
    | Completed(access: Access, macFailed: bool)

  /** The fields of the UE that the machine reads or writes. */
  datatype Data = Data(available: bool, ksi: int, macFailed: bool, authCtx: Option<AuthType>, synchFailures: nat,
                       identityRequests: nat, hasSupi: bool, hasSuci: bool, hasRequest: bool, registrationType: int,
                       identity: IdentityType, amfChanged: bool)

  datatype Ue = Ue(state3GPP: State, stateNon3GPP: State, data: Data, crashed: bool, log: seq<Mark>)

  /** What a callback does: the data it leaves, the decisions it takes, the events it sends, and whether it panics. */
  datatype Reaction = Reaction(data: Data, marks: seq<Mark>, sends: seq<Post>, crash: bool)

  function Quiet(d: Data): Reaction { Reaction(d, [], [], false) }

  function Sends(d: Data, a: Access, e: Event): Reaction { Reaction(d, [], [Post(a, e)], false) }

  function Crash(d: Data): Reaction { Reaction(d, [], [], true) }

  function Marked(m: Mark, r: Reaction): Reaction { r.(marks := [m] + r.marks) }

  /** An upper bound on the events that one event leads to, itself included. */
  function Cost(e: Event): nat {
    match e
    case GmmMessage(_) => 5
    case StartAuth => 4
    case AuthRestart => 4
    case AuthSuccess(_) => 3
    case InitDeregistration(_) => 4
    case SecurityModeSuccess(_) => 2
    case _ => 1
  }

  /** A callback takes at most one decision, for its access, and sends at most one event, to its own access and
      costing less than `bound`. */
  predicate Mild(a: Access, r: Reaction, bound: nat) {
    && |r.marks| <= 1 && |r.sends| <= 1
    && (r.marks != [] ==> !r.marks[0].Sent? && r.marks[0].access == a)
    && (r.sends != [] ==> r.sends[0].access == a && Cost(r.sends[0].event) < bound)
    && (r.crash ==> r.sends == [])
  }

  // ---- The transition table ----

  function Next(s: State, e: Event): Option<State> {
    match e
    case GmmMessage(_) => if s == DeregistrationInitiated then None else Some(s)
    case StartAuth => if s == Deregistered || s == Registered then Some(Authentication) else None
    case AuthRestart => if s == Authentication then Some(Authentication) else None
    case AuthSuccess(_) => if s == Authentication then Some(SecurityMode) else None
    case AuthFail => if s == Authentication then Some(Deregistered) else None
    case AuthError => if s == Authentication then Some(Deregistered) else None
    case SecurityModeSuccess(_) => if s == SecurityMode then Some(ContextSetup) else None
    case SecurityModeFail => if s == SecurityMode then Some(Deregistered) else None
    case ContextSetupSuccess => if s == ContextSetup then Some(Registered) else None
    case ContextSetupFail => if s == ContextSetup then Some(Deregistered) else None
    case InitDeregistration(_) => if s == Registered then Some(DeregistrationInitiated) else None
    case DeregistrationAccept => if s == DeregistrationInitiated then Some(Deregistered) else None
  }

  /** The table applied to one event: a pair it does not list changes nothing. */
  function Apply(s: State, e: Event): State {
    match Next(s, e)
    case None => s
    case Some(t) => t
  }

  /** The table folded over the events sent to one access. */
  function Fold(s: State, a: Access, log: seq<Mark>): State {
    if log == [] then s
    else
      var before := Fold(s, a, log[..|log| - 1]);
      var m := log[|log| - 1];
      if m.Sent? && m.access == a then Apply(before, m.event) else before
  }

  // ---- The UE ----

  function At(u: Ue, a: Access): State { if a == Access3GPP then u.state3GPP else u.stateNon3GPP }

  function Move(u: Ue, a: Access, s: State): Ue {
    if a == Access3GPP then u.(state3GPP := s) else u.(stateNon3GPP := s)
  }

  function Note(u: Ue, m: Mark): Ue { u.(log := u.log + [m]) }

  function Absorb(u: Ue, r: Reaction): Ue {
    u.(data := r.data, log := u.log + r.marks, crashed := u.crashed || r.crash)
  }

  function Known(d: Data): bool { d.hasSupi || d.hasSuci }

  /** `SecurityContextIsValid`. */
  function Valid(d: Data): bool { d.available && d.ksi != NO_KEY && !d.macFailed }

  /** `ClearRegistrationRequestData`. */
  function Cleared(d: Data): Data {
    d.(hasRequest := false, registrationType := 0, identity := NoIdentity, synchFailures := 0, identityRequests := 0,
       amfChanged := false)
  }

  /** ngKSI values run from 0 to 6; 7 means that there is no key. */
  function NextKsi(k: int): int { if k < 6 then k + 1 else 0 }

  // ---- The handlers ----

  /** `HandleRegistrationRequest` in state `s`: the data it leaves, and how it ends. */
  function Requested(d: Data, s: State, r: Registration): (Data, Handling) {
    var (n, ok) := Opened(d, r.container);
    if !r.hasRanUe then (d, Rejected)
    else if !ok then (n, Rejected)
    else
      var (typed, ok') := Typed(n.(hasRequest := true), s, r.kind);
      if !ok' || r.identity.None? then (typed, Rejected)
      else Identified(typed.(identity := r.identity.value), r)
  }

  /** A container that cannot be deciphered costs the security context; one without a registration request is an error. */
  function Opened(d: Data, c: Container): (Data, bool) {
    if d.macFailed || c.NoContainer? then (d, true)
    else (d.(available := d.available && !c.Undecipherable?), c.Undecipherable? || c.HoldsRegistration?)
  }

  /** The registration type: an initial registration gives up the security context, updates need a registered UE, and
      unknown types count as initial. */
  function Typed(d: Data, s: State, kind: Octal): (Data, bool) {
    if kind == INITIAL then (d.(registrationType := kind, available := false), true)
    else if kind == MOBILITY || kind == PERIODIC then (d.(registrationType := kind), s != Deregistered)
    else if kind == EMERGENCY then (d.(registrationType := kind), false)
    else (d.(registrationType := INITIAL), true)
  }

  function Identified(d: Data, r: Registration): (Data, Handling) {
    if !r.identityDecodes && !d.identity.NoIdentity? && !d.identity.STmsi? then (d, Rejected)
    else
      var keyed := Named(d, r.otherAmf).(ksi := if r.native && r.ksi != NO_KEY then r.ksi else 0);
      if !r.taiServed || (!r.hasCapability && r.kind != PERIODIC) then (keyed, Rejected)
      else if keyed.amfChanged then Transferred(keyed, r.transfer)
      else (keyed, Accepted)
  }

  function Named(d: Data, otherAmf: bool): Data {
    if d.identity.Suci? then d.(hasSuci := true)
    else if d.identity.Guti? then d.(amfChanged := otherAmf)
    else d
  }

  /** The context transfer from the old AMF: one that fails is given up, one that lacks a part panics. */
  function Transferred(d: Data, t: Option<Transfer>): (Data, Handling) {
    match t
    case None => (d.(amfChanged := false), Accepted)
    case Some(Incomplete(_)) => (d.(available := true, macFailed := false), Panicked)
    case Some(Handed(seafKsi, namesSupi)) =>
      (d.(available := seafKsi.Some?, macFailed := false, hasSupi := d.hasSupi || namesSupi,
          ksi := if seafKsi.Some? then seafKsi.value else d.ksi), Accepted)
  }

  /** `HandleServiceRequest`, as far as it touches these fields. */
  function Served(d: Data, undecipherable: bool): Data {
    d.(available := d.available && !(Valid(d) && undecipherable))
  }

  /** `AuthenticationProcedure` and the event its result makes the callback send. */
  function Authenticate(d: Data, a: Access, p: Peers): (r: Reaction)
    ensures Mild(a, r, 4)
  {
    Marked(Checked(a, Known(d), Valid(d)),
           if !Known(d) then Quiet(d.(identityRequests := d.identityRequests + 1))
           else if Valid(d) then Sends(d, a, AuthSuccess(None))
           else if !p.discovered || p.authenticate.None? then Sends(d, a, AuthError)
           else Quiet(d.(authCtx := p.authenticate)))
  }

  /** `HandleIdentityResponse`: the data it leaves, and whether it succeeded. */
  function IdentityGiven(d: Data, i: IdentityType, requested: bool, decodes: bool): (Data, bool) {
    if !requested || (i.Suci? && !decodes) then (d, false)
    else if i.Suci? then (d.(hasSuci := true), true)
    else (d, i.NoIdentity? || (!d.macFailed && decodes))
  }

  /** One more identity request for a UE that registered by its 5G-GUTI, a rejection for every other. */
  function Refused(d: Data, a: Access): (r: Reaction)
    ensures Mild(a, r, 2) && r.marks == [] && r.data.ksi == d.ksi && r.data.hasRequest == d.hasRequest
  {
    if d.identity.Guti? && d.identityRequests == 0 then Quiet(d.(identityRequests := 1)) else Sends(d, a, AuthFail)
  }

  /** What the AUSF's answer to a confirmation leads to. */
  function Confirm(d: Data, a: Access, t: AuthType, result: AuthResult): (r: Reaction)
    ensures Mild(a, r, 4) && r.data.ksi == d.ksi && r.data.hasRequest == d.hasRequest
  {
    Marked(Confirmed(a, t, result),
           match result
           case Success(s) => Sends(d.(hasSupi := s), a, AuthSuccess(Some(t.EapAkaPrime?)))
           case Failure => Refused(d, a)
           case Ongoing => Quiet(d))
  }

  /** `HandleAuthenticationResponse`. */
  function Responded(d: Data, a: Access, m: Message, p: Peers): (r: Reaction)
    requires m.AuthenticationResponse?
    ensures Mild(a, r, 4)
  {
    match d.authCtx
    case None => Quiet(d)
    case Some(Aka5G) =>
      if !m.decodes || !m.hasParameter then Quiet(d)
      else if !m.matches then Refused(d, a)
      else if p.confirm.None? then Quiet(d)
      else Confirm(d, a, Aka5G, p.confirm.value)
    case Some(EapAkaPrime) =>
      if !m.hasEap then Crash(d)
      else if p.confirm.None? then Quiet(d)
      else Confirm(d, a, EapAkaPrime, p.confirm.value)
    case Some(OtherAuth) => Quiet(d)
  }

  /** `HandleAuthenticationFailure`, which dereferences the authentication context. */
  function Failed(d: Data, a: Access, m: Message, p: Peers): (r: Reaction)
    requires m.AuthenticationFailure?
    ensures Mild(a, r, 2)
  {
    match d.authCtx
    case None => Crash(d)
    case Some(Aka5G) => AkaFailed(d, a, m.cause, if m.decodes && m.hasParameter then p.authenticate else None)
    case Some(EapAkaPrime) => Quiet(if m.cause.KsiInUse? then d.(ksi := NextKsi(d.ksi)) else d)
    case Some(OtherAuth) => Quiet(d)
  }

  /** The 5G-AKA causes; `resynchronised` is the AUSF's answer, where it could be asked. */
  function AkaFailed(d: Data, a: Access, c: Cause, resynchronised: Option<AuthType>): (r: Reaction)
    ensures Mild(a, r, 2) && r.data.ksi == if c.KsiInUse? then NextKsi(d.ksi) else d.ksi
    ensures r.data.hasRequest == d.hasRequest
  {
    match c
    case MacFailure => Sends(d, a, AuthFail)
    case Non5GUnacceptable => Sends(d, a, AuthFail)
    case KsiInUse => Quiet(d.(synchFailures := 0, ksi := NextKsi(d.ksi)))
    case SynchFailure =>
      var n := d.(synchFailures := d.synchFailures + 1);
      if n.synchFailures >= 2 then Sends(n, a, AuthFail)
      else Quiet(n.(authCtx := if resynchronised.Some? then resynchronised else d.authCtx))
    case OtherCause => Quiet(d)
  }

  /** `HandleSecurityModeComplete` in state `s`. */
  function ModeCompleted(d: Data, s: State, a: Access, m: Message): (r: Reaction)
    requires m.SecurityModeComplete?
    ensures Mild(a, r, 3)
  {
    Marked(Completed(a, d.macFailed),
           if d.macFailed || !m.imeisvDecodes then Quiet(d)
           else match m.container
                case NoContainer => Sends(d, a, SecurityModeSuccess(FromUe))
                case HoldsRegistration => Sends(d, a, SecurityModeSuccess(FromContainer))
                case HoldsService => Sends(d, a, if s == Registered then SecurityModeSuccess(Service) else SecurityModeFail)
                case _ => Quiet(d))
  }

  /** The registration handlers, which dereference the stored request. */
  function SetUp(d: Data, a: Access, p: Peers): (r: Reaction)
    ensures Mild(a, r, 2)
  {
    if d.registrationType != INITIAL && d.registrationType != MOBILITY && d.registrationType != PERIODIC then Quiet(d)
    else if !d.hasRequest then Crash(d)
    else if p.setUp then Quiet(d)
    else Sends(d, a, ContextSetupFail)
  }

  // ---- The six state callbacks ----

  /** The callback of state `s` on an event. */
  function Source(d: Data, s: State, a: Access, e: Event, p: Peers): (r: Reaction)
    ensures Mild(a, r, Cost(e))
    ensures !e.GmmMessage? && !e.AuthRestart? ==> r == Quiet(d)
  {
    if e.AuthRestart? then Authenticate(d, a, p)
    else if !e.GmmMessage? then Quiet(d)
    else
      match s
      case Deregistered => AtRest(d, s, a, e.message)
      case Registered =>
        if e.message.DeregistrationRequest? then Sends(d, a, InitDeregistration(e.message.target))
        else AtRest(d, s, a, e.message)
      case Authentication => InAuthentication(d, a, e.message, p)
      case SecurityMode =>
        if e.message.SecurityModeComplete? then ModeCompleted(d, s, a, e.message)
        else if e.message.SecurityModeReject? then Sends(d, a, SecurityModeFail)
        else Quiet(d)
      case ContextSetup => InContextSetup(d, a, e.message, p)
      case DeregistrationInitiated => Quiet(d)
  }

  function AtRest(d: Data, s: State, a: Access, m: Message): (r: Reaction)
    ensures Mild(a, r, 5)
  {
    match m
    case RegistrationRequest(request) =>
      var (n, how) := Requested(d, s, request);
      if how.Accepted? then Sends(n, a, StartAuth) else if how.Panicked? then Crash(n) else Quiet(n)
    case ServiceRequest(undecipherable) => Quiet(Served(d, undecipherable))
    case _ => Quiet(d)
  }

  function InAuthentication(d: Data, a: Access, m: Message, p: Peers): (r: Reaction)
    ensures Mild(a, r, 5)
  {
    match m
    case IdentityResponse(i, requested, decodes) =>
      var (n, ok) := IdentityGiven(d, i, requested, decodes);
      if ok then Sends(n.(identity := i), a, AuthRestart) else Quiet(n)
    case AuthenticationResponse(_, _, _, _) => Responded(d, a, m, p)
    case AuthenticationFailure(_, _, _) => Failed(d, a, m, p)
    case _ => Quiet(d)
  }

  function InContextSetup(d: Data, a: Access, m: Message, p: Peers): (r: Reaction)
    ensures Mild(a, r, 2)
  {
    match m
    case IdentityResponse(i, requested, decodes) =>
      var (n, ok) := IdentityGiven(d, i, requested, decodes);
      if ok then SetUp(n, a, p) else Quiet(n)
    case RegistrationComplete => if d.hasRequest then Sends(d, a, ContextSetupSuccess) else Crash(d)
    case _ => Quiet(d)
  }

  /** The exit callback: leaving Authentication clears its data. */
  function Exited(d: Data, s: State): Data {
    if s == Authentication then d.(authCtx := None, synchFailures := 0, identityRequests := 0) else d
  }

  /** The entry callback of a state, reached by an event whose arguments it reads. */
  function Enter(d: Data, s: State, a: Access, e: Event, p: Peers): (r: Reaction)
    ensures e.InitDeregistration? || Mild(a, r, 4)
  {
    match s
    case Deregistered => Quiet(Cleared(d))
    case Registered => Quiet(Cleared(d))
    case Authentication => Authenticate(d, a, p)
    case SecurityMode => EnterSecurityMode(d, a, if e.AuthSuccess? then e.eap else None, p)
    case ContextSetup => if e.SecurityModeSuccess? then EnterContextSetup(d, a, e.nas, p) else Quiet(d)
    case DeregistrationInitiated => Reaction(d, [], if e.InitDeregistration? then Accepts(e.target) else [], false)
  }

  /** Reading EAP arguments that were not supplied is a failed type assertion. */
  function EnterSecurityMode(d: Data, a: Access, eap: Option<bool>, p: Peers): (r: Reaction)
    ensures Mild(a, r, 3)
  {
    Marked(Entered(a, Valid(d)),
           if Valid(d) then Sends(d, a, SecurityModeSuccess(FromUe))
           else if eap.None? then Crash(d)
           else if !p.algorithmChosen then Sends(d, a, SecurityModeFail)
           else Quiet(d.(available := if p.commandEncoded.Some? then p.commandEncoded.value else d.available)))
  }

  function EnterContextSetup(d: Data, a: Access, nas: Nas, p: Peers): (r: Reaction)
    ensures Mild(a, r, 2)
  {
    match nas
    case FromUe => SetUp(d, a, p)
    case FromContainer => SetUp(d.(hasRequest := true), a, p)
    case Service => Quiet(Served(d, p.serviceUndecipherable))
  }

  /** `HandleDeregistrationRequest` accepts on the access types asked for, whichever access it came from. */
  function Accepts(t: Target): seq<Post> {
    match t
    case Only(a) => [Post(a, DeregistrationAccept)]
    case Both => [Post(Access3GPP, DeregistrationAccept), Post(AccessNon3GPP, DeregistrationAccept)]
    case Neither => []
  }

  // ---- One event, and all that follow from it ----

  /** One event taken to its end: the events its callbacks send are only collected. */
  function Step(u: Ue, a: Access, e: Event, p: Peers): (Ue, seq<Post>) {
    var n := Note(u, Sent(a, e));
    var s := At(u, a);
    match Next(s, e)
    case None => (n, [])
    case Some(t) =>
      var r := Source(u.data, s, a, e, p);
      if t == s then (Absorb(n, r), r.sends)
      else
        var r' := Enter(Exited(r.data, s), t, a, e, p);
        (Absorb(Move(Absorb(n, r), a, t), r'), r.sends + r'.sends)
  }

  function CostAll(q: seq<Post>): nat { if q == [] then 0 else Cost(q[0].event) + CostAll(q[1..]) }

  lemma {:induction false} CostAppend(q: seq<Post>, q': seq<Post>)
    ensures CostAll(q + q') == CostAll(q) + CostAll(q')
  {
    if q != [] {
      assert (q + q')[1..] == q[1..] + q';
      CostAppend(q[1..], q');
    } else {
      assert q + q' == q';
    }
  }

  lemma {:induction false} CostSmall(q: seq<Post>)
    ensures |q| == 1 ==> CostAll(q) == Cost(q[0].event)
    ensures |q| == 2 ==> CostAll(q) == Cost(q[0].event) + Cost(q[1].event)
  {
    if |q| == 1 {
      assert q[1..] == [];
    } else if |q| == 2 {
      CostSmall(q[1..]);
    }
  }

  /** What an entry callback sends costs less than the event that led to the state. */
  lemma {:induction false} EnterCost(d: Data, s: State, a: Access, e: Event, p: Peers, from: State)
    requires Next(from, e) == Some(s) && from != s
    ensures CostAll(Enter(d, s, a, e, p).sends) < Cost(e)
  {
    hide Authenticate, EnterSecurityMode, EnterContextSetup;
    CostSmall(Enter(d, s, a, e, p).sends);
  }

  /** Every event costs more than the events it sends. */
  lemma {:induction false} StepCost(u: Ue, a: Access, e: Event, p: Peers)
    ensures CostAll(Step(u, a, e, p).1) < Cost(e)
  {
    hide Source, Enter;
    var s := At(u, a);
    var r := Source(u.data, s, a, e, p);
    CostSmall(r.sends);
    match Next(s, e)
    case None =>
    case Some(t) =>
      if t != s {
        EnterCost(Exited(r.data, s), t, a, e, p, s);
        assert r.sends == [];
        assert r.sends + Enter(Exited(r.data, s), t, a, e, p).sends == Enter(Exited(r.data, s), t, a, e, p).sends;
      }
  }

  /** Takes the events of a queue one after another, the events each one sends before the rest. */
  ghost function Drain(u: Ue, q: seq<Post>, p: Peers): Ue
    decreases CostAll(q)
  {
    if q == [] then u
    else
      var (n, sends) := Step(u, q[0].access, q[0].event, p);
      StepCost(u, q[0].access, q[0].event, p);
      CostAppend(sends, q[1..]);
      Drain(n, sends + q[1..], p)
  }

  lemma {:induction false} StepRefused(u: Ue, a: Access, e: Event, p: Peers)
    requires Next(At(u, a), e) == None
    ensures Step(u, a, e, p) == (Note(u, Sent(a, e)), [])
  {
    hide Next;
  }

  /** An event that keeps the state runs the state's callback and nothing else. */
  lemma {:induction false} StepStays(u: Ue, a: Access, e: Event, p: Peers)
    requires Next(At(u, a), e) == Some(At(u, a))
    ensures var r := Source(u.data, At(u, a), a, e, p);
            Step(u, a, e, p) == (Absorb(Note(u, Sent(a, e)), r), r.sends)
  {
    hide Source, Next;
  }

  /** An event that changes it exits the state, moves and enters the target. */
  lemma {:induction false} StepGoes(u: Ue, a: Access, e: Event, p: Peers, t: State)
    requires Next(At(u, a), e) == Some(t) && t != At(u, a)
    ensures var r := Enter(Exited(u.data, At(u, a)), t, a, e, p);
            Step(u, a, e, p) == (Absorb(Move(Note(u, Sent(a, e)), a, t), r), r.sends)
  {
    hide Source, Enter;
    var s := At(u, a);
    var r := Source(u.data, s, a, e, p);
    GoesQuietly(s, e, t);
    assert r == Quiet(u.data);
    var r' := Enter(Exited(u.data, s), t, a, e, p);
    assert r.sends + r'.sends == r'.sends;
    assert u.log + [Sent(a, e)] + [] == u.log + [Sent(a, e)];
  }

  lemma {:induction false} GoesQuietly(s: State, e: Event, t: State)
    requires Next(s, e) == Some(t) && t != s
    ensures !e.GmmMessage? && !e.AuthRestart?
  {
  }

  /** One event, and then the events it sends. */
  lemma {:induction false} DrainOne(u: Ue, a: Access, e: Event, p: Peers)
    ensures var (n, sends) := Step(u, a, e, p); Drain(u, [Post(a, e)], p) == Drain(n, sends, p)
  {
    hide Step;
    var (n, sends) := Step(u, a, e, p);
    assert sends + [Post(a, e)][1..] == sends;
  }

  // ---- Runs ----

  /** One NAS message: where it arrives, whether its integrity check failed, and what the peers answer. */
  datatype Input = Input(access: Access, message: Message, macFailed: bool, peers: Peers)

  /** A UE as `NewAmfUe` makes it. */
  function NewUe(): Ue {
    Ue(Deregistered, Deregistered, Data(false, 0, false, None, 0, 0, false, false, false, 0, NoIdentity, false), false, [])
  }

  function Received(u: Ue, i: Input): Ue { u.(data := u.data.(macFailed := i.macFailed)) }

  /** What handling one NAS message leads to; nothing is handled after a panic. */
  ghost function Handle(u: Ue, i: Input): Ue {
    if u.crashed then u else Drain(Received(u, i), [Post(i.access, GmmMessage(i.message))], i.peers)
  }

  ghost function Run(u: Ue, inputs: seq<Input>): Ue {
    if inputs == [] then u else Handle(Run(u, inputs[..|inputs| - 1]), inputs[|inputs| - 1])
  }
}
