/** Runs of the GMM machine from a new UE: to Registered, and to each of its panics. */
module GmmRuns {
  import opened Octets
  import opened GmmSpec
  import opened GmmLaws

  /** A registration request that nothing is wrong with. */
  function Request(identity: IdentityType, transfer: Option<Transfer>): Message {
    RegistrationRequest(Registration(true, NoContainer, INITIAL, Some(identity), true, transfer.Some?, true, 0, true, true,
                                     transfer))
  }

  const PEERS := Peers(true, Some(Aka5G), Some(Success(true)), true, Some(true), true, false)

  const REQUEST := Request(Suci, None)
  const RESPONSE := AuthenticationResponse(true, true, true, false)
  const MODE_COMPLETE := SecurityModeComplete(true, NoContainer)

  /** A message as the decoder reports it: before the security mode there is no context to check its integrity with. */
  function On(a: Access, m: Message): Input {
    Input(a, m, m.RegistrationRequest? || m.AuthenticationResponse?, PEERS)
  }

  lemma {:induction false} RunLast(u: Ue, inputs: seq<Input>, i: Input)
    ensures Run(u, inputs + [i]) == Handle(Run(u, inputs), i)
  {
    hide Handle;
    assert (inputs + [i])[..|inputs|] == inputs;
  }

  /** A registration under way: where it is, and that the other access has not moved. */
  predicate UnderWay(u: Ue, v: Ue, a: Access, s: State) {
    !v.crashed && At(v, a) == s && At(v, Other(a)) == At(u, Other(a)) && v.data.hasRequest
    && v.data.registrationType == INITIAL
  }

  lemma {:induction false} RequestTaken(d: Data)
    ensures var r := REQUEST.request;
            var (n, how) := Requested(d, Deregistered, r);
            && how.Accepted? && n.hasSuci && !n.available && n.hasRequest && n.registrationType == INITIAL
  {
  }

  /** A request with a SUCI leads to a challenge. */
  lemma {:induction false} RequestChallenged(u: Ue, a: Access)
    requires !u.crashed && At(u, a) == Deregistered
    ensures var v := Handle(u, On(a, REQUEST));
            UnderWay(u, v, a, Authentication) && v.data.authCtx == Some(Aka5G) && !v.data.available
  {
    hide Drain, Handle, Mild, Requested, Step;
    var i := On(a, REQUEST);
    var w := Received(u, i);
    RequestTaken(w.data);
    HandleUnfold(u, i);
    StepStays(w, a, GmmMessage(i.message), PEERS);
    var n := Step(w, a, GmmMessage(i.message), PEERS).0;
    DrainOne(n, a, StartAuth, PEERS);
    StepGoes(n, a, StartAuth, PEERS, Authentication);
    DrainNothing(Step(n, a, StartAuth, PEERS).0, PEERS);
  }

  /** The right answer, confirmed by the AUSF, leads to a security mode command. */
  lemma {:induction false} ResponseConfirmed(u: Ue, a: Access)
    requires !u.crashed && At(u, a) == Authentication && u.data.authCtx == Some(Aka5G) && !u.data.available
    requires u.data.hasRequest && u.data.registrationType == INITIAL
    ensures UnderWay(u, Handle(u, On(a, RESPONSE)), a, SecurityMode)
  {
    hide Drain, Handle, Mild, Step;
    var i, e := On(a, RESPONSE), AuthSuccess(Some(false));
    var w := Received(u, i);
    HandleUnfold(u, i);
    StepStays(w, a, GmmMessage(i.message), PEERS);
    var n := Step(w, a, GmmMessage(i.message), PEERS).0;
    DrainOne(n, a, e, PEERS);
    StepGoes(n, a, e, PEERS, SecurityMode);
    DrainNothing(Step(n, a, e, PEERS).0, PEERS);
  }

  /** A completed security mode leads to the context setup. */
  lemma {:induction false} ModeTaken(u: Ue, a: Access)
    requires !u.crashed && At(u, a) == SecurityMode && u.data.hasRequest && u.data.registrationType == INITIAL
    ensures UnderWay(u, Handle(u, On(a, MODE_COMPLETE)), a, ContextSetup)
  {
    hide Drain, Handle, Mild, Step;
    var i, e := On(a, MODE_COMPLETE), SecurityModeSuccess(FromUe);
    var w := Received(u, i);
    HandleUnfold(u, i);
    StepStays(w, a, GmmMessage(i.message), PEERS);
    var n := Step(w, a, GmmMessage(i.message), PEERS).0;
    DrainOne(n, a, e, PEERS);
    StepGoes(n, a, e, PEERS, ContextSetup);
    DrainNothing(Step(n, a, e, PEERS).0, PEERS);
  }

  function ThreeMessages(a: Access): seq<Input> { [On(a, REQUEST), On(a, RESPONSE), On(a, MODE_COMPLETE)] }

  /** From any state in which the access is deregistered, three messages lead to the context setup. */
  lemma {:induction false} ReachesSetup(u: Ue, inputs: seq<Input>, a: Access)
    requires !Run(u, inputs).crashed && At(Run(u, inputs), a) == Deregistered
    ensures UnderWay(Run(u, inputs), Run(u, inputs + ThreeMessages(a)), a, ContextSetup)
  {
    hide Handle, Run;
    var v := Run(u, inputs);
    RequestChallenged(v, a);
    RunLast(u, inputs, On(a, REQUEST));
    var l := inputs + [On(a, REQUEST)];
    ResponseConfirmed(Run(u, l), a);
    RunLast(u, l, On(a, RESPONSE));
    l := l + [On(a, RESPONSE)];
    ModeTaken(Run(u, l), a);
    RunLast(u, l, On(a, MODE_COMPLETE));
    assert l + [On(a, MODE_COMPLETE)] == inputs + ThreeMessages(a);
  }

  lemma {:induction false} NewRun()
    ensures Run(NewUe(), []) == NewUe() && Tidy(NewUe(), [])
  {
  }

  /** A new UE is registered after four messages. */
  lemma {:induction false} RegisteredReached(a: Access)
    ensures var v := Run(NewUe(), ThreeMessages(a) + [On(a, RegistrationComplete)]);
            !v.crashed && At(v, a) == Registered
  {
    hide Handle, Run;
    NewRun();
    ReachesSetup(NewUe(), [], a);
    assert [] + ThreeMessages(a) == ThreeMessages(a);
    RunLast(NewUe(), ThreeMessages(a), On(a, RegistrationComplete));
    CompletionTaken(Run(NewUe(), ThreeMessages(a)), On(a, RegistrationComplete));
  }

  /** A new UE gets both accesses into the context setup; the second completion then panics. */
  lemma {:induction false} SecondCompletionReached(a: Access)
    ensures var b := Other(a);
            var both := ThreeMessages(a) + ThreeMessages(b);
            var u := Run(NewUe(), both);
            && Tidy(u, []) && u.data.hasRequest && At(u, a) == ContextSetup && At(u, b) == ContextSetup
            && Run(NewUe(), both + [On(a, RegistrationComplete)] + [On(b, RegistrationComplete)]).crashed
  {
    hide Handle, Run, Tidy;
    NewRun();
    var b := Other(a);
    ReachesSetup(NewUe(), [], a);
    assert [] + ThreeMessages(a) == ThreeMessages(a);
    ReachesSetup(NewUe(), ThreeMessages(a), b);
    var both := ThreeMessages(a) + ThreeMessages(b);
    RunTidy(both);
    SecondCompletionPanics(Run(NewUe(), both), On(a, RegistrationComplete), On(b, RegistrationComplete));
    RunLast(NewUe(), both, On(a, RegistrationComplete));
    RunLast(NewUe(), both + [On(a, RegistrationComplete)], On(b, RegistrationComplete));
  }

  lemma {:induction false} NamelessTaken(d: Data)
    requires !Known(d) && !d.amfChanged
    ensures var (n, how) := Requested(d, Deregistered, Request(NoIdentity, None).request);
            how.Accepted? && !Known(n) && n.authCtx == d.authCtx
  {
  }

  /** A UE without identity is asked for it, which opens no authentication context. */
  lemma {:induction false} IdentityAsked(u: Ue, a: Access)
    requires !u.crashed && At(u, a) == Deregistered && !Known(u.data) && !u.data.amfChanged
    ensures var v := Handle(u, On(a, Request(NoIdentity, None)));
            !v.crashed && At(v, a) == Authentication && v.data.authCtx == u.data.authCtx
  {
    hide Drain, Handle, Mild, Requested, Step;
    var i := On(a, Request(NoIdentity, None));
    var w := Received(u, i);
    NamelessTaken(w.data);
    HandleUnfold(u, i);
    StepStays(w, a, GmmMessage(i.message), PEERS);
    var n := Step(w, a, GmmMessage(i.message), PEERS).0;
    DrainOne(n, a, StartAuth, PEERS);
    StepGoes(n, a, StartAuth, PEERS, Authentication);
    DrainNothing(Step(n, a, StartAuth, PEERS).0, PEERS);
  }

  /** A new UE without identity is asked for it, and an authentication failure instead of the answer panics. */
  lemma {:induction false} FailureReached(i: Input)
    requires i.message.AuthenticationFailure?
    ensures Run(NewUe(), [On(i.access, Request(NoIdentity, None)), i]).crashed
  {
    hide Handle, Run;
    var first := On(i.access, Request(NoIdentity, None));
    NewRun();
    assert [] + [first] == [first] && [first] + [i] == [first, i];
    RunLast(NewUe(), [], first);
    RunLast(NewUe(), [first], i);
    IdentityAsked(NewUe(), i.access);
    PanicsExactly([first], i);
  }

  /** A new UE that shows another AMF's GUTI panics when that AMF's answer lacks what is dereferenced. */
  lemma {:induction false} TransferReached(a: Access, missing: Missing)
    ensures Run(NewUe(), [On(a, Request(Guti, Some(Incomplete(missing))))]).crashed
  {
    hide Handle, Run;
    var i := On(a, Request(Guti, Some(Incomplete(missing))));
    NewRun();
    assert [] + [i] == [i];
    RunLast(NewUe(), [], i);
    PanicsExactly([], i);
    TransferBroken(Received(NewUe(), i).data, missing);
  }

  lemma {:induction false} TransferBroken(d: Data, missing: Missing)
    ensures Broken(d, Deregistered, Request(Guti, Some(Incomplete(missing))).request)
  {
  }

  /** A registered UE that asks, over one access, to deregister the other is stuck on the first. */
  lemma {:induction false} StuckReached(a: Access)
    ensures var four := ThreeMessages(a) + [On(a, RegistrationComplete)];
            At(Run(NewUe(), four + [On(a, DeregistrationRequest(Only(Other(a))))]), a) == DeregistrationInitiated
  {
    hide Handle, Run;
    var four := ThreeMessages(a) + [On(a, RegistrationComplete)];
    RegisteredReached(a);
    RunLast(NewUe(), four, On(a, DeregistrationRequest(Only(Other(a)))));
    DeregistrationEnds(Run(NewUe(), four), On(a, DeregistrationRequest(Only(Other(a)))));
  }
}
