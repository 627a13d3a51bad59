/** What the GMM machine keeps over whole runs. */
module GmmSafety {
  import opened Octets
  import opened GmmSpec

  // ---- The re-entrant run ends where folding the table over its events ends ----

  /** The events sent in a log. */
  function Events(log: seq<Mark>): nat {
    if log == [] then 0 else Events(log[..|log| - 1]) + (if log[|log| - 1].Sent? then 1 else 0)
  }

  lemma {:induction false} FoldLast(s: State, a: Access, log: seq<Mark>, m: Mark)
    ensures Fold(s, a, log + [m]) ==
            if m.Sent? && m.access == a then Apply(Fold(s, a, log), m.event) else Fold(s, a, log)
    ensures Events(log + [m]) == Events(log) + (if m.Sent? then 1 else 0)
  {
    assert (log + [m])[..|log|] == log;
  }

  lemma {:induction false} FoldAppend(s: State, a: Access, log: seq<Mark>, more: seq<Mark>)
    ensures Fold(s, a, log + more) == Fold(Fold(s, a, log), a, more)
    ensures Events(log + more) == Events(log) + Events(more)
  {
    if more == [] {
      assert log + more == log;
    } else {
      var m, rest := more[|more| - 1], more[..|more| - 1];
      assert log + more == (log + rest) + [m] && more == rest + [m];
      FoldAppend(s, a, log, rest);
      FoldLast(s, a, log + rest, m);
      FoldLast(Fold(s, a, log), a, rest, m);
    }
  }

  /** What one event adds to the log: itself, and at most one decision. */
  ghost predicate Adds(a: Access, e: Event, more: seq<Mark>) {
    && 1 <= |more| <= 2 && more[0] == Sent(a, e)
    && (|more| == 2 ==> !more[1].Sent? && more[1].access == a)
  }

  /** One event moves its own access as the table says and nothing else. */
  lemma {:induction false} StepMoves(u: Ue, a: Access, e: Event, p: Peers) returns (more: seq<Mark>)
    ensures var v := Step(u, a, e, p).0;
            && v.log == u.log + more && Adds(a, e, more)
            && At(v, a) == Apply(At(u, a), e)
            && forall b :: b != a ==> At(v, b) == At(u, b)
  {
    hide Source, Enter, Step, Next, Cost;
    var s := At(u, a);
    more := [Sent(a, e)];
    match Next(s, e)
    case None =>
      StepRefused(u, a, e, p);
    case Some(t) =>
      if t == s {
        StepStays(u, a, e, p);
        more := more + Source(u.data, s, a, e, p).marks;
      } else {
        StepGoes(u, a, e, p, t);
        EnterMarks(Exited(u.data, s), t, a, e, p);
        more := more + Enter(Exited(u.data, s), t, a, e, p).marks;
      }
  }

  lemma {:induction false} EnterMarks(d: Data, s: State, a: Access, e: Event, p: Peers)
    ensures var marks := Enter(d, s, a, e, p).marks;
            |marks| <= 1 && (marks != [] ==> !marks[0].Sent? && marks[0].access == a)
  {
    hide EnterSecurityMode, EnterContextSetup, Authenticate;
  }

  /** However the callbacks nest, the machine ends in the state that the table gives when it is folded over the events
      sent, and at most `CostAll(q)` events are sent. */
  lemma {:induction false} DrainFolds(u: Ue, q: seq<Post>, p: Peers) returns (more: seq<Mark>)
    ensures var v := Drain(u, q, p);
            && v.log == u.log + more
            && (forall a :: At(v, a) == Fold(At(u, a), a, more))
            && Events(more) <= CostAll(q)
    decreases CostAll(q)
  {
    hide Step, Cost;
    if q == [] {
      more := [];
    } else {
      var a, e := q[0].access, q[0].event;
      var (n, sends) := Step(u, a, e, p);
      StepCost(u, a, e, p);
      CostAppend(sends, q[1..]);
      var first := StepMoves(u, a, e, p);
      var rest := DrainFolds(n, sends + q[1..], p);
      more := first + rest;
      forall b ensures At(Drain(u, q, p), b) == Fold(At(u, b), b, more) {
        AddsFold(a, e, first, At(u, b), b);
        FoldAppend(At(u, b), b, first, rest);
      }
      AddsFold(a, e, first, At(u, a), a);
      FoldAppend(At(u, a), a, first, rest);
    }
  }

  lemma {:induction false} AddsFold(a: Access, e: Event, more: seq<Mark>, s: State, b: Access)
    requires Adds(a, e, more)
    ensures Events(more) == 1
    ensures Fold(s, b, more) == if b == a then Apply(s, e) else s
  {
    FoldLast(s, b, [], more[0]);
    assert [] + [more[0]] == [more[0]];
    if |more| == 2 {
      FoldLast(s, b, [more[0]], more[1]);
      assert more == [more[0]] + [more[1]];
    } else {
      assert more == [more[0]];
    }
  }

  /** One NAS message, whatever the peers answer, sends at most five events and leaves each access in the state given
      by folding the table over them. */
  lemma {:induction false} MessageFolds(u: Ue, i: Input)
    ensures var v := Handle(u, i);
            && u.log <= v.log && Events(v.log[|u.log|..]) <= 5
            && forall a :: At(v, a) == Fold(At(u, a), a, v.log[|u.log|..])
  {
    hide Drain;
    var v := Handle(u, i);
    if u.crashed {
      assert v.log[|u.log|..] == [];
    } else {
      var q := [Post(i.access, GmmMessage(i.message))];
      var more := DrainFolds(Received(u, i), q, i.peers);
      CostSmall(q);
      assert v.log[|u.log|..] == more;
    }
  }

  // ---- Arrival in Registered ----

  /** The state of an access after a log that began with a new UE. */
  function StateAfter(log: seq<Mark>, a: Access): State { Fold(Deregistered, a, log) }

  predicate Resting(s: State) { s == Deregistered || s == Registered }

  /** The AUSF confirmed the UE, or its identity is known and its security context still valid. */
  predicate IsAuth(m: Mark, a: Access) {
    m == Checked(a, true, true) || (m.Confirmed? && m.access == a && m.result.Success?)
  }

  /** The UE completed the security mode with its integrity intact, or its security context is still valid. */
  predicate IsMode(m: Mark, a: Access) {
    m == Completed(a, false) || m == Entered(a, true)
  }

  /** Since access `a` last left Deregistered or Registered it was authenticated at `j` and secured at `k`. */
  ghost predicate Earned(log: seq<Mark>, a: Access, j: int, k: int) {
    && 0 <= j < k < |log| && IsAuth(log[j], a) && IsMode(log[k], a)
    && forall n {:trigger log[..n]} :: j < n <= |log| ==> !Resting(StateAfter(log[..n], a))
  }

  /** Every arrival in Registered was earned. */
  ghost predicate Safe(log: seq<Mark>) {
    forall a, n {:trigger StateAfter(log[..n], a)} ::
      0 <= n < |log| && StateAfter(log[..n], a) != Registered && StateAfter(log[..n + 1], a) == Registered ==>
        exists j, k :: Earned(log[..n], a, j, k)
  }

  /** `a` was authenticated since it last rested. */
  ghost predicate Authed(log: seq<Mark>, a: Access)
    decreases |log|
  {
    log != [] && !Resting(StateAfter(log, a)) &&
    (IsAuth(log[|log| - 1], a) || Authed(log[..|log| - 1], a))
  }

  /** `a` was authenticated and then secured since it last rested. */
  ghost predicate Secured(log: seq<Mark>, a: Access)
    decreases |log|
  {
    log != [] && !Resting(StateAfter(log, a)) &&
    ((IsMode(log[|log| - 1], a) && Authed(log[..|log| - 1], a)) || Secured(log[..|log| - 1], a))
  }

  lemma {:induction false} AuthedWhen(log: seq<Mark>, a: Access) returns (j: int)
    requires Authed(log, a)
    ensures 0 <= j < |log| && IsAuth(log[j], a)
    ensures forall n {:trigger log[..n]} :: j < n <= |log| ==> !Resting(StateAfter(log[..n], a))
    decreases |log|
  {
    var k := |log| - 1;
    assert log[..|log|] == log;
    if IsAuth(log[k], a) {
      j := k;
    } else {
      j := AuthedWhen(log[..k], a);
      assert forall n :: 0 <= n <= k ==> log[..k][..n] == log[..n];
    }
  }

  lemma {:induction false} SecuredWhen(log: seq<Mark>, a: Access) returns (j: int, k: int)
    requires Secured(log, a)
    ensures Earned(log, a, j, k)
    decreases |log|
  {
    var last := |log| - 1;
    assert log[..|log|] == log;
    assert forall n :: 0 <= n <= last ==> log[..last][..n] == log[..n];
    if IsMode(log[last], a) && Authed(log[..last], a) {
      j := AuthedWhen(log[..last], a);
      k := last;
    } else {
      j, k := SecuredWhen(log[..last], a);
    }
  }

  /** What the machine keeps between two entries of its log. */
  ghost predicate Staged(log: seq<Mark>) {
    && Safe(log)
    && (forall a :: StateAfter(log, a) == SecurityMode ==> Authed(log, a))
    && (forall a :: StateAfter(log, a) == ContextSetup ==> Secured(log, a))
  }

  lemma {:induction false} Last(log: seq<Mark>, m: Mark, a: Access)
    ensures Authed(log + [m], a) <==> !Resting(StateAfter(log + [m], a)) && (IsAuth(m, a) || Authed(log, a))
    ensures Secured(log + [m], a) <==>
            !Resting(StateAfter(log + [m], a)) && ((IsMode(m, a) && Authed(log, a)) || Secured(log, a))
    ensures StateAfter(log + [m], a) ==
            if m.Sent? && m.access == a then Apply(StateAfter(log, a), m.event) else StateAfter(log, a)
  {
    assert (log + [m])[..|log|] == log;
    FoldLast(Deregistered, a, log, m);
  }

  lemma {:induction false} SafeLast(log: seq<Mark>, m: Mark)
    requires Safe(log)
    requires forall a :: StateAfter(log, a) != Registered && StateAfter(log + [m], a) == Registered ==> Secured(log, a)
    ensures Safe(log + [m])
  {
    hide Fold, Secured, Earned;
    var l := log + [m];
    forall a, n {:trigger StateAfter(l[..n], a)} | 0 <= n < |l| && StateAfter(l[..n], a) != Registered && StateAfter(l[..n + 1], a) == Registered
      ensures exists j, k :: Earned(l[..n], a, j, k)
    {
      if n == |log| {
        assert l[..n] == log && l[..n + 1] == l;
        var j, k := SecuredWhen(log, a);
      } else {
        assert l[..n] == log[..n] && l[..n + 1] == log[..n + 1];
      }
    }
  }

  /** A decision keeps the stages. */
  lemma {:induction false} StagedDecision(log: seq<Mark>, m: Mark)
    requires Staged(log) && !m.Sent?
    ensures Staged(log + [m])
  {
    hide Safe, Authed, Secured, StateAfter;
    forall a ensures StateAfter(log + [m], a) == StateAfter(log, a)
                     && (Authed(log, a) && !Resting(StateAfter(log, a)) ==> Authed(log + [m], a))
                     && (Secured(log, a) && !Resting(StateAfter(log, a)) ==> Secured(log + [m], a))
    {
      Last(log, m, a);
    }
    SafeLast(log, m);
  }

  /** A queued event that would take its access onwards has been earned. */
  ghost predicate Backed(log: seq<Mark>, c: Post) {
    && (c.event.AuthSuccess? && StateAfter(log, c.access) == Authentication ==> Authed(log, c.access))
    && (c.event.SecurityModeSuccess? && StateAfter(log, c.access) == SecurityMode ==> Secured(log, c.access))
  }

  /** An event that is backed keeps the stages. */
  lemma {:induction false} StagedEvent(log: seq<Mark>, c: Post)
    requires Staged(log) && Backed(log, c)
    ensures Staged(log + [Sent(c.access, c.event)])
  {
    hide Safe, Authed, Secured, StateAfter;
    var m := Sent(c.access, c.event);
    forall a
      ensures StateAfter(log + [m], a) == (if a == c.access then Apply(StateAfter(log, a), c.event) else StateAfter(log, a))
      ensures Authed(log, a) && !Resting(StateAfter(log + [m], a)) ==> Authed(log + [m], a)
      ensures Secured(log, a) && !Resting(StateAfter(log + [m], a)) ==> Secured(log + [m], a)
    {
      Last(log, m, a);
    }
    SafeLast(log, m);
  }

  /** The decision behind an event that takes an access onwards. */
  ghost predicate Behind(r: Reaction, a: Access) {
    && (r.sends == [] || (|r.sends| == 1 && r.sends[0].access == a)
        || (r.marks == [] && forall c :: c in r.sends ==> c.event.DeregistrationAccept?))
    && (forall c :: c in r.sends && c.event.AuthSuccess? ==> |r.marks| == 1 && IsAuth(r.marks[0], a))
    && (forall c :: c in r.sends && c.event.SecurityModeSuccess? ==> |r.marks| == 1 && IsMode(r.marks[0], a))
  }

  lemma {:induction false} RespondedBehind(d: Data, a: Access, m: Message, p: Peers)
    requires m.AuthenticationResponse?
    ensures Behind(Responded(d, a, m, p), a)
  {
    hide Refused;
  }

  lemma {:induction false} InAuthenticationBehind(d: Data, a: Access, m: Message, p: Peers)
    ensures Behind(InAuthentication(d, a, m, p), a)
  {
    hide Responded, Failed, IdentityGiven;
    if m.AuthenticationResponse? {
      RespondedBehind(d, a, m, p);
    }
  }

  lemma {:induction false} SourceBehind(d: Data, s: State, a: Access, e: Event, p: Peers)
    ensures Behind(Source(d, s, a, e, p), a)
  {
    hide Requested, Served, InAuthentication, InContextSetup;
    if e.GmmMessage? {
      InAuthenticationBehind(d, a, e.message, p);
    }
  }

  lemma {:induction false} EnterBehind(d: Data, s: State, a: Access, e: Event, p: Peers)
    ensures Behind(Enter(d, s, a, e, p), a)
  {
    hide EnterContextSetup;
  }

  /** The access states are those of the log, the log is staged, and the queue is backed. */
  ghost predicate Sound(u: Ue, q: seq<Post>) {
    && (forall a :: At(u, a) == StateAfter(u.log, a))
    && Staged(u.log)
    && (q != [] ==> Backed(u.log, q[0]))
    && (forall n :: 1 <= n < |q| ==> q[n].event.DeregistrationAccept?)
  }

  /** A reaction is absorbed into a staged log and backs what it sends. */
  lemma {:induction false} AbsorbSound(log: seq<Mark>, r: Reaction, a: Access)
    requires Staged(log) && Behind(r, a) && |r.marks| <= 1 && (r.marks != [] ==> !r.marks[0].Sent?)
    ensures Staged(log + r.marks)
    ensures forall b :: StateAfter(log + r.marks, b) == StateAfter(log, b)
    ensures r.sends != [] ==> Backed(log + r.marks, r.sends[0])
  {
    hide Safe, Authed, Secured, StateAfter;
    if r.marks == [] {
      assert log + r.marks == log;
      assert r.sends != [] ==> r.sends[0] in r.sends;
    } else {
      var m := r.marks[0];
      assert r.marks == [m];
      StagedDecision(log, m);
      forall b ensures StateAfter(log + [m], b) == StateAfter(log, b) {
        Last(log, m, b);
      }
      if r.sends != [] {
        assert r.sends[0] in r.sends;
        Last(log, m, a);
      }
    }
  }

  lemma {:induction false} StepSound(u: Ue, q: seq<Post>, p: Peers)
    requires q != [] && Sound(u, q)
    ensures var (n, sends) := Step(u, q[0].access, q[0].event, p); Sound(n, sends + q[1..])
  {
    hide Source, Enter, Step, Next, Cost, Safe, Authed, Secured, StateAfter, Staged, Backed, Behind;
    var a, e := q[0].access, q[0].event;
    var s := At(u, a);
    var log := u.log + [Sent(a, e)];
    StagedEvent(u.log, q[0]);
    forall b ensures StateAfter(log, b) == if b == a then Apply(StateAfter(u.log, b), e) else StateAfter(u.log, b) {
      Last(u.log, Sent(a, e), b);
    }
    var (n, sends) := Step(u, a, e, p);
    match Next(s, e)
    case None =>
      StepRefused(u, a, e, p);
      PlainBacked(log, q[1..]);
      assert sends + q[1..] == q[1..];
    case Some(t) =>
      var r := Source(u.data, s, a, e, p);
      if t == s {
        StepStays(u, a, e, p);
        SourceBehind(u.data, s, a, e, p);
      } else {
        StepGoes(u, a, e, p, t);
        r := Enter(Exited(u.data, s), t, a, e, p);
        EnterBehind(Exited(u.data, s), t, a, e, p);
        EnterMarks(Exited(u.data, s), t, a, e, p);
      }
      AbsorbSound(log, r, a);
      PlainBacked(log + r.marks, q[1..]);
      SendsPlain(r, a);
      assert n.log == log + r.marks;
      assert sends == r.sends;
      assert r.sends == [] ==> sends + q[1..] == q[1..];
  }

  /** Acceptances of a deregistration need no backing. */
  lemma {:induction false} PlainBacked(log: seq<Mark>, q: seq<Post>)
    requires forall n :: 0 <= n < |q| ==> q[n].event.DeregistrationAccept?
    ensures q != [] ==> Backed(log, q[0])
  {
  }

  lemma {:induction false} SendsPlain(r: Reaction, a: Access)
    requires Behind(r, a)
    ensures forall n :: 1 <= n < |r.sends| ==> r.sends[n].event.DeregistrationAccept?
  {
  }

  lemma {:induction false} DrainSound(u: Ue, q: seq<Post>, p: Peers)
    requires Sound(u, q)
    ensures Sound(Drain(u, q, p), [])
    decreases CostAll(q)
  {
    hide Step, Sound, Cost;
    if q == [] {
    } else {
      var (n, sends) := Step(u, q[0].access, q[0].event, p);
      StepCost(u, q[0].access, q[0].event, p);
      CostAppend(sends, q[1..]);
      StepSound(u, q, p);
      DrainSound(n, sends + q[1..], p);
    }
  }

  lemma {:induction false} RunSound(u: Ue, inputs: seq<Input>)
    requires Sound(u, [])
    ensures Sound(Run(u, inputs), [])
    decreases |inputs|
  {
    hide Drain, Staged;
    if inputs != [] {
      var before, i := inputs[..|inputs| - 1], inputs[|inputs| - 1];
      RunSound(u, before);
      var v := Run(u, before);
      if !v.crashed {
        DrainSound(Received(v, i), [Post(i.access, GmmMessage(i.message))], i.peers);
      }
    }
  }

  /** In every run of a new UE, on both accesses and whatever the peers answer, each arrival in Registered comes after
      an authentication and then a security mode, both since that access last left Deregistered or Registered. */
  lemma {:induction false} RegisteredIsEarned(inputs: seq<Input>)
    ensures Safe(Run(NewUe(), inputs).log)
    ensures forall a :: At(Run(NewUe(), inputs), a) == StateAfter(Run(NewUe(), inputs).log, a)
  {
    assert Sound(NewUe(), []);
    RunSound(NewUe(), inputs);
  }
}
