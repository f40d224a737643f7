/**
  Runs of a leader from its construction: the invariant at every state and what the messages sent along the way say.
*/
module LeaderRuns {
  import opened Options
  import opened Bitmaps
  import opened MultiSig
  import opened Consensus
  import opened LeaderModel
  import opened LeaderProofs

  datatype Event =
    | StartEvent(message: Bytes, hasGenerator: bool)
    | CommitEvent(final: bool, id: nat, genuine: bool, infos: seq<CommitInfo>)
    | WindowEvent(shuffles: seq<seq<nat>>)
    | ResponseEvent(final: bool, id: nat, genuine: bool, responses: seq<int>, generated: Bytes)
    | FailureEvent(id: nat, error: Bytes)

  /**
    The window closes only while a thread waits for it; a shuffle only reorders. Anything else may happen at any time.
  */
  ghost predicate Enabled(cfg: Config, l: Leader, e: Event) {
    e.WindowEvent? ==> l.windowOpen && Shuffles(cfg, l, e.shuffles)
  }

  /** No access of the step is out of range. */
  ghost predicate Defined(cfg: Config, l: Leader, e: Event) {
    match e
    case StartEvent(_, _) => true
    case CommitEvent(_, _, _, _) => Accepting(l.state) ==> CommitsOk(cfg, l)
    case WindowEvent(_) => CommitsOk(cfg, l)
    case ResponseEvent(_, _, _, _, _) => SubsetsSized(cfg, l.subsets)
    case FailureEvent(_, _) => true
  }

  ghost function Step(cfg: Config, l: Leader, e: Event): Result
    requires ValidConfig(cfg) && Enabled(cfg, l, e) && Defined(cfg, l, e)
  {
    match e
    case StartEvent(message, hasGenerator) => Start(cfg, l, message, hasGenerator)
    case CommitEvent(final, id, genuine, infos) => ProcessCommit(cfg, l, final, id, genuine, infos)
    case WindowEvent(shuffles) => CloseWindow(cfg, l, shuffles)
    case ResponseEvent(final, id, genuine, responses, generated) =>
      ProcessResponse(cfg, l, final, id, genuine, responses, generated)
    case FailureEvent(id, error) => ProcessCommitFailure(cfg, l, id, error)
  }

  lemma CommitInv(cfg: Config, l: Leader, e: Event)
    requires ValidSession(cfg) && SessionInv(cfg, l) && e.CommitEvent?
    ensures SessionInv(cfg, ProcessCommit(cfg, l, e.final, e.id, e.genuine, e.infos).leader)
  {
    if CommitAccepted(cfg, l, e.final, e.id, e.genuine, e.infos) {
      var l' := RecordCommit(l, e.id, e.infos);
      RecordKeepsCommitsOk(cfg, l, e.id, e.infos);
      if cfg.NumSubsets() == 1 && l'.commitCounter == cfg.com.quorum {
        LaunchInv(cfg, l', [Peers(l'.commitMap, cfg.self)]);
      }
    }
  }

  lemma WindowInv(cfg: Config, l: Leader, shuffles: seq<seq<nat>>)
    requires ValidSession(cfg) && SessionInv(cfg, l) && l.windowOpen && Shuffles(cfg, l, shuffles)
    ensures SessionInv(cfg, CloseWindow(cfg, l, shuffles).leader)
  {
    if l.commitCounter >= cfg.com.quorum {
      LaunchInv(cfg, l.(windowOpen := false), shuffles);
    }
  }

  /** The session invariant survives every step but the announcement of a consensus failure. */
  lemma StepInv(cfg: Config, l: Leader, e: Event)
    requires ValidSession(cfg) && SessionInv(cfg, l) && Enabled(cfg, l, e)
    requires Defined(cfg, l, e) && Step(cfg, l, e).sent != Some(ConsensusFailure)
    ensures SessionInv(cfg, Step(cfg, l, e).leader)
  {
    match e
    case StartEvent(_, _) =>
    case CommitEvent(_, _, _, _) => CommitInv(cfg, l, e);
    case WindowEvent(shuffles) => WindowInv(cfg, l, shuffles);
    case ResponseEvent(final, id, genuine, responses, generated) =>
      if l.state == AwaitingState(final) && id < cfg.Size() && genuine && 0 < |responses| <= |l.subsets| {
        CountResponsesInv(cfg, l, final, id, responses, |responses|, generated, Step(cfg, l, e));
      }
    case FailureEvent(_, _) =>
  }

  // ---------- phases: the abstract machine each step refines ----------

  /** The part of the leader that its messages depend on. */
  datatype Phase = Phase(state: State, message: Bytes, hasGenerator: bool, cs1: Signature, b1: Bitmap, cs2: Signature,
                         b2: Bitmap)

  function PhaseOf(l: Leader): Phase {
    Phase(l.state, l.message, l.hasGenerator, l.cs1, l.b1, l.cs2, l.b2)
  }

  /** One step of a leader without subsets, counters or point lists. */
  ghost predicate Advance(com: Committee, numSubsets: nat, p: Phase, p': Phase, sent: Option<LeaderMsg>) {
    match sent
    case None =>
      p' == p || (p' == p.(state := Error) && Accepting(p.state))
    case Some(Announce(m)) =>
      p.state.Initial? && p' == p.(state := AnnounceDone, message := m, hasGenerator := p'.hasGenerator)
    case Some(Challenge(final, infos)) =>
      && p.state == (if final then CollectiveSigDone else AnnounceDone)
      && p' == p.(state := AwaitingState(final))
      && |infos| <= numSubsets
      && forall i :: 0 <= i < |infos| ==> ChallengeFor(com.suite, infos[i], p.message)
    case Some(CollectiveSig(final, sig, bitmap, newMessage)) =>
      var base := if newMessage.Some? then newMessage.value else p.message;
      && p.state == AwaitingState(final)
      && |bitmap| == |com.keys| && Count(bitmap) == com.quorum
      && MultiSigVerify(com.suite, p.message, sig, SumBits(com.suite, bitmap, com.keys))
      && p' == if final then p.(state := Done, message := base, cs2 := sig, b2 := bitmap)
               else p.(state := CollectiveSigDone, message := Extended(com.suite, base, sig, bitmap),
                       cs1 := sig, b1 := bitmap)
    case Some(ConsensusFailure) =>
      p' == p.(state := Initial)
  }

  ghost predicate Advances(cfg: Config, l: Leader, r: Result) {
    Advance(cfg.com, cfg.NumSubsets(), PhaseOf(l), PhaseOf(r.leader), r.sent)
  }

  lemma LaunchAdvances(cfg: Config, l: Leader, shuffles: seq<seq<nat>>)
    requires ValidSession(cfg) && CommitsOk(cfg, l) && Accepting(l.state)
    requires cfg.com.quorum <= l.commitCounter && Shuffles(cfg, l, shuffles)
    ensures Advances(cfg, l, Launch(cfg, l, shuffles))
  {
    GeneratedSizes(cfg, l, shuffles);
  }

  lemma FinishAdvances(cfg: Config, l: Leader, k: nat, final: bool, generated: Bytes)
    requires ValidSession(cfg) && SubsetsSized(cfg, l.subsets) && SubsetsInv(cfg, l.subsets, l.message, l.state)
    requires l.state == AwaitingState(final)
    requires k < |l.subsets| && l.subsets[k].responseCounter == cfg.com.quorum
    ensures Advances(cfg, l, FinishSubset(cfg, l, k, final, generated))
  {
    FullSubsetSigns(cfg, l.subsets[k], l.message);
  }

  lemma {:induction false} CountResponsesAdvances(cfg: Config, l: Leader, final: bool, id: nat, responses: seq<int>,
                                                  upto: nat, generated: Bytes)
    requires ValidSession(cfg) && SubsetsSized(cfg, l.subsets) && SubsetsInv(cfg, l.subsets, l.message, l.state)
    requires l.state == AwaitingState(final)
    requires upto <= |responses| && upto <= |l.subsets|
    ensures Advances(cfg, l, CountResponses(cfg, l, final, id, responses, upto, generated))
    decreases upto
  {
    if upto > 0 {
      var k := upto - 1;
      if !ResponseCounts(cfg, l.subsets[k], final, id, responses[k]) {
        CountResponsesAdvances(cfg, l, final, id, responses, k, generated);
      } else {
        RecordKeepsSubsets(cfg, l.subsets, l.message, final, k, id, responses[k]);
        var sub := RecordResponse(l.subsets[k], id, responses[k]);
        var l' := l.(subsets := l.subsets[k := sub]);
        if sub.responseCounter == cfg.com.quorum {
          FinishAdvances(cfg, l', k, final, generated);
        } else {
          CountResponsesAdvances(cfg, l', final, id, responses, k, generated);
        }
      }
    }
  }

  lemma CommitAdvances(cfg: Config, l: Leader, e: Event)
    requires ValidSession(cfg) && SessionInv(cfg, l) && e.CommitEvent? && Enabled(cfg, l, e) && Defined(cfg, l, e)
    ensures Advances(cfg, l, Step(cfg, l, e))
  {
    if CommitAccepted(cfg, l, e.final, e.id, e.genuine, e.infos) {
      var l' := RecordCommit(l, e.id, e.infos);
      RecordKeepsCommitsOk(cfg, l, e.id, e.infos);
      if cfg.NumSubsets() == 1 && l'.commitCounter == cfg.com.quorum {
        LaunchAdvances(cfg, l', [Peers(l'.commitMap, cfg.self)]);
      }
    }
  }

  /** Every step of a session is a step of the abstract machine; in particular every signature sent verifies. */
  lemma StepAdvances(cfg: Config, l: Leader, e: Event)
    requires ValidSession(cfg) && SessionInv(cfg, l) && Enabled(cfg, l, e) && Defined(cfg, l, e)
    ensures Advances(cfg, l, Step(cfg, l, e))
  {
    match e
    case StartEvent(_, _) =>
    case CommitEvent(_, _, _, _) => CommitAdvances(cfg, l, e);
    case WindowEvent(shuffles) =>
      if l.commitCounter >= cfg.com.quorum {
        LaunchAdvances(cfg, l.(windowOpen := false), shuffles);
      }
    case ResponseEvent(final, id, genuine, responses, generated) =>
      if l.state == AwaitingState(final) && id < cfg.Size() && genuine && 0 < |responses| <= |l.subsets| {
        CountResponsesAdvances(cfg, l, final, id, responses, |responses|, generated);
      }
    case FailureEvent(_, _) =>
  }

  // ---------- whole runs ----------

  datatype Run = Run(states: seq<Leader>, events: seq<Event>, sent: seq<Option<LeaderMsg>>)

  ghost predicate StepAt(cfg: Config, r: Run, i: nat)
    requires ValidConfig(cfg) && i < |r.events| == |r.sent| && |r.states| == |r.events| + 1
  {
    && Enabled(cfg, r.states[i], r.events[i]) && Defined(cfg, r.states[i], r.events[i])
    && var res := Step(cfg, r.states[i], r.events[i]);
    r.states[i + 1] == res.leader && r.sent[i] == res.sent
  }

  ghost predicate IsRun(cfg: Config, r: Run) {
    && ValidSession(cfg)
    && |r.states| == |r.events| + 1 && |r.sent| == |r.events|
    && r.states[0] == Fresh(cfg)
    && forall i: nat {:trigger StepAt(cfg, r, i)} :: i < |r.events| ==> StepAt(cfg, r, i)
  }

  ghost predicate WithoutFailure(cfg: Config, r: Run)
    requires IsRun(cfg, r)
  {
    forall i :: 0 <= i < |r.events| ==> r.sent[i] != Some(ConsensusFailure)
  }

  /**
    In every run of a session without consensus failure, whatever messages arrive and in whatever order:
    commit counter, bitmap and point lists agree while commits are taken, and every challenged subset keeps
    `SubsetInv`.
  */
  lemma {:induction false} RunInv(cfg: Config, r: Run, i: nat)
    requires IsRun(cfg, r) && WithoutFailure(cfg, r) && i < |r.states|
    ensures SessionInv(cfg, r.states[i])
    decreases i
  {
    if i == 0 {
      FreshInv(cfg);
    } else {
      RunInv(cfg, r, i - 1);
      assert StepAt(cfg, r, i - 1);
      assert r.sent[i - 1] != Some(ConsensusFailure);
      StepInv(cfg, r.states[i - 1], r.events[i - 1]);
    }
  }

  /**
    Nothing that can happen after a run throws: every message, whoever sent it and whatever it says, meets the
    preconditions of the method that takes it, so the run goes on.
  */
  lemma NothingThrows(cfg: Config, r: Run, e: Event) returns (r': Run)
    requires IsRun(cfg, r) && WithoutFailure(cfg, r) && Enabled(cfg, r.states[|r.events|], e)
    ensures IsRun(cfg, r') && r'.events == r.events + [e]
    ensures r.states <= r'.states && r.sent <= r'.sent
  {
    var n := |r.events|;
    RunInv(cfg, r, n);
    var res := Step(cfg, r.states[n], e);
    r' := Run(r.states + [res.leader], r.events + [e], r.sent + [res.sent]);
    forall i: nat | i < |r'.events|
      ensures StepAt(cfg, r', i)
    {
      if i < n {
        assert StepAt(cfg, r, i);
      }
    }
  }

  lemma RunAdvances(cfg: Config, r: Run, i: nat)
    requires IsRun(cfg, r) && WithoutFailure(cfg, r) && i < |r.events|
    ensures Advance(cfg.com, cfg.NumSubsets(), PhaseOf(r.states[i]), PhaseOf(r.states[i + 1]), r.sent[i])
  {
    RunInv(cfg, r, i);
    assert StepAt(cfg, r, i);
    StepAdvances(cfg, r.states[i], r.events[i]);
  }

  /** The state only moves forward. */
  lemma {:induction false} RunMovesForward(cfg: Config, r: Run, i: nat, j: nat)
    requires IsRun(cfg, r) && WithoutFailure(cfg, r) && i <= j < |r.states|
    ensures Rank(r.states[i].state) <= Rank(r.states[j].state)
    decreases j
  {
    if i < j {
      RunMovesForward(cfg, r, i, j - 1);
      RunAdvances(cfg, r, j - 1);
      assert r.sent[j - 1] != Some(ConsensusFailure);
    }
  }

  /**
    At most one subset finishes per round: of two signatures sent, the first ends round one and the second round two.
  */
  lemma OneSignaturePerRound(cfg: Config, r: Run, i: nat, j: nat)
    requires IsRun(cfg, r) && WithoutFailure(cfg, r) && i < j < |r.events|
    requires r.sent[i].Some? && r.sent[i].value.CollectiveSig?
    requires r.sent[j].Some? && r.sent[j].value.CollectiveSig?
    ensures !r.sent[i].value.final && r.sent[j].value.final
  {
    RunAdvances(cfg, r, i);
    RunAdvances(cfg, r, j);
    RunMovesForward(cfg, r, i + 1, j);
  }

  ghost predicate SendsChallenge(cfg: Config, r: Run, i: nat, final: bool)
    requires IsRun(cfg, r)
  {
    i < |r.events| && r.sent[i].Some? && r.sent[i].value.Challenge? && r.sent[i].value.final == final
  }

  /** One challenge message per round. */
  lemma ChallengesOnce(cfg: Config, r: Run, i: nat, j: nat, final: bool)
    requires IsRun(cfg, r) && WithoutFailure(cfg, r)
    requires SendsChallenge(cfg, r, i, final) && SendsChallenge(cfg, r, j, final)
    ensures i == j
  {
    RunAdvances(cfg, r, i);
    RunAdvances(cfg, r, j);
    if i < j {
      RunMovesForward(cfg, r, i + 1, j);
    } else if j < i {
      RunMovesForward(cfg, r, j + 1, i);
    }
  }

  /** A signature and its bitmap are written once: they stay what the signature message said. */
  lemma {:induction false} SignatureStays(cfg: Config, r: Run, i: nat, j: nat)
    requires IsRun(cfg, r) && WithoutFailure(cfg, r) && i < j < |r.states|
    requires r.sent[i].Some? && r.sent[i].value.CollectiveSig?
    ensures var m := r.sent[i].value;
      if m.final then r.states[j].cs2 == m.sig && r.states[j].b2 == m.bitmap
      else r.states[j].cs1 == m.sig && r.states[j].b1 == m.bitmap
    decreases j
  {
    RunAdvances(cfg, r, i);
    if i + 1 < j {
      SignatureStays(cfg, r, i, j - 1);
      RunAdvances(cfg, r, j - 1);
      assert r.sent[j - 1] != Some(ConsensusFailure);
      if r.sent[j - 1].Some? && r.sent[j - 1].value.CollectiveSig? {
        OneSignaturePerRound(cfg, r, i, j - 1);
      }
    }
  }

  // ---------- what the messages of one run say ----------

  datatype CoSig = CoSig(sig: Signature, bitmap: Bitmap, newMessage: Option<Bytes>)

  /** The announced message and the first collective signature, once there are any. */
  datatype Script = Script(announced: Option<Bytes>, first: Option<CoSig>)

  /** The message of round two. */
  function SecondMessage(com: Committee, s: Script): Bytes
    requires s.announced.Some? && s.first.Some?
  {
    var base := if s.first.value.newMessage.Some? then s.first.value.newMessage.value else s.announced.value;
    Extended(com.suite, base, s.first.value.sig, s.first.value.bitmap)
  }

  ghost predicate Follows(com: Committee, numSubsets: nat, s: Script, msg: LeaderMsg) {
    && s.announced.Some?
    && match msg
       case Announce(m) => s.announced.value == m
       case Challenge(final, infos) =>
         && (final ==> s.first.Some?)
         && |infos| <= numSubsets
         && var m := if final then SecondMessage(com, s) else s.announced.value;
         && forall i :: 0 <= i < |infos| ==> ChallengeFor(com.suite, infos[i], m)
       case CollectiveSig(final, sig, bitmap, newMessage) =>
         && s.first.Some?
         && |bitmap| == |com.keys| && Count(bitmap) == com.quorum
         && (!final ==> s.first.value == CoSig(sig, bitmap, newMessage))
         && var m := if final then SecondMessage(com, s) else s.announced.value;
         && MultiSigVerify(com.suite, m, sig, SumBits(com.suite, bitmap, com.keys))
       case ConsensusFailure => false
  }

  /** How far the script has been written in a phase. */
  ghost predicate ScriptAt(com: Committee, p: Phase, s: Script) {
    && (p.state.Initial? <==> s.announced.None?)
    && (s.first.Some? ==> s.announced.Some? && p.cs1 == s.first.value.sig && p.b1 == s.first.value.bitmap)
    && (s.first.Some? ==> |s.first.value.bitmap| == |com.keys|)
    && (Rank(p.state) <= Rank(ChallengeDone) ==> s.first.None?)
    && (p.state in {CollectiveSigDone, FinalChallengeDone, Done} ==> s.first.Some?)
    && (p.state in {AnnounceDone, ChallengeDone} ==> p.message == s.announced.value)
    && (p.state in {CollectiveSigDone, FinalChallengeDone} ==> p.message == SecondMessage(com, s))
  }

  function Extend(s: Script, sent: Option<LeaderMsg>): Script {
    match sent
    case Some(Announce(m)) => s.(announced := Some(m))
    case Some(CollectiveSig(false, sig, bitmap, newMessage)) => s.(first := Some(CoSig(sig, bitmap, newMessage)))
    case _ => s
  }

  lemma ScriptStep(com: Committee, numSubsets: nat, p: Phase, p': Phase, sent: Option<LeaderMsg>, s: Script)
    requires Advance(com, numSubsets, p, p', sent) && ScriptAt(com, p, s) && sent != Some(ConsensusFailure)
    requires p.state !in {CommitDone, ResponseDone, FinalCommitDone, FinalResponseDone}
    ensures var s' := Extend(s, sent);
      && ScriptAt(com, p', s')
      && (sent.Some? ==> Follows(com, numSubsets, s', sent.value))
      && (forall msg :: Follows(com, numSubsets, s, msg) ==> Follows(com, numSubsets, s', msg))
  {}

  ghost function ScriptUpTo(cfg: Config, r: Run, n: nat): Script
    requires IsRun(cfg, r) && n < |r.states|
  {
    if n == 0 then Script(None, None) else Extend(ScriptUpTo(cfg, r, n - 1), r.sent[n - 1])
  }

  /** All messages of a run follow one script, and the leader's state at the end agrees with it. */
  lemma {:induction false} RunFollowsScript(cfg: Config, r: Run, n: nat)
    requires IsRun(cfg, r) && WithoutFailure(cfg, r) && n < |r.states|
    ensures ScriptAt(cfg.com, PhaseOf(r.states[n]), ScriptUpTo(cfg, r, n))
    ensures forall i :: 0 <= i < n && r.sent[i].Some? ==>
      Follows(cfg.com, cfg.NumSubsets(), ScriptUpTo(cfg, r, n), r.sent[i].value)
    decreases n
  {
    if n > 0 {
      RunFollowsScript(cfg, r, n - 1);
      RunInv(cfg, r, n - 1);
      RunAdvances(cfg, r, n - 1);
      assert r.sent[n - 1] != Some(ConsensusFailure);
      ScriptStep(cfg.com, cfg.NumSubsets(), PhaseOf(r.states[n - 1]), PhaseOf(r.states[n]), r.sent[n - 1],
        ScriptUpTo(cfg, r, n - 1));
    }
  }

  /** What is in the script stays in it. */
  lemma {:induction false} ScriptGrows(cfg: Config, r: Run, i: nat, n: nat)
    requires IsRun(cfg, r) && WithoutFailure(cfg, r) && i <= n < |r.states|
    ensures var s, s' := ScriptUpTo(cfg, r, i), ScriptUpTo(cfg, r, n);
      (s.announced.Some? ==> s'.announced == s.announced) && (s.first.Some? ==> s'.first == s.first)
    decreases n
  {
    if i < n {
      ScriptGrows(cfg, r, i, n - 1);
      RunFollowsScript(cfg, r, n - 1);
      RunAdvances(cfg, r, n - 1);
    }
  }

  // ---------- which messages are taken ----------

  /**
    A commit is taken exactly when it is a member's first of this round, genuine, of full length and with right
    hashes.
  */
  lemma CommitTakenIff(cfg: Config, l: Leader, e: Event)
    requires ValidSession(cfg) && SessionInv(cfg, l) && e.CommitEvent?
    ensures var res := Step(cfg, l, e);
      res.leader.commitCounter == l.commitCounter + 1 <==>
        && l.state == (if e.final then CollectiveSigDone else AnnounceDone)
        && e.id < cfg.Size() && e.genuine && e.id !in Ones(l.commitMap) && |e.infos| == cfg.NumSubsets()
        && forall k :: 0 <= k < |e.infos| ==> e.infos[k].hash == cfg.com.suite.commitHash(e.infos[k].commit)
    ensures var res := Step(cfg, l, e);
      && (res.ok <==> res.leader.commitCounter == l.commitCounter + 1)
      && (!res.ok ==> res.leader == l && res.sent.None?)
  {
    assert e.id in Ones(l.commitMap) <==> e.id < |l.commitMap| && l.commitMap[e.id];
  }

  /** What did not come from the member it names changes nothing. */
  lemma ForgedIsIgnored(cfg: Config, l: Leader, e: Event)
    requires ValidSession(cfg) && SessionInv(cfg, l) && (e.CommitEvent? || e.ResponseEvent?) && !e.genuine
    ensures Step(cfg, l, e).leader == l && Step(cfg, l, e).sent.None?
  {}

  lemma {:induction false} CountingIsFine(cfg: Config, l: Leader, final: bool, id: nat, responses: seq<int>, upto: nat,
                                          generated: Bytes, res: Result)
    requires ValidSession(cfg) && SubsetsSized(cfg, l.subsets) && SubsetsInv(cfg, l.subsets, l.message, l.state)
    requires l.state == AwaitingState(final) && upto <= |responses| && upto <= |l.subsets|
    requires res == CountResponses(cfg, l, final, id, responses, upto, generated)
    ensures res.ok
    decreases upto
  {
    if upto > 0 {
      var k := upto - 1;
      if !ResponseCounts(cfg, l.subsets[k], final, id, responses[k]) {
        CountingIsFine(cfg, l, final, id, responses, k, generated, res);
      } else {
        RecordKeepsSubsets(cfg, l.subsets, l.message, final, k, id, responses[k]);
        var l' := l.(subsets := l.subsets[k := RecordResponse(l.subsets[k], id, responses[k])]);
        if l'.subsets[k].responseCounter == cfg.com.quorum {
          FinishSucceeds(cfg, l', k, final, generated);
        } else {
          CountingIsFine(cfg, l', final, id, responses, k, generated, res);
        }
      }
    }
  }

  /**
    Which calls report success: a message of responses exactly when it is of this round, genuine and of a right
    length.
  */
  lemma ResponseFineIff(cfg: Config, l: Leader, e: Event)
    requires ValidSession(cfg) && SessionInv(cfg, l) && e.ResponseEvent?
    ensures Step(cfg, l, e).ok <==>
              l.state == AwaitingState(e.final) && e.id < cfg.Size() && e.genuine && 0 < |e.responses| <= |l.subsets|
    ensures !Step(cfg, l, e).ok ==> Step(cfg, l, e).leader == l && Step(cfg, l, e).sent.None?
  {
    if l.state == AwaitingState(e.final) && e.id < cfg.Size() && e.genuine && 0 < |e.responses| <= |l.subsets| {
      CountingIsFine(cfg, l, e.final, e.id, e.responses, |e.responses|, e.generated, Step(cfg, l, e));
    }
  }

  // ---------- new announcements ----------

  /** The announcement a session started with decides whether a generator is at hand. */
  lemma {:induction false} StartedWith(cfg: Config, r: Run, t: nat) returns (a: nat)
    requires IsRun(cfg, r) && WithoutFailure(cfg, r) && t < |r.states| && !r.states[t].state.Initial?
    ensures a < t && r.states[a].state.Initial? && r.events[a].StartEvent?
    ensures r.sent[a] == Some(Announce(r.events[a].message))
    ensures r.states[t].hasGenerator == r.events[a].hasGenerator
    decreases t
  {
    if r.states[t - 1].state.Initial? {
      a := t - 1;
      StartsAt(cfg, r, a);
    } else {
      KeepsGenerator(cfg, r, t - 1);
      a := StartedWith(cfg, r, t - 1);
    }
  }

  lemma StartsAt(cfg: Config, r: Run, t: nat)
    requires IsRun(cfg, r) && WithoutFailure(cfg, r) && t < |r.events|
    requires r.states[t].state.Initial? && !r.states[t + 1].state.Initial?
    ensures r.events[t].StartEvent? && r.sent[t] == Some(Announce(r.events[t].message))
    ensures r.states[t + 1].hasGenerator == r.events[t].hasGenerator
  {
    RunInv(cfg, r, t);
    RunAdvances(cfg, r, t);
    assert StepAt(cfg, r, t);
  }

  lemma KeepsGenerator(cfg: Config, r: Run, t: nat)
    requires IsRun(cfg, r) && WithoutFailure(cfg, r) && t < |r.events| && !r.states[t].state.Initial?
    ensures r.states[t + 1].hasGenerator == r.states[t].hasGenerator
  {
    RunAdvances(cfg, r, t);
  }

  /** What a signature message carries besides, and what the leader keeps of it. */
  ghost predicate Carries(hasGenerator: bool, final: bool, generated: Bytes, res: Result) {
    res.sent.Some? ==>
      && res.sent.value.CollectiveSig? && res.sent.value.final == final
      && res.sent.value.newMessage == (if hasGenerator then Some(generated) else None)
      && res.leader.collectiveSig == res.sent.value.sig
  }

  lemma FinishCarries(cfg: Config, l: Leader, k: nat, final: bool, generated: Bytes)
    requires SubsetsSized(cfg, l.subsets) && k < |l.subsets| && cfg.self < cfg.Size()
    ensures Carries(l.hasGenerator, final, generated, FinishSubset(cfg, l, k, final, generated))
  {}

  lemma {:induction false} SignatureCarries(cfg: Config, l: Leader, final: bool, id: nat, responses: seq<int>,
                                            upto: nat,
                                            generated: Bytes, res: Result)
    requires SubsetsSized(cfg, l.subsets) && upto <= |responses| && upto <= |l.subsets| && cfg.self < cfg.Size()
    requires res == CountResponses(cfg, l, final, id, responses, upto, generated)
    ensures Carries(l.hasGenerator, final, generated, res)
    decreases upto
  {
    if upto > 0 {
      var k := upto - 1;
      if !ResponseCounts(cfg, l.subsets[k], final, id, responses[k]) {
        SignatureCarries(cfg, l, final, id, responses, k, generated, res);
      } else {
        var l' := l.(subsets := l.subsets[k := RecordResponse(l.subsets[k], id, responses[k])]);
        if l'.subsets[k].responseCounter == cfg.com.quorum {
          FinishCarries(cfg, l', k, final, generated);
        } else {
          SignatureCarries(cfg, l', final, id, responses, k, generated, res);
        }
      }
    }
  }

  /**
    A signature carries a new announcement, the one generated then, exactly when the session was started with a
    generator.
  */
  lemma GeneratorIsUsed(cfg: Config, r: Run, s: nat) returns (a: nat)
    requires IsRun(cfg, r) && WithoutFailure(cfg, r) && s < |r.events|
    requires r.sent[s].Some? && r.sent[s].value.CollectiveSig?
    ensures a < s && r.events[a].StartEvent? && r.states[a].state.Initial? && r.events[s].ResponseEvent?
    ensures r.sent[s].value.newMessage == if r.events[a].hasGenerator then Some(r.events[s].generated) else None
    ensures r.states[s + 1].collectiveSig == r.sent[s].value.sig
  {
    RunAdvances(cfg, r, s);
    a := StartedWith(cfg, r, s);
    assert StepAt(cfg, r, s);
    SentByResponse(cfg, r.states[s], r.events[s]);
  }

  lemma SentByResponse(cfg: Config, l: Leader, e: Event)
    requires ValidConfig(cfg) && Enabled(cfg, l, e) && Defined(cfg, l, e)
    requires Step(cfg, l, e).sent.Some? && Step(cfg, l, e).sent.value.CollectiveSig?
    ensures e.ResponseEvent?
    ensures Step(cfg, l, e).sent.value.newMessage == if l.hasGenerator then Some(e.generated) else None
    ensures Step(cfg, l, e).leader.collectiveSig == Step(cfg, l, e).sent.value.sig
  {
    if e.ResponseEvent? && l.state == AwaitingState(e.final) && e.id < cfg.Size() && e.genuine
       && 0 < |e.responses| <= |l.subsets| {
      SignatureCarries(cfg, l, e.final, e.id, e.responses, |e.responses|, e.generated, Step(cfg, l, e));
    }
  }
}
