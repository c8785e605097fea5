/** What the recorded state promises, over whole runs: a backup is pending exactly while a failed one
    has not been made up for, a pack is ready exactly since a poll found its server, and a login gets
    the answer that the phase calls for. */
module LifecycleStatus {
  import opened Wrappers
  import opened Sections
  import opened Archive
  import opened Generations
  import opened Lifecycle
  import opened LifecycleInvariant
  import opened LifecycleControl
  import opened LifecycleSteps
  import opened LifecycleTheorems
  import opened LifecycleWorlds

  // -------------------------------------------------------------- pending backups

  /** A stop learns that its commit failed, or a start that it cannot read the head of its backups. */
  predicate Marks(s: Sys, a: Action) {
    && a.Advance? && a.t in s.workers
    && match s.workers[a.t]
       case StartW(_, _, Prepare(_, _, headError)) => headError && !a.choice.Fault?
       case StopW(_, _, Unrecorded) => true
       case _ => false
  }

  /** A stop records a committed generation. */
  predicate Records(s: Sys, a: Action) {
    a.Advance? && a.t in s.workers && s.workers[a.t].StopW? && s.workers[a.t].pc.Record?
  }

  lemma MarkSets(cfg: Config, s: Sys, a: Action)
    requires Marks(s, a)
    ensures Apply(cfg, s, a).core.state.pending && Apply(cfg, s, a).core.disk.pending
    ensures Apply(cfg, s, a).core.state.active == s.core.state.active
  {
  }

  lemma RecordClears(cfg: Config, s: Sys, a: Action)
    requires Records(s, a)
    ensures !Apply(cfg, s, a).core.state.pending && !Apply(cfg, s, a).core.disk.pending
  {
  }

  lemma AdvanceKeepsPending(cfg: Config, s: Sys, t: nat, c: Choice)
    requires t in s.workers && !Marks(s, Advance(t, c)) && !Records(s, Advance(t, c))
    requires !Finishing(s, Advance(t, c))
    ensures Apply(cfg, s, Advance(t, c)).core.state.pending == s.core.state.pending
  {
    var w := s.workers[t];
    if w.StartW? && !w.spc.Prepare? {
      StartHasShape(cfg, s, t, w, c);
    } else if w.StopW? {
      StopHasShape(cfg, s, t, w, c);
    }
  }

  /** Only these steps change the mark. */
  lemma StepKeepsPending(cfg: Config, hyp: Hypotheses, s: Sys, a: Action)
    requires Takes(cfg, hyp, s, a) && !Marks(s, a) && !Records(s, a)
    ensures Apply(cfg, s, a).core.state.pending == s.core.state.pending
    ensures s.core.state.pending ==> Apply(cfg, s, a).core.state.active == s.core.state.active
  {
    if Finishing(s, a) {
      SoleIs(s.workers, a.t);
      FinishClears(cfg, s, a.t, s.workers[a.t], a.choice);
    } else {
      if s.core.state.active != "" {
        OnlyFinishChangesPack(cfg, hyp, s, a);
      }
      if a.Advance? {
        AdvanceKeepsPending(cfg, s, a.t, a.choice);
      } else {
        OthersKeepPending(cfg, s, a);
      }
    }
  }

  lemma FinishClears(cfg: Config, s: Sys, t: nat, w: Worker, c: Choice)
    requires w.StopW? && w.pc.Finish? && !s.core.state.pending
    ensures !StopStep(cfg, s, t, w, c).core.state.pending
  {
    if w.kind.Switch? {
      SwitchClears(cfg, s, t, w, c);
    } else {
      IdleIs(cfg, s, t, w, c);
    }
  }

  lemma SwitchClears(cfg: Config, s: Sys, t: nat, w: Worker, c: Choice)
    requires w.StopW? && w.pc.Finish? && w.kind.Switch?
    ensures !StopStep(cfg, s, t, w, c).core.state.pending
  {
  }

  lemma OthersKeepPending(cfg: Config, s: Sys, a: Action)
    requires !a.Advance? && s.core.disk == s.core.state && (s.core.state.phase.Idle? ==> !s.core.state.pending)
    ensures Apply(cfg, s, a).core.state.pending == s.core.state.pending
  {
  }

  /** A mark set at step `i` that no recorded generation has cleared before state `j`. */
  ghost predicate Outstanding(states: seq<Sys>, actions: seq<Action>, i: nat, j: nat)
    requires i < j <= |actions| < |states|
  {
    && Marks(states[i], actions[i]) && forall k :: i < k < j ==> !Records(states[k], actions[k])
  }

  /** The pending mark, exactly: in every reachable state it is set, in memory and on disk, if and
      only if some commit or head check failed and no generation has been recorded since; through
      crashes, further failures and retries the pack that it is about stays the active one. */
  lemma {:induction false} PendingExactly(cfg: Config, hyp: Hypotheses, states: seq<Sys>, actions: seq<Action>, j: nat)
    requires Timely(hyp) && Run(cfg, hyp, states, actions) && j < |states|
    ensures states[j].core.disk == states[j].core.state
    ensures states[j].core.state.pending <==> exists i: nat :: i < j && Outstanding(states, actions, i, j)
    ensures forall i: nat :: i < j && Outstanding(states, actions, i, j) ==>
              states[j].core.state.active == states[i].core.state.active
  {
    RunInv(cfg, hyp, states, actions, j);
    if j == 0 {
    } else {
      PendingExactly(cfg, hyp, states, actions, j - 1);
      RunStep(cfg, hyp, states, actions, j - 1);
      PendingNext(cfg, hyp, states, actions, j - 1, j);
    }
  }

  lemma PendingNext(cfg: Config, hyp: Hypotheses, states: seq<Sys>, actions: seq<Action>, m: nat, j: nat)
    requires j == m + 1 && j <= |actions| < |states| && Takes(cfg, hyp, states[m], actions[m])
    requires states[j] == Apply(cfg, states[m], actions[m])
    requires states[m].core.state.pending <==> exists i: nat :: i < m && Outstanding(states, actions, i, m)
    requires forall i: nat :: i < m && Outstanding(states, actions, i, m) ==>
               states[m].core.state.active == states[i].core.state.active
    ensures states[j].core.state.pending <==> exists i: nat :: i < j && Outstanding(states, actions, i, j)
    ensures forall i: nat :: i < j && Outstanding(states, actions, i, j) ==>
              states[j].core.state.active == states[i].core.state.active
  {
    var s, a := states[m], actions[m];
    forall i: nat | i < m
      ensures Outstanding(states, actions, i, j) <==> Outstanding(states, actions, i, m) && !Records(s, a)
    {
    }
    if Marks(s, a) {
      MarkSets(cfg, s, a);
      assert Outstanding(states, actions, m, j);
    } else if Records(s, a) {
      RecordClears(cfg, s, a);
    } else {
      StepKeepsPending(cfg, hyp, s, a);
    }
  }

  // ------------------------------------------------------------------ ready packs

  /** The poll of a start finds the server of the active pack. */
  predicate PollSucceeds(s: Sys, a: Action) {
    && a.Advance? && a.t in s.workers && !a.choice.Fault? && !a.choice.Expired?
    && match s.workers[a.t]
       case StartW(id, _, Polling(_)) => id == s.core.state.active
       case _ => false
  }

  predicate IsReady(s: Sys) {
    s.core.state.phase == Ready
  }

  /** The disk holds the state in memory. */
  predicate Written(s: Sys) {
    s.core.disk == s.core.state
  }

  lemma StepWritten(cfg: Config, s: Sys, a: Action)
    requires Written(s)
    ensures Written(Apply(cfg, s, a))
  {
    if a.Advance? && a.t in s.workers {
      if s.workers[a.t].StartW? {
        StartHasShape(cfg, s, a.t, s.workers[a.t], a.choice);
      } else {
        StopHasShape(cfg, s, a.t, s.workers[a.t], a.choice);
      }
    }
  }

  lemma {:induction false} RunWritten(cfg: Config, hyp: Hypotheses, states: seq<Sys>, actions: seq<Action>, i: nat)
    requires Run(cfg, hyp, states, actions) && i < |states|
    ensures Written(states[i])
  {
    if i == 0 {
    } else {
      RunWritten(cfg, hyp, states, actions, i - 1);
      assert states[i - 1 + 1] == Apply(cfg, states[i - 1], actions[i - 1]);
      StepWritten(cfg, states[i - 1], actions[i - 1]);
    }
  }

  /** No other step makes a pack ready. */
  lemma ReadyOnlyByPoll(cfg: Config, s: Sys, a: Action)
    requires Written(s) && !IsReady(s) && IsReady(Apply(cfg, s, a))
    ensures PollSucceeds(s, a)
  {
    if !a.Advance? || a.t !in s.workers {
      OthersNotReady(cfg, s, a);
    } else if s.workers[a.t].StopW? {
      StopHasShape(cfg, s, a.t, s.workers[a.t], a.choice);
    } else {
      StartHasShape(cfg, s, a.t, s.workers[a.t], a.choice);
      if s.workers[a.t].spc.Polling? {
        PollEnds(cfg, s, a.t, s.workers[a.t], a.choice);
      }
    }
  }

  lemma OthersNotReady(cfg: Config, s: Sys, a: Action)
    requires Written(s) && !IsReady(s) && (!a.Advance? || a.t !in s.workers)
    ensures !IsReady(Apply(cfg, s, a))
  {
  }

  lemma PollEnds(cfg: Config, s: Sys, t: nat, w: Worker, c: Choice)
    requires w.StartW? && w.spc.Polling? && !IsReady(s)
    ensures IsReady(StartStep(cfg, s, t, w, c)) <==> !c.Fault? && !c.Expired? && w.id == s.core.state.active
  {
  }

  lemma PollMakesReady(cfg: Config, s: Sys, a: Action)
    requires PollSucceeds(s, a)
    ensures var st := State(Ready, s.core.state.active, s.core.state.generation, s.core.state.pending);
            Apply(cfg, s, a) ==
            s.(core := Core(st, st, s.core.process, s.core.expectedStop), workers := s.workers - {a.t})
  {
  }

  /** The observed exit of the registered child, in any state of any run: unless a stop expects it, the
      pack is FAILED in memory and on disk, and the next login for it begins a start. */
  lemma ServerDeath(cfg: Config, hyp: Hypotheses, states: seq<Sys>, actions: seq<Action>, i: nat)
    requires Run(cfg, hyp, states, actions) && i < |actions| && actions[i].Observe?
    requires states[i].core.process == Some(actions[i].pid) && !states[i].core.expectedStop
    ensures var st := states[i].core.state;
            var failed := State(Phase.Failed, st.active, st.generation, st.pending);
            var s' := states[i + 1];
            && s'.core == Core(failed, failed, None, false)
            && var again := Apply(cfg, s', Login(st.active));
               && again.core.state == again.core.disk == failed.(phase := Loading)
               && again.workers == s'.workers[s'.next := StartW(st.active, false, Entered)]
  {
    RunWritten(cfg, hyp, states, actions, i);
    assert states[i + 1] == Apply(cfg, states[i], actions[i]);
  }

  /** From a state that is not ready, no login of any pack is told that its server is ready before a
      poll succeeds; so it is after the death of a server. */
  lemma {:induction false} NotReadyUntilPolled(cfg: Config, hyp: Hypotheses, states: seq<Sys>, actions: seq<Action>,
                                               i: nat, j: nat)
    requires Run(cfg, hyp, states, actions) && i <= j < |states| && !IsReady(states[i])
    requires forall k :: i <= k < j ==> !PollSucceeds(states[k], actions[k])
    ensures !IsReady(states[j])
    ensures forall id, e :: Answer(states[j].core, id, e) != AlreadyReady
    decreases j - i
  {
    if i == j {
    } else {
      NotReadyUntilPolled(cfg, hyp, states, actions, i, j - 1);
      StillNotReady(cfg, hyp, states, actions, j - 1, j);
    }
    NoneReady(states[j].core);
  }

  lemma StillNotReady(cfg: Config, hyp: Hypotheses, states: seq<Sys>, actions: seq<Action>, m: nat, j: nat)
    requires Run(cfg, hyp, states, actions) && m < |actions| && j == m + 1
    requires !IsReady(states[m]) && !PollSucceeds(states[m], actions[m])
    ensures !IsReady(states[j])
  {
    RunWritten(cfg, hyp, states, actions, m);
    assert states[j] == Apply(cfg, states[m], actions[m]);
    if IsReady(states[j]) {
      ReadyOnlyByPoll(cfg, states[m], actions[m]);
    }
  }

  lemma NoneReady(c: Core)
    requires c.state.phase != Ready
    ensures forall id, e :: Answer(c, id, e) != AlreadyReady
  {
  }

  /** No stop is expected of a server that is polled or ready. */
  ghost predicate Unexpecting(s: Sys) {
    IsReady(s) || (exists t :: t in s.workers && s.workers[t].StartW? && s.workers[t].spc.Polling?) ==>
      !s.core.expectedStop
  }

  lemma StepUnexpecting(cfg: Config, hyp: Hypotheses, s: Sys, a: Action)
    requires Takes(cfg, hyp, s, a) && Unexpecting(s)
    ensures Unexpecting(Apply(cfg, s, a))
  {
    match a {
      case Advance(t, c) =>
        SoleIs(s.workers, t);
        if s.workers[t].StartW? {
          StartHasShape(cfg, s, t, s.workers[t], c);
          StartUnexpecting(s, Apply(cfg, s, a), t, s.workers[t]);
        } else {
          StopHasShape(cfg, s, t, s.workers[t], c);
          StopUnexpecting(s, Apply(cfg, s, a), t, s.workers[t]);
        }
      case _ => OthersUnexpecting(cfg, s, a);
    }
  }

  lemma StartUnexpecting(s: Sys, s': Sys, t: nat, w: Worker)
    requires s.workers == map[t := w] && w.StartW? && Unexpecting(s) && !IsReady(s) && StartShape(s, s', t, w)
    ensures Unexpecting(s')
  {
    assert w.spc.Polling? ==> t in s.workers && s.workers[t].StartW? && s.workers[t].spc.Polling?;
  }

  lemma StopUnexpecting(s: Sys, s': Sys, t: nat, w: Worker)
    requires s.workers == map[t := w] && w.StopW? && !IsReady(s) && StopShape(s, s', t, w)
    ensures Unexpecting(s')
  {
  }

  lemma OthersUnexpecting(cfg: Config, s: Sys, a: Action)
    requires !a.Advance? && Written(s) && Unexpecting(s)
    ensures Unexpecting(Apply(cfg, s, a))
  {
    match a {
      case Login(id) => LoginUnexpecting(cfg, s, id);
      case BeginSwitch(target) => BeginUnexpecting(s, DrainForSwitch(s.core, target), Switch(target));
      case BeginIdleStop(captured) => BeginUnexpecting(s, DrainWhenIdle(s.core), IdleStop(captured));
      case BeginShutdown => BeginUnexpecting(s, DrainForShutdown(s.core), Shutdown);
      case WriteWorld(_, _) =>
      case Exit(_) =>
      case Observe(_) =>
      case Crash => CrashUnexpecting(cfg, s);
    }
  }

  lemma LoginUnexpecting(cfg: Config, s: Sys, id: PackId)
    requires Unexpecting(s)
    ensures Unexpecting(Apply(cfg, s, Login(id)))
  {
    LoginStarts(cfg, s, id);
  }

  lemma BeginUnexpecting(s: Sys, entry: (Core, bool), kind: StopKind)
    requires Unexpecting(s)
    requires entry.1 ==> entry.0 == Save(s.core, s.core.state.(phase := Draining))
    ensures Unexpecting(BeginStep(s, entry, kind))
  {
  }

  lemma CrashUnexpecting(cfg: Config, s: Sys)
    ensures Unexpecting(Apply(cfg, s, Crash))
  {
  }

  lemma {:induction false} RunUnexpecting(cfg: Config, hyp: Hypotheses, states: seq<Sys>, actions: seq<Action>, i: nat)
    requires Timely(hyp) && Run(cfg, hyp, states, actions) && i < |states|
    ensures Unexpecting(states[i])
  {
    if i == 0 {
    } else {
      RunUnexpecting(cfg, hyp, states, actions, i - 1);
      RunStep(cfg, hyp, states, actions, i - 1);
      StepUnexpecting(cfg, hyp, states[i - 1], actions[i - 1]);
    }
  }

  /** From the successful poll at step `k` on the pack has been ready, with the same registered child. */
  ghost predicate ReadySince(states: seq<Sys>, actions: seq<Action>, k: nat, j: nat)
    requires k < j <= |actions| < |states|
  {
    && PollSucceeds(states[k], actions[k])
    && forall m :: k < m <= j ==> SameReady(states[k], states[m])
  }

  predicate SameReady(s: Sys, s': Sys) {
    IsReady(s') && s'.core.state.active == s.core.state.active && s'.core.process == s.core.process
  }

  /** While a pack stays ready nothing happens to its child that the manager would notice. */
  lemma ReadyStays(cfg: Config, hyp: Hypotheses, s: Sys, a: Action)
    requires Takes(cfg, hyp, s, a) && Unexpecting(s) && IsReady(s) && IsReady(Apply(cfg, s, a))
    ensures SameReady(s, Apply(cfg, s, a))
  {
    assert s.workers == map[];
  }

  /** A pack is ready only because a poll of its start succeeded, and since then nothing has ended that:
      no exit of its child was observed and no stop has begun. So a pack is ready without a child
      exactly when the exit of its child had been observed before that poll succeeded. */
  lemma {:induction false} ReadyExactly(cfg: Config, hyp: Hypotheses, states: seq<Sys>, actions: seq<Action>, j: nat)
    requires Timely(hyp) && Run(cfg, hyp, states, actions) && j < |states| && IsReady(states[j])
    ensures exists k: nat :: k < j && ReadySince(states, actions, k, j)
                             && (states[j].core.process.None? <==> states[k].core.process.None?)
    ensures !states[j].core.expectedStop
  {
    RunUnexpecting(cfg, hyp, states, actions, j);
    assert j > 0;
    var m := j - 1;
    RunStep(cfg, hyp, states, actions, m);
    RunWritten(cfg, hyp, states, actions, m);
    var s, a := states[m], actions[m];
    if IsReady(s) {
      ReadyExactly(cfg, hyp, states, actions, m);
      var k: nat :| k < m && ReadySince(states, actions, k, m);
      RunUnexpecting(cfg, hyp, states, actions, m);
      ReadyStays(cfg, hyp, s, a);
      assert ReadySince(states, actions, k, j);
    } else {
      ReadyOnlyByPoll(cfg, s, a);
      PollMakesReady(cfg, s, a);
      assert ReadySince(states, actions, m, j);
    }
  }

  // ----------------------------------------------------------------------- logins

  /** The answer to a login, by phase, and what it changes. */
  lemma LoginAnswer(c: Core, id: PackId, longEmpty: bool)
    ensures var st, answer, c' := c.state, Answer(c, id, longEmpty), Ensure(c, id).0;
            && (answer == Started <==> st.phase == Idle)
            && (answer == AlreadyReady <==> st.active == id && st.phase == Ready)
            && (answer == Waiting <==> st.active == id && (st.phase == Loading || st.phase == Recovering))
            && (answer == Retried <==> st.active == id && st.phase == Phase.Failed && c.process == None)
            && (answer == Switching <==> st.active != id && st.phase == Ready && longEmpty)
            && (answer == Started ==> c' == Core(State(Loading, id, 0, false), State(Loading, id, 0, false),
                                                 c.process, c.expectedStop))
            && (answer == Retried ==> c'.state == c'.disk == State(Loading, id, st.generation, st.pending)
                                      && c'.process == c.process && c'.expectedStop == c.expectedStop)
            && (answer != Started && answer != Retried ==> c' == c)
  {
  }

  /** A login begins a start exactly when the machine is idle, or when it retries its failed pack. */
  lemma LoginStarts(cfg: Config, s: Sys, id: PackId)
    ensures var s', st := Apply(cfg, s, Login(id)), s.core.state;
            if st.phase == Idle || (st.phase == Phase.Failed && st.active == id && s.core.process == None) then
              && s'.workers == s.workers[s.next := StartW(id, false, Entered)] && s'.next == s.next + 1
              && s'.core.state.phase == Loading && s'.core.state.active == id
            else s' == s
  {
  }

  /** When a stop begins, and what it saves: a switch or an idle stop from a ready pack, a shutdown
      whenever a child is registered. */
  lemma StopsBegin(cfg: Config, s: Sys, a: Action)
    requires a.BeginSwitch? || a.BeginIdleStop? || a.BeginShutdown?
    ensures var s', st := Apply(cfg, s, a), s.core.state;
            var begins := match a
                          case BeginSwitch(target) => st.phase == Ready && st.active != target
                          case BeginIdleStop(_) => st.phase == Ready
                          case _ => st.phase != Idle && s.core.process.Some?;
            var kind := match a
                        case BeginSwitch(target) => Switch(target)
                        case BeginIdleStop(captured) => IdleStop(captured)
                        case _ => Shutdown;
            if begins then
              && s'.workers == s.workers[s.next := StopW(kind, "", Drained)] && s'.next == s.next + 1
              && s'.core.state == s'.core.disk == State(Draining, st.active, st.generation, st.pending)
              && s'.core.process == s.core.process && SameDisk(s, s') && s'.live == s.live
            else s' == s
  {
  }

  // ------------------------------------------------------------- how a job can end

  /** The pack is recorded as failed. */
  predicate FailedFor(c: Core, c': Core, id: PackId) {
    var failed := State(Phase.Failed, id, c.state.generation, c.state.pending);
    c' == Core(failed, failed, c.process, c.expectedStop)
  }

  /** What trouble leaves behind at any point of a start but the registration of its child. */
  ghost predicate Troubled(s: Sys, s': Sys, t: nat, w: Worker)
    requires w.StartW?
  {
    && FailedFor(s.core, s'.core, w.id) && s'.workers == s.workers - {t}
    && SameDisk(s, s') && s'.live == if w.spc.Polling? then s.live - {w.spc.pid} else s.live
  }

  /** How a start can end. */
  ghost predicate Ended(s: Sys, t: nat, w: Worker, c: Choice, core: Core)
    requires w.StartW?
  {
    || FailedFor(s.core, core, w.id)
    || (PollSucceeds(s, Advance(t, c)) && core.state.phase == Ready)
    || (c.Resized? && w.spc.Sizing? && core == s.core)
    || (c.Expired? && w.spc.Polling? && core == s.core)
    || (w.id != s.core.state.active && core == s.core)
  }

  lemma EnteredEnds(cfg: Config, s: Sys, t: nat, w: Worker, c: Choice)
    requires t in s.workers && s.workers[t] == w && w.StartW? && w.spc.Entered?
    ensures var s' := StartStep(cfg, s, t, w, c);
            t !in s'.workers ==> Ended(s, t, w, c, s'.core)
    ensures c.Fault? ==> Troubled(s, StartStep(cfg, s, t, w, c), t, w)
  {
  }

  lemma SizingEnds(cfg: Config, s: Sys, t: nat, w: Worker, c: Choice)
    requires t in s.workers && s.workers[t] == w && w.StartW? && w.spc.Sizing?
    ensures var s' := StartStep(cfg, s, t, w, c);
            t !in s'.workers ==> Ended(s, t, w, c, s'.core)
    ensures c.Fault? ==> Troubled(s, StartStep(cfg, s, t, w, c), t, w)
  {
  }

  lemma ProbeEnds(cfg: Config, s: Sys, t: nat, w: Worker, c: Choice)
    requires t in s.workers && s.workers[t] == w && w.StartW? && w.spc.Probe?
    ensures var s' := StartStep(cfg, s, t, w, c);
            t !in s'.workers ==> Ended(s, t, w, c, s'.core)
    ensures c.Fault? ==> Troubled(s, StartStep(cfg, s, t, w, c), t, w)
  {
  }

  lemma FetchingEnds(cfg: Config, s: Sys, t: nat, w: Worker, c: Choice)
    requires t in s.workers && s.workers[t] == w && w.StartW? && w.spc.Fetching?
    ensures var s' := StartStep(cfg, s, t, w, c);
            t !in s'.workers ==> Ended(s, t, w, c, s'.core)
    ensures c.Fault? ==> Troubled(s, StartStep(cfg, s, t, w, c), t, w)
  {
  }

  lemma PrepareEnds(cfg: Config, s: Sys, t: nat, w: Worker, c: Choice)
    requires t in s.workers && s.workers[t] == w && w.StartW? && w.spc.Prepare?
    ensures var s' := StartStep(cfg, s, t, w, c);
            t !in s'.workers ==> Ended(s, t, w, c, s'.core)
    ensures c.Fault? ==> Troubled(s, StartStep(cfg, s, t, w, c), t, w)
  {
  }

  lemma LaunchEnds(cfg: Config, s: Sys, t: nat, w: Worker, c: Choice)
    requires t in s.workers && s.workers[t] == w && w.StartW? && w.spc.Launch?
    ensures var s' := StartStep(cfg, s, t, w, c);
            t !in s'.workers ==> Ended(s, t, w, c, s'.core)
    ensures c.Fault? ==> Troubled(s, StartStep(cfg, s, t, w, c), t, w)
  {
  }

  lemma RegisteringEnds(cfg: Config, s: Sys, t: nat, w: Worker, c: Choice)
    requires t in s.workers && s.workers[t] == w && w.StartW? && w.spc.Registering?
    ensures var s' := StartStep(cfg, s, t, w, c);
            t !in s'.workers ==> Ended(s, t, w, c, s'.core)
  {
  }

  lemma PollingEnds(cfg: Config, s: Sys, t: nat, w: Worker, c: Choice)
    requires t in s.workers && s.workers[t] == w && w.StartW? && w.spc.Polling?
    ensures var s' := StartStep(cfg, s, t, w, c);
            t !in s'.workers ==> Ended(s, t, w, c, s'.core)
    ensures c.Fault? ==> Troubled(s, StartStep(cfg, s, t, w, c), t, w)
  {
  }

  /** A start that ends has failed, or it has made its pack ready, or it was cancelled by a resize or
      while polling, or another pack has become the active one. Trouble at any point before or after
      the registration of its child leaves the pack FAILED in memory and on disk, and no child. */
  lemma StartEnds(cfg: Config, s: Sys, t: nat, w: Worker, c: Choice)
    requires t in s.workers && s.workers[t] == w && w.StartW?
    ensures var s' := StartStep(cfg, s, t, w, c);
            t !in s'.workers ==> Ended(s, t, w, c, s'.core)
    ensures c.Fault? && !w.spc.Registering? ==> Troubled(s, StartStep(cfg, s, t, w, c), t, w)
  {
    match w.spc {
      case Entered => EnteredEnds(cfg, s, t, w, c);
      case Sizing => SizingEnds(cfg, s, t, w, c);
      case Probe => ProbeEnds(cfg, s, t, w, c);
      case Fetching(_) => FetchingEnds(cfg, s, t, w, c);
      case Prepare(_, _, _) => PrepareEnds(cfg, s, t, w, c);
      case Launch => LaunchEnds(cfg, s, t, w, c);
      case Registering(_) => RegisteringEnds(cfg, s, t, w, c);
      case Polling(_) => PollingEnds(cfg, s, t, w, c);
    }
  }

  /** How a stop can end: a failed one leaves the pack it was begun for FAILED, unless it is a shutdown's;
      a finished one leaves the machine idle, unless nobody waits for the shutdown any more. */
  ghost predicate StopEnded(s: Sys, w: Worker, c: Choice, core: Core)
    requires w.StopW?
  {
    match w.kind
    case Switch(_) => w.pc.Failing? && FailedFor(s.core, core, s.core.state.active)
    case IdleStop(captured) =>
      || (w.pc.Failing? && FailedFor(s.core, core, captured))
      || (w.pc.Finish? && core == s.core.(state := IDLE, disk := IDLE))
    case Shutdown =>
      || (w.pc.Failing? && core == s.core)
      || (w.pc.Finish? && core == if c.Expired? then s.core else s.core.(state := IDLE, disk := IDLE))
  }

  /** What trouble leads to: the stop fails, its child is killed if it did not exit in time, and its exit
      is no longer expected if the stop command did not arrive. */
  ghost predicate StopTroubled(s: Sys, s': Sys, t: nat, w: Worker)
    requires w.StopW?
  {
    && s'.workers == s.workers[t := StopW(w.kind, w.id, Failing)] && SameDisk(s, s')
    && s'.live == (if w.pc.Await? then s.live - {w.pc.proc} else s.live)
    && s'.core == if w.pc.StopCommand? then s.core.(expectedStop := false) else s.core
  }

  /** The steps of a stop that can run into trouble. */
  predicate Troublesome(s: Sys, pc: StopPc) {
    pc.SaveAll? || pc.StopCommand? || (pc.Await? && s.core.process.Some?) || pc.Evict?
  }

  lemma DrainedStopEnds(cfg: Config, s: Sys, t: nat, w: Worker, c: Choice)
    requires t in s.workers && s.workers[t] == w && w.StopW? && w.pc.Drained?
    ensures var s' := StopStep(cfg, s, t, w, c);
            t !in s'.workers ==> StopEnded(s, w, c, s'.core)
  {
  }

  lemma SaveAllStopEnds(cfg: Config, s: Sys, t: nat, w: Worker, c: Choice)
    requires t in s.workers && s.workers[t] == w && w.StopW? && w.pc.SaveAll?
    ensures var s' := StopStep(cfg, s, t, w, c);
            t !in s'.workers ==> StopEnded(s, w, c, s'.core)
    ensures c.Fault? && Troublesome(s, w.pc) ==> StopTroubled(s, StopStep(cfg, s, t, w, c), t, w)
  {
  }

  lemma StopCommandStopEnds(cfg: Config, s: Sys, t: nat, w: Worker, c: Choice)
    requires t in s.workers && s.workers[t] == w && w.StopW? && w.pc.StopCommand?
    ensures var s' := StopStep(cfg, s, t, w, c);
            t !in s'.workers ==> StopEnded(s, w, c, s'.core)
    ensures c.Fault? && Troublesome(s, w.pc) ==> StopTroubled(s, StopStep(cfg, s, t, w, c), t, w)
  {
  }

  lemma AwaitStopEnds(cfg: Config, s: Sys, t: nat, w: Worker, c: Choice)
    requires t in s.workers && s.workers[t] == w && w.StopW? && w.pc.Await?
    ensures var s' := StopStep(cfg, s, t, w, c);
            t !in s'.workers ==> StopEnded(s, w, c, s'.core)
    ensures c.Fault? && Troublesome(s, w.pc) ==> StopTroubled(s, StopStep(cfg, s, t, w, c), t, w)
  {
  }

  lemma ReadGenerationStopEnds(cfg: Config, s: Sys, t: nat, w: Worker, c: Choice)
    requires t in s.workers && s.workers[t] == w && w.StopW? && w.pc.ReadGeneration?
    ensures var s' := StopStep(cfg, s, t, w, c);
            t !in s'.workers ==> StopEnded(s, w, c, s'.core)
  {
  }

  lemma CheckHeadStopEnds(cfg: Config, s: Sys, t: nat, w: Worker, c: Choice)
    requires t in s.workers && s.workers[t] == w && w.StopW? && w.pc.CheckHead?
    ensures var s' := StopStep(cfg, s, t, w, c);
            t !in s'.workers ==> StopEnded(s, w, c, s'.core)
  {
  }

  lemma UploadStopEnds(cfg: Config, s: Sys, t: nat, w: Worker, c: Choice)
    requires t in s.workers && s.workers[t] == w && w.StopW? && w.pc.Upload?
    ensures var s' := StopStep(cfg, s, t, w, c);
            t !in s'.workers ==> StopEnded(s, w, c, s'.core)
  {
  }

  lemma PublishStopEnds(cfg: Config, s: Sys, t: nat, w: Worker, c: Choice)
    requires t in s.workers && s.workers[t] == w && w.StopW? && w.pc.Publish?
    ensures var s' := StopStep(cfg, s, t, w, c);
            t !in s'.workers ==> StopEnded(s, w, c, s'.core)
  {
  }

  lemma VerifyStopEnds(cfg: Config, s: Sys, t: nat, w: Worker, c: Choice)
    requires t in s.workers && s.workers[t] == w && w.StopW? && w.pc.Verify?
    ensures var s' := StopStep(cfg, s, t, w, c);
            t !in s'.workers ==> StopEnded(s, w, c, s'.core)
  {
  }

  lemma RecordStopEnds(cfg: Config, s: Sys, t: nat, w: Worker, c: Choice)
    requires t in s.workers && s.workers[t] == w && w.StopW? && w.pc.Record?
    ensures var s' := StopStep(cfg, s, t, w, c);
            t !in s'.workers ==> StopEnded(s, w, c, s'.core)
  {
  }

  lemma UnrecordedStopEnds(cfg: Config, s: Sys, t: nat, w: Worker, c: Choice)
    requires t in s.workers && s.workers[t] == w && w.StopW? && w.pc.Unrecorded?
    ensures var s' := StopStep(cfg, s, t, w, c);
            t !in s'.workers ==> StopEnded(s, w, c, s'.core)
  {
  }

  lemma EvictStopEnds(cfg: Config, s: Sys, t: nat, w: Worker, c: Choice)
    requires t in s.workers && s.workers[t] == w && w.StopW? && w.pc.Evict?
    ensures var s' := StopStep(cfg, s, t, w, c);
            t !in s'.workers ==> StopEnded(s, w, c, s'.core)
    ensures c.Fault? && Troublesome(s, w.pc) ==> StopTroubled(s, StopStep(cfg, s, t, w, c), t, w)
  {
  }

  lemma FinishStopEnds(cfg: Config, s: Sys, t: nat, w: Worker, c: Choice)
    requires t in s.workers && s.workers[t] == w && w.StopW? && w.pc.Finish?
    ensures var s' := StopStep(cfg, s, t, w, c);
            t !in s'.workers ==> StopEnded(s, w, c, s'.core)
  {
  }

  lemma FailingStopEnds(cfg: Config, s: Sys, t: nat, w: Worker, c: Choice)
    requires t in s.workers && s.workers[t] == w && w.StopW? && w.pc.Failing?
    ensures var s' := StopStep(cfg, s, t, w, c);
            t !in s'.workers ==> StopEnded(s, w, c, s'.core)
  {
  }

  lemma StopEnds(cfg: Config, s: Sys, t: nat, w: Worker, c: Choice)
    requires t in s.workers && s.workers[t] == w && w.StopW?
    ensures var s' := StopStep(cfg, s, t, w, c);
            t !in s'.workers ==> StopEnded(s, w, c, s'.core)
    ensures c.Fault? && Troublesome(s, w.pc) ==> StopTroubled(s, StopStep(cfg, s, t, w, c), t, w)
  {
    match w.pc {
      case Drained => DrainedStopEnds(cfg, s, t, w, c);
      case SaveAll(_) => SaveAllStopEnds(cfg, s, t, w, c);
      case StopCommand(_) => StopCommandStopEnds(cfg, s, t, w, c);
      case Await(_) => AwaitStopEnds(cfg, s, t, w, c);
      case ReadGeneration => ReadGenerationStopEnds(cfg, s, t, w, c);
      case CheckHead(_) => CheckHeadStopEnds(cfg, s, t, w, c);
      case Upload(_) => UploadStopEnds(cfg, s, t, w, c);
      case Publish(_) => PublishStopEnds(cfg, s, t, w, c);
      case Verify(_) => VerifyStopEnds(cfg, s, t, w, c);
      case Record(_) => RecordStopEnds(cfg, s, t, w, c);
      case Unrecorded => UnrecordedStopEnds(cfg, s, t, w, c);
      case Evict => EvictStopEnds(cfg, s, t, w, c);
      case Finish => FinishStopEnds(cfg, s, t, w, c);
      case Failing => FailingStopEnds(cfg, s, t, w, c);
    }
  }

  /** A commit that failed ends its stop in two steps: the backup is pending, and the pack is FAILED unless
      the stop was a shutdown's. */
  lemma FailedCommitEnds(cfg: Config, s: Sys, t: nat, kind: StopKind, id: PackId)
    requires t in s.workers && s.workers[t] == StopW(kind, id, Unrecorded)
    requires kind.IdleStop? ==> kind.captured == s.core.state.active
    ensures var s' := Apply(cfg, Apply(cfg, s, Advance(t, Go)), Advance(t, Go));
            var st := s.core.state;
            var phase := if kind.Shutdown? then st.phase else Phase.Failed;
            && s'.core.state == s'.core.disk == State(phase, st.active, st.generation, true)
            && s'.workers == s.workers - {t} && SameDisk(s, s')
  {
    var s1 := Apply(cfg, s, Advance(t, Go));
    UnrecordedFails(cfg, s, t, kind, id);
    FailingEnds(cfg, s1, t, kind, id);
    assert s.workers[t := StopW(kind, id, Failing)] - {t} == s.workers - {t};
  }

  lemma UnrecordedFails(cfg: Config, s: Sys, t: nat, kind: StopKind, id: PackId)
    requires t in s.workers && s.workers[t] == StopW(kind, id, Unrecorded)
    ensures var marked := s.core.state.(pending := true);
            Apply(cfg, s, Advance(t, Go)) ==
            s.(core := s.core.(state := marked, disk := marked), workers := s.workers[t := StopW(kind, id, Failing)])
  {
  }

  lemma FailingEnds(cfg: Config, s: Sys, t: nat, kind: StopKind, id: PackId)
    requires t in s.workers && s.workers[t] == StopW(kind, id, Failing)
    requires kind.IdleStop? ==> kind.captured == s.core.state.active
    ensures var failed := s.core.state.(phase := Phase.Failed);
            Apply(cfg, s, Advance(t, Go)) ==
            s.(core := if kind.Shutdown? then s.core else s.core.(state := failed, disk := failed),
               workers := s.workers - {t})
  {
  }

  // ---------------------------------------------------------------- along the way

  /** With a sizer a start shows RESIZING while the machine is resized, then LOADING, or RECOVERING when it
      resumes after a crash; a submitted resize ends it as it is, and so does another active pack. */
  lemma SizerSteps(cfg: Config, s: Sys, t: nat, id: PackId, recovery: bool)
    requires cfg.sizer && t in s.workers && s.workers[t].StartW?
    requires s.workers[t] == StartW(id, recovery, Entered) || s.workers[t] == StartW(id, recovery, Sizing)
    ensures var st, entered := s.core.state, s.workers[t].spc.Entered?;
            var phase := if entered then Resizing else if recovery then Recovering else Loading;
            var shown := State(phase, st.active, st.generation, st.pending);
            Apply(cfg, s, Advance(t, Go)) ==
            if id == st.active then
              s.(core := s.core.(state := shown, disk := shown),
                 workers := s.workers[t := StartW(id, recovery, if entered then Sizing else Probe)])
            else s.(workers := s.workers - {t})
    ensures s.workers[t].spc.Sizing? ==> Apply(cfg, s, Advance(t, Resized)) == s.(workers := s.workers - {t})
  {
  }

  /** Without one it goes straight to the head check. */
  lemma NoSizerStep(cfg: Config, s: Sys, t: nat, id: PackId, recovery: bool)
    requires !cfg.sizer && t in s.workers && s.workers[t] == StartW(id, recovery, Entered)
    ensures Apply(cfg, s, Advance(t, Go)) == s.(workers := s.workers[t := StartW(id, recovery, Probe)])
  {
  }

  /** While a pack stays active its recorded generation never goes back, whatever start and stop learn
      or fail to learn about its backups. */
  lemma GenerationGrows(cfg: Config, states: seq<Sys>, actions: seq<Action>, i: nat)
    requires Run(cfg, ASSUMED, states, actions) && i < |actions|
    requires states[i].core.state.active != "" && states[i + 1].core.state.active == states[i].core.state.active
    ensures states[i].core.state.generation <= states[i + 1].core.state.generation
  {
    RunStep(cfg, ASSUMED, states, actions, i);
    StepGeneration(cfg, states[i], actions[i]);
  }

  lemma StepGeneration(cfg: Config, s: Sys, a: Action)
    requires Takes(cfg, ASSUMED, s, a)
    requires s.core.state.active != "" && Apply(cfg, s, a).core.state.active == s.core.state.active
    ensures s.core.state.generation <= Apply(cfg, s, a).core.state.generation
  {
    if a.Advance? {
      SoleIs(s.workers, a.t);
      if Finishing(s, a) {
        FinishedInPlace(cfg, s, a.t, s.workers[a.t], a.choice);
      } else {
        AdvanceGeneration(cfg, s, a.t, s.workers[a.t], a.choice);
      }
    } else {
      OthersKeepGeneration(cfg, s, a);
    }
  }

  /** A stop that ends without giving up its pack changes nothing. */
  lemma FinishedInPlace(cfg: Config, s: Sys, t: nat, w: Worker, c: Choice)
    requires w.StopW? && w.pc.Finish? && (w.kind.Switch? ==> w.kind.target != s.core.state.active)
    requires s.core.state.active != "" && StopStep(cfg, s, t, w, c).core.state.active == s.core.state.active
    ensures StopStep(cfg, s, t, w, c).core == s.core
  {
    if !w.kind.Switch? {
      IdleIs(cfg, s, t, w, c);
    }
  }

  /** The two steps that learn a generation. */
  predicate Learns(w: Worker) {
    (w.StartW? && w.spc.Prepare?) || (w.StopW? && w.pc.Record?)
  }

  lemma AdvanceGeneration(cfg: Config, s: Sys, t: nat, w: Worker, c: Choice)
    requires t in s.workers && s.workers[t] == w && !Finishing(s, Advance(t, c))
    requires w.StartW? && w.spc.Prepare? && w.spc.exists_ ==> s.core.state.generation <= w.spc.gen
    requires w.StopW? && w.pc.Record? ==> s.core.state.generation <= w.pc.gen
    ensures s.core.state.generation <= Apply(cfg, s, Advance(t, c)).core.state.generation
  {
    if !Learns(w) {
      if w.StartW? {
        StartHasShape(cfg, s, t, w, c);
      } else {
        StopHasShape(cfg, s, t, w, c);
      }
    }
  }

  lemma OthersKeepGeneration(cfg: Config, s: Sys, a: Action)
    requires !a.Advance? && Written(s) && !s.core.state.phase.Idle?
    ensures Apply(cfg, s, a).core.state.generation == s.core.state.generation
  {
  }

  /** A new child is registered, and no stop is expected of it, while its pack is the active one; the child
      of a pack that no longer is the active one is killed, and nothing is recorded. */
  lemma Registration(cfg: Config, s: Sys, t: nat, id: PackId, recovery: bool, pid: nat, c: Choice)
    requires t in s.workers && s.workers[t] == StartW(id, recovery, Registering(pid))
    ensures Apply(cfg, s, Advance(t, c)) ==
            if id == s.core.state.active then
              s.(core := s.core.(process := Some(pid), expectedStop := false), waiters := s.waiters + {pid},
                 workers := s.workers[t := StartW(id, recovery, Polling(pid))])
            else s.(live := s.live - {pid}, workers := s.workers - {t})
  {
  }

  /** A head check that fails is never taken for an answer: a stop does not commit or record, and a start
      goes on only with the world on the disk, marking its backup. */
  lemma ReadTrouble(cfg: Config, s: Sys, t: nat, w: Worker)
    requires t in s.workers && s.workers[t] == w && Reads(w)
    ensures w.StopW? ==>
              Apply(cfg, s, Advance(t, Unreadable)) == s.(workers := s.workers[t := StopW(w.kind, w.id, Unrecorded)])
    ensures w.StartW? ==>
              var s' := Apply(cfg, s, Advance(t, Unreadable));
              if w.spc.Probe? && w.id in s.dirs then
                s' == s.(workers := s.workers[t := StartW(w.id, w.recovery, Prepare(false, 0, true))])
              else FailedFor(s.core, s'.core, w.id) && s'.workers == s.workers - {t} && SameDisk(s, s')
  {
    if w.StopW? {
      StopReadTrouble(cfg, s, t, w);
    } else {
      StartReadTrouble(cfg, s, t, w);
    }
  }

  lemma StopReadTrouble(cfg: Config, s: Sys, t: nat, w: Worker)
    requires w.StopW? && Reads(w)
    ensures StopStep(cfg, s, t, w, Unreadable) == s.(workers := s.workers[t := StopW(w.kind, w.id, Unrecorded)])
  {
  }

  lemma StartReadTrouble(cfg: Config, s: Sys, t: nat, w: Worker)
    requires w.StartW? && Reads(w)
    ensures var s' := StartStep(cfg, s, t, w, Unreadable);
            if w.spc.Probe? && w.id in s.dirs then
              s' == s.(workers := s.workers[t := StartW(w.id, w.recovery, Prepare(false, 0, true))])
            else FailedFor(s.core, s'.core, w.id) && s'.workers == s.workers - {t} && SameDisk(s, s')
  {
  }

  /** A start takes its backup to be unread exactly when its head check failed: not after a restore, and
      not after a check that found nothing. */
  lemma UnreadExactly(cfg: Config, s: Sys, t: nat, w: Worker, c: Choice)
    requires t in s.workers && s.workers[t] == w && w.StartW? && (w.spc.Probe? || w.spc.Fetching?)
    ensures var s' := StartStep(cfg, s, t, w, c);
            t in s'.workers && s'.workers[t].StartW? && s'.workers[t].spc.Prepare? ==>
              (s'.workers[t].spc.headError <==> w.spc.Probe? && c.Unreadable?)
    ensures w.spc.Fetching? && t in StartStep(cfg, s, t, w, c).workers ==>
              StartStep(cfg, s, t, w, c).workers[t] == StartW(w.id, w.recovery, Prepare(true, w.spc.gen, false))
  {
    if w.spc.Probe? {
      ProbeStep(cfg, s, t, w, c);
    }
  }
}
