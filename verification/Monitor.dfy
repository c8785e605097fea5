/** The manager's ticker: it polls the running server, remembers since when it has been empty, and
    decides when to stop it (internal/runtime/manager.go, state.go). Times are wall-clock readings
    in nanoseconds. */
module Monitor {
  import opened Wrappers
  import opened Sections

  /** What a status query says. */
  datatype Poll = Unreachable | Players(online: int)

  predicate Empty(p: Poll) {
    p.Players? && p.online <= 0
  }

  datatype Settings = Settings(idleBeforeStop: int, statusIdleExit: int)

  /** The empty-since mark in memory and in the state file. */
  datatype Marks = Marks(memory: Option<int>, disk: Option<int>)

  const NO_MARKS := Marks(None, None)

  function Marked(m: Option<int>): Marks {
    Marks(m, m)
  }

  function AfterPoll(m: Marks, p: Poll, now: int): Marks {
    if !Empty(p) then Marked(None)
    else if m.memory.None? then Marked(Some(now))
    else Marked(m.memory)
  }

  /** The decision, made from the mark after the lock is released, at a later clock reading. */
  predicate Decides(s: Settings, m: Marks, p: Poll, later: int) {
    !p.Unreachable? && m.memory.Some? && later - m.memory.value >= s.idleBeforeStop
  }

  class Monitor {
    const settings: Settings
    var phase: Phase
    var loginSeen: bool
    var lastActivity: int
    var emptySince: Option<int>
    var saved: Option<int>
    var done: bool

    ghost function View(): Marks
      reads this
    {
      Marks(emptySince, saved)
    }

    /** A new process takes the mark from the state file. */
    constructor (settings: Settings, saved: Option<int>, phase: Phase, now: int)
      ensures this.settings == settings && this.phase == phase && View() == Marked(saved)
      ensures !loginSeen && !done && lastActivity == now
    {
      this.settings := settings;
      this.saved, emptySince := saved, saved;
      this.phase, loginSeen, lastActivity, done := phase, false, now, false;
    }

    /** The first section of tick: give up an idle machine nobody logged in to, or go on to poll. */
    method Begin(now: int) returns (poll: bool)
      modifies this`done
      ensures poll <==> phase == Ready
      ensures done <==> old(done) || (phase == Idle && !loginSeen && now - lastActivity >= settings.statusIdleExit)
    {
      if phase == Idle && !loginSeen && now - lastActivity >= settings.statusIdleExit {
        done := true;
        return false;
      }
      poll := phase == Ready;
    }

    /** The second section: record the answer, whatever the phase has become, then decide. */
    method Process(p: Poll, now: int, later: int) returns (stop: bool)
      modifies this`emptySince, this`saved
      ensures View() == AfterPoll(old(View()), p, now)
      ensures stop <==> Decides(settings, View(), p, later)
    {
      if p.Unreachable? {
        emptySince := None;
        saved := emptySince;
        return false;
      }
      if p.online > 0 {
        emptySince := None;
      } else if emptySince == None {
        emptySince := Some(now);
      }
      var empty := emptySince;
      saved := emptySince;
      stop := empty.Some? && later - empty.value >= settings.idleBeforeStop;
    }

    /** A fresh state, for another pack or for none, forgets the mark. */
    method Replace(phase: Phase)
      modifies this`phase, this`emptySince, this`saved
      ensures this.phase == phase && View() == NO_MARKS
    {
      this.phase, emptySince := phase, None;
      saved := emptySince;
    }

    /** Every other section saves the state with its mark. */
    method SetPhase(phase: Phase)
      modifies this`phase, this`saved
      ensures this.phase == phase && emptySince == old(emptySince) && saved == emptySince
    {
      this.phase := phase;
      saved := emptySince;
    }
  }

  // ------------------------------------------------------------------ histories

  datatype Event =
    | Polled(poll: Poll, now: int, later: int)
    | Replaced
    | Saved
    | Restarted

  ghost function MarksAfter(es: seq<Event>): Marks {
    if es == [] then NO_MARKS
    else
      var m, e := MarksAfter(es[..|es| - 1]), es[|es| - 1];
      match e
      case Polled(p, now, _) => AfterPoll(m, p, now)
      case Replaced => NO_MARKS
      case Saved => Marked(m.memory)
      case Restarted => Marked(m.disk)
  }

  /** Event `i` is the ticker deciding to stop the server. */
  ghost predicate StopsAt(s: Settings, es: seq<Event>, i: nat)
    requires i < |es|
  {
    es[i].Polled? && Decides(s, MarksAfter(es[..i + 1]), es[i].poll, es[i].later)
  }

  /** From event `k` to event `i` every processed poll found the server empty, and the state was
      not replaced. */
  ghost predicate EmptyStretch(es: seq<Event>, k: nat, i: nat)
    requires k <= i < |es|
  {
    && es[k].Polled?
    && forall j :: k <= j <= i ==> !es[j].Replaced? && (es[j].Polled? ==> Empty(es[j].poll))
  }

  ghost predicate Clocked(es: seq<Event>) {
    forall i, j :: 0 <= i <= j < |es| && es[i].Polled? && es[j].Polled? ==> es[i].now <= es[j].now
  }

  /** Event `k` lies in the empty stretch that reaches the end of the history. */
  ghost predicate Current(es: seq<Event>, k: int) {
    0 <= k < |es| && EmptyStretch(es, k, |es| - 1)
  }

  ghost predicate FirstCurrent(es: seq<Event>, k: int, t: int) {
    Current(es, k) && es[k].now == t && forall j :: Current(es, j) ==> k <= j
  }

  /** What the mark records, in memory and on disk: the first poll of the current empty stretch. */
  ghost predicate MarkMeans(es: seq<Event>, m: Marks) {
    && m.disk == m.memory
    && (m.memory.None? ==> forall k :: !Current(es, k))
    && (m.memory.Some? ==> exists k :: FirstCurrent(es, k, m.memory.value))
  }

  lemma CurrentStep(es: seq<Event>, e: Event, k: int)
    ensures Current(es + [e], k) <==>
            if k == |es| then e.Polled? && Empty(e.poll)
            else Current(es, k) && !e.Replaced? && (e.Polled? ==> Empty(e.poll))
    ensures 0 <= k < |es| ==> (es + [e])[k] == es[k]
  {
    var all := es + [e];
    assert all[|es|] == e;
    assert forall j :: 0 <= j < |es| ==> all[j] == es[j];
  }

  lemma {:induction false} MarkIsStretch(es: seq<Event>)
    ensures MarkMeans(es, MarksAfter(es))
  {
    if es == [] {
    } else {
      var before, e := es[..|es| - 1], es[|es| - 1];
      assert es == before + [e];
      MarkIsStretch(before);
      MarkStep(before, e);
    }
  }

  lemma MarkStep(es: seq<Event>, e: Event)
    requires MarkMeans(es, MarksAfter(es))
    ensures MarkMeans(es + [e], MarksAfter(es + [e]))
  {
    var all, m, n := es + [e], MarksAfter(es), MarksAfter(es + [e]);
    assert all[..|es|] == es && all[|es|] == e;
    forall k
      ensures Current(all, k) <==>
              if k == |es| then e.Polled? && Empty(e.poll)
              else Current(es, k) && !e.Replaced? && (e.Polled? ==> Empty(e.poll))
      ensures 0 <= k < |es| ==> all[k] == es[k]
    {
      CurrentStep(es, e, k);
    }
    if n.memory.Some? {
      if m.memory.Some? {
        var k :| FirstCurrent(es, k, m.memory.value);
        assert FirstCurrent(all, k, n.memory.value);
      } else {
        assert FirstCurrent(all, |es|, n.memory.value);
      }
    }
  }

  /** Event `k` opens the empty stretch that event `i` lies in. */
  ghost predicate Opens(es: seq<Event>, k: int, i: nat)
    requires i < |es|
  {
    0 <= k <= i && EmptyStretch(es, k, i) && forall j :: 0 <= j <= i && EmptyStretch(es, j, i) ==> k <= j
  }

  /** The decision, exactly and for every clock: the ticker decides to stop if and only if the poll
      that opened the current empty stretch lies at least the configured length back. */
  lemma StopExact(s: Settings, es: seq<Event>, i: nat)
    requires i < |es| && es[i].Polled?
    ensures StopsAt(s, es, i) <==>
            exists k :: Opens(es, k, i) && es[i].later - es[k].now >= s.idleBeforeStop
  {
    var h := es[..i + 1];
    assert h[i] == es[i];
    forall k
      ensures Current(h, k) <==> 0 <= k <= i && EmptyStretch(es, k, i)
      ensures 0 <= k <= i ==> h[k] == es[k]
    {
      assert forall j :: k <= j <= i && 0 <= j ==> h[j] == es[j];
    }
    MarkIsStretch(h);
    var m := MarksAfter(h);
    if m.memory.Some? {
      var k :| FirstCurrent(h, k, m.memory.value);
      assert Opens(es, k, i) && es[k].now == m.memory.value;
      assert forall j :: Opens(es, j, i) ==> j == k;
      assert Empty(es[i].poll);
    }
  }

  /** The decision is justified by history, whatever the clock does: when the ticker decides to
      stop, some poll at least the configured length back began a stretch in which every processed
      poll succeeded and found no players; restarts do not interrupt it. Under a clock that never
      steps back it also decides whenever history justifies it. */
  lemma StopJustified(s: Settings, es: seq<Event>, i: nat)
    requires i < |es| && es[i].Polled?
    ensures StopsAt(s, es, i) ==>
              exists k :: 0 <= k <= i && EmptyStretch(es, k, i) && es[i].later - es[k].now >= s.idleBeforeStop
    ensures Clocked(es) ==>
              (StopsAt(s, es, i) <==>
               exists k :: 0 <= k <= i && EmptyStretch(es, k, i) && es[i].later - es[k].now >= s.idleBeforeStop)
  {
    StopExact(s, es, i);
    if Clocked(es) {
      forall k | 0 <= k <= i && EmptyStretch(es, k, i) && es[i].later - es[k].now >= s.idleBeforeStop
        ensures StopsAt(s, es, i)
      {
        var first := Opener(es, k, i);
        assert es[first].now <= es[k].now;
      }
    }
  }

  /** Every empty stretch has an opening poll. */
  lemma {:induction false} Opener(es: seq<Event>, k: nat, i: nat) returns (first: nat)
    requires k <= i < |es| && EmptyStretch(es, k, i)
    ensures first <= k && Opens(es, first, i)
    decreases k
  {
    if j: nat :| j < k && EmptyStretch(es, j, i) {
      first := Opener(es, j, i);
    } else {
      first := k;
    }
  }

  /** The mark outlives the process: one empty poll after a long stop is enough to stop again,
      although nobody watched the server in between. */
  lemma StopOnFirstPollAfterRestart(s: Settings, t: int, away: int)
    requires s.idleBeforeStop > 0 && away >= s.idleBeforeStop
    ensures var es := [Polled(Players(0), t, t), Restarted, Polled(Players(0), t + away, t + away)];
            StopsAt(s, es, 2) && !StopsAt(s, es, 0)
            && !StopsAt(s, [es[0], Replaced, es[2]], 2)
  {
    var es := [Polled(Players(0), t, t), Restarted, Polled(Players(0), t + away, t + away)];
    assert Clocked(es);
    StopJustified(s, es, 0);
    StopJustified(s, es, 2);
    assert EmptyStretch(es, 0, 2);
    var other := [es[0], Replaced, es[2]];
    assert Clocked(other);
    StopJustified(s, other, 2);
    assert other[1].Replaced?;
    assert !EmptyStretch(other, 0, 2) && !EmptyStretch(other, 1, 2);
  }

  /** One player online is enough: when the ticker decides to stop, the last poll that found a player
      or no server lies before a poll that found nobody, at least the configured length back. */
  lemma PlayersPreventStop(s: Settings, es: seq<Event>, j: nat, i: nat)
    requires j <= i < |es| && es[j].Polled? && es[i].Polled?
    requires match es[j].poll
             case Players(online) => online >= 1
             case Unreachable => true
    ensures StopsAt(s, es, i) ==>
              exists k: nat :: j < k <= i && es[k].Polled? && es[i].later - es[k].now >= s.idleBeforeStop
                               && forall m :: k <= m <= i && es[m].Polled? ==>
                                                es[m].poll.Players? && es[m].poll.online <= 0
  {
    StopExact(s, es, i);
    if StopsAt(s, es, i) {
      var k :| Opens(es, k, i) && es[i].later - es[k].now >= s.idleBeforeStop;
      assert k <= j ==> Empty(es[j].poll);
    }
  }

  /** And nobody online for long enough is a reason to stop, under any clock that does not step back. */
  lemma NobodyStops(s: Settings, es: seq<Event>, k: nat, i: nat)
    requires k <= i < |es| && Clocked(es) && es[k].Polled? && es[i].Polled?
    requires es[i].later - es[k].now >= s.idleBeforeStop
    requires forall m :: k <= m <= i ==> !es[m].Replaced? && (es[m].Polled? ==> es[m].poll == Players(0))
    ensures StopsAt(s, es, i)
  {
    assert EmptyStretch(es, k, i);
    StopJustified(s, es, i);
  }
}
