/** The lifecycle manager object: one method per lock-protected section, updating the fields in
    place and saving the state before the lock is released (internal/runtime/manager.go,
    state.go). Each method is tied to the section function that the step machine uses. */
module Manager {
  import opened Wrappers
  import opened Sections

  datatype Content = Absent | Holds(st: State) | Unreadable

  /** How a save ends: complete, without effect, or in place but not synced. */
  datatype SaveOutcome = Saved | NotSaved | Unsynced

  /** The persisted state; Save replaces the whole file in one rename. */
  class StateFile {
    var content: Content

    constructor ()
      ensures content == Absent
    {
      content := Absent;
    }

    /** The state that a new process finds here. */
    function Loaded(): State
      reads this
    {
      match content
      case Absent => IDLE
      case Holds(st) => if st.phase.Unset? then st.(phase := Idle) else st
      case Unreadable => ZERO
    }

    method Load() returns (st: State, ok: bool)
      ensures st == Loaded() && (ok <==> content != Unreadable)
    {
      if content == Absent {
        return IDLE, true;
      }
      if content == Unreadable {
        return ZERO, false;
      }
      st, ok := content.st, true;
      if st.phase == Unset {
        st := st.(phase := Idle);
      }
    }

    method Save(st: State, outcome: SaveOutcome) returns (ok: bool)
      modifies this
      ensures content == if outcome.NotSaved? then old(content) else Holds(st)
      ensures ok <==> outcome == Saved
    {
      if outcome != NotSaved {
        content := Holds(st);
      }
      ok := outcome == Saved;
    }
  }

  class Manager {
    const stateFile: StateFile
    var state: State
    var process: Option<nat>
    var expectedStop: bool

    /** The lifecycle fields together with what a new process would find on disk. */
    function View(): Core
      reads this, stateFile
    {
      Core(state, stateFile.Loaded(), process, expectedStop)
    }

    /** Between sections the disk holds exactly the state in memory. */
    ghost predicate Valid()
      reads this, stateFile
    {
      View().disk == View().state
    }

    /** NewManager: load the state, ignoring an error, and unless it is idle resume the same pack. */
    constructor (file: StateFile)
      modifies file
      ensures Valid() && stateFile == file
      ensures View() == Reload(Core(IDLE, old(file.Loaded()), None, false))
    {
      stateFile := file;
      process := None;
      expectedStop := false;
      state := IDLE;
      new;
      var ok;
      state, ok := file.Load();
      if state.phase != Idle && state.active != "" {
        state := state.(phase := Recovering);
        Save();
      }
    }

    /** Save the state and ignore the result; a save that fails is not part of this model. */
    method Save()
      requires !state.phase.Unset?
      modifies stateFile
      ensures View() == Sections.Save(old(View()), state)
    {
      var ok := stateFile.Save(state, Saved);
    }

    /** A login; `longEmpty` says that the active pack has been empty for the configured time. */
    method Ensure(id: PackId, longEmpty: bool) returns (outcome: EnsureOutcome)
      requires Valid()
      modifies this, stateFile
      ensures Valid() && View() == Sections.Ensure(old(View()), id).0
      ensures outcome == Answer(old(View()), id, longEmpty)
    {
      if state.phase == Idle {
        state := Fresh(id);
        Save();
        return Started;
      }
      if state.active == id && state.phase == Ready {
        return AlreadyReady;
      }
      if state.active == id && (state.phase == Loading || state.phase == Recovering) {
        return Waiting;
      }
      if state.phase == Failed && state.active == id && process == None {
        state := state.(phase := Loading);
        Save();
        return Retried;
      }
      if state.phase == Ready && longEmpty {
        return Switching;
      }
      outcome := Refused;
    }

    /** The sections of start that set a phase while the pack is still active. */
    method Enter(id: PackId, phase: Phase) returns (ok: bool)
      requires Valid() && !phase.Unset?
      modifies this, stateFile
      ensures Valid()
      ensures (View(), ok) == Sections.Enter(old(View()), id, phase)
    {
      if state.active != id {
        return false;
      }
      state := state.(phase := phase);
      Save();
      ok := true;
    }

    method RecordHead(exists_: bool, gen: nat, headError: bool)
      requires Valid() && !state.phase.Unset?
      modifies this, stateFile
      ensures Valid()
      ensures View() == Sections.RecordHead(old(View()), exists_, gen, headError)
    {
      if exists_ {
        state := state.(generation := gen);
      }
      if headError {
        state := state.(pending := true);
      }
      Save();
    }

    method Register(id: PackId, pid: nat) returns (ok: bool)
      requires Valid()
      modifies this
      ensures Valid()
      ensures (View(), ok) == Sections.Register(old(View()), id, pid)
    {
      if state.active != id {
        return false;
      }
      process := Some(pid);
      expectedStop := false;
      ok := true;
    }

    method Exited(pid: nat)
      requires Valid()
      modifies this, stateFile
      ensures Valid()
      ensures View() == Sections.Exited(old(View()), pid)
    {
      if process != Some(pid) {
        return;
      }
      process := None;
      if expectedStop {
        expectedStop := false;
        return;
      }
      state := state.(phase := Failed);
      Save();
    }

    method Fail(id: PackId)
      requires Valid()
      modifies this, stateFile
      ensures Valid()
      ensures View() == Sections.Fail(old(View()), id)
    {
      state := state.(phase := Failed, active := id);
      Save();
    }

    method DrainForSwitch(target: PackId) returns (ok: bool)
      requires Valid()
      modifies this, stateFile
      ensures Valid()
      ensures (View(), ok) == Sections.DrainForSwitch(old(View()), target)
    {
      if state.phase != Ready || state.active == target {
        return false;
      }
      state := state.(phase := Draining);
      Save();
      ok := true;
    }

    method DrainWhenIdle() returns (ok: bool)
      requires Valid()
      modifies this, stateFile
      ensures Valid()
      ensures (View(), ok) == Sections.DrainWhenIdle(old(View()))
    {
      if state.phase != Ready {
        return false;
      }
      state := state.(phase := Draining);
      Save();
      ok := true;
    }

    method DrainForShutdown() returns (ok: bool)
      requires Valid()
      modifies this, stateFile
      ensures Valid()
      ensures (View(), ok) == Sections.DrainForShutdown(old(View()))
    {
      if state.phase == Idle || process == None {
        return false;
      }
      state := state.(phase := Draining);
      Save();
      ok := true;
    }

    /** The first section of stopAndBackup. */
    method EnterSaving() returns (id: PackId, proc: Option<nat>)
      requires Valid()
      modifies this, stateFile
      ensures Valid()
      ensures View() == Sections.EnterSaving(old(View()))
      ensures id == old(state).active && proc == old(process)
    {
      id, proc := state.active, process;
      state := state.(phase := Saving);
      Save();
    }

    method ExpectStop(expected: bool)
      requires Valid()
      modifies this
      ensures Valid()
      ensures View() == Sections.ExpectStop(old(View()), expected)
    {
      expectedStop := expected;
    }

    /** The section of stopAndBackup after Commit. */
    method RecordCommit(committed: Option<nat>)
      requires Valid() && !state.phase.Unset?
      modifies this, stateFile
      ensures Valid()
      ensures View() == if committed.Some? then CommitRecorded(old(View()), committed.value)
                        else CommitRefused(old(View()))
    {
      if committed.None? {
        state := state.(pending := true);
        Save();
        return;
      }
      state := state.(generation := committed.value, pending := false);
      Save();
    }

    /** The last section of switchTo (a target) or of the idle stop and Shutdown (none). */
    method Conclude(target: Option<PackId>)
      requires Valid()
      modifies this, stateFile
      ensures Valid()
      ensures View() == Sections.Save(old(View()), if target.Some? then Fresh(target.value) else IDLE)
    {
      state := if target.Some? then Fresh(target.value) else IDLE;
      Save();
    }
  }

  /** A machine crash between any two sections loses nothing that a section saved: the state a
      new manager resumes is the one the last section left. */
  method Restart(m: Manager) returns (n: Manager)
    requires m.Valid()
    modifies m.stateFile
    ensures fresh(n) && n.Valid() && n.stateFile == m.stateFile
    ensures n.View() == Reload(old(m.View()))
    ensures n.state.active == old(m.state.active) && n.state.generation == old(m.state.generation)
            && n.state.pending == old(m.state.pending)
  {
    n := new Manager(m.stateFile);
  }

  /** A state file that cannot be read leaves a manager that never does anything: every login is
      refused, no stop begins, and the next start finds the same. */
  lemma UnreadableStateIsStuck(id: PackId, target: PackId, longEmpty: bool)
    ensures var c := Reload(Core(IDLE, ZERO, None, false));
            && c == Core(ZERO, ZERO, None, false) && Reload(c) == c
            && Sections.Ensure(c, id) == (c, Refused) && Answer(c, id, longEmpty) == Refused
            && !Sections.DrainForSwitch(c, target).1 && !Sections.DrainWhenIdle(c).1 && !Sections.DrainForShutdown(c).1
  {
  }
}
