/** The lock-protected sections of the lifecycle manager, as functions on the fields that its
    mutex guards and on the persisted state (internal/runtime/manager.go, state.go). */
module Sections {
  import opened Wrappers

  type PackId = string

  /** `Unset` is the empty phase of a zero record, which only an unreadable state file gives. */
  datatype Phase = Idle | Resizing | Loading | Ready | Draining | Saving | Recovering | Failed | Unset

  /** The persisted record; an idle state has no active pack. */
  datatype State = State(phase: Phase, active: PackId, generation: nat, pending: bool)

  const IDLE := State(Idle, "", 0, false)

  const ZERO := State(Unset, "", 0, false)

  function Fresh(id: PackId): State {
    State(Loading, id, 0, false)
  }

  /** The fields of Manager that matter to the lifecycle, with the state file beside them. */
  datatype Core = Core(state: State, disk: State, process: Option<nat>, expectedStop: bool)

  const INITIAL := Core(IDLE, IDLE, None, false)

  /** Assign the state and save it before the lock is released. */
  function Save(c: Core, st: State): Core {
    c.(state := st, disk := st)
  }

  datatype EnsureOutcome = Started | AlreadyReady | Waiting | Retried | Refused | Switching

  /** A login for a pack. */
  function Ensure(c: Core, id: PackId): (Core, EnsureOutcome) {
    var st := c.state;
    if st.phase.Idle? then (Save(c, Fresh(id)), Started)
    else if st.active == id && st.phase.Ready? then (c, AlreadyReady)
    else if st.active == id && (st.phase.Loading? || st.phase.Recovering?) then (c, Waiting)
    else if st.phase.Failed? && st.active == id && c.process.None? then (Save(c, st.(phase := Loading)), Retried)
    else (c, Refused)
  }

  /** The answer to a login: one that is refused while another pack is ready and has been empty for
      long enough begins a switch instead, whose own entry check follows in DrainForSwitch. */
  function Answer(c: Core, id: PackId, longEmpty: bool): EnsureOutcome {
    if Ensure(c, id).1.Refused? && c.state.phase.Ready? && longEmpty then Switching else Ensure(c, id).1
  }

  /** What NewManager does with the state it loads. */
  function Reload(c: Core): Core {
    var st := c.disk;
    if !st.phase.Idle? && st.active != "" then
      Core(st.(phase := Recovering), st.(phase := Recovering), None, false)
    else Core(st, st, None, false)
  }

  function Fail(c: Core, id: PackId): Core {
    Save(c, c.state.(phase := Failed, active := id))
  }

  /** A phase change that start makes only while its pack is still the active one. */
  function Enter(c: Core, id: PackId, phase: Phase): (Core, bool) {
    if c.state.active != id then (c, false) else (Save(c, c.state.(phase := phase)), true)
  }

  function RecordHead(c: Core, exists_: bool, gen: nat, headError: bool): Core {
    Save(c, c.state.(generation := if exists_ then gen else c.state.generation,
                     pending := c.state.pending || headError))
  }

  function Register(c: Core, id: PackId, pid: nat): (Core, bool) {
    if c.state.active != id then (c, false) else (c.(process := Some(pid), expectedStop := false), true)
  }

  /** The end of waitProcess, once its child is gone. */
  function Exited(c: Core, pid: nat): Core {
    if c.process != Some(pid) then c
    else if c.expectedStop then c.(process := None, expectedStop := false)
    else Save(c.(process := None), c.state.(phase := Failed))
  }

  /** The entry check of switchTo. */
  function DrainForSwitch(c: Core, target: PackId): (Core, bool) {
    if !c.state.phase.Ready? || c.state.active == target then (c, false)
    else (Save(c, c.state.(phase := Draining)), true)
  }

  /** The entry check of the idle stop. */
  function DrainWhenIdle(c: Core): (Core, bool) {
    if !c.state.phase.Ready? then (c, false) else (Save(c, c.state.(phase := Draining)), true)
  }

  /** The entry check of Shutdown. */
  function DrainForShutdown(c: Core): (Core, bool) {
    if c.state.phase.Idle? || c.process.None? then (c, false)
    else (Save(c, c.state.(phase := Draining)), true)
  }

  function EnterSaving(c: Core): Core {
    Save(c, c.state.(phase := Saving))
  }

  function ExpectStop(c: Core, expected: bool): Core {
    c.(expectedStop := expected)
  }

  function CommitRecorded(c: Core, gen: nat): Core {
    Save(c, c.state.(generation := gen, pending := false))
  }

  function CommitRefused(c: Core): Core {
    Save(c, c.state.(pending := true))
  }
}
