/** The container script's TERM handling and shutdown marker as a transition system. The shell
    runs a pending trap before it starts the next command; a foreground command defers it; a
    trapped signal cuts `wait` short. The child runs and exits on its own. */
module TermScript {

  /** How the launcher is called: in the foreground, as the script has it, so that `$!` is empty;
      or as a background child whose pid the functions receive. */
  datatype Mode = Foreground | Background

  // The script's commands, in order.
  const REMOVE_MARKER := 0    // clear an old shutdown marker
  const UNSET_PID := 1        // forget the child's pid
  const UNSET_NEEDED := 2     // forget a remembered signal
  const INSTALL_TRAP := 3     // install the TERM handler
  const PREPARE := 4          // keytool and the authentication commands
  const LAUNCH := 5           // start the launcher
  const FOREGROUND_RUN := 6   // the launcher runs in the foreground
  const DISABLE_ERREXIT := 7  // failures no longer end the script
  const ASSIGN_PID := 8       // remember the pid the function was given
  const TEST_NEEDED := 9      // was a signal remembered?
  const KILL_REMEMBERED := 10 // forward the remembered signal
  const FIRST_WAIT := 11      // wait for the child
  const REMOVE_TRAP := 12     // remove the TERM handler
  const SECOND_WAIT := 13     // wait for the child again
  const ENABLE_ERREXIT := 14  // failures end the script again
  const TOUCH_MARKER := 15    // leave the shutdown marker
  const FINISHED := 16

  datatype Child = NotStarted | Running | Exited

  /** `at` is the next command; `dead` says the shell ended early, by errexit or an untrapped TERM.
      `pid` and `needed` say that the two shell variables are set and non-empty, `pending` that a
      trapped TERM has not been handled yet, `cleaned` that the script has cleared the marker. */
  datatype State = State(
    at: int, dead: bool, trapped: bool, pid: bool, needed: bool, pending: bool,
    child: Child, marker: bool, cleaned: bool)

  datatype Label =
    | Term                          // a TERM arrives while the trap is installed
    | TermUntrapped(kills: bool)    // a TERM arrives otherwise: the shell dies or, as init, ignores it
    | Handle(interruptsWait: bool)  // the shell runs handle_term_signal
    | ChildExits
    | Command                       // the next command of the script completes
    | CommandFails                  // a command fails under errexit

  predicate Active(s: State) {
    !s.dead && s.at < FINISHED
  }

  /** The next command can complete: no trap is pending and, where it waits, the child is gone. */
  predicate CanComplete(mode: Mode, s: State) {
    Active(s)
    && (s.at == FOREGROUND_RUN || !s.pending)
    && (s.at == FOREGROUND_RUN || (mode == Background && (s.at == FIRST_WAIT || s.at == SECOND_WAIT)) ==>
        s.child == Exited)
  }

  /** The command after this one. */
  function Following(mode: Mode, s: State): int {
    if s.at == LAUNCH && mode == Background then DISABLE_ERREXIT
    else if s.at == TEST_NEEDED && !s.needed then FIRST_WAIT
    else s.at + 1
  }

  function Complete(mode: Mode, s: State): State {
    var next := s.(at := Following(mode, s));
    if s.at == REMOVE_MARKER then next.(marker := false, cleaned := true)
    else if s.at == UNSET_PID then next.(pid := false)
    else if s.at == UNSET_NEEDED then next.(needed := false)
    else if s.at == INSTALL_TRAP then next.(trapped := true)
    else if s.at == LAUNCH then next.(child := Running)
    else if s.at == ASSIGN_PID then next.(pid := mode == Background)
    else if s.at == REMOVE_TRAP then next.(trapped := false)
    else if s.at == TOUCH_MARKER then next.(marker := true)
    else next
  }

  /** Commands that can fail while errexit is on. */
  predicate CanFail(s: State) {
    Active(s)
    && ((s.at == PREPARE && !s.pending) || (s.at == FOREGROUND_RUN && s.child == Exited) || s.at == TOUCH_MARKER)
  }

  predicate Step(mode: Mode, s: State, l: Label, s': State) {
    match l
    case Term => Active(s) && s.trapped && s' == s.(pending := true)
    case TermUntrapped(kills) => Active(s) && !s.trapped && s' == s.(dead := kills)
    case Handle(interruptsWait) =>
      Active(s) && s.trapped && s.pending && s.at != FOREGROUND_RUN && (interruptsWait ==> s.at == FIRST_WAIT)
      && s' == s.(pending := false, needed := s.needed || !s.pid, at := if interruptsWait then REMOVE_TRAP else s.at)
    case ChildExits => s.child == Running && s' == s.(child := Exited)
    case Command => CanComplete(mode, s) && s' == Complete(mode, s)
    case CommandFails => CanFail(s) && s' == s.(dead := true)
  }

  /** The step sends TERM to the child: from the handler, or for a remembered signal. */
  predicate Forwards(s: State, l: Label) {
    s.pid && (l.Handle? || (l.Command? && s.at == KILL_REMEMBERED))
  }

  /** The shell variables and the marker may be left over from anywhere. */
  predicate Initial(s: State) {
    s.at == REMOVE_MARKER && !s.dead && !s.trapped && !s.pending && s.child == NotStarted && !s.cleaned
  }

  datatype Run = Run(states: seq<State>, labels: seq<Label>)

  predicate IsRun(mode: Mode, run: Run) {
    |run.states| == |run.labels| + 1
    && Initial(run.states[0])
    && forall i :: 0 <= i < |run.labels| ==> Step(mode, run.states[i], run.labels[i], run.states[i + 1])
  }

  /* ----- The shutdown marker ----- */

  predicate ChildDone(mode: Mode, s: State) {
    REMOVE_MARKER <= s.at <= FINISHED
    && (s.at >= ENABLE_ERREXIT ==> s.child == Exited)
    && (s.cleaned ==> (s.marker <==> s.at == FINISHED))
    && (s.child == NotStarted <==> s.at <= LAUNCH)
    && (mode == Foreground && s.at >= DISABLE_ERREXIT ==> s.child == Exited)
    && (!s.cleaned ==> s.at == REMOVE_MARKER)
    && (s.at == FOREGROUND_RUN ==> mode == Foreground)
  }

  lemma StepKeepsChildDone(mode: Mode, run: Run, i: nat)
    requires IsRun(mode, run) && i < |run.labels| && ChildDone(mode, run.states[i])
    ensures ChildDone(mode, run.states[i + 1])
  {
    assert Step(mode, run.states[i], run.labels[i], run.states[i + 1]);
    if run.labels[i].Command? {
      CommandKeepsChildDone(mode, run.states[i]);
    }
  }

  lemma CommandKeepsChildDone(mode: Mode, s: State)
    requires ChildDone(mode, s) && CanComplete(mode, s)
    ensures ChildDone(mode, Complete(mode, s))
  {
    if s.at < FOREGROUND_RUN {
    } else if s.at < FIRST_WAIT {
    } else {
    }
  }

  lemma {:induction false} ChildDoneInvariant(mode: Mode, run: Run, i: nat)
    requires IsRun(mode, run) && i <= |run.labels|
    ensures ChildDone(mode, run.states[i])
  {
    if i > 0 {
      ChildDoneInvariant(mode, run, i - 1);
      StepKeepsChildDone(mode, run, i - 1);
    }
  }

  /** From clearing the marker onward, in every reachable state of either mode, a marker that is present
      means the launcher has exited, even when a TERM cut the first wait short. */
  lemma MarkerMeansLauncherExited(mode: Mode, run: Run, i: nat)
    requires IsRun(mode, run) && i <= |run.labels|
    requires run.states[i].cleaned && run.states[i].marker
    ensures run.states[i].child == Exited
  {
    ChildDoneInvariant(mode, run, i);
  }

  /** A script that finishes has left the marker, and before that there is none. */
  lemma MarkerExactlyWhenFinished(mode: Mode, run: Run, i: nat)
    requires IsRun(mode, run) && i <= |run.labels|
    ensures run.states[i].at == FINISHED ==> run.states[i].marker
    ensures run.states[i].cleaned && run.states[i].marker ==> run.states[i].at == FINISHED
  {
    ChildDoneInvariant(mode, run, i);
  }

  /* ----- Forwarding TERM ----- */

  predicate Registers(mode: Mode, s: State) {
    (s.trapped <==> PREPARE <= s.at <= REMOVE_TRAP)
    && (s.at >= UNSET_NEEDED ==> (s.pid <==> mode == Background && s.at >= TEST_NEEDED))
    && (s.pending ==> s.trapped)
    && (s.at == KILL_REMEMBERED ==> s.needed)
    && (s.at == INSTALL_TRAP ==> !s.needed)
  }

  lemma StepKeepsRegisters(mode: Mode, run: Run, i: nat)
    requires IsRun(mode, run) && i < |run.labels| && Registers(mode, run.states[i])
    ensures Registers(mode, run.states[i + 1])
  {
    assert Step(mode, run.states[i], run.labels[i], run.states[i + 1]);
    if run.labels[i].Command? {
      CommandKeepsRegisters(mode, run.states[i]);
    }
  }

  lemma CommandKeepsRegisters(mode: Mode, s: State)
    requires Registers(mode, s) && CanComplete(mode, s)
    ensures Registers(mode, Complete(mode, s))
  {
    if s.at < LAUNCH {
    } else if s.at < TEST_NEEDED {
    } else {
    }
  }

  lemma {:induction false} RegistersInvariant(mode: Mode, run: Run, i: nat)
    requires IsRun(mode, run) && i <= |run.labels|
    ensures Registers(mode, run.states[i])
  {
    if i > 0 {
      RegistersInvariant(mode, run, i - 1);
      StepKeepsRegisters(mode, run, i - 1);
    }
  }

  /** A signal is still to be forwarded: it is pending, or remembered and not yet acted upon. */
  predicate Owed(s: State) {
    s.pending || (s.needed && PREPARE <= s.at <= KILL_REMEMBERED)
  }

  lemma OwedUntilForwarded(s: State, l: Label, s': State)
    requires Step(Background, s, l, s') && Registers(Background, s)
    requires Owed(s) && !Forwards(s, l)
    ensures Owed(s')
  {
  }

  lemma {:induction false} ForwardedOrOwed(run: Run, i: nat, j: nat)
    requires IsRun(Background, run) && i < j <= |run.labels| && run.labels[i].Term?
    ensures Owed(run.states[j]) || exists k :: i < k < j && Forwards(run.states[k], run.labels[k])
  {
    if j == i + 1 {
      assert Step(Background, run.states[i], run.labels[i], run.states[j]);
    } else {
      ForwardedOrOwed(run, i, j - 1);
      if Owed(run.states[j - 1]) && !Forwards(run.states[j - 1], run.labels[j - 1]) {
        RegistersInvariant(Background, run, j - 1);
        OwedUntilForwarded(run.states[j - 1], run.labels[j - 1], run.states[j]);
      }
    }
  }

  /** With an empty pid nothing is ever sent. */
  lemma NothingForwardedInForeground(run: Run, k: nat)
    requires IsRun(Foreground, run) && k < |run.labels|
    ensures !Forwards(run.states[k], run.labels[k])
  {
    RegistersInvariant(Foreground, run, k);
    assert Step(Foreground, run.states[k], run.labels[k], run.states[k + 1]);
  }

  /** For every interleaving: a TERM that arrives while the trap is installed has been forwarded
      by the time the script has removed the trap, exactly when the functions were given the pid
      of a background child. As the script calls the launcher, it never is. */
  lemma TermForwardedExactlyToBackgroundChild(mode: Mode, run: Run, i: nat, j: nat)
    requires IsRun(mode, run) && i < j <= |run.labels|
    requires run.labels[i].Term? && run.states[j].at > REMOVE_TRAP
    ensures (exists k :: i < k < j && Forwards(run.states[k], run.labels[k])) <==> mode == Background
  {
    if mode == Background {
      ForwardedOrOwed(run, i, j);
      RegistersInvariant(mode, run, j);
    } else {
      forall k | i < k < j
        ensures !Forwards(run.states[k], run.labels[k])
      {
        NothingForwardedInForeground(run, k);
      }
    }
  }

  /* ----- Finishing ----- */

  /** What is left to do: commands, a trap to run, and the child's exit. */
  function Left(s: State): int {
    4 * (FINISHED - s.at) + (if s.pending then 2 else 0) + (if s.child == Running then 1 else 0)
  }

  lemma CommandAdvances(mode: Mode, s: State)
    requires ChildDone(mode, s) && CanComplete(mode, s)
    ensures var next := Complete(mode, s); next.at > s.at && next.pending == s.pending && !next.dead
  {
    if s.at < LAUNCH {
    } else if s.at < TEST_NEEDED {
    } else {
    }
  }

  lemma Progress(mode: Mode, s: State) returns (l: Label, s': State)
    requires Active(s) && ChildDone(mode, s) && Registers(mode, s)
    ensures Step(mode, s, l, s') && Left(s') < Left(s) && !s'.dead
    ensures l.Handle? || l.ChildExits? || l.Command?
  {
    if s.child == Running {
      l, s' := ChildExits, s.(child := Exited);
    } else if s.pending && s.at != FOREGROUND_RUN {
      l, s' := Handle(false), s.(pending := false, needed := s.needed || !s.pid);
    } else {
      l, s' := Command, Complete(mode, s);
      CommandAdvances(mode, s);
    }
  }

  /** From every reachable state in which the shell lives, whatever signals came before, the script
      can run to its end once the launcher exits: nothing it waits for is missing. */
  lemma {:induction false} CanAlwaysFinish(mode: Mode, run: Run) returns (longer: Run)
    requires IsRun(mode, run) && !run.states[|run.labels|].dead
    ensures IsRun(mode, longer) && run.states <= longer.states && run.labels <= longer.labels
    ensures longer.states[|longer.labels|].at == FINISHED && !longer.states[|longer.labels|].dead
    ensures forall i :: |run.labels| <= i < |longer.labels| ==>
              longer.labels[i].Handle? || longer.labels[i].ChildExits? || longer.labels[i].Command?
    decreases Left(run.states[|run.labels|]) + 1
  {
    var n := |run.labels|;
    ChildDoneInvariant(mode, run, n);
    RegistersInvariant(mode, run, n);
    if Active(run.states[n]) {
      var l, s' := Progress(mode, run.states[n]);
      var next := Run(run.states + [s'], run.labels + [l]);
      assert forall i :: 0 <= i < |next.labels| ==> Step(mode, next.states[i], next.labels[i], next.states[i + 1]);
      longer := CanAlwaysFinish(mode, next);
      assert next.labels[n] == longer.labels[n];
    } else {
      longer := run;
    }
  }

  /** As the script calls the launcher, a TERM that arrives while it runs stays pending, unheard by the
      launcher, for as long as it keeps running. */
  lemma {:induction false} TermWaitsForLauncher(run: Run, i: nat, j: nat)
    requires IsRun(Foreground, run) && i < j <= |run.labels|
    requires run.labels[i].Term? && run.states[i].child == Running && run.states[j].child == Running
    ensures run.states[j].pending && run.states[j].at == FOREGROUND_RUN
  {
    ChildDoneInvariant(Foreground, run, j - 1);
    if i < j - 1 {
      StillRunning(run, i, j - 1);
      TermWaitsForLauncher(run, i, j - 1);
    }
    PendingStays(run, j - 1);
  }

  lemma PendingStays(run: Run, k: nat)
    requires IsRun(Foreground, run) && k < |run.labels| && ChildDone(Foreground, run.states[k])
    requires run.states[k].child == Running && run.states[k + 1].child == Running
    requires run.states[k].pending || run.labels[k].Term?
    ensures run.states[k + 1].pending && run.states[k + 1].at == FOREGROUND_RUN
  {
    assert Step(Foreground, run.states[k], run.labels[k], run.states[k + 1]);
    assert run.states[k].at == FOREGROUND_RUN;
  }

  /** A child that runs has run since it was started. */
  lemma StillRunning(run: Run, i: nat, j: nat)
    requires IsRun(Foreground, run) && i < j < |run.labels|
    requires run.states[i].child == Running && run.states[j + 1].child == Running
    ensures run.states[j].child == Running
  {
    assert Step(Foreground, run.states[j], run.labels[j], run.states[j + 1]);
    ChildDoneInvariant(Foreground, run, j);
    AtAdvances(run, i, j);
    ChildDoneInvariant(Foreground, run, i);
  }

  lemma {:induction false} AtAdvances(run: Run, i: nat, j: nat)
    requires IsRun(Foreground, run) && i <= j <= |run.labels|
    ensures run.states[i].at <= run.states[j].at
  {
    if i < j {
      AtAdvances(run, i, j - 1);
      var s, l := run.states[j - 1], run.labels[j - 1];
      assert Step(Foreground, s, l, run.states[j]);
      ChildDoneInvariant(Foreground, run, j - 1);
      if l.Command? {
        CommandAdvances(Foreground, s);
      }
    }
  }

  /** The trap is not removed under a running child: past the first wait the child has exited, or a
      TERM that was received cut that wait short. */
  lemma {:induction false} TrapStaysWhileChildRuns(run: Run, j: nat)
    requires IsRun(Background, run) && j <= |run.labels|
    requires run.states[j].at > FIRST_WAIT && run.states[j].child != Exited
    ensures exists i, k :: 0 <= i < k < j && run.labels[i].Term? && run.labels[k] == Handle(true)
  {
    if j > 0 {
      var s, l := run.states[j - 1], run.labels[j - 1];
      assert Step(Background, s, l, run.states[j]);
      if s.at > FIRST_WAIT {
        TrapStaysWhileChildRuns(run, j - 1);
      } else {
        LeavingTheFirstWait(s, l, run.states[j]);
        RememberedWasReceived(Background, run, j - 1);
      }
    }
  }

  lemma LeavingTheFirstWait(s: State, l: Label, s': State)
    requires Step(Background, s, l, s') && s.at <= FIRST_WAIT < s'.at && s'.child != Exited
    ensures l == Handle(true) && s.pending
  {
  }

  /* ----- No signal is invented ----- */

  predicate Remembered(s: State) {
    s.pending || (s.needed && PREPARE <= s.at <= REMOVE_TRAP)
  }

  lemma RememberedFromBefore(mode: Mode, s: State, l: Label, s': State)
    requires Registers(mode, s) && Step(mode, s, l, s') && Remembered(s') && !l.Term?
    ensures Remembered(s)
  {
  }

  lemma {:induction false} RememberedWasReceived(mode: Mode, run: Run, j: nat)
    requires IsRun(mode, run) && j <= |run.labels| && Remembered(run.states[j])
    ensures exists i :: 0 <= i < j && run.labels[i].Term?
  {
    if j > 0 && !run.labels[j - 1].Term? {
      RegistersInvariant(mode, run, j - 1);
      RememberedFromBefore(mode, run.states[j - 1], run.labels[j - 1], run.states[j]);
      RememberedWasReceived(mode, run, j - 1);
    }
  }

  /** Every TERM the script sends answers one it received earlier. */
  lemma ForwardedWasReceived(mode: Mode, run: Run, k: nat)
    requires IsRun(mode, run) && k < |run.labels| && Forwards(run.states[k], run.labels[k])
    ensures exists i :: 0 <= i < k && run.labels[i].Term?
  {
    RegistersInvariant(mode, run, k);
    assert Step(mode, run.states[k], run.labels[k], run.states[k + 1]);
    RememberedWasReceived(mode, run, k);
  }
}
