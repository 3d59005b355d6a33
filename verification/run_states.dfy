/** The run state machine table. */
module RunStates {

  datatype Status = Pending | Running | Paused | Completed | Failed | Cancelled | Superseded

  const VALID_TRANSITIONS: map<Status, set<Status>> :=
    map[
      Pending := {Running, Cancelled},
      Running := {Paused, Completed, Failed, Cancelled},
      Paused := {Running, Cancelled},
      Completed := {},
      Failed := {Running, Superseded},
      Cancelled := {},
      Superseded := {}
    ]

  predicate CanTransition(current: Status, target: Status) {
    current in VALID_TRANSITIONS && target in VALID_TRANSITIONS[current]
  }

  predicate Terminal(status: Status) {
    status in {Completed, Cancelled, Superseded}
  }

  /** The terminal states are exactly those no transition leaves. */
  lemma TerminalHasNoExit(status: Status)
    ensures Terminal(status) <==> forall target :: !CanTransition(status, target)
  {
    if !Terminal(status) {
      assert CanTransition(status, if status == Running then Paused else Running);
    }
  }
}
