/** The interrupt handshake (`irq2gss::transport`): one mailbox up, one down, and a peer that runs at any time.
    The peer publishes only into an empty up mailbox, never writes the down mailbox, and is the only one to empty
    it while the thread waits. */
module IrqHandshake {
  import opened Options

  /** Where the thread stands: in front of each access to the mailboxes, and of the transmission. */
  datatype Pc = GetUp | GetDn | DropDn | DelUp | PutDn | WaitDn | Transmit

  /** The mailboxes, the locals of the thread, and what happened so far. */
  datatype State = State(
    up: Option<bv32>, dn: Option<bv32>,
    pc: Pc, tpv_up: Option<bv32>, data: bv32,
    published: seq<bv32>, acked: seq<bv32>, sent: seq<bv32>, errors: nat)

  /** Messages of an earlier run may be left in the mailboxes: the constructor deletes the keys it is told of, and
      the enumeration may miss some. */
  predicate Init(s: State) {
    && s.pc == GetUp && s.tpv_up == None
    && s.published == (if s.up.Some? then [s.up.value] else [])
    && s.acked == [] && s.sent == [] && s.errors == 0
  }

  datatype Step = Thread | Publish(value: bv32) | Take

  predicate Enabled(s: State, step: Step) {
    match step
    case Thread => true
    case Publish(_) => s.up.None?
    case Take => s.dn.Some?
  }

  function ThreadStep(s: State): State {
    match s.pc
    case GetUp => s.(tpv_up := s.up, pc := GetDn)
    case GetDn =>
      if s.tpv_up.None? then s.(pc := GetUp)
      else s.(pc := if s.dn.Some? then DropDn else DelUp, data := s.tpv_up.value & 1)
    case DropDn => s.(errors := s.errors + 1, dn := None, pc := DelUp)
    case DelUp => s.(up := None, pc := PutDn)
    case PutDn => s.(dn := s.tpv_up, pc := WaitDn)
    case WaitDn => if s.dn.None? then s.(pc := Transmit) else s
    case Transmit => s.(sent := s.sent + [s.data], pc := GetUp)
  }

  /** What the peer takes while the thread waits is its acknowledgement. */
  function Next(s: State, step: Step): State
    requires Enabled(s, step)
  {
    match step
    case Thread => ThreadStep(s)
    case Publish(v) => s.(up := Some(v), published := s.published + [v])
    case Take => s.(dn := None, acked := if s.pc == WaitDn then s.acked + [s.dn.value] else s.acked)
  }

  ghost predicate Run(states: seq<State>, steps: seq<Step>) {
    && |states| == |steps| + 1 && Init(states[0])
    && forall i | 0 <= i < |steps| :: Enabled(states[i], steps[i]) && states[i + 1] == Next(states[i], steps[i])
  }

  // ---------------------------------------------------------------- the invariant

  /** The thread has taken a message up and not yet transmitted it. */
  predicate Holds(s: State) { s.pc == PutDn || s.pc == WaitDn || s.pc == Transmit }

  /** How many messages left the up mailbox. */
  function Taken(s: State): nat { |s.sent| + if Holds(s) then 1 else 0 }

  predicate Busy(s: State) {
    s.pc == DropDn || s.pc == DelUp || Holds(s)
  }

  /** What left the up mailbox, and what is in it, is what was published. */
  predicate Mail(s: State) {
    && |s.published| == Taken(s) + (if s.up.Some? then 1 else 0)
    && (s.up.Some? ==> s.published[Taken(s)] == s.up.value)
  }

  /** The message being handled. */
  predicate Handled(s: State) {
    && (s.pc == GetDn && s.tpv_up.Some? ==> s.up == s.tpv_up)
    && (s.pc == DropDn || s.pc == DelUp ==> s.up.Some? && s.up == s.tpv_up)
    && (Holds(s) ==> |s.published| > |s.sent| && s.tpv_up == Some(s.published[|s.sent|]))
    && (Busy(s) ==> s.tpv_up.Some? && s.data == s.tpv_up.value & 1)
  }

  /** What was transmitted is what left the up mailbox, reduced to its lowest bit. */
  predicate SentOk(s: State) {
    |s.sent| <= |s.published| && forall i | 0 <= i < |s.sent| :: s.sent[i] == s.published[i] & 1
  }

  predicate Acks(s: State) {
    && (s.pc == WaitDn && s.dn.Some? ==> s.dn == s.tpv_up)
    && s.acked <= s.published
    && |s.acked| == |s.sent| + (if (s.pc == WaitDn && s.dn.None?) || s.pc == Transmit then 1 else 0)
  }

  /** A message is down outside the wait only before the first transmission, and is reported once. */
  predicate Complaints(s: State) {
    && (s.dn.Some? && s.pc != WaitDn ==> s.sent == [] && s.errors == 0 && s.pc in {GetUp, GetDn, DropDn})
    && s.errors <= 1
    && (s.pc == DropDn ==> s.errors == 0 && s.sent == [])
    && (s.errors == 0 || s.dn.None? || s.pc == WaitDn)
  }

  predicate Inv(s: State) { Mail(s) && Handled(s) && SentOk(s) && Acks(s) && Complaints(s) }

  lemma InitInv(s: State)
    requires Init(s)
    ensures Inv(s)
  {
  }

  lemma SentKeeps(s: State)
    requires Handled(s) && SentOk(s)
    ensures SentOk(ThreadStep(s))
  {
  }

  lemma ThreadKeeps(s: State)
    requires Inv(s)
    ensures Inv(ThreadStep(s))
  {
    SentKeeps(s);
    AcksKeep(s);
    MailKeeps(s);
    HandledKeeps(s);
  }

  lemma HandledKeeps(s: State)
    requires Mail(s) && Handled(s)
    ensures Handled(ThreadStep(s))
  {
  }

  lemma MailKeeps(s: State)
    requires Mail(s) && Handled(s)
    ensures Mail(ThreadStep(s))
  {
  }

  lemma AcksKeep(s: State)
    requires Handled(s) && Acks(s) && Complaints(s)
    ensures Acks(ThreadStep(s)) && Complaints(ThreadStep(s))
  {
  }

  lemma TakeKeeps(s: State)
    requires Inv(s) && s.dn.Some?
    ensures Inv(Next(s, Take))
  {
    assert s.pc == WaitDn ==> s.dn == Some(s.published[|s.acked|]);
  }

  lemma StepKeeps(s: State, step: Step)
    requires Inv(s) && Enabled(s, step)
    ensures Inv(Next(s, step))
  {
    match step
    case Thread => ThreadKeeps(s);
    case Publish(v) => assert forall i | 0 <= i < |s.published| :: Next(s, step).published[i] == s.published[i];
    case Take => TakeKeeps(s);
  }

  lemma {:induction false} RunInv(states: seq<State>, steps: seq<Step>, i: nat)
    requires Run(states, steps) && i < |states|
    ensures Inv(states[i])
  {
    if i == 0 {
      InitInv(states[0]);
    } else {
      RunInv(states, steps, i - 1);
      StepKeeps(states[i - 1], steps[i - 1]);
    }
  }

  // ---------------------------------------------------------------- the theorems

  function LowBits(values: seq<bv32>): (r: seq<bv32>)
    ensures |r| == |values| && forall i | 0 <= i < |r| :: r[i] == values[i] & 1
  {
    if values == [] then [] else LowBits(values[..|values| - 1]) + [values[|values| - 1] & 1]
  }

  /** Every interrupt is transmitted once and in order: at any time the transmitted values are the low bits of the
      first published ones, and at most the last two published ones are still to come. */
  lemma ExactlyOnceInOrder(states: seq<State>, steps: seq<Step>, i: nat)
    requires Run(states, steps) && i < |states|
    ensures var s := states[i];
      && |s.sent| <= |s.published| <= |s.sent| + 2
      && s.sent == LowBits(s.published[..|s.sent|])
  {
    RunInv(states, steps, i);
  }

  /** Nothing is transmitted before the peer has taken its acknowledgement, and the peer takes just the values it
      published, in order. */
  lemma AcknowledgedBeforeSent(states: seq<State>, steps: seq<Step>, i: nat)
    requires Run(states, steps) && i < |states|
    ensures var s := states[i];
      && |s.sent| <= |s.acked| <= |s.sent| + 1
      && s.acked <= s.published
  {
    RunInv(states, steps, i);
  }

  /** Messages already transmitted are never taken back or changed. */
  lemma {:induction false} SentGrows(states: seq<State>, steps: seq<Step>, i: nat, j: nat)
    requires Run(states, steps) && i <= j < |states|
    ensures states[i].sent <= states[j].sent && states[i].published <= states[j].published
    ensures states[i].errors <= states[j].errors
  {
    if i < j { SentGrows(states, steps, i, j - 1); }
  }

  /** The complaint about a message in the down mailbox comes at most once, never after a first transmission, and
      not at all if the mailbox was empty at the start. */
  lemma {:induction false} ComplaintOnlyAtStart(states: seq<State>, steps: seq<Step>, i: nat)
    requires Run(states, steps) && i < |states|
    ensures states[i].errors <= 1
    ensures states[i].pc == DropDn ==> states[i].sent == []
    ensures states[0].dn.None? ==> states[i].errors == 0 && states[i].pc != DropDn
    ensures states[0].dn.None? && states[i].dn.Some? ==> states[i].pc == WaitDn
  {
    RunInv(states, steps, i);
    if i > 0 {
      ComplaintOnlyAtStart(states, steps, i - 1);
      RunInv(states, steps, i - 1);
    }
  }

  /** How many steps of the thread are left until it transmits the message that is up, or the one it holds. */
  function Distance(pc: Pc): nat {
    match pc
    case GetUp => 7 case GetDn => 6 case DropDn => 5 case DelUp => 4 case PutDn => 3 case WaitDn => 2 case Transmit => 1
  }

  /** A step of the thread brings it nearer to a transmission, or transmits, unless there was nothing up or the peer
      has yet to take the message down. */
  lemma ThreadAdvances(s: State)
    ensures var t := ThreadStep(s);
      || Distance(t.pc) < Distance(s.pc) || |t.sent| == |s.sent| + 1
      || (s.pc == GetDn && s.tpv_up.None?) || (s.pc == WaitDn && s.dn.Some? && t == s)
  {
  }

  function ThreadSteps(s: State, n: nat): State
    decreases n
  {
    if n == 0 then s else ThreadSteps(ThreadStep(s), n - 1)
  }

  /** A round: with a message up, a few steps of the thread put it down; once the peer has taken it, two more
      transmit its lowest bit. */
  lemma RoundDelivers(s: State)
    requires Inv(s) && s.pc == GetUp && s.up.Some?
    ensures var w := ThreadSteps(s, if s.dn.Some? then 5 else 4);
      && w.pc == WaitDn && w.dn == s.up && w.up == None && ThreadStep(w) == w
      && var r := ThreadSteps(Next(w, Take), 2);
      r.pc == GetUp && r.sent == s.sent + [s.up.value & 1] && r.acked == s.acked + [s.up.value]
  {
    var a := ThreadStep(s);
    var b := ThreadStep(a);
    var c := if s.dn.Some? then ThreadStep(b) else b;
    var d := ThreadStep(c);
    var w := ThreadStep(d);
    assert ThreadSteps(s, 2) == b && ThreadSteps(c, 2) == w;
    assert ThreadSteps(s, if s.dn.Some? then 5 else 4) == w;
    var t := Next(w, Take);
    assert ThreadSteps(t, 2) == ThreadStep(ThreadStep(t));
  }

  /** A run of the thread alone, from a state with a message in both mailboxes. */
  lemma ComplaintComes(s: State)
    requires Init(s) && s.up.Some? && s.dn.Some?
    ensures exists states: seq<State>, steps: seq<Step> ::
      Run(states, steps) && states[0] == s && states[|steps|].errors == 1
  {
    var s1, s2 := ThreadStep(s), ThreadStep(ThreadStep(s));
    var states, steps := [s, s1, s2, ThreadStep(s2)], [Thread, Thread, Thread];
    assert Run(states, steps) && states[|steps|].errors == 1;
  }

  /** A run in which the peer publishes first. */
  lemma ComplaintComesLater(s: State)
    requires Init(s) && s.up.None? && s.dn.Some?
    ensures exists states: seq<State>, steps: seq<Step> ::
      Run(states, steps) && states[0] == s && states[|steps|].errors == 1
  {
    var s0 := Next(s, Publish(0));
    var s1, s2 := ThreadStep(s0), ThreadStep(ThreadStep(s0));
    var states, steps := [s, s0, s1, s2, ThreadStep(s2)], [Publish(0), Thread, Thread, Thread];
    assert Run(states, steps) && states[|steps|].errors == 1;
  }

  /** From an initial state the complaint can come if and only if the down mailbox is not empty there. */
  lemma ComplaintIffMessageLeft(s: State)
    requires Init(s)
    ensures s.dn.Some? <==>
      exists states: seq<State>, steps: seq<Step> ::
        Run(states, steps) && states[0] == s && states[|steps|].errors == 1
  {
    if s.dn.Some? {
      if s.up.Some? { ComplaintComes(s); } else { ComplaintComesLater(s); }
    } else {
      forall states: seq<State>, steps: seq<Step> | Run(states, steps) && states[0] == s
        ensures states[|steps|].errors == 0
      {
        ComplaintOnlyAtStart(states, steps, |steps|);
      }
    }
  }
}
