/** The life of one engine task: which status may follow which, and what the timestamps then say. */
module EngineTask {
  import opened Wrappers

  /** A status is a string, so a stored task may carry one that the table does not know. */
  datatype Status =
    | Draft
    | Approved
    | Pending
    | InProgress
    | Completed
    | Failed
    | NeedsInput
    | Cancelled
    | Unknown(text: string)

  datatype TaskState = TaskState(
    status: Status,
    result: string,
    error: string,
    updatedAt: int,
    approvedAt: Option<int>,
    startedAt: Option<int>,
    completedAt: Option<int>
  )

  /** A call on a task, with the time the clock shows when it is made. */
  datatype Call =
    | Transition(target: Status, now: int)
    | Complete(result: string, now: int)
    | Fail(reason: string, now: int)

  const VALID_TRANSITIONS := map[
    Draft := [Approved, Cancelled],
    Approved := [InProgress, Cancelled],
    Pending := [InProgress, Cancelled],
    InProgress := [Completed, Failed, NeedsInput, Cancelled],
    NeedsInput := [InProgress, Failed, Cancelled],
    Completed := [],
    Failed := [],
    Cancelled := []
  ]

  predicate IsTerminal(status: Status) {
    status.Completed? || status.Failed? || status.Cancelled?
  }

  predicate Allowed(from: Status, target: Status) {
    from in VALID_TRANSITIONS && target in VALID_TRANSITIONS[from]
  }

  function Target(call: Call): Status {
    match call
    case Transition(target, _) => target
    case Complete(_, _) => Completed
    case Fail(_, _) => Failed
  }

  function Moved(t: TaskState, target: Status, now: int): TaskState {
    var moved := t.(status := target, updatedAt := now);
    if target.Approved? then moved.(approvedAt := Some(now))
    else if target.InProgress? then moved.(startedAt := if t.startedAt.None? then Some(now) else t.startedAt)
    else if IsTerminal(target) then moved.(completedAt := Some(now))
    else moved
  }

  /** A refused call changes nothing. */
  function Step(t: TaskState, call: Call): TaskState {
    if !Allowed(t.status, Target(call)) then t
    else
      var moved := Moved(t, Target(call), call.now);
      match call
      case Transition(_, _) => moved
      case Complete(result, _) => moved.(result := result)
      case Fail(reason, _) => moved.(error := reason)
  }

  function Run(t: TaskState, calls: seq<Call>): TaskState {
    if calls == [] then t else Step(Run(t, calls[..|calls| - 1]), calls[|calls| - 1])
  }

  class Task {
    var status: Status
    var result: string
    var error: string
    var updatedAt: int
    var approvedAt: Option<int>
    var startedAt: Option<int>
    var completedAt: Option<int>

    ghost function State(): TaskState
      reads this
    {
      TaskState(status, result, error, updatedAt, approvedAt, startedAt, completedAt)
    }

    constructor (t: TaskState)
      ensures State() == t
    {
      status, result, error, updatedAt := t.status, t.result, t.error, t.updatedAt;
      approvedAt, startedAt, completedAt := t.approvedAt, t.startedAt, t.completedAt;
    }

    method CanTransitionTo(target: Status) returns (ok: bool)
      ensures ok == Allowed(status, target)
    {
      if status !in VALID_TRANSITIONS {
        return false;
      }
      var allowed := VALID_TRANSITIONS[status];
      for i := 0 to |allowed|
        invariant target !in allowed[..i]
      {
        if allowed[i] == target {
          return true;
        }
      }
      assert allowed[..|allowed|] == allowed;
      return false;
    }

    method TransitionTo(target: Status, now: int) returns (ok: bool)
      modifies this
      ensures ok == Allowed(old(status), target)
      ensures State() == Step(old(State()), Transition(target, now))
    {
      ok := CanTransitionTo(target);
      if !ok {
        return;
      }
      status := target;
      updatedAt := now;
      match target
      case Approved =>
        approvedAt := Some(now);
      case InProgress =>
        if startedAt.None? {
          startedAt := Some(now);
        }
      case Completed | Failed | Cancelled =>
        completedAt := Some(now);
      case _ =>
    }

    method Approve(now: int) returns (ok: bool)
      modifies this
      ensures ok == old(status).Draft?
      ensures State() == Step(old(State()), Transition(Approved, now))
    {
      ok := TransitionTo(Approved, now);
    }

    method Start(now: int) returns (ok: bool)
      modifies this
      ensures ok == (old(status).Approved? || old(status).Pending? || old(status).NeedsInput?)
      ensures State() == Step(old(State()), Transition(InProgress, now))
    {
      ok := TransitionTo(InProgress, now);
    }

    method Complete(outcome: string, now: int) returns (ok: bool)
      modifies this
      ensures ok == old(status).InProgress?
      ensures State() == Step(old(State()), Call.Complete(outcome, now))
    {
      ok := TransitionTo(Completed, now);
      if ok {
        result := outcome;
      }
    }

    method Fail(reason: string, now: int) returns (ok: bool)
      modifies this
      ensures ok == (old(status).InProgress? || old(status).NeedsInput?)
      ensures State() == Step(old(State()), Call.Fail(reason, now))
    {
      ok := TransitionTo(Failed, now);
      if ok {
        error := reason;
      }
    }

    method Cancel(now: int) returns (ok: bool)
      modifies this
      ensures ok == !(IsTerminal(old(status)) || old(status).Unknown?)
      ensures State() == Step(old(State()), Transition(Cancelled, now))
    {
      ok := TransitionTo(Cancelled, now);
    }
  }

  // ----- Whole runs

  /** A task as it is created: drafted or queued, with no later timestamp set. */
  predicate IsNew(t: TaskState) {
    && (t.status.Draft? || t.status.Pending?)
    && t.approvedAt.None? && t.startedAt.None? && t.completedAt.None?
  }

  /** The clock never goes back, from the time the task was created on. */
  predicate Monotone(start: int, calls: seq<Call>) {
    && (forall i :: 0 <= i < |calls| ==> start <= calls[i].now)
    && (forall i, j :: 0 <= i < j < |calls| ==> calls[i].now <= calls[j].now)
  }

  predicate NotAfter(a: Option<int>, b: int) {
    a.Some? ==> a.value <= b
  }

  predicate InOrder(a: Option<int>, b: Option<int>) {
    a.Some? && b.Some? ==> a.value <= b.value
  }

  /** Which timestamps a task that has come from `origin` carries, by its status. */
  predicate Stamped(origin: Status, t: TaskState) {
    && !t.status.Unknown?
    && (t.completedAt.Some? <==> IsTerminal(t.status))
    && (t.status.Completed? || t.status.Failed? || t.status.InProgress? || t.status.NeedsInput? ==> t.startedAt.Some?)
    && (t.status.Draft? || t.status.Approved? || t.status.Pending? ==> t.startedAt.None?)
    && (t.status.Draft? ==> t.approvedAt.None?)
    && (origin.Draft? ==> !t.status.Pending? && (t.status.Approved? || t.startedAt.Some? ==> t.approvedAt.Some?))
    && (origin.Pending? ==> !t.status.Draft? && !t.status.Approved? && t.approvedAt.None?)
  }

  /** Approved before started, started before ended, and nothing after the last update. */
  predicate Chronological(t: TaskState) {
    && InOrder(t.approvedAt, t.startedAt) && InOrder(t.approvedAt, t.completedAt) && InOrder(t.startedAt, t.completedAt)
    && NotAfter(t.approvedAt, t.updatedAt) && NotAfter(t.startedAt, t.updatedAt) && NotAfter(t.completedAt, t.updatedAt)
  }

  predicate Coherent(origin: Status, t: TaskState) {
    Stamped(origin, t) && Chronological(t)
  }

  /** What one call may not undo: a terminal task, a start time, an approval. */
  predicate Continues(before: TaskState, after: TaskState) {
    && (IsTerminal(before.status) ==> after == before)
    && (before.startedAt.Some? ==> after.startedAt == before.startedAt)
    && (before.approvedAt.Some? ==> after.approvedAt == before.approvedAt)
    && before.updatedAt <= after.updatedAt
  }

  /** The table read backwards: what a status can have been entered from. */
  lemma AllowedMeans(from: Status, target: Status)
    requires Allowed(from, target)
    ensures !IsTerminal(from) && !from.Unknown? && !target.Draft? && !target.Pending? && !target.Unknown?
    ensures target.Approved? ==> from.Draft?
    ensures target.InProgress? ==> from.Approved? || from.Pending? || from.NeedsInput?
    ensures target.Completed? || target.NeedsInput? ==> from.InProgress?
    ensures target.Failed? ==> from.InProgress? || from.NeedsInput?
  {}

  lemma StepKeepsStamped(origin: Status, t: TaskState, call: Call)
    requires Stamped(origin, t) && (origin.Draft? || origin.Pending?)
    ensures Stamped(origin, Step(t, call))
  {
    var target := Target(call);
    if Allowed(t.status, target) {
      AllowedMeans(t.status, target);
      assert Stamped(origin, Moved(t, target, call.now));
    }
  }

  lemma StepKeepsCoherent(origin: Status, t: TaskState, call: Call)
    requires Coherent(origin, t) && (origin.Draft? || origin.Pending?) && t.updatedAt <= call.now
    ensures Coherent(origin, Step(t, call)) && Continues(t, Step(t, call)) && Step(t, call).updatedAt <= call.now
  {
    StepKeepsStamped(origin, t, call);
  }

  lemma {:induction false} RunIsCoherent(t: TaskState, calls: seq<Call>)
    requires IsNew(t) && Monotone(t.updatedAt, calls)
    ensures Coherent(t.status, Run(t, calls))
    ensures Run(t, calls).updatedAt <= if calls == [] then t.updatedAt else calls[|calls| - 1].now
    decreases |calls|
  {
    if calls != [] {
      var k := |calls| - 1;
      RunIsCoherent(t, calls[..k]);
      assert k > 0 ==> calls[..k][k - 1] == calls[k - 1];
      StepKeepsCoherent(t.status, Run(t, calls[..k]), calls[k]);
    }
  }

  /** Any later point of a run continues any earlier one, so a start time is written once and an ended task stays put. */
  lemma {:induction false} LaterContinuesEarlier(t: TaskState, calls: seq<Call>, k: nat)
    requires IsNew(t) && Monotone(t.updatedAt, calls) && k <= |calls|
    ensures Continues(Run(t, calls[..k]), Run(t, calls))
    decreases |calls|
  {
    if k == |calls| {
      assert calls[..k] == calls;
    } else {
      var last := |calls| - 1;
      LaterContinuesEarlier(t, calls[..last], k);
      assert calls[..last][..k] == calls[..k];
      RunIsCoherent(t, calls[..last]);
      assert last > 0 ==> calls[..last][last - 1] == calls[last - 1];
      StepKeepsCoherent(t.status, Run(t, calls[..last]), calls[last]);
    }
  }

  /** The terminal statuses and the unknown ones refuse every call; all others can still be cancelled. */
  lemma StuckIffTerminal(status: Status)
    ensures (forall target :: !Allowed(status, target)) <==> IsTerminal(status) || status.Unknown?
  {
    if !IsTerminal(status) && !status.Unknown? {
      assert Allowed(status, Cancelled);
    }
  }

  /** Which status may follow which, told by the status that is entered. */
  predicate MayEnter(from: Status, target: Status) {
    match target
    case Approved => from.Draft?
    case InProgress => from.Approved? || from.Pending? || from.NeedsInput?
    case Completed => from.InProgress?
    case Failed => from.InProgress? || from.NeedsInput?
    case NeedsInput => from.InProgress?
    case Cancelled => !IsTerminal(from) && !from.Unknown?
    case _ => false
  }

  lemma AllowedIff(from: Status, target: Status)
    ensures Allowed(from, target) <==> MayEnter(from, target)
  {
    if Allowed(from, target) {
      AllowedMeans(from, target);
    }
  }

  // ----- Which call of a run left its mark

  /** The k-th call of a run, made in a status that lets it through, enters that status. */
  ghost predicate Enters(t: TaskState, calls: seq<Call>, k: int, target: Status) {
    0 <= k < |calls| && Target(calls[k]) == target && MayEnter(Run(t, calls[..k]).status, target)
  }

  lemma EnteredByStep(t: TaskState, call: Call)
    ensures if MayEnter(t.status, Target(call)) then Step(t, call).status == Target(call) && Step(t, call).updatedAt == call.now
            else Step(t, call) == t
    ensures Step(t, call).approvedAt
         == if MayEnter(t.status, Target(call)) && Target(call) == Approved then Some(call.now) else t.approvedAt
    ensures Step(t, call).startedAt
         == if MayEnter(t.status, Target(call)) && Target(call) == InProgress && t.startedAt.None? then Some(call.now)
            else t.startedAt
    ensures Step(t, call).completedAt
         == if MayEnter(t.status, Target(call)) && IsTerminal(Target(call)) then Some(call.now) else t.completedAt
    ensures Step(t, call).result
         == if MayEnter(t.status, Target(call)) && call.Complete? then call.result else t.result
    ensures Step(t, call).error
         == if MayEnter(t.status, Target(call)) && call.Fail? then call.reason else t.error
  {
    AllowedIff(t.status, Target(call));
  }

  /** A start time is that of the first call of the run that enters work; resuming after a question does not touch it. */
  lemma {:induction false} StartedByFirstEntry(t: TaskState, calls: seq<Call>)
    requires t.startedAt.None?
    ensures match Run(t, calls).startedAt
            case None => forall k :: !Enters(t, calls, k, InProgress)
            case Some(at) => exists k :: Enters(t, calls, k, InProgress) && at == calls[k].now
                                         && forall j :: j < k ==> !Enters(t, calls, j, InProgress)
    decreases |calls|
  {
    if calls != [] {
      var last := |calls| - 1;
      var front := calls[..last];
      StartedByFirstEntry(t, front);
      EnteredByStep(Run(t, front), calls[last]);
      forall k | 0 <= k < last
        ensures Enters(t, front, k, InProgress) <==> Enters(t, calls, k, InProgress)
      {
        assert front[..k] == calls[..k] && front[k] == calls[k];
      }
      if Run(t, front).startedAt.None? {
        assert forall k :: Enters(t, calls, k, InProgress) ==> k == last;
        assert Enters(t, calls, last, InProgress) <==> Run(t, calls).startedAt.Some?;
      } else {
        var k :| Enters(t, front, k, InProgress) && Run(t, front).startedAt == Some(front[k].now)
                 && forall j :: j < k ==> !Enters(t, front, j, InProgress);
        assert Enters(t, calls, k, InProgress);
      }
    }
  }

  /** A terminal status, its time, and the result or the reason that is kept with it come from one call of the run. */
  lemma {:induction false} EndedByOneCall(t: TaskState, calls: seq<Call>) returns (k: nat)
    requires !IsTerminal(t.status) && IsTerminal(Run(t, calls).status)
    ensures Enters(t, calls, k, Run(t, calls).status)
    ensures var ended := Run(t, calls);
            && ended.completedAt == Some(calls[k].now) && ended.updatedAt == calls[k].now
            && ended.result == (if calls[k].Complete? then calls[k].result else t.result)
            && ended.error == (if calls[k].Fail? then calls[k].reason else t.error)
    decreases |calls|
  {
    var last := |calls| - 1;
    var front := calls[..last];
    EnteredByStep(Run(t, front), calls[last]);
    if IsTerminal(Run(t, front).status) {
      k := EndedByOneCall(t, front);
      assert front[..k] == calls[..k];
    } else {
      k := last;
      NoResultBeforeEnd(t, front);
    }
  }

  /** As long as a task has not ended it keeps the result and the reason it came with. */
  lemma {:induction false} NoResultBeforeEnd(t: TaskState, calls: seq<Call>)
    requires !IsTerminal(Run(t, calls).status)
    ensures Run(t, calls).result == t.result && Run(t, calls).error == t.error
    ensures Run(t, calls).completedAt == t.completedAt
    decreases |calls|
  {
    if calls != [] {
      var last := |calls| - 1;
      EnteredByStep(Run(t, calls[..last]), calls[last]);
      NoResultBeforeEnd(t, calls[..last]);
    }
  }

  /** An approval is timed by the call that approved the draft. */
  lemma {:induction false} ApprovedByOneCall(t: TaskState, calls: seq<Call>)
    requires t.approvedAt.None?
    ensures Run(t, calls).approvedAt.Some? <==> exists k :: Enters(t, calls, k, Approved)
    ensures Run(t, calls).approvedAt.Some? ==>
      exists k :: Enters(t, calls, k, Approved) && Run(t, calls).approvedAt == Some(calls[k].now)
    decreases |calls|
  {
    if calls != [] {
      var last := |calls| - 1;
      var front := calls[..last];
      ApprovedByOneCall(t, front);
      EnteredByStep(Run(t, front), calls[last]);
      forall k | 0 <= k < last
        ensures Enters(t, front, k, Approved) <==> Enters(t, calls, k, Approved)
      {
        assert front[..k] == calls[..k] && front[k] == calls[k];
      }
      if Enters(t, calls, last, Approved) {
        assert Run(t, calls).approvedAt == Some(calls[last].now);
      } else if k :| Enters(t, front, k, Approved) && Run(t, front).approvedAt == Some(front[k].now) {
        assert Enters(t, calls, k, Approved) && calls[k] == front[k];
      }
    }
  }
}
