/**
 Restoring chat sessions: the mount effect, loading and resetting overlap, and abort controllers decide whose
 response counts. Each asynchronous function is modelled by the steps between its suspension points.
 */
module SessionRestore {
  import opened Wrappers
  import opened ChatHistory

  /** What an unfinished restore waits for: the session to resume, or that session's events. */
  datatype Phase = Resolving | Fetching(sid: string)

  /** The panel's state. Controllers are numbered as they are made. */
  datatype Panel = Panel(
    sessionId: string,
    messages: seq<Message>,
    stored: Option<string>,
    current: Option<nat>,
    aborted: set<nat>,
    waiting: map<nat, Phase>,
    made: nat,
    isRestoring: bool)

  /** The panel as first rendered: the stored session is known, nothing is loaded. */
  function Opened(stored: Option<string>): Panel {
    Panel(if stored.Some? then stored.value else "", [], stored, None, {}, map[], 0, false)
  }

  datatype Step =
    | MountResolving
    | MountStored
    | Resolved(ctrl: nat, resumed: Option<string>)
    | Load(sid: string)
    | Reset
    | Fetched(ctrl: nat)
    | FetchFailed(ctrl: nat)

  predicate Enabled(p: Panel, step: Step) {
    match step
    case Resolved(ctrl, _) => ctrl in p.waiting && p.waiting[ctrl].Resolving?
    case Fetched(ctrl) => ctrl in p.waiting && p.waiting[ctrl].Fetching?
    case FetchFailed(ctrl) => ctrl in p.waiting && p.waiting[ctrl].Fetching?
    case _ => true
  }

  function AbortCurrent(p: Panel): Panel {
    if p.current.Some? then p.(aborted := p.aborted + {p.current.value}) else p
  }

  /** A new controller takes the place of the current one, which is aborted. */
  function TakeOver(p: Panel): Panel {
    AbortCurrent(p).(current := Some(p.made), made := p.made + 1)
  }

  function StartFetch(p: Panel, ctrl: nat, sid: string): Panel {
    p.(sessionId := sid, stored := Some(sid), isRestoring := true, waiting := p.waiting[ctrl := Fetching(sid)])
  }

  /** Resuming no session empties the panel; the identifier may also be the empty one. */
  function Resume(p: Panel, ctrl: nat, resumed: Option<string>): Panel {
    if resumed.None? || resumed.value == "" then p.(sessionId := "", messages := [])
    else StartFetch(p, ctrl, resumed.value)
  }

  function Done(p: Panel, ctrl: nat): Panel {
    p.(waiting := p.waiting - {ctrl})
  }

  /** One step; `server` gives the events that answer a controller's request for a session. */
  function OnStep(server: (nat, string) -> seq<Event>, p: Panel, step: Step): Panel {
    if !Enabled(p, step) then p
    else match step
      case MountResolving => TakeOver(p).(waiting := p.waiting[p.made := Resolving])
      case MountStored => Resume(TakeOver(p), p.made, p.stored)
      case Resolved(ctrl, resumed) => if ctrl in p.aborted then Done(p, ctrl) else Resume(Done(p, ctrl), ctrl, resumed)
      case Load(sid) => StartFetch(TakeOver(p), p.made, sid).(messages := [])
      case Reset => AbortCurrent(p).(sessionId := "", messages := [], stored := None)
      case Fetched(ctrl) =>
        if ctrl in p.aborted then Done(p, ctrl)
        else Done(p, ctrl).(messages := MessagesOf(server(ctrl, p.waiting[ctrl].sid)), isRestoring := false)
      case FetchFailed(ctrl) =>
        if ctrl in p.aborted then Done(p, ctrl)
        else Done(p, ctrl).(sessionId := "", messages := [], stored := None, isRestoring := false)
  }

  function RunSteps(server: (nat, string) -> seq<Event>, p: Panel, steps: seq<Step>): Panel {
    if steps == [] then p
    else OnStep(server, RunSteps(server, p, steps[..|steps| - 1]), steps[|steps| - 1])
  }

  // ----- The hook

  class Hook {
    var sessionId: string
    var messages: seq<Message>
    var stored: Option<string>
    var current: Option<nat>
    var aborted: set<nat>
    var waiting: map<nat, Phase>
    var made: nat
    var isRestoring: bool

    ghost function State(): Panel
      reads this
    {
      Panel(sessionId, messages, stored, current, aborted, waiting, made, isRestoring)
    }

    constructor (stored: Option<string>)
      ensures State() == Opened(stored)
    {
      sessionId := if stored.Some? then stored.value else "";
      messages, this.stored, current, aborted, waiting, made, isRestoring := [], stored, None, {}, map[], 0, false;
    }

    method AbortRestore()
      modifies this
      ensures State() == AbortCurrent(old(State()))
    {
      if current.Some? {
        aborted := aborted + {current.value};
      }
    }

    method NewController() returns (ctrl: nat)
      modifies this
      ensures State() == TakeOver(old(State())) && ctrl == old(made)
    {
      AbortRestore();
      ctrl := made;
      made := made + 1;
      current := Some(ctrl);
    }

    method BeginFetch(ctrl: nat, sid: string)
      modifies this
      ensures State() == StartFetch(old(State()), ctrl, sid)
    {
      sessionId, stored, isRestoring := sid, Some(sid), true;
      waiting := waiting[ctrl := Fetching(sid)];
    }

    method ContinueRestore(ctrl: nat, resumed: Option<string>)
      modifies this
      ensures State() == Resume(old(State()), ctrl, resumed)
    {
      if resumed.None? || resumed.value == "" {
        sessionId, messages := "", [];
        return;
      }
      BeginFetch(ctrl, resumed.value);
    }

    /** The mount effect when the session to resume has to be asked for. */
    method MountWithResolver(ghost server: (nat, string) -> seq<Event>)
      modifies this
      ensures State() == OnStep(server, old(State()), MountResolving)
    {
      var ctrl := NewController();
      waiting := waiting[ctrl := Resolving];
    }

    /** The mount effect when the session to resume is the stored one. */
    method MountWithStorage(ghost server: (nat, string) -> seq<Event>)
      modifies this
      ensures State() == OnStep(server, old(State()), MountStored)
    {
      var sid := stored;
      var ctrl := NewController();
      ContinueRestore(ctrl, sid);
    }

    method OnResolved(ghost server: (nat, string) -> seq<Event>, ctrl: nat, resumed: Option<string>)
      requires Enabled(State(), Resolved(ctrl, resumed))
      modifies this
      ensures State() == OnStep(server, old(State()), Resolved(ctrl, resumed))
    {
      waiting := waiting - {ctrl};
      if ctrl in aborted {
        return;
      }
      ContinueRestore(ctrl, resumed);
    }

    method LoadSession(ghost server: (nat, string) -> seq<Event>, target: string)
      modifies this
      ensures State() == OnStep(server, old(State()), Load(target))
    {
      var ctrl := NewController();
      BeginFetch(ctrl, target);
      messages := [];
    }

    method ResetSession(ghost server: (nat, string) -> seq<Event>)
      modifies this
      ensures State() == OnStep(server, old(State()), Reset)
    {
      sessionId, messages := "", [];
      AbortRestore();
      stored := None;
    }

    method OnFetched(ghost server: (nat, string) -> seq<Event>, ctrl: nat, raw: seq<Event>)
      requires Enabled(State(), Fetched(ctrl)) && raw == server(ctrl, waiting[ctrl].sid)
      modifies this
      ensures State() == OnStep(server, old(State()), Fetched(ctrl))
    {
      waiting := waiting - {ctrl};
      if ctrl in aborted {
        return;
      }
      messages := MapEventsToMessages(raw);
      isRestoring := false;
    }

    method OnFetchFailed(ghost server: (nat, string) -> seq<Event>, ctrl: nat)
      requires Enabled(State(), FetchFailed(ctrl))
      modifies this
      ensures State() == OnStep(server, old(State()), FetchFailed(ctrl))
    {
      waiting := waiting - {ctrl};
      if ctrl in aborted {
        return;
      }
      stored, sessionId, messages := None, "", [];
      isRestoring := false;
    }
  }

  // ----- Latest request wins

  /** Still counts: made and not aborted. */
  predicate Live(p: Panel, ctrl: nat) {
    ctrl < p.made && ctrl !in p.aborted
  }

  /** No restore that counts is waiting. */
  ghost predicate Quiet(p: Panel) {
    forall ctrl: nat :: ctrl in p.waiting ==> !Live(p, ctrl)
  }

  /** A fetch that counts is under way. */
  ghost predicate Loading(p: Panel) {
    exists ctrl: nat :: ctrl in p.waiting && Live(p, ctrl) && p.waiting[ctrl].Fetching?
  }

  /** A mount that counts still asks which session to resume. */
  ghost predicate Asking(p: Panel) {
    exists ctrl: nat :: ctrl in p.waiting && Live(p, ctrl) && p.waiting[ctrl].Resolving?
  }

  ghost predicate ShowsNothing(p: Panel) {
    p.sessionId == "" && p.messages == []
  }

  /** The messages are those the given request brought back for the current session. */
  ghost predicate ShowsAnswerTo(server: (nat, string) -> seq<Event>, p: Panel, ctrl: nat) {
    p.messages == MessagesOf(server(ctrl, p.sessionId))
  }

  /** Controllers are numbered in order, and only the newest can still count. */
  ghost predicate Numbered(p: Panel) {
    && p.made > 0 && p.current == Some(p.made - 1)
    && (forall ctrl: nat :: ctrl in p.waiting || ctrl in p.aborted ==> ctrl < p.made)
    && (forall ctrl: nat :: ctrl < p.made - 1 ==> ctrl in p.aborted)
  }

  /** What the panel shows follows from what became of the newest controller. */
  ghost predicate Answered(server: (nat, string) -> seq<Event>, p: Panel)
    requires Numbered(p)
  {
    var c: nat := p.made - 1;
    if c in p.aborted then ShowsNothing(p)
    else if c in p.waiting then p.waiting[c].Fetching? ==> p.waiting[c].sid == p.sessionId
    else ShowsNothing(p) || ShowsAnswerTo(server, p, c)
  }

  ghost predicate Ordered(server: (nat, string) -> seq<Event>, p: Panel) {
    Numbered(p) && Answered(server, p)
  }

  lemma TakeOverKeepsNumbering(p: Panel)
    requires Numbered(p)
    ensures Numbered(TakeOver(p))
    ensures TakeOver(p).made - 1 !in TakeOver(p).aborted
  {}

  lemma StartsKeepOrder(server: (nat, string) -> seq<Event>, p: Panel, step: Step)
    requires Ordered(server, p)
    requires step.MountResolving? || step.MountStored? || step.Load?
    ensures Ordered(server, OnStep(server, p, step))
  {
    TakeOverKeepsNumbering(p);
  }

  lemma EndsKeepOrder(server: (nat, string) -> seq<Event>, p: Panel, step: Step)
    requires Ordered(server, p) && Enabled(p, step)
    requires step.Resolved? || step.Fetched? || step.FetchFailed?
    ensures Ordered(server, OnStep(server, p, step))
  {
    if !(step.ctrl in p.aborted) {
      assert step.ctrl == p.made - 1;
    }
  }

  lemma StepKeepsOrder(server: (nat, string) -> seq<Event>, p: Panel, step: Step)
    requires Ordered(server, p)
    ensures Ordered(server, OnStep(server, p, step))
  {
    if Enabled(p, step) {
      if step.Resolved? || step.Fetched? || step.FetchFailed? {
        EndsKeepOrder(server, p, step);
      } else if !step.Reset? {
        StartsKeepOrder(server, p, step);
      }
    }
  }

  predicate IsMount(step: Step) {
    step.MountResolving? || step.MountStored?
  }

  function AfterMount(server: (nat, string) -> seq<Event>, stored: Option<string>, mount: Step): Panel {
    OnStep(server, Opened(stored), mount)
  }

  /** The panel after a mount and then the given steps. */
  function After(server: (nat, string) -> seq<Event>, stored: Option<string>, mount: Step, steps: seq<Step>): Panel {
    RunSteps(server, AfterMount(server, stored, mount), steps)
  }

  lemma {:induction false} RunKeepsOrder(server: (nat, string) -> seq<Event>, stored: Option<string>,
                                         mount: Step, steps: seq<Step>)
    requires IsMount(mount)
    ensures Ordered(server, After(server, stored, mount, steps))
  {
    if steps == [] {
      FirstMountOrdered(server, stored, mount);
    } else {
      RunKeepsOrder(server, stored, mount, steps[..|steps| - 1]);
      StepKeepsOrder(server, After(server, stored, mount, steps[..|steps| - 1]), steps[|steps| - 1]);
    }
  }

  lemma FirstMountOrdered(server: (nat, string) -> seq<Event>, stored: Option<string>, mount: Step)
    requires IsMount(mount)
    ensures Ordered(server, AfterMount(server, stored, mount))
  {
    var p := AfterMount(server, stored, mount);
    assert p.made == 1 && p.current == Some(0) && p.aborted == {};
    assert mount == MountResolving ==> p.waiting == map[0 := Resolving];
    assert mount == MountStored ==> p.waiting == map[] || p.waiting == map[0 := Fetching(p.sessionId)];
  }

  lemma OrderedAtRest(server: (nat, string) -> seq<Event>, p: Panel)
    requires Ordered(server, p)
    ensures forall a, b :: Live(p, a) && Live(p, b) ==> a == b
    ensures Quiet(p) ==> ShowsNothing(p) || ShowsAnswerTo(server, p, p.made - 1)
  {
    var c: nat := p.made - 1;
    assert Quiet(p) && c in p.waiting ==> !Live(p, c);
  }

  /**
   Over every interleaving: at most one controller counts, and whenever no restore that counts is waiting, the
   panel is empty or shows what the newest request brought back for the current session.
   */
  lemma LatestRequestWins(server: (nat, string) -> seq<Event>, stored: Option<string>, mount: Step, steps: seq<Step>)
    requires IsMount(mount)
    ensures var p := After(server, stored, mount, steps);
            && (forall a, b :: Live(p, a) && Live(p, b) ==> a == b)
            && (Quiet(p) ==> p.made > 0 && (ShowsNothing(p) || ShowsAnswerTo(server, p, p.made - 1)))
  {
    RunKeepsOrder(server, stored, mount, steps);
    OrderedAtRest(server, After(server, stored, mount, steps));
  }

  // ----- While a mount asks

  lemma OrderedAsking(server: (nat, string) -> seq<Event>, p: Panel)
    requires Ordered(server, p)
    ensures Asking(p) <==> var c: nat := p.made - 1; c in p.waiting && Live(p, c) && p.waiting[c].Resolving?
    ensures Loading(p) <==> var c: nat := p.made - 1; c in p.waiting && Live(p, c) && p.waiting[c].Fetching?
  {
    var c: nat := p.made - 1;
    assert forall ctrl: nat :: Live(p, ctrl) ==> ctrl == c;
  }

  lemma AskingContinues(server: (nat, string) -> seq<Event>, p: Panel, step: Step)
    requires Ordered(server, p) && Asking(OnStep(server, p, step))
    ensures step == MountResolving
         || (Asking(p) && OnStep(server, p, step).sessionId == p.sessionId && OnStep(server, p, step).messages == p.messages)
  {
    OrderedAsking(server, p);
    StepKeepsOrder(server, p, step);
    OrderedAsking(server, OnStep(server, p, step));
  }

  /** As long as a mount asks, the panel still shows what it showed when that mount began, session and messages. */
  lemma {:induction false} AskingShowsWhatWasShown(server: (nat, string) -> seq<Event>, stored: Option<string>, mount: Step,
                                                   steps: seq<Step>) returns (k: nat)
    requires IsMount(mount) && Asking(After(server, stored, mount, steps))
    ensures k <= |steps| && if k == 0 then mount == MountResolving else steps[k - 1] == MountResolving
    ensures var p := After(server, stored, mount, steps);
            var before := if k == 0 then Opened(stored) else After(server, stored, mount, steps[..k - 1]);
            p.sessionId == before.sessionId && p.messages == before.messages
  {
    if steps == [] {
      k := 0;
      FirstMountAsks(server, stored, mount);
    } else {
      var front, last := steps[..|steps| - 1], steps[|steps| - 1];
      RunKeepsOrder(server, stored, mount, front);
      AskingContinues(server, After(server, stored, mount, front), last);
      if last == MountResolving {
        k := |steps|;
      } else {
        k := AskingShowsWhatWasShown(server, stored, mount, front);
        assert k > 0 ==> front[..k - 1] == steps[..k - 1];
      }
    }
  }

  lemma FirstMountAsks(server: (nat, string) -> seq<Event>, stored: Option<string>, mount: Step)
    requires IsMount(mount) && Asking(AfterMount(server, stored, mount))
    ensures mount == MountResolving
  {}

  // ----- The restoring flag

  /** A step that starts a fetch. */
  predicate StartsFetch(p: Panel, step: Step) {
    match step
    case Load(_) => true
    case MountStored => p.stored.Some? && p.stored.value != ""
    case Resolved(ctrl, resumed) => Enabled(p, step) && ctrl !in p.aborted && resumed.Some? && resumed.value != ""
    case _ => false
  }

  /** A step that aborts what is under way. */
  predicate Aborts(step: Step) {
    step.Reset? || IsMount(step) || step.Load?
  }

  /** A fetch was aborted while the flag was set, and none has started since. */
  function LeftHanging(server: (nat, string) -> seq<Event>, start: Panel, steps: seq<Step>): bool {
    if steps == [] then false
    else
      var front, last := steps[..|steps| - 1], steps[|steps| - 1];
      var p := RunSteps(server, start, front);
      !StartsFetch(p, last) && ((Aborts(last) && p.isRestoring) || LeftHanging(server, start, front))
  }

  /** The flag is set while a fetch that counts is under way, or when one was left hanging, never for both reasons. */
  ghost predicate FlagMeans(p: Panel, hanging: bool) {
    (p.isRestoring <==> Loading(p) || hanging) && !(Loading(p) && hanging)
  }

  lemma StartsSetFlag(server: (nat, string) -> seq<Event>, p: Panel, step: Step)
    requires Ordered(server, p) && StartsFetch(p, step)
    ensures FlagMeans(OnStep(server, p, step), false)
  {
    var next := OnStep(server, p, step);
    StepKeepsOrder(server, p, step);
    OrderedAsking(server, next);
  }

  lemma AbortsKeepFlag(server: (nat, string) -> seq<Event>, p: Panel, step: Step)
    requires Ordered(server, p) && Aborts(step) && !StartsFetch(p, step)
    ensures var next := OnStep(server, p, step); !Loading(next) && next.isRestoring == p.isRestoring
  {
    StepKeepsOrder(server, p, step);
    OrderedAsking(server, OnStep(server, p, step));
  }

  lemma EndsKeepFlag(server: (nat, string) -> seq<Event>, p: Panel, step: Step, hanging: bool)
    requires Ordered(server, p) && FlagMeans(p, hanging) && !Aborts(step) && !StartsFetch(p, step)
    ensures FlagMeans(OnStep(server, p, step), hanging)
  {
    OrderedAsking(server, p);
    StepKeepsOrder(server, p, step);
    OrderedAsking(server, OnStep(server, p, step));
  }

  lemma {:induction false} FlagAfter(server: (nat, string) -> seq<Event>, stored: Option<string>, mount: Step, steps: seq<Step>)
    requires IsMount(mount)
    ensures FlagMeans(After(server, stored, mount, steps), LeftHanging(server, AfterMount(server, stored, mount), steps))
  {
    if steps == [] {
      FirstMountFlag(server, stored, mount);
    } else {
      var front, last := steps[..|steps| - 1], steps[|steps| - 1];
      var p := After(server, stored, mount, front);
      RunKeepsOrder(server, stored, mount, front);
      FlagAfter(server, stored, mount, front);
      if StartsFetch(p, last) {
        StartsSetFlag(server, p, last);
      } else if Aborts(last) {
        AbortsKeepFlag(server, p, last);
      } else {
        EndsKeepFlag(server, p, last, LeftHanging(server, AfterMount(server, stored, mount), front));
      }
    }
  }

  lemma FirstMountFlag(server: (nat, string) -> seq<Event>, stored: Option<string>, mount: Step)
    requires IsMount(mount)
    ensures FlagMeans(AfterMount(server, stored, mount), false)
  {
    FirstMountOrdered(server, stored, mount);
    OrderedAsking(server, AfterMount(server, stored, mount));
  }

  /**
   With no fetch that counts under way, the panel still says it is restoring exactly when some step aborted a fetch
   while the flag was set and no fetch has started since.
   */
  lemma RestoringAtRestIff(server: (nat, string) -> seq<Event>, stored: Option<string>, mount: Step, steps: seq<Step>)
    requires IsMount(mount) && !Loading(After(server, stored, mount, steps))
    ensures After(server, stored, mount, steps).isRestoring
       <==> LeftHanging(server, AfterMount(server, stored, mount), steps)
  {
    FlagAfter(server, stored, mount, steps);
  }

  /** From wherever the panel is: a reset brings it to rest and empties it, and leaves the flag as it was. */
  lemma ResetKeepsFlag(server: (nat, string) -> seq<Event>, stored: Option<string>, mount: Step, steps: seq<Step>)
    requires IsMount(mount)
    ensures var before, after := After(server, stored, mount, steps), After(server, stored, mount, steps + [Reset]);
            Quiet(after) && ShowsNothing(after) && after.isRestoring == before.isRestoring
  {
    RunKeepsOrder(server, stored, mount, steps);
    assert (steps + [Reset])[..|steps|] == steps;
  }

  /** So does a mount that finds no stored session. */
  lemma EmptyMountKeepsFlag(server: (nat, string) -> seq<Event>, stored: Option<string>, mount: Step, steps: seq<Step>)
    requires IsMount(mount)
    requires var before := After(server, stored, mount, steps); before.stored.None? || before.stored.value == ""
    ensures var before, after := After(server, stored, mount, steps), After(server, stored, mount, steps + [MountStored]);
            Quiet(after) && ShowsNothing(after) && after.isRestoring == before.isRestoring
  {
    RunKeepsOrder(server, stored, mount, steps);
    assert (steps + [MountStored])[..|steps|] == steps;
  }

  /** Resetting while a session loads leaves the flag set with nothing to clear it. */
  lemma ResetWhileLoadingLeavesFlag(server: (nat, string) -> seq<Event>, sid: string)
    ensures var p := After(server, None, MountStored, [Load(sid)] + [Reset]);
            Quiet(p) && ShowsNothing(p) && p.isRestoring
  {
    ResetKeepsFlag(server, None, MountStored, [Load(sid)]);
    assert [Load(sid)][..0] == [];
  }
}
