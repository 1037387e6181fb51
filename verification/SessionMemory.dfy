/** What storage remembers of a chat panel's session, and what each answer shows, from every state the panel can reach. */
module SessionMemory {
  import opened Wrappers
  import opened ChatHistory
  import opened SessionRestore

  lemma OneMore(server: (nat, string) -> seq<Event>, stored: Option<string>, mount: Step, steps: seq<Step>, step: Step)
    ensures After(server, stored, mount, steps + [step]) == OnStep(server, After(server, stored, mount, steps), step)
  {
    assert (steps + [step])[..|steps|] == steps;
  }

  /** The newest controller fetches this session, and the panel is on it. */
  ghost predicate Fetches(p: Panel, sid: string) {
    && p.made > 0 && p.made - 1 in p.waiting && Live(p, p.made - 1)
    && p.waiting[p.made - 1] == Fetching(sid)
    && p.sessionId == sid && p.stored == Some(sid) && p.isRestoring
  }

  ghost predicate EmptyAtRest(p: Panel) {
    ShowsNothing(p) && Quiet(p)
  }

  /** A panel opens empty on the stored session, and asking which one to resume leaves it there. */
  lemma OpensOnStored(server: (nat, string) -> seq<Event>, stored: Option<string>)
    ensures var p := After(server, stored, MountResolving, []);
            && p.sessionId == (if stored.Some? then stored.value else "") && p.messages == [] && p.stored == stored
            && !p.isRestoring && Asking(p)
  {
    assert Live(After(server, stored, MountResolving, []), 0);
  }

  // ----- A mount resumes what is stored

  /** A mount resumes the stored session; with none stored, or the empty one, it leaves the panel empty and at rest. */
  lemma MountResumesStored(server: (nat, string) -> seq<Event>, stored: Option<string>, mount: Step, steps: seq<Step>)
    requires IsMount(mount)
    ensures var before := After(server, stored, mount, steps);
            var after := After(server, stored, mount, steps + [MountStored]);
            if before.stored.Some? && before.stored.value != "" then Fetches(after, before.stored.value)
            else EmptyAtRest(after) && after.stored == before.stored
  {
    OneMore(server, stored, mount, steps, MountStored);
    RunKeepsOrder(server, stored, mount, steps);
  }

  /** After a reset nothing is stored, and the next mount resumes nothing. */
  lemma ResetForgets(server: (nat, string) -> seq<Event>, stored: Option<string>, mount: Step, steps: seq<Step>)
    requires IsMount(mount)
    ensures After(server, stored, mount, steps + [Reset]).stored == None
    ensures EmptyAtRest(After(server, stored, mount, steps + [Reset] + [MountStored]))
  {
    OneMore(server, stored, mount, steps, Reset);
    MountResumesStored(server, stored, mount, steps + [Reset]);
  }

  /** A fetch that counts and fails empties the panel, and the next mount resumes nothing. */
  lemma FailureForgets(server: (nat, string) -> seq<Event>, stored: Option<string>, mount: Step, steps: seq<Step>, ctrl: nat)
    requires IsMount(mount)
    requires var p := After(server, stored, mount, steps); Enabled(p, FetchFailed(ctrl)) && Live(p, ctrl)
    ensures var after := After(server, stored, mount, steps + [FetchFailed(ctrl)]);
            EmptyAtRest(after) && after.stored == None && !after.isRestoring
    ensures EmptyAtRest(After(server, stored, mount, steps + [FetchFailed(ctrl)] + [MountStored]))
  {
    OneMore(server, stored, mount, steps, FetchFailed(ctrl));
    RunKeepsOrder(server, stored, mount, steps);
    MountResumesStored(server, stored, mount, steps + [FetchFailed(ctrl)]);
  }

  /** Loading a session empties the panel and fetches it; a mount that follows fetches it again. */
  lemma LoadIsRemembered(server: (nat, string) -> seq<Event>, stored: Option<string>, mount: Step, steps: seq<Step>, sid: string)
    requires IsMount(mount)
    ensures var after := After(server, stored, mount, steps + [Load(sid)]); Fetches(after, sid) && after.messages == []
    ensures sid != "" ==> Fetches(After(server, stored, mount, steps + [Load(sid)] + [MountStored]), sid)
  {
    OneMore(server, stored, mount, steps, Load(sid));
    RunKeepsOrder(server, stored, mount, steps);
    MountResumesStored(server, stored, mount, steps + [Load(sid)]);
  }

  // ----- What is stored after any run

  /** The session a step begins to fetch. */
  function Begun(p: Panel, step: Step): string
    requires StartsFetch(p, step)
  {
    match step
    case Load(sid) => sid
    case MountStored => p.stored.value
    case Resolved(_, resumed) => resumed.value
  }

  predicate Forgets(p: Panel, step: Step) {
    step.Reset? || (step.FetchFailed? && Enabled(p, step) && step.ctrl !in p.aborted)
  }

  /** What these steps do leaves what is stored as it is. */
  ghost predicate Unremarkable(server: (nat, string) -> seq<Event>, stored: Option<string>, mount: Step, steps: seq<Step>, j: int)
    requires 0 <= j < |steps|
  {
    var p := After(server, stored, mount, steps[..j]); !StartsFetch(p, steps[j]) && !Forgets(p, steps[j])
  }

  lemma UnremarkableInFront(server: (nat, string) -> seq<Event>, stored: Option<string>, mount: Step, steps: seq<Step>,
                            front: seq<Step>, k: int)
    requires steps != [] && front == steps[..|steps| - 1] && -1 <= k < |front|
    requires forall j :: k < j < |steps| ==> Unremarkable(server, stored, mount, steps, j)
    ensures forall j :: k < j < |front| ==> Unremarkable(server, stored, mount, front, j)
    ensures After(server, stored, mount, steps).stored == After(server, stored, mount, front).stored
  {
    forall j | k < j < |front|
      ensures Unremarkable(server, stored, mount, front, j)
    {
      assert Unremarkable(server, stored, mount, steps, j);
      assert front[..j] == steps[..j];
    }
    assert Unremarkable(server, stored, mount, steps, |front|);
  }

  lemma {:induction false} StoredStays(server: (nat, string) -> seq<Event>, stored: Option<string>, mount: Step,
                                       steps: seq<Step>, k: int)
    requires IsMount(mount) && 0 <= k <= |steps|
    requires forall j :: k - 1 < j < |steps| ==> Unremarkable(server, stored, mount, steps, j)
    ensures After(server, stored, mount, steps).stored == After(server, stored, mount, steps[..k]).stored
  {
    if k == |steps| {
      assert steps[..k] == steps;
    } else {
      var front := steps[..|steps| - 1];
      UnremarkableInFront(server, stored, mount, steps, front, k - 1);
      StoredStays(server, stored, mount, front, k);
      assert front[..k] == steps[..k];
    }
  }

  /** A session that was begun stays stored, and the next mount fetches it, until it is forgotten or another is begun. */
  lemma BegunIsRemembered(server: (nat, string) -> seq<Event>, stored: Option<string>, mount: Step, steps: seq<Step>, k: nat)
    requires IsMount(mount) && k < |steps| && StartsFetch(After(server, stored, mount, steps[..k]), steps[k])
    requires forall j :: k < j < |steps| ==> Unremarkable(server, stored, mount, steps, j)
    ensures var sid := Begun(After(server, stored, mount, steps[..k]), steps[k]);
            && After(server, stored, mount, steps).stored == Some(sid)
            && (sid != "" ==> Fetches(After(server, stored, mount, steps + [MountStored]), sid))
  {
    StoredStays(server, stored, mount, steps, k + 1);
    assert steps[..k + 1] == steps[..k] + [steps[k]];
    OneMore(server, stored, mount, steps[..k], steps[k]);
    MountResumesStored(server, stored, mount, steps);
  }

  /** What was stored when the panel opened stays, too, until it is forgotten or a session is begun. */
  lemma OpenedIsRemembered(server: (nat, string) -> seq<Event>, stored: Option<string>, mount: Step, steps: seq<Step>)
    requires IsMount(mount)
    requires forall j :: 0 <= j < |steps| ==> Unremarkable(server, stored, mount, steps, j)
    ensures After(server, stored, mount, steps).stored == stored
  {
    StoredStays(server, stored, mount, steps, 0);
  }

  // ----- What an answer shows

  ghost predicate SameShown(p: Panel, q: Panel) {
    q.sessionId == p.sessionId && q.messages == p.messages && q.stored == p.stored && q.isRestoring == p.isRestoring
  }

  /** An answer that counts shows its session's messages and ends the restoring; one that does not changes nothing. */
  lemma AnswerShown(server: (nat, string) -> seq<Event>, stored: Option<string>, mount: Step, steps: seq<Step>, ctrl: nat)
    requires IsMount(mount) && Enabled(After(server, stored, mount, steps), Fetched(ctrl))
    ensures var before, after := After(server, stored, mount, steps), After(server, stored, mount, steps + [Fetched(ctrl)]);
            && after.waiting == before.waiting - {ctrl}
            && if Live(before, ctrl)
               then && after.messages == MessagesOf(server(ctrl, before.sessionId))
                    && after.sessionId == before.sessionId && after.stored == before.stored
                    && !after.isRestoring && Quiet(after)
               else SameShown(before, after)
  {
    OneMore(server, stored, mount, steps, Fetched(ctrl));
    RunKeepsOrder(server, stored, mount, steps);
  }

  /** The same for the answer to which session to resume: that session is fetched, or the panel emptied and storage kept. */
  lemma ResolutionHeeded(server: (nat, string) -> seq<Event>, stored: Option<string>, mount: Step, steps: seq<Step>, ctrl: nat,
                         resumed: Option<string>)
    requires IsMount(mount) && Enabled(After(server, stored, mount, steps), Resolved(ctrl, resumed))
    ensures var before := After(server, stored, mount, steps);
            var after := After(server, stored, mount, steps + [Resolved(ctrl, resumed)]);
            if !Live(before, ctrl) then SameShown(before, after) && after.waiting == before.waiting - {ctrl}
            else if resumed.None? || resumed.value == "" then EmptyAtRest(after) && after.stored == before.stored
            else Fetches(after, resumed.value) && after.messages == before.messages
  {
    OneMore(server, stored, mount, steps, Resolved(ctrl, resumed));
    RunKeepsOrder(server, stored, mount, steps);
  }

  /** A failure that does not count changes nothing shown, nor what is stored. */
  lemma StaleFailureIgnored(server: (nat, string) -> seq<Event>, stored: Option<string>, mount: Step, steps: seq<Step>, ctrl: nat)
    requires IsMount(mount)
    requires var p := After(server, stored, mount, steps); Enabled(p, FetchFailed(ctrl)) && !Live(p, ctrl)
    ensures SameShown(After(server, stored, mount, steps), After(server, stored, mount, steps + [FetchFailed(ctrl)]))
  {
    OneMore(server, stored, mount, steps, FetchFailed(ctrl));
    RunKeepsOrder(server, stored, mount, steps);
  }

  /** A mount that asks which session to resume changes nothing shown, and its answer is the only one that counts. */
  lemma AskingMount(server: (nat, string) -> seq<Event>, stored: Option<string>, mount: Step, steps: seq<Step>)
    requires IsMount(mount)
    ensures var before, after := After(server, stored, mount, steps), After(server, stored, mount, steps + [MountResolving]);
            && SameShown(before, after) && after.made == before.made + 1
            && before.made in after.waiting && after.waiting[before.made] == Resolving && Live(after, before.made)
            && forall ctrl :: ctrl in after.waiting && Live(after, ctrl) ==> ctrl == before.made
  {
    OneMore(server, stored, mount, steps, MountResolving);
    RunKeepsOrder(server, stored, mount, steps);
  }
}
