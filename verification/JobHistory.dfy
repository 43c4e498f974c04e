/** What a goroutine's log says about the shared world and about the run: what it set up, what its tenant's row
    records, and which calls it made. */
module JobHistory {
  import opened Stores
  import opened ProvisionJob
  import opened ControlPlane
  import opened Safety
  import opened Wrappers

  // ---- the log and the rows ------------------------------------------------------------------------------

  /** The job's network flag is its project's, and its tenant's row names a container exactly if the job has
      activated the tenant, and then the one it cloned. */
  ghost predicate JobTrue(w: World, j: Job) {
    && KnowsNetwork(w, j)
    && j.tid in w.tenants
    && w.tenants[j.tid].lxcId == if HasActivated(j) then Some(j.vmid) else None
  }

  ghost predicate JobsTrue(s: State) {
    forall a :: a in s.actors && s.actors[a].Working? ==> JobTrue(s.w, s.actors[a].job)
  }

  lemma OwnCallKeepsTrue(w: World, j: Job, o: Outcome)
    requires WorkOk(w, j) && JobTrue(w, j)
    ensures JobTrue(WorldNext(w, j, o), JobNext(w, j, o))
  {
    NextKnowsNetwork(w, j, o);
    SameProjects(w, j, o);
    assert j.pc == NextId ==> j.main == [];
    if j.pc == SetActive {
      ActivationIsTrue(w, j, o);
    } else {
      QuietIsTrue(w, j, o);
    }
    hide WorkOk, WorldNext, JobNext;
  }

  lemma SameProjects(w: World, j: Job, o: Outcome)
    ensures WorldNext(w, j, o).projects == w.projects
  {
    hide CloneBox, DeleteBox, MarkActive, MarkError, Release;
  }

  lemma ActivationIsTrue(w: World, j: Job, o: Outcome)
    requires WorkOk(w, j) && JobTrue(w, j) && j.pc == SetActive
    ensures var w', j' := WorldNext(w, j, o), JobNext(w, j, o);
      j'.tid == j.tid && j.tid in w'.tenants && w'.tenants[j.tid].lxcId == if HasActivated(j') then Some(j'.vmid) else None
  {
    hide JobOk, KnowsNetwork, Owed, Owns;
  }

  /** Every other call leaves the container id in the row alone, and appends no activation. */
  lemma QuietIsTrue(w: World, j: Job, o: Outcome)
    requires WorkOk(w, j) && JobTrue(w, j) && j.pc != SetActive && (j.pc == NextId ==> j.main == [])
    ensures var w', j' := WorldNext(w, j, o), JobNext(w, j, o);
      j'.tid == j.tid && j.tid in w'.tenants && w'.tenants[j.tid].lxcId == if HasActivated(j') then Some(j'.vmid) else None
  {
    RowKeepsBox(w, j, o);
    LateIsQuiet(j.pc, Succeeds(w, j, o), j.vmid);
    assert Live(j.pc) ==> !HasActivated(j);
    hide WorkOk, KnowsNetwork, WorldNext, Succeeds, UndoEffect, NextPc, MainEffect, Live;
  }

  lemma RowKeepsBox(w: World, j: Job, o: Outcome)
    requires j.pc != SetActive && j.tid in w.tenants
    ensures var rows := WorldNext(w, j, o).tenants; j.tid in rows && rows[j.tid].lxcId == w.tenants[j.tid].lxcId
  {
    hide CloneBox, DeleteBox, MarkActive, Release;
  }

  lemma LateIsQuiet(pc: Pc, ok: bool, v: int)
    ensures !Live(pc) ==> MainEffect(pc, ok, v) == []
    ensures pc != SetActive ==> |MainEffect(pc, ok, v)| <= 1 && (MainEffect(pc, ok, v) != [] ==> !MainEffect(pc, ok, v)[0].Activated?)
  {
  }

  /** Another actor's call leaves what a job says true. */
  lemma OtherCallKeepsTrue(w: World, x: Actor, o: Outcome, j: Job)
    requires !x.Idle? && Ready(w, x) && JobTrue(w, j) && Apart(x, Working(j))
    ensures JobTrue(ActorWorld(w, x, o), j)
  {
    if Subject(x) == j.tid {
      SameTenantKeepsBox(w, x, o);
    } else {
      CallKeeps(w, x, o);
    }
    ProjectsStay(w, x, o);
    hide ActorWorld, Ready, ActorOk, RowOk, HasActivated;
  }

  lemma ProjectsStay(w: World, x: Actor, o: Outcome)
    ensures ActorWorld(w, x, o).projects == w.projects
  {
    if x.Working? { SameProjects(w, x.job, o); hide WorldNext; }
  }

  /** Only the goroutine that brings a tenant up puts a container into its row. */
  lemma SameTenantKeepsBox(w: World, x: Actor, o: Outcome)
    requires (x.Deleting? && DeleteOk(w, x)) || (x.Toggling? && x.tTid in w.tenants)
    ensures var rows := ActorWorld(w, x, o).tenants; Subject(x) in rows && rows[Subject(x)].lxcId == w.tenants[Subject(x)].lxcId
  {
    if x.Deleting? { TeardownLeaves(w, x, o); } else { ToggleKeepsBox(w, x, o); }
    hide DeleteWorld, ToggleWorld;
  }

  lemma ToggleKeepsBox(w: World, x: Actor, o: Outcome)
    requires x.Toggling? && x.tTid in w.tenants
    ensures var rows := ToggleWorld(w, x, o).tenants; x.tTid in rows && rows[x.tTid].lxcId == w.tenants[x.tTid].lxcId
  {
    TransitionLeaves(w, x.tTid, {Active}, Suspended, o.Ok?);
    TransitionLeaves(w, x.tTid, {Suspended}, Active, o.Ok?);
    hide Transition;
  }

  lemma SpawnedIsTrue(w: World, x: Actor, o: Outcome)
    requires x.Creating? && Ready(w, x) && ActorNext(w, x, o).Working?
    ensures JobTrue(ActorWorld(w, x, o), ActorNext(w, x, o).job)
  {
  }

  lemma StepKeepsTrue(s: State, act: Action)
    requires Inv(s) && JobsTrue(s)
    ensures JobsTrue(Step(s, act))
  {
    var s' := Step(s, act);
    if act.Move? && act.a in s.actors && !Blocked(s, s.actors[act.a]) {
      MoveKeepsTrue(s, act.a, act.o);
    } else {
      OthersKeepTrue(s, act);
    }
    hide Step, JobsTrue;
  }

  /** Actions that are no call of an actor touch no row and start no goroutine. */
  lemma OthersKeepTrue(s: State, act: Action)
    requires JobsTrue(s) && !(act.Move? && act.a in s.actors && !Blocked(s, s.actors[act.a]))
    ensures JobsTrue(Step(s, act))
  {
    var s' := Step(s, act);
    assert s'.w.tenants == s.w.tenants && s'.w.projects == s.w.projects;
    forall a | a in s'.actors && s'.actors[a].Working? ensures JobTrue(s'.w, s'.actors[a].job) {
      assert a in s.actors && s.actors[a] == s'.actors[a];
      assert JobTrue(s.w, s.actors[a].job);
    }
  }

  lemma MoveKeepsTrue(s: State, a: ActorId, o: Outcome)
    requires Inv(s) && JobsTrue(s) && a in s.actors
    ensures JobsTrue(Moved(s, a, o))
  {
    var x, s' := s.actors[a], Moved(s, a, o);
    assert !x.Idle? ==> Ready(s.w, x);
    forall b | b in s'.actors && s'.actors[b].Working? ensures JobTrue(s'.w, s'.actors[b].job) {
      if b != a {
        assert JobTrue(s.w, s.actors[b].job) && Apart(x, s.actors[b]);
        if !x.Idle? { OtherCallKeepsTrue(s.w, x, o, s.actors[b].job); }
      } else if x.Working? {
        assert WorkOk(s.w, x.job);
        OwnCallKeepsTrue(s.w, x.job, o);
      } else {
        BecomesWorking(s.w, x, o);
        SpawnedIsTrue(s.w, x, o);
      }
    }
    hide JobTrue, Ready, WorldNext, JobNext;
  }

  lemma BecomesWorking(w: World, x: Actor, o: Outcome)
    requires ActorNext(w, x, o).Working? && !x.Working?
    ensures x.Creating?
  {
  }

  lemma {:induction false} RunKeepsTrue(init: State, acts: seq<Action>)
    requires Initial(init)
    ensures Inv(Run(init, acts)) && JobsTrue(Run(init, acts))
  {
    if acts != [] {
      RunKeepsTrue(init, acts[..|acts| - 1]);
      StepKeepsInv(Run(init, acts[..|acts| - 1]), acts[|acts| - 1]);
      StepKeepsTrue(Run(init, acts[..|acts| - 1]), acts[|acts| - 1]);
      hide Inv, JobsTrue, Step;
    }
  }

  lemma ReachableJobs(s: State, a: ActorId)
    requires Reachable(s) && a in s.actors && s.actors[a].Working?
    ensures JobOk(s.actors[a].job) && JobTrue(s.w, s.actors[a].job)
  {
    var init, acts :| Initial(init) && s == Run(init, acts);
    RunKeepsTrue(init, acts);
    assert ActorOk(s.w, s.actors[a]);
  }

  /** In every interleaving a container is started only after it was cloned, its mounts were set and, if the tenant's
      project has a network, its network was. */
  lemma NetworkBeforeStart(s: State, a: ActorId, k: nat)
    requires Reachable(s) && a in s.actors && s.actors[a].Working?
    requires k < |s.actors[a].job.Log()| && s.actors[a].job.Log()[k].StartIssued?
    ensures var j := s.actors[a].job; var before := j.Log()[..k];
      && j.Log()[k] == StartIssued(j.vmid) && Cloned(j.vmid) in before && MountsSet(j.vmid) in before
      && j.pid in s.w.projects && (s.w.projects[j.pid].cidr ==> NetworkSet(j.vmid) in before)
  {
    ReachableJobs(s, a);
    var j := s.actors[a].job;
    StartComesLast(j, k);
    StartedIsLate(j, k);
    ReachableInv(s);
    assert ActorOk(s.w, s.actors[a]);
    hide JobOk, Inv;
  }

  lemma StartedIsLate(j: Job, k: nat)
    requires JobOk(j) && k < |j.Log()| && j.Log()[k].StartIssued?
    ensures j.pc != Queued && j.pc != GetProject && j.main != []
  {
    assert k < |j.main|;
  }

  /** In every interleaving a job's log holds an activation exactly if its tenant's row names a container, and then it
      names the one the job cloned. */
  lemma ActivationIsRecorded(s: State, a: ActorId)
    requires Reachable(s) && a in s.actors && s.actors[a].Working?
    ensures var j := s.actors[a].job;
      && j.tid in s.w.tenants
      && s.w.tenants[j.tid].lxcId == if Activated(j.vmid) in j.Log() then Some(j.vmid) else None
  {
    ReachableJobs(s, a);
    ActivatedIsLast(s.actors[a].job);
  }

  // ---- the log and the run -------------------------------------------------------------------------------

  /** Everything the calls of actor `a` did as a goroutine during a run. */
  ghost function Issued(init: State, acts: seq<Action>, a: ActorId): multiset<Effect> {
    if acts == [] then multiset{}
    else
      var before, act := acts[..|acts| - 1], acts[|acts| - 1];
      var s := Run(init, before);
      Issued(init, before, a) +
        if act.Move? && act.a == a && a in s.actors && s.actors[a].Working? && !Blocked(s, s.actors[a])
        then multiset(Appended(s.w, s.actors[a].job, act.o)) else multiset{}
  }

  /** A goroutine's log is what its calls did in the run, no more and no less. */
  lemma {:induction false} LogIsHistory(init: State, acts: seq<Action>, a: ActorId)
    requires Initial(init)
    ensures var s := Run(init, acts);
      Issued(init, acts, a) == if a in s.actors && s.actors[a].Working? then multiset(s.actors[a].job.Log()) else multiset{}
  {
    if acts != [] {
      var before, act := acts[..|acts| - 1], acts[|acts| - 1];
      var s := Run(init, before);
      LogIsHistory(init, before, a);
      if act.Move? && act.a == a && a in s.actors && !Blocked(s, s.actors[a]) {
        CallIsLogged(s, a, act.o);
      } else {
        SameActor(s, act, a);
      }
      hide Step, Appended;
    }
  }

  lemma CallIsLogged(s: State, a: ActorId, o: Outcome)
    requires a in s.actors && !Blocked(s, s.actors[a])
    ensures var x, x' := s.actors[a], ActorNext(s.w, s.actors[a], o);
      && a in Step(s, Move(a, o)).actors && Step(s, Move(a, o)).actors[a] == x'
      && (if x.Working? then x'.Working? && multiset(x'.job.Log()) == multiset(x.job.Log()) + multiset(Appended(s.w, x.job, o))
          else x'.Working? ==> x'.job.Log() == [])
  {
    NextLog(s.w, s.actors[a], o);
    hide ActorWorld, ActorNext, Appended;
  }

  lemma NextLog(w: World, x: Actor, o: Outcome)
    ensures var x' := ActorNext(w, x, o);
      if x.Working? then x'.Working? && multiset(x'.job.Log()) == multiset(x.job.Log()) + multiset(Appended(w, x.job, o))
      else x'.Working? ==> x'.job.Log() == []
  {
    if x.Working? {
      LogGrows(w, x.job, o);
      hide JobNext, Appended;
    } else if ActorNext(w, x, o).Working? {
      BecomesWorking(w, x, o);
    }
  }

  lemma SameActor(s: State, act: Action, a: ActorId)
    requires !(act.Move? && act.a == a && a in s.actors && !Blocked(s, s.actors[a]))
    ensures var s' := Step(s, act);
      if a in s.actors then a in s'.actors && s'.actors[a] == s.actors[a] else a in s'.actors ==> !s'.actors[a].Working?
  {
    hide ActorWorld, ActorNext;
  }

  /** What a finished attempt did in the run, told by its tenant's row: if the row names a container, one activation and
      no delete, error mark or release; if not, exactly one error mark and at most one release. */
  lemma FinishedAttempt(init: State, acts: seq<Action>, a: ActorId)
    requires Initial(init)
    requires var s := Run(init, acts); a in s.actors && s.actors[a].Working? && s.actors[a].job.pc == Finished
    ensures var s, did := Run(init, acts), Issued(init, acts, a);
      var j := s.actors[a].job;
      && j.tid in s.w.tenants
      && (if s.w.tenants[j.tid].lxcId.Some?
          then did[Activated(j.vmid)] >= 1 && forall e :: e in did ==> !e.DeleteIssued? && !e.ErrorIssued? && !e.ReleaseIssued?
          else did[Activated(j.vmid)] == 0 && did[ErrorIssued] == 1 && did[ReleaseIssued] <= 1)
  {
    var s := Run(init, acts);
    LogIsHistory(init, acts, a);
    ActivationIsRecorded(s, a);
    ReachableJobs(s, a);
    FinishedJob(s.actors[a].job);
    hide JobOk, JobTrue;
  }
}
