/** The commit-confirmed deploy seen from a device that follows RFC 6241, sections 7.5, 8.3 and 8.4:
    what the six RPCs leave running once the session is over and the confirm timer has run out. */
module NetconfDevice {
  import opened Basics

  datatype Rpc = Lock | Load | CommitConfirmed | GetSoftwareInformation | Commit | Unlock

  const DEPLOY: seq<Rpc> := [Lock, Load, CommitConfirmed, GetSoftwareInformation, Commit, Unlock]

  type Config = seq<string>

  /** `revertTo` is the configuration a pending confirmed commit will be undone to. */
  datatype Target = Target(running: Config, candidate: Config, revertTo: Option<Config>)

  /** What the load makes of a candidate, and what it leaves there if it is rejected. */
  datatype Job = Job(apply: Config -> Config, leave: Config -> Config)

  /** How the device treats the session: how many of the RPCs reach it, which it accepts, and before
      which the confirm timer fires. */
  datatype Handling = Handling(delivered: nat, accepted: seq<bool>, timerFires: seq<bool>)

  predicate WholeDeploy(h: Handling) {
    h.delivered <= |DEPLOY| && |h.accepted| == |DEPLOY| && |h.timerFires| == |DEPLOY|
  }

  function Revert(d: Target): Target {
    match d.revertTo
    case Some(c) => d.(running := c, revertTo := None)
    case None => d
  }

  /** The load edits the candidate; a confirmed commit is provisional; a commit is final. */
  function Handle(d: Target, job: Job, rpc: Rpc, accepted: bool): Target {
    match rpc
    case Load => d.(candidate := if accepted then job.apply(d.candidate) else job.leave(d.candidate))
    case CommitConfirmed =>
      if accepted
      then Target(d.candidate, d.candidate, if d.revertTo.Some? then d.revertTo else Some(d.running)) else d
    case Commit => if accepted then Target(d.candidate, d.candidate, None) else d
    case _ => d
  }

  function RunTo(d: Target, job: Job, h: Handling, k: nat): Target
    requires WholeDeploy(h) && k <= |DEPLOY|
  {
    if k == 0 then d
    else
      var d1 := RunTo(d, job, h, k - 1);
      var d2 := if h.timerFires[k - 1] then Revert(d1) else d1;
      if k - 1 < h.delivered then Handle(d2, job, DEPLOY[k - 1], h.accepted[k - 1]) else d2
  }

  /** The configuration once the session is closed and the confirm timer has run out. */
  function Final(d: Target, job: Job, h: Handling): Config
    requires WholeDeploy(h)
  {
    Revert(RunTo(d, job, h, |DEPLOY|)).running
  }

  /** A lock is never granted on a candidate with uncommitted changes. */
  predicate Lawful(d: Target, h: Handling) {
    WholeDeploy(h) && (h.delivered > 0 && h.accepted[0] ==> d.candidate == d.running)
  }

  /** The deploy keeps or commits: the old configuration unless the final commit is accepted, and then
      what the load left of the candidate, clean or not. */
  lemma FinalForm(d: Target, job: Job, h: Handling)
    requires d.revertTo.None? && WholeDeploy(h)
    ensures Final(d, job, h) ==
      if !(h.delivered > 4 && h.accepted[4]) then d.running
      else if h.accepted[1] then job.apply(d.candidate) else job.leave(d.candidate)
  {
    assert RunTo(d, job, h, 0) == d && DEPLOY[0] == Lock && DEPLOY[1] == Load;
    assert RunTo(d, job, h, 1) == d;
    assert h.delivered > 1 ==> RunTo(d, job, h, 2) == Handle(d, job, Load, h.accepted[1]);
    AfterConfirmed(d, job, h);
  }

  lemma AfterConfirmed(d: Target, job: Job, h: Handling)
    requires d.revertTo.None? && WholeDeploy(h)
    ensures Revert(RunTo(d, job, h, 4)).running == d.running
    ensures RunTo(d, job, h, 4).candidate == RunTo(d, job, h, 2).candidate
    ensures Final(d, job, h) ==
      if h.delivered > 4 && h.accepted[4] then RunTo(d, job, h, 4).candidate else Revert(RunTo(d, job, h, 4)).running
  {
    assert RunTo(d, job, h, 1).revertTo.None? && RunTo(d, job, h, 1).running == d.running;
    assert RunTo(d, job, h, 2).revertTo.None? && RunTo(d, job, h, 2).running == d.running;
    var d4, d5 := RunTo(d, job, h, 4), RunTo(d, job, h, 5);
    assert RunTo(d, job, h, 3).candidate == RunTo(d, job, h, 2).candidate;
    assert d5.running == (if h.delivered > 4 && h.accepted[4] then d4.candidate else d5.running);
  }

  /** Everything is delivered and accepted, except as `accepted` says. */
  function Answered(accepted: seq<bool>): Handling {
    Handling(6, accepted, [false, false, false, false, false, false])
  }

  /** The device always ends with the old or the new configuration if and only if a rejected load
      leaves one of them in the candidate and, should the candidate hold uncommitted changes, the load
      on top of them makes one of them too: nothing in the sequence stops at a refused lock. */
  lemma OldOrNew(d: Target, job: Job)
    requires d.revertTo.None?
    ensures var next := job.apply(d.running);
      (forall h :: Lawful(d, h) ==> Final(d, job, h) == d.running || Final(d, job, h) == next)
      <==> && (job.leave(d.candidate) == d.running || job.leave(d.candidate) == next)
           && (d.candidate != d.running ==> job.apply(d.candidate) == d.running || job.apply(d.candidate) == next)
  {
    var clean := d.candidate == d.running;
    var rejected, loaded :=
      Answered([clean, false, true, true, true, true]), Answered([clean, true, true, true, true, true]);
    assert Lawful(d, rejected) && Lawful(d, loaded);
    FinalForm(d, job, rejected);
    FinalForm(d, job, loaded);
    forall h | Lawful(d, h)
      ensures Final(d, job, h) == d.running || Final(d, job, h) == job.leave(d.candidate)
              || Final(d, job, h) == job.apply(d.candidate)
    {
      FinalForm(d, job, h);
    }
  }

  /** Another session's uncommitted edits are committed along with the deploy's: the lock is refused,
      as it must be, and every later RPC is accepted. */
  lemma ForeignEditsCommitted(d: Target, job: Job) returns (h: Handling)
    requires d.revertTo.None? && d.candidate != d.running
    ensures Lawful(d, h) && !h.accepted[0] && Final(d, job, h) == job.apply(d.candidate)
  {
    h := Answered([false, true, true, true, true, true]);
    FinalForm(d, job, h);
  }

  /** With a granted lock the device ends old or new, as far as a rejected load does. */
  lemma LockedIsOldOrNew(d: Target, job: Job, h: Handling)
    requires d.revertTo.None? && Lawful(d, h) && h.delivered > 0 && h.accepted[0]
    requires job.leave(d.running) == d.running
    ensures Final(d, job, h) == d.running || Final(d, job, h) == job.apply(d.running)
  {
    FinalForm(d, job, h);
  }
}
