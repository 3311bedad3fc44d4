/** Any number of release preparers that share one lock file and one publish plan. Every system call
    is a step of its own, any of them may fail, and a preparer may be killed between any two. */
module ReleasePreparers {
  import opened Options

  type Inode = nat

  /** Where one preparer stands. From `Opened` to `Removing` it is inside the lock. */
  datatype Phase =
    | Idle
    | Opened(inode: Inode)     // the lock file is created, its identity not yet read
    | Held(inode: Inode)       // the identity is known
    | Found(inode: Inode)      // a plan was seen and is about to be removed
    | Building(inode: Inode)   // the old plan is gone
    | Leaving(inode: Inode)    // the lock file is about to be looked at
    | Removing(inode: Inode)   // it had the right identity and is about to be removed
    | Gone                     // returned, failed or killed

  /** `owner` is the preparer that created the file; no program reads it. */
  datatype LockFile = LockFile(owner: nat, inode: Inode)

  /** A plan left from before the run, or the one that a preparer wrote. */
  datatype Plan = Earlier | By(writer: nat)

  datatype State = State(phases: seq<Phase>, lock: Option<LockFile>, plan: Option<Plan>)

  datatype Event =
    | Open(p: nat, inode: Inode)
    | Refused(p: nat)           // the lock file exists
    | Identify(p: nat)
    | Unidentified(p: nat)      // reading the identity failed: the lock file is left behind
    | PassAbsent(p: nat)        // there is no plan to invalidate
    | FindPlan(p: nat)
    | Erase(p: nat)
    | Write(p: nat)
    | Leave(p: nat)             // something failed before the plan was written
    | CheckLock(p: nat)
    | CheckFails(p: nat)
    | Unlink(p: nat)
    | UnlinkFails(p: nat)
    | Kill(p: nat)
    | ClearStale                // an operator removes a lock file whose owner is gone

  predicate Inside(f: Phase) {
    !f.Idle? && !f.Gone?
  }

  predicate Active(f: Phase) {
    f.Held? || f.Found? || f.Building?
  }

  predicate Enabled(s: State, e: Event) {
    if e.ClearStale? then s.lock.Some? && Stale(s, s.lock.value.owner)
    else
      e.p < |s.phases| &&
      var f := s.phases[e.p];
      match e
      case Open(_, _) => f.Idle? && s.lock.None?
      case Refused(_) => f.Idle? && s.lock.Some?
      case Identify(_) => f.Opened?
      case Unidentified(_) => f.Opened?
      case PassAbsent(_) => f.Held? && s.plan.None?
      case FindPlan(_) => f.Held? && s.plan.Some?
      case Erase(_) => f.Found? && s.plan.Some?
      case Write(_) => f.Building?
      case Leave(_) => Active(f)
      case CheckLock(_) => f.Leaving?
      case CheckFails(_) => f.Leaving?
      case Unlink(_) => f.Removing?
      case UnlinkFails(_) => f.Removing?
      case Kill(_) => true
  }

  function To(s: State, p: nat, f: Phase): State
    requires p < |s.phases|
  {
    s.(phases := s.phases[p := f])
  }

  function Apply(s: State, e: Event): State
    requires Enabled(s, e)
  {
    if e.ClearStale? then s.(lock := None)
    else
      var f := s.phases[e.p];
      match e
      case Open(p, inode) => To(s, p, Opened(inode)).(lock := Some(LockFile(p, inode)))
      case Refused(p) => To(s, p, Gone)
      case Identify(p) => To(s, p, Held(f.inode))
      case Unidentified(p) => To(s, p, Gone)
      case PassAbsent(p) => To(s, p, Building(f.inode))
      case FindPlan(p) => To(s, p, Found(f.inode))
      case Erase(p) => To(s, p, Building(f.inode)).(plan := None)
      case Write(p) => To(s, p, Leaving(f.inode)).(plan := Some(By(p)))
      case Leave(p) => To(s, p, Leaving(f.inode))
      case CheckLock(p) =>
        To(s, p, if s.lock.Some? && s.lock.value.inode == f.inode then Removing(f.inode) else Gone)
      case CheckFails(p) => To(s, p, Gone)
      case Unlink(p) => To(s, p, Gone).(lock := None)
      case UnlinkFails(p) => To(s, p, Gone)
      case Kill(p) => To(s, p, Gone)
  }

  predicate Initial(s: State) {
    (forall p :: 0 <= p < |s.phases| ==> s.phases[p].Idle?) && s.lock.None? && (s.plan.Some? ==> s.plan.value.Earlier?)
  }

  predicate Possible(s: State, run: seq<Event>)
    decreases |run|, 0
  {
    run == [] || (Possible(s, run[..|run| - 1]) && Enabled(After(s, run[..|run| - 1]), run[|run| - 1]))
  }

  /** The state at the end of a run. */
  function After(s: State, run: seq<Event>): State
    requires Possible(s, run)
    decreases |run|, 1
  {
    if run == [] then s else Apply(After(s, run[..|run| - 1]), run[|run| - 1])
  }

  // ---------------------------------------------------------------- what the run did

  predicate Passes(e: Event) {
    e.PassAbsent? || e.Erase?
  }

  /** The preparer that passed the invalidation last. */
  function LastPass(run: seq<Event>): Option<nat> {
    if run == [] then None
    else
      var last := run[|run| - 1];
      if Passes(last) then Some(last.p) else LastPass(run[..|run| - 1])
  }

  /** A preparer left the lock file behind: it was killed, or one of three system calls failed. */
  predicate Abandons(e: Event, p: nat) {
    (e.Kill? || e.Unidentified? || e.CheckFails? || e.UnlinkFails?) && e.p == p
  }

  // ---------------------------------------------------------------- the invariant

  /** The lock file at its name is that of the preparer inside. */
  predicate OwnLock(s: State) {
    forall p :: 0 <= p < |s.phases| && Inside(s.phases[p]) ==> s.lock == Some(LockFile(p, s.phases[p].inode))
  }

  predicate OwnerKnown(s: State) {
    s.lock.Some? ==> s.lock.value.owner < |s.phases| && !s.phases[s.lock.value.owner].Idle?
  }

  /** The plan is that of the preparer that passed the invalidation last, and so is the building. */
  predicate PlanOfLastPass(s: State, last: Option<nat>) {
    (forall p :: 0 <= p < |s.phases| && s.phases[p].Building? ==> last == Some(p)) &&
    (s.plan.Some? ==> match s.plan.value case Earlier => last.None? case By(w) => last == Some(w))
  }

  lemma {:induction false} LockStep(s: State, e: Event)
    requires Enabled(s, e) && OwnLock(s) && OwnerKnown(s)
    ensures OwnLock(Apply(s, e)) && OwnerKnown(Apply(s, e))
    ensures |Apply(s, e).phases| == |s.phases|
    ensures e.Unlink? ==> s.lock.Some? && s.lock.value.owner == e.p
  {
  }

  lemma {:induction false} PlanStep(s: State, e: Event, last: Option<nat>)
    requires Enabled(s, e) && OwnLock(s) && PlanOfLastPass(s, last)
    ensures PlanOfLastPass(Apply(s, e), if Passes(e) then Some(e.p) else last)
  {
  }

  lemma {:induction false} RunKeeps(s: State, run: seq<Event>)
    requires Initial(s) && Possible(s, run)
    ensures OwnLock(After(s, run)) && OwnerKnown(After(s, run)) && |After(s, run).phases| == |s.phases|
    ensures PlanOfLastPass(After(s, run), LastPass(run))
  {
    if run != [] {
      var prefix, e := run[..|run| - 1], run[|run| - 1];
      RunKeeps(s, prefix);
      LockStep(After(s, prefix), e);
      PlanStep(After(s, prefix), e, LastPass(prefix));
    }
  }

  // ---------------------------------------------------------------- the theorems

  /** In every run at most one preparer is between acquiring and releasing the lock. */
  lemma {:induction false} MutualExclusion(s: State, run: seq<Event>, p: nat, q: nat)
    requires Initial(s) && Possible(s, run)
    requires p < |After(s, run).phases| && Inside(After(s, run).phases[p])
    requires q < |After(s, run).phases| && Inside(After(s, run).phases[q])
    ensures p == q
  {
    RunKeeps(s, run);
  }

  /** No release removes the lock file of another preparer, whatever happens between its check and
      its removal. */
  lemma {:induction false} RemovesOnlyItsOwn(s: State, run: seq<Event>, k: nat)
    requires Initial(s) && Possible(s, run) && k < |run| && run[k].Unlink?
    ensures Possible(s, run[..k])
    ensures var lock := After(s, run[..k]).lock; lock.Some? && lock.value.owner == run[k].p
  {
    PrefixPossible(s, run, k + 1);
    var before := run[..k + 1];
    assert before[..|before| - 1] == run[..k];
    RunKeeps(s, run[..k]);
    LockStep(After(s, run[..k]), run[k]);
  }

  lemma {:induction false} PrefixPossible(s: State, run: seq<Event>, k: nat)
    requires Possible(s, run) && k <= |run|
    ensures Possible(s, run[..k])
    decreases |run|
  {
    if k == |run| {
      assert run[..k] == run;
    } else {
      PrefixPossible(s, run[..|run| - 1], k);
      assert run[..|run| - 1][..k] == run[..k];
    }
  }

  /** A plan on disk means that nobody has passed the invalidation since its writer did: there is
      a pass of the writer after which there is no other, and a write of the writer after that. A
      plan from before the run means that nobody has passed at all. */
  lemma {:induction false} PlanIsOfLastPass(s: State, run: seq<Event>)
    requires Initial(s) && Possible(s, run) && After(s, run).plan.Some?
    ensures match After(s, run).plan.value
      case Earlier => forall k :: 0 <= k < |run| ==> !Passes(run[k])
      case By(w) =>
        exists i, j :: 0 <= i < j < |run| && Passes(run[i]) && run[i].p == w && run[j] == Write(w) &&
          forall k :: i < k < |run| ==> !Passes(run[k])
  {
    RunKeeps(s, run);
    if LastPass(run).None? {
      NobodyPassed(run);
    } else {
      var i := WherePassed(run);
      var j := WrittenAfter(s, run, i);
    }
  }

  lemma {:induction false} NobodyPassed(run: seq<Event>)
    requires LastPass(run).None?
    ensures forall k :: 0 <= k < |run| ==> !Passes(run[k])
  {
    if run != [] {
      var prefix := run[..|run| - 1];
      NobodyPassed(prefix);
      assert forall k :: 0 <= k < |prefix| ==> prefix[k] == run[k];
    }
  }

  lemma {:induction false} WherePassed(run: seq<Event>) returns (i: nat)
    requires LastPass(run).Some?
    ensures i < |run| && Passes(run[i]) && run[i].p == LastPass(run).value
    ensures forall k :: i < k < |run| ==> !Passes(run[k])
  {
    i := |run| - 1;
    if !Passes(run[i]) {
      var prefix := run[..i];
      i := WherePassed(prefix);
      assert forall k :: 0 <= k < |prefix| ==> prefix[k] == run[k];
    }
  }

  /** A pass leaves no plan, so a plan that is there afterwards was written afterwards. */
  lemma {:induction false} WrittenAfter(s: State, run: seq<Event>, i: nat) returns (j: nat)
    requires Possible(s, run) && i < |run| && Passes(run[i])
    requires After(s, run).plan.Some? && After(s, run).plan.value.By?
    ensures i < j < |run| && run[j] == Write(After(s, run).plan.value.writer)
  {
    var prefix, last := run[..|run| - 1], |run| - 1;
    if run[last].Write? {
      j := last;
    } else {
      j := WrittenAfter(s, prefix, i);
    }
  }

  predicate Stale(s: State, owner: nat) {
    s.lock.Some? && s.lock.value.owner == owner < |s.phases| && s.phases[owner].Gone?
  }

  lemma {:induction false} StaleBefore(s: State, e: Event, owner: nat)
    requires Enabled(s, e) && OwnLock(s) && OwnerKnown(s) && Stale(Apply(s, e), owner) && !Abandons(e, owner)
    ensures Stale(s, owner)
  {
  }

  /** A lock file whose owner is gone is there only because the owner was killed inside or one of
      its system calls on the lock file failed: a preparer that returns has removed its own. */
  lemma {:induction false} StaleMeansAbandoned(s: State, run: seq<Event>, owner: nat)
    requires Initial(s) && Possible(s, run) && Stale(After(s, run), owner)
    ensures exists k :: 0 <= k < |run| && Abandons(run[k], owner)
  {
    var prefix, e := run[..|run| - 1], run[|run| - 1];
    RunKeeps(s, prefix);
    if Abandons(e, owner) {
      assert Abandons(run[|run| - 1], owner);
    } else {
      StaleBefore(After(s, prefix), e, owner);
      StaleMeansAbandoned(s, prefix, owner);
      var k :| 0 <= k < |prefix| && Abandons(prefix[k], owner);
      assert Abandons(run[k], owner);
    }
  }

  lemma {:induction false} Extends(s: State, run: seq<Event>, e: Event)
    requires Possible(s, run) && Enabled(After(s, run), e)
    ensures Possible(s, run + [e]) && After(s, run + [e]) == Apply(After(s, run), e)
  {
    var longer := run + [e];
    assert longer[..|longer| - 1] == run;
  }

  /** What a preparer does when nothing goes wrong. */
  function Preparation(p: nat, inode: Inode, planned: bool): seq<Event> {
    [Open(p, inode), Identify(p)] + (if planned then [FindPlan(p), Erase(p)] else [PassAbsent(p)]) +
    [Write(p), CheckLock(p), Unlink(p)]
  }

  lemma {:induction false} OneByOne(run: seq<Event>, more: seq<Event>)
    requires more != []
    ensures run + more == run + more[..|more| - 1] + [more[|more| - 1]]
  {
  }

  lemma {:induction false} ExtendsAll(s: State, run: seq<Event>, more: seq<Event>)
    requires Possible(s, run) && Possible(After(s, run), more)
    ensures Possible(s, run + more) && After(s, run + more) == After(After(s, run), more)
    decreases |more|
  {
    if more == [] {
      assert run + more == run;
    } else {
      var init, last := more[..|more| - 1], more[|more| - 1];
      ExtendsAll(s, run, init);
      Extends(s, run + init, last);
      OneByOne(run, more);
    }
  }

  lemma {:induction false} Locks(s: State, p: nat, inode: Inode)
    requires p < |s.phases| && s.phases[p].Idle? && s.lock.None?
    ensures var es := [Open(p, inode), Identify(p)];
      Possible(s, es) && After(s, es) == State(s.phases[p := Held(inode)], Some(LockFile(p, inode)), s.plan)
  {
    Extends(s, [], Open(p, inode));
    Extends(s, [] + [Open(p, inode)], Identify(p));
    assert [] + [Open(p, inode)] + [Identify(p)] == [Open(p, inode), Identify(p)];
    assert s.phases[p := Opened(inode)][p := Held(inode)] == s.phases[p := Held(inode)];
  }

  lemma {:induction false} Invalidates(s: State, p: nat)
    requires p < |s.phases| && s.phases[p].Held?
    ensures var es := if s.plan.Some? then [FindPlan(p), Erase(p)] else [PassAbsent(p)];
      Possible(s, es) && After(s, es) == State(s.phases[p := Building(s.phases[p].inode)], s.lock, None)
  {
    if s.plan.Some? {
      Extends(s, [], FindPlan(p));
      Extends(s, [] + [FindPlan(p)], Erase(p));
      assert [] + [FindPlan(p)] + [Erase(p)] == [FindPlan(p), Erase(p)];
      var i := s.phases[p].inode;
      assert s.phases[p := Found(i)][p := Building(i)] == s.phases[p := Building(i)];
    } else {
      Extends(s, [], PassAbsent(p));
      assert [] + [PassAbsent(p)] == [PassAbsent(p)];
    }
  }

  lemma {:induction false} Releases(s: State, p: nat)
    requires p < |s.phases| && s.phases[p].Building? && s.lock == Some(LockFile(p, s.phases[p].inode))
    ensures var es := [Write(p), CheckLock(p), Unlink(p)];
      Possible(s, es) && After(s, es) == State(s.phases[p := Gone], None, Some(By(p)))
  {
    Extends(s, [], Write(p));
    Extends(s, [] + [Write(p)], CheckLock(p));
    Extends(s, [] + [Write(p)] + [CheckLock(p)], Unlink(p));
    assert [] + [Write(p)] + [CheckLock(p)] + [Unlink(p)] == [Write(p), CheckLock(p), Unlink(p)];
    assert After(s, [Write(p), CheckLock(p), Unlink(p)]).phases == s.phases[p := Gone];
  }

  /** Whenever the lock is free, a preparer that nothing disturbs takes it, replaces the plan by its
      own and leaves the lock free: the check at the release recognizes its own lock file. */
  lemma {:induction false} PreparationCompletes(s: State, run: seq<Event>, p: nat, inode: Inode)
    requires Possible(s, run) && After(s, run).lock.None?
    requires p < |After(s, run).phases| && After(s, run).phases[p].Idle?
    ensures var before := After(s, run);
      var all := run + Preparation(p, inode, before.plan.Some?);
      Possible(s, all) && After(s, all) == State(before.phases[p := Gone], None, Some(By(p)))
  {
    var before := After(s, run);
    var lock, release := [Open(p, inode), Identify(p)], [Write(p), CheckLock(p), Unlink(p)];
    var pass := if before.plan.Some? then [FindPlan(p), Erase(p)] else [PassAbsent(p)];
    Locks(before, p, inode);
    Invalidates(After(before, lock), p);
    ExtendsAll(before, lock, pass);
    Releases(After(before, lock + pass), p);
    ExtendsAll(before, lock + pass, release);
    ExtendsAll(s, run, lock + pass + release);
  }
}
