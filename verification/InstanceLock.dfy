/** The per-instance lock and the status file it guards, over every interleaving of schedulers. */
module InstanceLock {
  import opened Common
  import opened RunStatus

  /** The two branches of instance_lock: an flock on the open handle, or a key in a process-wide set. */
  datatype Branch = Flock | LocalSet

  /** How far a holder is: it reads the status file on entry and writes it at most once. */
  datatype Progress = Entered | HasRead(file: StatusFile) | HasWritten

  datatype Phase = Opened | Critical(progress: Progress) | Rejected | Closed(rejected: bool)

  /** All schedulers of one staging directory, by handle; history lists the runs written so far. */
  datatype System = System(phases: map<nat, Phase>, owner: Option<nat>, held: bool,
                           file: StatusFile, history: seq<Attempt>)

  /** Release is the finally clause; Crash is the end of a process, which closes its handle. */
  datatype Action =
    | Open(h: nat) | Try(h: nat) | Read(h: nat) | Write(h: nat, a: Attempt) | Release(h: nat) | Crash(h: nat)

  predicate In(s: System, h: nat, p: Phase) { h in s.phases && s.phases[h] == p }

  predicate InCritical(s: System, h: nat) { h in s.phases && s.phases[h].Critical? }

  predicate Live(s: System, h: nat) { h in s.phases && !s.phases[h].Closed? }

  function To(s: System, h: nat, p: Phase): System { s.(phases := s.phases[h := p]) }

  /** Whether a lock attempt finds the lock taken. */
  predicate Taken(b: Branch, s: System) { if b.Flock? then s.owner.Some? else s.held }

  function TryLock(b: Branch, s: System, h: nat): System {
    if Taken(b, s) then To(s, h, Rejected)
    else if b.Flock? then To(s, h, Critical(Entered)).(owner := Some(h))
    else To(s, h, Critical(Entered)).(held := true)
  }

  /** Unlocking a handle frees the lock only if that handle owns it; discarding the key frees it always. */
  function Unlock(b: Branch, s: System, h: nat): System {
    if b.LocalSet? then s.(held := false)
    else if s.owner == Some(h) then s.(owner := None)
    else s
  }

  /** The run's record, computed from the file it read on entry; nothing is written when the run raises. */
  function WriteRecord(c: Clock, s: System, h: nat, seen: StatusFile, a: Attempt): System {
    var run := a.(lockFree := true);
    var (file, exit) := Step(c, seen, run);
    if exit.Raised? then s
    else To(s, h, Critical(HasWritten)).(file := file, history := s.history + [run])
  }

  /** One step of one scheduler; an action that is not possible in the state changes nothing. */
  function Next(b: Branch, c: Clock, s: System, x: Action): System {
    match x
    case Open(h) => if h in s.phases then s else To(s, h, Opened)
    case Try(h) => if In(s, h, Opened) then TryLock(b, s, h) else s
    case Read(h) => if In(s, h, Critical(Entered)) then To(s, h, Critical(HasRead(s.file))) else s
    case Write(h, a) =>
      if InCritical(s, h) && s.phases[h].progress.HasRead? then WriteRecord(c, s, h, s.phases[h].progress.file, a)
      else s
    case Release(h) =>
      if InCritical(s, h) then To(Unlock(b, s, h), h, Closed(false))
      else if In(s, h, Rejected) then To(Unlock(b, s, h), h, Closed(true))
      else s
    case Crash(h) => if b.Flock? && Live(s, h) then To(Unlock(b, s, h), h, Closed(s.phases[h].Rejected?)) else s
  }

  function Run(b: Branch, c: Clock, s: System, actions: seq<Action>): System {
    if actions == [] then s
    else Next(b, c, Run(b, c, s, actions[..|actions| - 1]), actions[|actions| - 1])
  }

  function Initial(file: StatusFile): System { System(map[], None, false, file, []) }

  ghost predicate Exclusive(s: System) {
    forall g: nat, h: nat :: InCritical(s, g) && InCritical(s, h) ==> g == h
  }

  // ----- the flock branch -----

  /** The owner is exactly the scheduler in the critical section, and what that one has read is still the file. */
  ghost predicate Guarded(s: System) {
    && (forall h: nat :: InCritical(s, h) <==> s.owner == Some(h))
    && (forall h: nat :: InCritical(s, h) && s.phases[h].progress.HasRead? ==> s.phases[h].progress.file == s.file)
  }

  lemma NextGuarded(c: Clock, s: System, x: Action)
    requires Guarded(s)
    ensures Guarded(Next(Flock, c, s, x))
  {
    hide RunStatus.Step;
    var s' := Next(Flock, c, s, x);
    forall g: nat
      ensures InCritical(s', g) <==> s'.owner == Some(g)
      ensures InCritical(s', g) && s'.phases[g].progress.HasRead? ==> s'.phases[g].progress.file == s'.file
    {
      assert InCritical(s, g) <==> s.owner == Some(g);
      assert InCritical(s, x.h) <==> s.owner == Some(x.h);
    }
  }

  lemma FoldExtends(c: Clock, file: StatusFile, history: seq<Attempt>, run: Attempt)
    ensures Fold(c, file, history + [run]) == Step(c, Fold(c, file, history), run).0
  {
    var all := history + [run];
    assert all[..|all| - 1] == history;
    hide RunStatus.Step;
  }

  lemma NextFolds(c: Clock, file: StatusFile, s: System, x: Action)
    requires Guarded(s) && s.file == Fold(c, file, s.history)
    ensures var s' := Next(Flock, c, s, x); s'.file == Fold(c, file, s'.history)
  {
    hide RunStatus.Step, RunStatus.Fold;
    if x.Write? {
      FoldExtends(c, file, s.history, x.a.(lockFree := true));
    }
  }

  /**
   * Mutual exclusion and no lost update: in every interleaving at most one scheduler is inside, and
   * the status file is what its recorded runs, taken one after the other, make of the first file.
   */
  lemma {:induction false} FlockIsSafe(c: Clock, file: StatusFile, actions: seq<Action>)
    ensures var s := Run(Flock, c, Initial(file), actions);
      Guarded(s) && Exclusive(s) && s.file == Fold(c, file, s.history)
    decreases |actions|
  {
    hide RunStatus.Step, Next;
    if actions == [] {
    } else {
      var earlier, last := actions[..|actions| - 1], actions[|actions| - 1];
      FlockIsSafe(c, file, earlier);
      NextGuarded(c, Run(Flock, c, Initial(file), earlier), last);
      NextFolds(c, file, Run(Flock, c, Initial(file), earlier), last);
    }
  }

  /** With flock, in every interleaving: an attempt enters exactly when nobody is inside, and is rejected otherwise. */
  lemma EntersExactly(c: Clock, file: StatusFile, actions: seq<Action>, h: nat)
    requires In(Run(Flock, c, Initial(file), actions), h, Opened)
    ensures var s := Run(Flock, c, Initial(file), actions);
      var t := Next(Flock, c, s, Try(h));
      && t.file == s.file && t.history == s.history
      && t.phases == s.phases[h := if exists g: nat :: InCritical(s, g) then Rejected else Critical(Entered)]
  {
    FlockIsSafe(c, file, actions);
    hide RunStatus.Step, Run;
    var s := Run(Flock, c, Initial(file), actions);
    assert s.owner.Some? ==> InCritical(s, s.owner.value);
  }

  /** Leaving and crashing alike free the lock of the one inside, and of no one else. */
  lemma LeavesExactly(c: Clock, file: StatusFile, actions: seq<Action>, h: nat)
    ensures var s := Run(Flock, c, Initial(file), actions);
      && (InCritical(s, h) ==>
            && Next(Flock, c, s, Release(h)) == Next(Flock, c, s, Crash(h))
            && var t := Next(Flock, c, s, Crash(h));
               && t.phases == s.phases[h := Closed(false)] && (forall g: nat :: !InCritical(t, g))
               && t.owner == None && t.file == s.file && t.history == s.history)
      && (In(s, h, Rejected) ==>
            && Next(Flock, c, s, Release(h)) == s.(phases := s.phases[h := Closed(true)])
            && Next(Flock, c, s, Crash(h)) == s.(phases := s.phases[h := Closed(true)]))
      && (In(s, h, Opened) ==>
            && Next(Flock, c, s, Release(h)) == s
            && Next(Flock, c, s, Crash(h)) == s.(phases := s.phases[h := Closed(false)]))
      && (h !in s.phases || In(s, h, Closed(false)) || In(s, h, Closed(true)) ==>
            Next(Flock, c, s, Release(h)) == Next(Flock, c, s, Crash(h)) == s)
  {
    FlockIsSafe(c, file, actions);
    hide RunStatus.Step, Run;
    var s := Run(Flock, c, Initial(file), actions);
    assert In(s, h, Opened) || In(s, h, Rejected) ==> s.owner != Some(h);
    if InCritical(s, h) {
      forall g: nat
        ensures !InCritical(Next(Flock, c, s, Crash(h)), g)
      {
        assert InCritical(s, g) <==> s.owner == Some(g);
      }
    }
  }

  /** The one inside reads the file once, and then records one run against what it read, or nothing. */
  lemma ReadsAndWrites(b: Branch, c: Clock, s: System, h: nat, a: Attempt, seen: StatusFile)
    ensures In(s, h, Critical(Entered)) ==>
      Next(b, c, s, Read(h)) == s.(phases := s.phases[h := Critical(HasRead(s.file))])
    ensures !In(s, h, Critical(Entered)) ==> Next(b, c, s, Read(h)) == s
    ensures In(s, h, Critical(HasRead(seen))) ==>
      var (file, exit) := Step(c, seen, a.(lockFree := true));
      Next(b, c, s, Write(h, a))
      == if exit == Raised then s
         else s.(phases := s.phases[h := Critical(HasWritten)], file := file,
                 history := s.history + [a.(lockFree := true)])
    ensures (forall f: StatusFile :: !In(s, h, Critical(HasRead(f)))) ==> Next(b, c, s, Write(h, a)) == s
  {
    hide RunStatus.Step;
    if InCritical(s, h) && s.phases[h].progress.HasRead? {
      assert In(s, h, Critical(HasRead(s.phases[h].progress.file)));
    }
  }

  lemma AppendRecorded(history: seq<Attempt>, run: Attempt)
    requires Recordings(history) == history
    ensures Recorded(run) ==> Recordings(history + [run]) == history + [run]
  {
    assert (history + [run])[..|history|] == history;
    hide Recorded;
  }

  lemma HistoryRecorded(c: Clock, s: System, x: Action)
    requires Recordings(s.history) == s.history
    ensures var s' := Next(Flock, c, s, x); Recordings(s'.history) == s'.history
  {
    if x.Write? {
      var run := x.a.(lockFree := true);
      AppendRecorded(s.history, run);
      hide Recordings, Base, FailedStatus, SuccessStatus, WellFormed;
    } else {
      hide Recordings, RunStatus.Step;
    }
  }

  lemma {:induction false} AllRecorded(c: Clock, file: StatusFile, actions: seq<Action>)
    ensures var s := Run(Flock, c, Initial(file), actions); Recordings(s.history) == s.history
    decreases |actions|
  {
    if actions != [] {
      AllRecorded(c, file, actions[..|actions| - 1]);
      hide Next, Recordings;
      HistoryRecorded(c, Run(Flock, c, Initial(file), actions[..|actions| - 1]), actions[|actions| - 1]);
    }
  }

  /** However the schedulers of a new instance interleave, the status file reflects the runs they recorded. */
  lemma InterleavedStatusReflectsHistory(c: Clock, actions: seq<Action>)
    ensures var s := Run(Flock, c, Initial(Missing), actions);
      if s.history == [] then s.file == Missing
      else s.file.Present? && Reflects(c, s.file.status, s.history)
  {
    hide *;
    var s := Run(Flock, c, Initial(Missing), actions);
    FlockIsSafe(c, Missing, actions);
    AllRecorded(c, Missing, actions);
    StatusReflectsHistory(c, s.history);
  }

  // ----- a rejected contender -----

  /** The handle has not entered the critical section. */
  predicate KeptOut(s: System, h: nat) {
    h in s.phases ==> s.phases[h].Opened? || s.phases[h].Rejected? || s.phases[h] == Closed(true)
  }

  function Without(actions: seq<Action>, h: nat): seq<Action> {
    if actions == [] then []
    else
      var earlier, last := Without(actions[..|actions| - 1], h), actions[|actions| - 1];
      if last.h == h then earlier else earlier + [last]
  }

  function Hide(s: System, h: nat): System { s.(phases := s.phases - {h}) }

  lemma KeptOutEarlier(c: Clock, s: System, x: Action, h: nat)
    requires KeptOut(Next(Flock, c, s, x), h)
    ensures KeptOut(s, h)
  {
    hide RunStatus.Step;
  }

  lemma HideTo(s: System, h: nat, k: nat, p: Phase)
    ensures k != h ==> Hide(To(s, k, p), h) == To(Hide(s, h), k, p)
    ensures k == h ==> Hide(To(s, k, p), h) == Hide(s, h)
  {
    if k != h {
      assert s.phases[k := p] - {h} == (s.phases - {h})[k := p];
    } else {
      assert s.phases[k := p] - {h} == s.phases - {h};
    }
  }

  lemma OtherStep(c: Clock, s: System, x: Action, h: nat)
    requires x.h != h
    ensures Hide(Next(Flock, c, s, x), h) == Next(Flock, c, Hide(s, h), x)
  {
    hide RunStatus.Step, To;
    var unlocked := Unlock(Flock, s, x.h);
    match x
    case Open(k) => HideTo(s, h, k, Opened);
    case Try(k) =>
      HideTo(s, h, k, Rejected);
      HideTo(s, h, k, Critical(Entered));
    case Read(k) => HideTo(s, h, k, Critical(HasRead(s.file)));
    case Write(k, _) => HideTo(s, h, k, Critical(HasWritten));
    case Release(k) =>
      HideTo(unlocked, h, k, Closed(false));
      HideTo(unlocked, h, k, Closed(true));
    case Crash(k) =>
      HideTo(unlocked, h, k, Closed(false));
      HideTo(unlocked, h, k, Closed(true));
  }

  lemma OwnStep(c: Clock, s: System, x: Action)
    requires Guarded(s) && KeptOut(s, x.h) && KeptOut(Next(Flock, c, s, x), x.h)
    ensures Hide(Next(Flock, c, s, x), x.h) == Hide(s, x.h)
  {
    hide RunStatus.Step;
    assert InCritical(s, x.h) <==> s.owner == Some(x.h);
    forall p: Phase
      ensures Hide(To(s, x.h, p), x.h) == Hide(s, x.h)
      ensures Hide(To(Unlock(Flock, s, x.h), x.h, p), x.h) == Hide(Unlock(Flock, s, x.h), x.h)
    {
      HideTo(s, x.h, x.h, p);
      HideTo(Unlock(Flock, s, x.h), x.h, x.h, p);
    }
  }

  lemma RunExtends(b: Branch, c: Clock, s: System, actions: seq<Action>, x: Action)
    ensures Run(b, c, s, actions + [x]) == Next(b, c, Run(b, c, s, actions), x)
  {
    var all := actions + [x];
    assert all[..|all| - 1] == actions;
    hide Next;
  }

  /**
   * A contender that was kept out might as well not have come: in every interleaving, deleting all its
   * steps changes neither the lock, the status, the history nor any other scheduler.
   */
  lemma {:induction false} RejectedLeavesNoTrace(c: Clock, file: StatusFile, actions: seq<Action>, h: nat)
    requires KeptOut(Run(Flock, c, Initial(file), actions), h)
    ensures Hide(Run(Flock, c, Initial(file), actions), h)
            == Hide(Run(Flock, c, Initial(file), Without(actions, h)), h)
    decreases |actions|
  {
    if actions != [] {
      var earlier, last := actions[..|actions| - 1], actions[|actions| - 1];
      var s, t := Run(Flock, c, Initial(file), earlier), Run(Flock, c, Initial(file), Without(earlier, h));
      hide Next, Guarded, KeptOut, Hide;
      KeptOutEarlier(c, s, last, h);
      RejectedLeavesNoTrace(c, file, earlier, h);
      if last.h == h {
        FlockIsSafe(c, file, earlier);
        OwnStep(c, s, last);
      } else {
        OtherStep(c, s, last, h);
        OtherStep(c, t, last, h);
        RunExtends(Flock, c, Initial(file), Without(earlier, h), last);
      }
    }
  }

  // ----- the branch without flock -----

  /** No attempt on the lock finds the key taken. */
  predicate Polite(c: Clock, s: System, actions: seq<Action>) {
    actions == []
    || (var earlier, last := actions[..|actions| - 1], actions[|actions| - 1];
        && Polite(c, s, earlier)
        && !(last.Try? && In(Run(LocalSet, c, s, earlier), last.h, Opened) && Run(LocalSet, c, s, earlier).held))
  }

  /** Nobody waits to discard the key, and a holder's key is in the set. */
  ghost predicate Settled(s: System) {
    && (forall h: nat :: !In(s, h, Rejected))
    && (forall h: nat :: InCritical(s, h) ==> s.held)
  }

  lemma PoliteStep(c: Clock, s: System, x: Action)
    requires Exclusive(s) && Settled(s)
    requires !(x.Try? && In(s, x.h, Opened) && s.held)
    ensures Exclusive(Next(LocalSet, c, s, x)) && Settled(Next(LocalSet, c, s, x))
  {
    hide RunStatus.Step;
    var s' := Next(LocalSet, c, s, x);
    forall g: nat
      ensures !In(s', g, Rejected)
      ensures InCritical(s', g) ==> s'.held && (InCritical(s, g) || (g == x.h && !s.held))
    {
      assert !In(s, g, Rejected) && !In(s, x.h, Rejected);
      assert InCritical(s, g) && InCritical(s, x.h) ==> g == x.h;
    }
  }

  lemma {:induction false} PoliteRunsAreSafe(c: Clock, s: System, actions: seq<Action>)
    requires Exclusive(s) && Settled(s) && Polite(c, s, actions)
    ensures Exclusive(Run(LocalSet, c, s, actions)) && Settled(Run(LocalSet, c, s, actions))
    decreases |actions|
  {
    hide Next, Exclusive, Settled;
    if actions != [] {
      PoliteRunsAreSafe(c, s, actions[..|actions| - 1]);
      PoliteStep(c, Run(LocalSet, c, s, actions[..|actions| - 1]), actions[|actions| - 1]);
    }
  }

  /** While the key is in the set, whoever put it there is still inside. */
  ghost predicate KeyHasHolder(s: System) {
    s.held ==> exists h: nat :: InCritical(s, h)
  }

  lemma KeyHasHolderStep(c: Clock, s: System, x: Action)
    requires KeyHasHolder(s)
    ensures KeyHasHolder(Next(LocalSet, c, s, x))
  {
    hide RunStatus.Step;
    var s' := Next(LocalSet, c, s, x);
    if s'.held {
      if s.held {
        var h: nat :| InCritical(s, h);
        assert InCritical(s', h);
      } else {
        assert InCritical(s', x.h);
      }
    }
  }

  lemma {:induction false} KeyAlwaysHasHolder(c: Clock, file: StatusFile, actions: seq<Action>)
    ensures KeyHasHolder(Run(LocalSet, c, Initial(file), actions))
    decreases |actions|
  {
    if actions != [] {
      KeyAlwaysHasHolder(c, file, actions[..|actions| - 1]);
      KeyHasHolderStep(c, Run(LocalSet, c, Initial(file), actions[..|actions| - 1]), actions[|actions| - 1]);
    }
  }

  lemma {:induction false} FreshHandle(used: set<nat>) returns (h: nat)
    ensures forall g :: g in used ==> g < h
    decreases |used|
  {
    if used == {} {
      h := 0;
    } else {
      var g :| g in used;
      var k := FreshHandle(used - {g});
      h := if g < k then k else g + 1;
      assert forall f :: f in used ==> f == g || f in used - {g};
    }
  }

  lemma PoliteExtends(c: Clock, s: System, actions: seq<Action>, x: Action)
    requires Polite(c, s, actions)
    requires !(x.Try? && In(Run(LocalSet, c, s, actions), x.h, Opened) && Run(LocalSet, c, s, actions).held)
    ensures Polite(c, s, actions + [x])
  {
    var all := actions + [x];
    assert all[..|all| - 1] == actions;
    hide Next;
  }

  /** A newcomer enters whenever the key is absent. */
  lemma Newcomer(c: Clock, s: System, before: seq<Action>) returns (n: nat, actions: seq<Action>)
    requires Polite(c, s, before) && !Run(LocalSet, c, s, before).held
    ensures actions == before + [Open(n)] + [Try(n)] && Polite(c, s, actions)
    ensures n !in Run(LocalSet, c, s, before).phases
    ensures Run(LocalSet, c, s, actions) == To(Run(LocalSet, c, s, before), n, Critical(Entered)).(held := true)
  {
    var t := Run(LocalSet, c, s, before);
    n := FreshHandle(t.phases.Keys);
    assert n !in t.phases.Keys;
    actions := before + [Open(n)] + [Try(n)];
    RunExtends(LocalSet, c, s, before, Open(n));
    RunExtends(LocalSet, c, s, before + [Open(n)], Try(n));
    PoliteExtends(c, s, before, Open(n));
    PoliteExtends(c, s, before + [Open(n)], Try(n));
    assert t.phases[n := Opened][n := Critical(Entered)] == t.phases[n := Critical(Entered)];
  }

  /** From an unsettled state a polite continuation ends with two schedulers inside. */
  lemma Endangered(c: Clock, s: System) returns (actions: seq<Action>)
    requires KeyHasHolder(s) && !Settled(s)
    ensures Polite(c, s, actions) && !Exclusive(Run(LocalSet, c, s, actions))
  {
    hide Polite, Next, Run;
    var h, before := OneInsideKeyGone(c, s);
    var n, all := Newcomer(c, s, before);
    actions := all;
    var t, u := Run(LocalSet, c, s, before), Run(LocalSet, c, s, actions);
    assert InCritical(t, h) && InCritical(u, h) && InCritical(u, n) && h != n;
  }

  lemma OneInsideKeyGone(c: Clock, s: System) returns (h: nat, before: seq<Action>)
    requires KeyHasHolder(s) && !Settled(s)
    ensures Polite(c, s, before) && InCritical(Run(LocalSet, c, s, before), h) && !Run(LocalSet, c, s, before).held
  {
    if g: nat :| InCritical(s, g) && !s.held {
      h, before := g, [];
    } else {
      var r: nat :| In(s, r, Rejected);
      h, before := OneInside(c, s, r);
      Discard(c, s, before, h, r);
      before := before + [Release(r)];
    }
  }

  lemma OneInside(c: Clock, s: System, r: nat) returns (h: nat, before: seq<Action>)
    requires KeyHasHolder(s) && In(s, r, Rejected)
    ensures Polite(c, s, before) && InCritical(Run(LocalSet, c, s, before), h)
    ensures In(Run(LocalSet, c, s, before), r, Rejected)
  {
    if s.held {
      before := [];
      h :| InCritical(s, h);
    } else {
      h, before := Newcomer(c, s, []);
    }
  }

  lemma Discard(c: Clock, s: System, before: seq<Action>, h: nat, r: nat)
    requires Polite(c, s, before)
    requires InCritical(Run(LocalSet, c, s, before), h) && In(Run(LocalSet, c, s, before), r, Rejected)
    ensures Polite(c, s, before + [Release(r)])
    ensures InCritical(Run(LocalSet, c, s, before + [Release(r)]), h)
    ensures !Run(LocalSet, c, s, before + [Release(r)]).held
  {
    RunExtends(LocalSet, c, s, before, Release(r));
    PoliteExtends(c, s, before, Release(r));
    hide Polite, Run;
  }

  /**
   * Without flock the lock is safe from a reached state on, for schedulers that only try a free lock,
   * exactly when no rejected contender is about to discard the key and every holder's key is in place.
   */
  lemma LocalSetIsSafeExactlyWhenSettled(c: Clock, file: StatusFile, actions: seq<Action>)
    requires Exclusive(Run(LocalSet, c, Initial(file), actions))
    ensures var s := Run(LocalSet, c, Initial(file), actions);
      (forall more :: Polite(c, s, more) ==> Exclusive(Run(LocalSet, c, s, more))) <==> Settled(s)
  {
    var s := Run(LocalSet, c, Initial(file), actions);
    hide Exclusive, Settled, Polite, Next;
    KeyAlwaysHasHolder(c, file, actions);
    if Settled(s) {
      forall more | Polite(c, s, more)
        ensures Exclusive(Run(LocalSet, c, s, more))
      {
        PoliteRunsAreSafe(c, s, more);
      }
    } else {
      var more := Endangered(c, s);
    }
  }

  /** One attempt on a taken key is enough to unsettle the lock. */
  lemma AttemptOnTakenKey(c: Clock, s: System, h: nat)
    requires In(s, h, Opened) && s.held
    ensures !Settled(Next(LocalSet, c, s, Try(h)))
  {
    assert In(Next(LocalSet, c, s, Try(h)), h, Rejected);
  }

  function FailedRun(): Attempt {
    Attempt("daily", true, 0, 0, BackupRaised(SchedulerFailure), RetentionPassed)
  }

  /** A contender is rejected, discards the holder's key, and lets a third scheduler in beside the holder. */
  function BesideTheHolder(): seq<Action> {
    [Open(0), Try(0), Open(1), Try(1), Release(1), Open(2), Try(2)]
  }

  lemma {:induction false} RunConcatenation(b: Branch, c: Clock, s: System, first: seq<Action>, second: seq<Action>)
    ensures Run(b, c, s, first + second) == Run(b, c, Run(b, c, s, first), second)
    decreases |second|
  {
    hide Next;
    if second == [] {
      assert first + second == first;
    } else {
      var shorter, last := second[..|second| - 1], second[|second| - 1];
      RunConcatenation(b, c, s, first, shorter);
      assert first + second == first + shorter + [last];
      RunExtends(b, c, s, first + shorter, last);
    }
  }

  lemma RunTwo(b: Branch, c: Clock, s: System, x: Action, y: Action)
    ensures Run(b, c, s, [x, y]) == Next(b, c, Next(b, c, s, x), y)
  {
    assert [x, y] == [] + [x] + [y];
    RunExtends(b, c, s, [], x);
    RunExtends(b, c, s, [] + [x], y);
    hide Next;
  }

  lemma Contended(c: Clock, file: StatusFile)
    ensures Run(LocalSet, c, Initial(file), [Open(0), Try(0)] + [Open(1), Try(1)])
            == System(map[0 := Critical(Entered), 1 := Rejected], None, true, file, [])
  {
    hide RunStatus.Step, WriteRecord;
    var s := Initial(file);
    RunConcatenation(LocalSet, c, s, [Open(0), Try(0)], [Open(1), Try(1)]);
    RunTwo(LocalSet, c, s, Open(0), Try(0));
    RunTwo(LocalSet, c, Run(LocalSet, c, s, [Open(0), Try(0)]), Open(1), Try(1));
    hide Run;
    assert Run(LocalSet, c, s, [Open(0), Try(0)]) == System(map[0 := Critical(Entered)], None, true, file, []);
  }

  lemma TwoInside(c: Clock, file: StatusFile)
    ensures Run(LocalSet, c, Initial(file), BesideTheHolder())
            == System(map[0 := Critical(Entered), 1 := Closed(true), 2 := Critical(Entered)], None, true, file, [])
  {
    hide RunStatus.Step, WriteRecord;
    var s, contended, third := Initial(file), [Open(0), Try(0)] + [Open(1), Try(1)], [Release(1), Open(2)];
    assert BesideTheHolder() == contended + third + [Try(2)];
    Contended(c, file);
    RunExtends(LocalSet, c, s, contended + third, Try(2));
    RunConcatenation(LocalSet, c, s, contended, third);
    RunTwo(LocalSet, c, Run(LocalSet, c, s, contended), Release(1), Open(2));
    hide Run, BesideTheHolder;
  }

  /** Two schedulers inside, each having read the first file. */
  lemma BothRead(c: Clock, s: System)
    requires s.phases == map[0 := Critical(Entered), 1 := Closed(true), 2 := Critical(Entered)]
    ensures var seen := Critical(HasRead(s.file));
      Run(LocalSet, c, s, [Read(0), Read(2)]) == s.(phases := map[0 := seen, 1 := Closed(true), 2 := seen])
  {
    RunTwo(LocalSet, c, s, Read(0), Read(2));
    hide Run, RunStatus.Step;
  }

  /** What a failed run makes of a file. */
  function Failing(c: Clock, file: StatusFile): StatusFile {
    Present(FailedStatus(Base(c, file, 0), FailedRun(), SchedulerFailure, false))
  }

  lemma StepFailedRun(c: Clock, file: StatusFile)
    requires !file.Unreadable?
    ensures FailedRun().(lockFree := true) == FailedRun()
    ensures RunStatus.Step(c, file, FailedRun()) == (Failing(c, file), Code(1))
  {
  }

  lemma BothWrite(c: Clock, s: System, seen: StatusFile)
    requires !seen.Unreadable?
    requires s.phases == map[0 := Critical(HasRead(seen)), 1 := Closed(true), 2 := Critical(HasRead(seen))]
    ensures var t := Run(LocalSet, c, s, [Write(0, FailedRun()), Write(2, FailedRun())]);
      t.file == Failing(c, seen) && t.history == s.history + [FailedRun()] + [FailedRun()]
  {
    StepFailedRun(c, seen);
    RunTwo(LocalSet, c, s, Write(0, FailedRun()), Write(2, FailedRun()));
    hide Run, RunStatus.Step, Failing, FailedRun;
  }

  function TwoWrites(): seq<Action> { [Write(0, FailedRun()), Write(2, FailedRun())] }

  /** Two failed runs side by side then count as one: the second overwrites what the first recorded. */
  lemma LostUpdate(c: Clock)
    ensures var s := Run(LocalSet, c, Initial(Missing), BesideTheHolder() + [Read(0), Read(2)] + TwoWrites());
      s.history == [FailedRun(), FailedRun()] && s.file.Present? && s.file.status.failures == 1
  {
    hide RunStatus.Step, Next, Run, FailedRun, BesideTheHolder;
    var s := Run(LocalSet, c, Initial(Missing), BesideTheHolder());
    TwoInside(c, Missing);
    BothRead(c, s);
    BothWrite(c, Run(LocalSet, c, s, [Read(0), Read(2)]), Missing);
    RunConcatenation(LocalSet, c, Initial(Missing), BesideTheHolder() + [Read(0), Read(2)], TwoWrites());
    RunConcatenation(LocalSet, c, Initial(Missing), BesideTheHolder(), [Read(0), Read(2)]);
  }
}
