/** Downloads end: no run of one gets stuck, and one that stops without an error has every chunk. */
module HubProgress {
  import opened Options
  import opened Hub

  /** Worker k holds chunk i. */
  predicate Claims(s: State, i: nat, k: nat) {
    k < |s.workers| && Holding(s.workers[k]) && s.workers[k].first <= i < s.workers[k].end
  }

  /** Until an error, each chunk handed out is done or held, and a worker stops only when all are handed out. */
  ghost predicate Cover(e: Env, s: State)
    requires Shape(e, s)
  {
    !s.failed ==>
      && (forall i | 0 <= i < |s.done| && i < s.next && !s.done[i] :: exists k :: Claims(s, i, k))
      && (forall k | 0 <= k < |s.workers| && s.workers[k] == Stopped :: s.next >= |s.done|)
  }

  predicate Tries(w: Worker) { w.Attempt? || w.Transfer? ==> 1 <= w.n <= ATTEMPTS }

  predicate AllTry(s: State) { forall k | 0 <= k < |s.workers| :: Tries(s.workers[k]) }

  /** A worker moves on within its claim. */
  lemma HeldCover(e: Env, s: State, t: State, k: nat)
    requires Shape(e, s) && Shape(e, t) && Cover(e, s) && k < |s.workers| && t.failed == s.failed && t.next == s.next
    requires Holding(s.workers[k]) && Holding(t.workers[k]) && t.workers[k].first == s.workers[k].first && t.workers[k].end == s.workers[k].end
    requires (forall l | 0 <= l < |s.workers| && l != k :: t.workers[l] == s.workers[l]) && (forall i | 0 <= i < |s.done| && s.done[i] :: t.done[i])
    ensures Cover(e, t)
  {
    if !t.failed {
      forall i | 0 <= i < |t.done| && i < t.next && !t.done[i] ensures exists l :: Claims(t, i, l) {
        var l :| Claims(s, i, l);
        assert Claims(t, i, l);
      }
    }
  }

  lemma ClaimCover(e: Env, s: State, k: nat)
    requires Good(e, s) && Sane(e, s) && Cover(e, s) && Enabled(e, s, Claim(k))
    ensures Shape(e, Step(e, s, Claim(k))) && Cover(e, Step(e, s, Claim(k)))
  {
    hide MarksOk, ClaimsOk, Chunks;
    var t := Step(e, s, Claim(k));
    if !t.failed {
      forall i | 0 <= i < |t.done| && i < t.next && !t.done[i] ensures exists l :: Claims(t, i, l) {
        if i < s.next {
          var l :| Claims(s, i, l);
          assert Claims(t, i, l);
        } else {
          assert Claims(t, i, k);
        }
      }
    }
  }

  lemma RescanCover(e: Env, s: State, k: nat)
    requires Good(e, s) && Sane(e, s) && Cover(e, s) && Enabled(e, s, Rescan(k))
    ensures Shape(e, Step(e, s, Rescan(k))) && Cover(e, Step(e, s, Rescan(k)))
  {
    hide MarksOk, Chunks;
    var w, t := s.workers[k], Step(e, s, Rescan(k));
    HolderOk(e, s, k);
    if Missing(s.done, w.at, w.end).Some? {
      HeldCover(e, s, t, k);
    } else if !t.failed {
      forall i | 0 <= i < |t.done| && i < t.next && !t.done[i] ensures exists l :: Claims(t, i, l) {
        var l :| Claims(s, i, l);
        assert l != k;
        assert Claims(t, i, l);
      }
    }
  }

  lemma OpenedCover(e: Env, part: Data, flags: seq<bool>, bodies: seq<Data>)
    requires |part| >= |e.source| && |flags| == |bodies| == Chunks(|e.source|) && e.run >= 1
    ensures var t := Opened(e, part, flags, bodies); Shape(e, t) && Cover(e, t) && AllTry(t)
  {
    hide Total;
  }

  lemma MoveCover(e: Env, s: State, a: Action)
    requires Good(e, s) && Sane(e, s) && Cover(e, s) && Enabled(e, s, a)
    requires a.Begin? || a.Deliver? || a.MarkDisk? || a.MarkCount? || a.MarkDone? || a.Close?
    ensures Shape(e, Step(e, s, a)) && Cover(e, Step(e, s, a))
  {
    hide MarksOk, ClaimsOk, Chunks, Cover, Total, ChunkOf, Put, Limit;
    var t := Step(e, s, a);
    StepKeeps(e, s, a);
    GoodShape(e, t);
    if Holding(t.workers[a.k]) {
      HeldCover(e, s, t, a.k);
    } else {
      FailedCover(e, t);
    }
  }

  lemma FailedCover(e: Env, t: State)
    requires Shape(e, t) && t.failed
    ensures Cover(e, t)
  {}

  lemma StepCover(e: Env, s: State, a: Action)
    requires Good(e, s) && Sane(e, s) && Cover(e, s) && AllTry(s) && Enabled(e, s, a)
    ensures Shape(e, Step(e, s, a)) && Cover(e, Step(e, s, a)) && AllTry(Step(e, s, a))
  {
    hide MarksOk, ClaimsOk, Chunks, Cover, Total, ChunkOf, Put, Limit;
    StepTries(e, s, a);
    match a
    case Claim(k) => ClaimCover(e, s, k);
    case Rescan(k) => RescanCover(e, s, k);
    case HashChunk => HashCover(e, s);
    case Finish => FinishCover(e, s);
    case Crash => OpenedCover(e, s.part, s.flags, s.bodies);
    case _ => MoveCover(e, s, a);
  }

  lemma HashCover(e: Env, s: State)
    requires Good(e, s) && Sane(e, s) && Cover(e, s) && Enabled(e, s, HashChunk)
    ensures Shape(e, Step(e, s, HashChunk)) && Cover(e, Step(e, s, HashChunk))
  {
    hide MarksOk, ClaimsOk, Limit;
    var t := Step(e, s, HashChunk);
    if !t.failed {
      forall i | 0 <= i < |t.done| && i < t.next && !t.done[i] ensures exists l :: Claims(t, i, l) {
        var l :| Claims(s, i, l);
        assert Claims(t, i, l);
      }
    }
  }

  lemma FinishCover(e: Env, s: State)
    requires Good(e, s) && Sane(e, s) && Cover(e, s) && Enabled(e, s, Finish)
    ensures Shape(e, Step(e, s, Finish)) && Cover(e, Step(e, s, Finish))
  {
    hide MarksOk, ClaimsOk, Limit, Total;
    OpenedCover(e, s.part, s.flags, s.bodies);
    OpenedCover(e, s.part, seq(Chunks(|e.source|), _ => false), s.bodies);
  }

  lemma StepTries(e: Env, s: State, a: Action)
    requires Sane(e, s) && AllTry(s) && Enabled(e, s, a)
    ensures AllTry(Step(e, s, a))
  {
    hide Chunks, Total, ChunkOf, Put, Limit;
  }

  lemma {:induction false} RunCover(e: Env, part: Data, actions: seq<Action>)
    requires |part| == |e.source| && e.run >= 1 && Execute(e, part, actions).Some?
    ensures var s := Execute(e, part, actions).value; Cover(e, s) && AllTry(s)
    decreases |actions|
  {
    hide MarksOk, ClaimsOk, Sane, Enabled, Step, Cover, AllTry;
    if actions == [] {
      OpenedCover(e, part, seq(Chunks(|e.source|), _ => false), seq(Chunks(|e.source|), _ => []));
    } else {
      var prefix := actions[..|actions| - 1];
      RunCover(e, part, prefix);
      StepCover(e, Execute(e, part, prefix).value, actions[|actions| - 1]);
    }
  }

  /** In every run, when all workers have stopped and none has failed, every chunk is done. */
  lemma StoppedMeansDone(e: Env, part: Data, actions: seq<Action>)
    requires |part| == |e.source| && e.run >= 1 && e.workers >= 1 && Execute(e, part, actions).Some?
    ensures var s := Execute(e, part, actions).value;
      !s.failed && (forall k | 0 <= k < |s.workers| :: s.workers[k] == Stopped) ==> forall i | 0 <= i < |s.done| :: s.done[i]
  {
    hide Execute, MarksOk, ClaimsOk, Sane;
    RunCover(e, part, actions);
    var s := Execute(e, part, actions).value;
    if !s.failed && forall k | 0 <= k < |s.workers| :: s.workers[k] == Stopped {
      assert s.workers[0] == Stopped;
      forall i | 0 <= i < |s.done| ensures s.done[i] {
        assert forall k :: !Claims(s, i, k);
      }
    }
  }

  /** No run gets stuck: until the file has its name there is a step to take, without the process being killed. */
  lemma NeverStuck(e: Env, part: Data, actions: seq<Action>)
    requires |part| == |e.source| && e.run >= 1 && e.workers >= 1 && Execute(e, part, actions).Some?
    ensures var s := Execute(e, part, actions).value; s.target.None? ==> exists a: Action :: !a.Crash? && Enabled(e, s, a)
  {
    hide Execute, MarksOk, ClaimsOk, Limit;
    var s := Execute(e, part, actions).value;
    StoppedMeansDone(e, part, actions);
    if s.target.None? {
      if exists k | 0 <= k < |s.workers| :: s.workers[k] != Stopped {
        var k: nat :| k < |s.workers| && s.workers[k] != Stopped;
        WorkerStep(e, s, k);
      } else if s.failed || s.hashing == |s.done| {
        assert Enabled(e, s, Finish);
      } else {
        assert Enabled(e, s, HashChunk);
      }
    }
  }

  lemma WorkerStep(e: Env, s: State, k: nat)
    requires Sane(e, s) && s.target.None? && k < |s.workers| && s.workers[k] != Stopped
    ensures exists a: Action :: !a.Crash? && Enabled(e, s, a)
  {
    hide Limit, Chunks;
    match s.workers[k]
    case Ready => assert Enabled(e, s, Claim(k));
    case Scan(_, _, _) => assert Enabled(e, s, Rescan(k));
    case Attempt(_, _, _, _, _) => assert Enabled(e, s, Begin(k));
    case Transfer(_, _, _, _, _, _, _, _, step, _) =>
      if step == 0 {
        if Whole(e, s.workers[k]) { assert Enabled(e, s, MarkDisk(k)); } else { assert Enabled(e, s, Close(k, false)); }
      } else if step == 1 {
        assert Enabled(e, s, MarkCount(k));
      } else {
        assert Enabled(e, s, MarkDone(k));
      }
  }

  /** A download fails only by a worker's last attempt, and no run of chunks is asked for more than ATTEMPTS times. */
  lemma AttemptsInRun(e: Env, part: Data, actions: seq<Action>, k: nat, a: Action)
    requires |part| == |e.source| && e.run >= 1 && Execute(e, part, actions).Some?
    requires k < |Execute(e, part, actions).value.workers| && Enabled(e, Execute(e, part, actions).value, a)
    ensures var s := Execute(e, part, actions).value; var w := s.workers[k];
      && (w.Attempt? || w.Transfer? ==> 1 <= w.n <= 5)
      && (!s.failed && Step(e, s, a).failed ==> a.Close? && s.workers[a.k].n == 5)
  {
    hide Execute, MarksOk, ClaimsOk, Total, Limit, ChunkOf, Put;
    RunCover(e, part, actions);
    assert Tries(Execute(e, part, actions).value.workers[k]);
  }

  /** How a download ends: renamed exactly on a matching digest without failure; a mismatch forgets every mark, a failure none. */
  lemma FinishExact(e: Env, s: State)
    requires Sane(e, s) && Enabled(e, s, Finish)
    ensures var t := Step(e, s, Finish);
      && (t.target.Some? <==> !s.failed && e.digest(s.hashed) == e.sha)
      && (t.target.Some? ==> t.target.value == s.part)
      && (s.failed ==> t.flags == s.flags && t.done == s.flags && !t.failed)
      && (!s.failed && t.target.None? ==> forall i | 0 <= i < |t.flags| :: !t.flags[i] && !t.done[i])
  {
    hide Total, Limit;
  }
}
