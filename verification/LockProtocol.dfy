/**
 Any number of processes, each going through AcquireLock, a service call and ReleaseLock, interleaved
 statement by statement on one server. Critical sections never overlap, pooled sessions are clean, and the
 database is always as if the calls had run one after the other.
 */
module LockProtocol {
  import opened Text
  import opened Ledger
  import opened Calls
  import opened Runs
  import opened Steps
  import opened Sessions

  // ---------------------------------------------------------------------------------------------
  // Processes

  /** Where a process is in AcquireLock, its critical section, or ReleaseLock; sid is its lock connection. */
  datatype Pc =
    | Outside
    | Connected(sid: nat)
    | InTx(sid: nat)
    | TimeoutSet(sid: nat)
    | Granted(sid: nat)
    | Undoing(sid: nat)   // an error in the transaction; the deferred Rollback is next
    | Scrubbing(sid: nat) // then releaseAllAndClose
    | Critical(sid: nat, call: Call, stage: Stage)
    | Releasing(sid: nat)

  datatype Proc = Proc(pc: Pc, lockConn: Option<nat>, isLockAcquired: bool)

  datatype Completed = Completed(call: Call, answer: Answer)

  /** `log` is the history of completed calls. */
  datatype Cluster = Cluster(sessions: seq<Session>, procs: seq<Proc>, world: World, log: seq<Completed>)

  /** What a process does next, and how its statement fares. */
  datatype Action =
    | DoConnect(sid: nat) // an idle session of its pool, or a new one
    | DoBegin(reply: Reply)
    | DoSetTimeout(reply: Reply)
    | DoLock(reply: Reply)
    | DoCommit(reply: Reply, call: Call)
    | DoRollback(ok: bool)
    | DoScrub(ok: bool)
    | DoWork
    | DoFinish
    | DoUnlock(answers: bool)

  /** No session but this one holds the lock. */
  predicate IsFree(sessions: seq<Session>, sid: nat) {
    forall i :: 0 <= i < |sessions| && i != sid ==> sessions[i].holds == 0
  }

  function Moved(c: Cluster, p: nat, pc: Pc, sid: nat, s: Session): Cluster
    requires p < |c.procs| && sid < |c.sessions|
  {
    c.(sessions := c.sessions[sid := s], procs := c.procs[p := c.procs[p].(pc := pc)])
  }

  /** The action is one that process p can take now; the server answers a lock request truthfully. */
  predicate Enabled(c: Cluster, p: nat, a: Action) {
    && p < |c.procs|
    && var pc := c.procs[p].pc;
    && (pc.Outside? || pc.sid < |c.sessions|)
    && match a
       case DoConnect(sid) =>
         pc.Outside? && !c.procs[p].isLockAcquired
         && (sid == |c.sessions| || (sid < |c.sessions| && c.sessions[sid].place == Idle && c.sessions[sid].owner == p))
       case DoBegin(_) => pc.Connected?
       case DoSetTimeout(_) => pc.InTx?
       case DoLock(reply) => pc.TimeoutSet? && (reply.Done? || reply.landed ==> IsFree(c.sessions, pc.sid))
       case DoCommit(_, call) => pc.Granted? && CallOk(call)
       case DoRollback(_) => pc.Undoing?
       case DoScrub(_) => pc.Scrubbing?
       case DoWork => pc.Critical? && !pc.stage.Ended?
       case DoFinish => pc.Critical? && pc.stage.Ended?
       case DoUnlock(answers) => pc.Releasing?
  }

  function Do(c: Cluster, p: nat, a: Action): Cluster
    requires Enabled(c, p, a)
  {
    var proc := c.procs[p];
    var pc := proc.pc;
    match a
    case DoConnect(sid) =>
      if sid == |c.sessions| then
        c.(sessions := c.sessions + [NewSession(p)], procs := c.procs[p := proc.(pc := Connected(sid))])
      else Moved(c, p, Connected(sid), sid, c.sessions[sid].(place := Lent(p)))
    case DoBegin(r) =>
      Moved(c, p, if r.Done? then InTx(pc.sid) else Scrubbing(pc.sid), pc.sid, Begin(c.sessions[pc.sid], r))
    case DoSetTimeout(r) =>
      Moved(c, p, if r.Done? then TimeoutSet(pc.sid) else Undoing(pc.sid), pc.sid, SetTimeout(c.sessions[pc.sid], r))
    case DoLock(r) =>
      Moved(c, p, if r.Done? then Granted(pc.sid) else Undoing(pc.sid), pc.sid, Lock(c.sessions[pc.sid], r))
    case DoCommit(r, call) =>
      var d := Moved(c, p, Scrubbing(pc.sid), pc.sid, Commit(c.sessions[pc.sid], r));
      if r.Done? then d.(procs := c.procs[p := Proc(Critical(pc.sid, call, Begun), Some(pc.sid), true)]) else d
    case DoRollback(ok) => Moved(c, p, Scrubbing(pc.sid), pc.sid, Rollback(c.sessions[pc.sid], ok))
    case DoScrub(ok) => Moved(c, p, Outside, pc.sid, ReleaseAllAndClose(c.sessions[pc.sid], ok))
    case DoWork =>
      var m := Next(c.world, pc.call, pc.stage);
      c.(procs := c.procs[p := proc.(pc := pc.(stage := m.stage))], world := m.world)
    case DoFinish =>
      c.(procs := c.procs[p := Proc(Releasing(pc.sid), None, false)], log := c.log + [Completed(pc.call, pc.stage.answer)])
    case DoUnlock(answers) =>
      var s := c.sessions[pc.sid];
      Moved(c, p, Outside, pc.sid, Unlock(s, UnlockReplyOf(s, answers)))
  }

  // ---------------------------------------------------------------------------------------------
  // The invariant

  /** What a process knows about its session at each point. */
  predicate Knows(pc: Pc, s: Session) {
    match pc
    case Outside => true
    case Connected(_) => IsClean(s) && !s.broken
    case InTx(_) => s.holds == 0 && s.inTx && !s.timeout && !s.broken
    case TimeoutSet(_) => s.holds == 0 && s.inTx && !s.broken
    case Granted(_) => s.holds == 1 && s.inTx && !s.broken
    case Undoing(_) => s.holds <= 1
    case Scrubbing(_) => s.holds <= 1 && (!s.broken ==> !s.inTx && !s.timeout)
    case Critical(_, _, _) => s.holds == 1 && !s.inTx && !s.timeout && !s.broken
    case Releasing(_) => s.holds == 1 && !s.inTx && !s.timeout && !s.broken
  }

  predicate ProcOk(c: Cluster, p: nat)
    requires p < |c.procs|
  {
    var proc := c.procs[p];
    && (!proc.pc.Outside? ==>
          && proc.pc.sid < |c.sessions| && c.sessions[proc.pc.sid].place == Lent(p)
          && Knows(proc.pc, c.sessions[proc.pc.sid]))
    && (proc.isLockAcquired <==> proc.lockConn.Some?)
    && (proc.isLockAcquired <==> proc.pc.Critical?)
    && (proc.pc.Critical? ==> proc.lockConn == Some(proc.pc.sid))
  }

  /** In the pool only clean sessions; out of it only those that a process is using. */
  predicate SessionOk(c: Cluster, i: nat)
    requires i < |c.sessions|
  {
    match c.sessions[i].place
    case Idle => IsClean(c.sessions[i]) && !c.sessions[i].broken
    case Gone => IsClean(c.sessions[i])
    case Lent(p) => p < |c.procs| && !c.procs[p].pc.Outside? && c.procs[p].pc.sid == i
  }

  ghost predicate ServerOk(c: Cluster) {
    && (forall p :: 0 <= p < |c.procs| ==> ProcOk(c, p))
    && (forall i :: 0 <= i < |c.sessions| ==> SessionOk(c, i))
    && (forall i, j :: 0 <= i < j < |c.sessions| ==> c.sessions[i].holds == 0 || c.sessions[j].holds == 0)
  }

  function CallsOf(log: seq<Completed>): (calls: seq<Call>)
    ensures |calls| == |log|
  {
    seq(|log|, i requires 0 <= i < |log| => log[i].call)
  }

  /** Each call in the log returned what it does when it runs by itself after those before it. */
  ghost predicate Answered(w: World, log: seq<Completed>)
    decreases |log|
  {
    log == []
    || (log[0].answer == AnswerOf(Run(w, log[0].call)) && Answered(Run(w, log[0].call).world, log[1..]))
  }

  /** A call that began on w and has run by itself since could be at this stage, with the database like this. */
  ghost predicate Underway(w: World, call: Call, m: Moment) {
    exists k: nat :: Alone(w, call, k) == m
  }

  /** The database is what the completed calls made it, plus what the call in progress has done so far. */
  ghost predicate SerialOk(c: Cluster, start: World) {
    var base := RunAll(start, CallsOf(c.log));
    && AllOk(CallsOf(c.log)) && Answered(start, c.log)
    && (forall p :: 0 <= p < |c.procs| && c.procs[p].pc.Critical? ==>
          CallOk(c.procs[p].pc.call) && Underway(base, c.procs[p].pc.call, Moment(c.world, c.procs[p].pc.stage)))
    && ((forall p :: 0 <= p < |c.procs| ==> !c.procs[p].pc.Critical?) ==> c.world == base)
  }

  predicate HasLock(pc: Pc) {
    pc.Granted? || pc.Critical? || pc.Releasing?
  }

  /** From the grant of the lock to its release, a process is alone. */
  lemma MutualExclusion(c: Cluster, p: nat, q: nat)
    requires ServerOk(c) && p < |c.procs| && q < |c.procs|
    requires HasLock(c.procs[p].pc) && HasLock(c.procs[q].pc)
    ensures p == q
  {
    assert ProcOk(c, p) && ProcOk(c, q);
    var i, j := c.procs[p].pc.sid, c.procs[q].pc.sid;
    assert c.sessions[i].holds == 1 && c.sessions[j].holds == 1;
  }

  /** Only process p and its session changed, and both are in order. */
  lemma OneChange(c: Cluster, d: Cluster, p: nat, sid: nat)
    requires ServerOk(c) && p < |c.procs| == |d.procs| && sid < |d.sessions|
    requires |c.sessions| <= |d.sessions| <= |c.sessions| + 1 && (|d.sessions| > |c.sessions| ==> sid == |c.sessions|)
    requires forall q :: 0 <= q < |c.procs| && q != p ==> d.procs[q] == c.procs[q]
    requires forall i :: 0 <= i < |c.sessions| && i != sid ==> d.sessions[i] == c.sessions[i]
    requires c.procs[p].pc.Outside? || c.procs[p].pc.sid == sid
    requires sid < |c.sessions| && c.procs[p].pc.Outside? ==> c.sessions[sid].place == Idle
    requires ProcOk(d, p) && SessionOk(d, sid)
    requires d.procs[p].pc.Outside? || d.procs[p].pc.sid == sid
    requires d.sessions[sid].holds == 0 || IsFree(c.sessions, sid)
    ensures ServerOk(d)
  {
    hide Knows, IsClean;
    assert ProcOk(c, p);
    forall q | 0 <= q < |d.procs|
      ensures ProcOk(d, q)
    {
      if q != p {
        assert ProcOk(c, q);
        assert !c.procs[q].pc.Outside? ==> c.procs[q].pc.sid != sid;
      }
    }
    forall i | 0 <= i < |d.sessions|
      ensures SessionOk(d, i)
    {
      if i != sid {
        assert SessionOk(c, i);
      }
    }
  }

  lemma ServerStep(c: Cluster, p: nat, a: Action)
    requires ServerOk(c) && Enabled(c, p, a)
    ensures ServerOk(Do(c, p, a))
  {
    hide Next, CallOk;
    assert ProcOk(c, p);
    var d := Do(c, p, a);
    var pc := c.procs[p].pc;
    match a {
      case DoConnect(sid) =>
        if sid < |c.sessions| {
          assert SessionOk(c, sid);
        }
        OneChange(c, d, p, sid);
      case _ =>
        OneChange(c, d, p, pc.sid);
    }
  }

  // ---------------------------------------------------------------------------------------------
  // Serial equivalence

  lemma {:induction false} RunOneMore(w: World, calls: seq<Call>, c: Call)
    ensures RunAll(w, calls + [c]) == Run(RunAll(w, calls), c).world
    decreases |calls|
  {
    hide Run;
    if calls == [] {
      assert RunAll(w, [c]) == RunAll(Run(w, c).world, []);
    } else {
      RunOneMore(Run(w, calls[0]).world, calls[1..], c);
      assert (calls + [c])[1..] == calls[1..] + [c];
    }
  }

  lemma {:induction false} AnsweredOneMore(w: World, log: seq<Completed>, d: Completed)
    requires Answered(w, log) && d.answer == AnswerOf(Run(RunAll(w, CallsOf(log)), d.call))
    ensures Answered(w, log + [d])
    decreases |log|
  {
    hide Run;
    if log == [] {
      assert (log + [d])[1..] == [];
    } else {
      assert CallsOf(log)[1..] == CallsOf(log[1..]);
      AnsweredOneMore(Run(w, log[0].call).world, log[1..], d);
      assert (log + [d])[1..] == log[1..] + [d];
    }
  }

  lemma OneStepMore(w: World, call: Call, m: Moment)
    requires Underway(w, call, m)
    ensures Underway(w, call, Next(m.world, call, m.stage))
  {
    hide Next;
    var k: nat :| Alone(w, call, k) == m;
    assert Alone(w, call, k + 1) == Next(m.world, call, m.stage);
  }

  lemma EndedIsWhole(w: World, call: Call, m: Moment)
    requires Underway(w, call, m) && m.stage.Ended?
    ensures m == Moment(Run(w, call).world, Ended(AnswerOf(Run(w, call))))
  {
    hide Alone, Run;
    var k: nat :| Alone(w, call, k) == m;
    AloneFits(w, call, k);
  }

  lemma BeginsHere(w: World, call: Call)
    ensures Underway(w, call, Moment(w, Begun))
  {
    assert Alone(w, call, 0) == Moment(w, Begun);
  }

  lemma SerialStep(c: Cluster, start: World, p: nat, a: Action)
    requires ServerOk(c) && SerialOk(c, start) && Enabled(c, p, a)
    ensures SerialOk(Do(c, p, a), start)
  {
    hide Next, CallOk, RunAll, Run, ServerOk, Underway, Answered;
    var d, pc, base := Do(c, p, a), c.procs[p].pc, RunAll(start, CallsOf(c.log));
    if a.DoCommit? || a.DoWork? || a.DoFinish? {
      forall q | 0 <= q < |c.procs| && q != p
        ensures !c.procs[q].pc.Critical?
      {
        if HasLock(c.procs[q].pc) {
          MutualExclusion(c, p, q);
        }
      }
      assert d.procs[p].pc.Critical? || !a.DoWork?;
    }
    if a.DoCommit? {
      BeginsHere(c.world, a.call);
    } else if a.DoWork? {
      OneStepMore(base, pc.call, Moment(c.world, pc.stage));
    } else if a.DoFinish? {
      EndedIsWhole(base, pc.call, Moment(c.world, pc.stage));
      var done := Completed(pc.call, pc.stage.answer);
      assert CallsOf(c.log + [done]) == CallsOf(c.log) + [pc.call];
      RunOneMore(start, CallsOf(c.log), pc.call);
      AnsweredOneMore(start, c.log, done);
    } else {
      assert forall q :: 0 <= q < |c.procs| && q != p ==> d.procs[q] == c.procs[q];
      assert !c.procs[p].pc.Critical? && !d.procs[p].pc.Critical?;
    }
  }

  // ---------------------------------------------------------------------------------------------
  // Whole runs

  datatype Turn = Turn(proc: nat, action: Action)

  /** Every turn is one that its process can take when it comes. */
  predicate CanRun(c: Cluster, turns: seq<Turn>)
    decreases |turns|
  {
    turns == [] || (Enabled(c, turns[0].proc, turns[0].action)
                    && CanRun(Do(c, turns[0].proc, turns[0].action), turns[1..]))
  }

  function After(c: Cluster, turns: seq<Turn>): Cluster
    requires CanRun(c, turns)
    decreases |turns|
  {
    if turns == [] then c else After(Do(c, turns[0].proc, turns[0].action), turns[1..])
  }

  /** n processes that have done nothing yet. */
  function Initial(n: nat, w: World): Cluster {
    Cluster([], seq(n, i => Proc(Outside, None, false)), w, [])
  }

  lemma {:induction false} InvariantAfter(c: Cluster, start: World, turns: seq<Turn>)
    requires ServerOk(c) && SerialOk(c, start) && CanRun(c, turns)
    ensures ServerOk(After(c, turns)) && SerialOk(After(c, turns), start)
    decreases |turns|
  {
    hide ServerOk, SerialOk, Enabled, Do;
    if turns != [] {
      ServerStep(c, turns[0].proc, turns[0].action);
      SerialStep(c, start, turns[0].proc, turns[0].action);
      InvariantAfter(Do(c, turns[0].proc, turns[0].action), start, turns[1..]);
    }
  }

  lemma InvariantAlways(n: nat, w: World, turns: seq<Turn>)
    requires CanRun(Initial(n, w), turns)
    ensures ServerOk(After(Initial(n, w), turns)) && SerialOk(After(Initial(n, w), turns), w)
  {
    hide CanRun, After;
    assert CallsOf([]) == [];
    assert ServerOk(Initial(n, w)) && SerialOk(Initial(n, w), w);
    InvariantAfter(Initial(n, w), w, turns);
  }

  // ---------------------------------------------------------------------------------------------
  // The methods of Postgres are runs of this machine

  /** One turn of process p, and then the others. */
  lemma Prepend(c: Cluster, p: nat, a: Action, turns: seq<Turn>) returns (all: seq<Turn>)
    requires Enabled(c, p, a) && CanRun(Do(c, p, a), turns)
    ensures CanRun(c, all) && After(c, all) == After(Do(c, p, a), turns)
  {
    hide Enabled, Do;
    all := [Turn(p, a)] + turns;
    assert all[1..] == turns;
  }

  lemma MovedTwice(c: Cluster, p: nat, sid: nat, pc: Pc, s: Session, qc: Pc, t: Session)
    requires p < |c.procs| && sid < |c.sessions|
    ensures Moved(Moved(c, p, pc, sid, s), p, qc, sid, t) == Moved(c, p, qc, sid, t)
  {
  }

  /** From an error on: the deferred Rollback, unless the transaction never began, and the scrubbing. */
  lemma ScrubIsARun(c: Cluster, p: nat, f: AcquireFate) returns (turns: seq<Turn>)
    requires p < |c.procs| && (c.procs[p].pc.Undoing? || c.procs[p].pc.Scrubbing?) && c.procs[p].pc.sid < |c.sessions|
    ensures CanRun(c, turns)
    ensures var sid := c.procs[p].pc.sid;
            var s := if c.procs[p].pc.Undoing? then Rollback(c.sessions[sid], f.rollback) else c.sessions[sid];
            After(c, turns) == Moved(c, p, Outside, sid, ReleaseAllAndClose(s, f.scrub))
    decreases c.procs[p].pc.Undoing?
  {
    var sid := c.procs[p].pc.sid;
    if c.procs[p].pc.Scrubbing? {
      turns := Prepend(c, p, DoScrub(f.scrub), []);
    } else {
      var s := Rollback(c.sessions[sid], f.rollback);
      var d := Do(c, p, DoRollback(f.rollback));
      turns := ScrubIsARun(d, p, f);
      MovedTwice(c, p, sid, Scrubbing(sid), s, Outside, ReleaseAllAndClose(s, f.scrub));
      turns := Prepend(c, p, DoRollback(f.rollback), turns);
    }
  }

  /** What AcquireLock leads to: the critical section, or back outside. */
  function Acquired(c: Cluster, p: nat, sid: nat, s: Session, f: AcquireFate, call: Call): Cluster
    requires p < |c.procs| && sid < |c.sessions|
  {
    if Locks(f) then
      c.(sessions := c.sessions[sid := s], procs := c.procs[p := Proc(Critical(sid, call, Begun), Some(sid), true)])
    else Moved(c, p, Outside, sid, s)
  }

  /** AcquireOn from the lock request on. */
  function LockRest(s: Session, f: AcquireFate): Session {
    var reply := LockReply(f.lock, f.free);
    var asked := Lock(s, reply);
    if !reply.Done? then ReleaseAllAndClose(Rollback(asked, f.rollback), f.scrub)
    else if !f.commit.Done? then ReleaseAllAndClose(Commit(asked, f.commit), f.scrub)
    else Commit(asked, f.commit)
  }

  lemma NoTurns(c: Cluster)
    ensures CanRun(c, []) && After(c, []) == c
  {
  }

  lemma LockIsARun(c: Cluster, p: nat, f: AcquireFate, call: Call) returns (turns: seq<Turn>)
    requires p < |c.procs| && c.procs[p].pc.TimeoutSet? && c.procs[p].pc.sid < |c.sessions| && CallOk(call)
    requires f.begin.Done? && f.setTimeout.Done? && (f.free ==> IsFree(c.sessions, c.procs[p].pc.sid))
    ensures CanRun(c, turns)
    ensures var sid := c.procs[p].pc.sid;
            After(c, turns) == Acquired(c, p, sid, LockRest(c.sessions[sid], f), f, call)
  {
    hide CanRun, After, CallOk;
    var reply := LockReply(f.lock, f.free);
    var asked := Do(c, p, DoLock(reply));
    if !reply.Done? {
      turns := ScrubIsARun(asked, p, f);
    } else {
      var committed := Do(asked, p, DoCommit(f.commit, call));
      if f.commit.Done? {
        NoTurns(committed);
        turns := [];
      } else {
        turns := ScrubIsARun(committed, p, f);
      }
      turns := Prepend(asked, p, DoCommit(f.commit, call), turns);
    }
    turns := Prepend(c, p, DoLock(reply), turns);
  }

  lemma TimeoutIsARun(c: Cluster, p: nat, f: AcquireFate, call: Call) returns (turns: seq<Turn>)
    requires p < |c.procs| && c.procs[p].pc.InTx? && c.procs[p].pc.sid < |c.sessions| && CallOk(call)
    requires f.begin.Done? && (f.free ==> IsFree(c.sessions, c.procs[p].pc.sid))
    ensures CanRun(c, turns)
    ensures var sid := c.procs[p].pc.sid;
            var s := SetTimeout(c.sessions[sid], f.setTimeout);
            After(c, turns) == if f.setTimeout.Done? then Acquired(c, p, sid, LockRest(s, f), f, call)
                               else Moved(c, p, Outside, sid, ReleaseAllAndClose(Rollback(s, f.rollback), f.scrub))
  {
    hide CanRun, After, CallOk;
    var limited := Do(c, p, DoSetTimeout(f.setTimeout));
    if !f.setTimeout.Done? {
      turns := ScrubIsARun(limited, p, f);
    } else {
      turns := LockIsARun(limited, p, f, call);
    }
    turns := Prepend(c, p, DoSetTimeout(f.setTimeout), turns);
  }

  /** On a session of the pool, AcquireLock is a run of its process alone, whatever its statements meet with. */
  lemma AcquireIsARun(c: Cluster, p: nat, f: AcquireFate, call: Call) returns (turns: seq<Turn>)
    requires p < |c.procs| && c.procs[p].pc.Connected? && c.procs[p].pc.sid < |c.sessions| && CallOk(call)
    requires f.free ==> IsFree(c.sessions, c.procs[p].pc.sid)
    ensures CanRun(c, turns)
    ensures var sid := c.procs[p].pc.sid;
            After(c, turns) == Acquired(c, p, sid, AcquireOn(c.sessions[sid], f), f, call)
  {
    hide CanRun, After, CallOk;
    var sid := c.procs[p].pc.sid;
    var begun := Do(c, p, DoBegin(f.begin));
    if !f.begin.Done? {
      turns := ScrubIsARun(begun, p, f);
    } else {
      turns := TimeoutIsARun(begun, p, f, call);
    }
    turns := Prepend(c, p, DoBegin(f.begin), turns);
  }

  // ---------------------------------------------------------------------------------------------
  // The theorems

  /**
   However the processes interleave and whatever fails: no two of them have the lock, an idle
   session holds neither the lock nor a transaction nor a lock_timeout, and a process believes it has the lock
   exactly when it has recorded a connection that holds it.
   */
  lemma LockIsSound(n: nat, w: World, turns: seq<Turn>)
    requires CanRun(Initial(n, w), turns)
    ensures var c := After(Initial(n, w), turns);
            && (forall p, q | 0 <= p < |c.procs| && 0 <= q < |c.procs| ::
                  HasLock(c.procs[p].pc) && HasLock(c.procs[q].pc) ==> p == q)
            && (forall i :: 0 <= i < |c.sessions| && c.sessions[i].place == Idle ==> IsClean(c.sessions[i]))
            && (forall p :: 0 <= p < |c.procs| ==>
                  (c.procs[p].isLockAcquired <==> c.procs[p].lockConn.Some?)
                  && (c.procs[p].lockConn.Some? ==>
                        c.procs[p].lockConn.value < |c.sessions| && c.sessions[c.procs[p].lockConn.value].holds == 1))
  {
    hide CanRun, After, SerialOk;
    var c := After(Initial(n, w), turns);
    InvariantAlways(n, w, turns);
    forall p, q | 0 <= p < |c.procs| && 0 <= q < |c.procs| && HasLock(c.procs[p].pc) && HasLock(c.procs[q].pc)
      ensures p == q
    {
      MutualExclusion(c, p, q);
    }
    forall i | 0 <= i < |c.sessions| && c.sessions[i].place == Idle
      ensures IsClean(c.sessions[i])
    {
      assert SessionOk(c, i);
    }
    forall p | 0 <= p < |c.procs|
      ensures (c.procs[p].isLockAcquired <==> c.procs[p].lockConn.Some?)
      ensures c.procs[p].lockConn.Some? ==>
                c.procs[p].lockConn.value < |c.sessions| && c.sessions[c.procs[p].lockConn.value].holds == 1
    {
      assert ProcOk(c, p);
    }
  }

  /**
   However the processes interleave: every call that has completed returned what it does in a serial run of
   whole calls, and the database is what that run, followed by the first steps of at most one more call, made
   of the one they started from. It never has two rows for one migration or two failures on record.
   */
  lemma InterleavingIsSerial(n: nat, w: World, turns: seq<Turn>) returns (partial: Option<(Call, nat)>)
    requires CanRun(Initial(n, w), turns) && Orderly(w)
    ensures var c := After(Initial(n, w), turns);
            var base := RunAll(w, CallsOf(c.log));
            && AllOk(CallsOf(c.log)) && Answered(w, c.log) && Orderly(base) && Orderly(c.world)
            && (partial.Some? <==> exists p :: 0 <= p < |c.procs| && c.procs[p].pc.Critical?)
            && (partial.None? ==> c.world == base)
            && (partial.Some? ==>
                  CallOk(partial.value.0) && c.world == Alone(base, partial.value.0, partial.value.1).world)
  {
    hide CanRun, After, ServerOk, Alone, CallOk, RunAll, Orderly;
    var c := After(Initial(n, w), turns);
    InvariantAlways(n, w, turns);
    AlwaysOrderly(w, CallsOf(c.log));
    var base := RunAll(w, CallsOf(c.log));
    if p :| 0 <= p < |c.procs| && c.procs[p].pc.Critical? {
      var call, stage := c.procs[p].pc.call, c.procs[p].pc.stage;
      var k: nat :| Alone(base, call, k) == Moment(c.world, stage);
      AloneIsOrderly(base, call, k);
      return Some((call, k));
    }
    return None;
  }
}
