/**
 Server sessions and what the statements of the lock protocol do to them (internal/db/postgres.go and
 internal/sqlconn/sqlconn.go).

 A session outlives (*sql.Conn).Close: it goes back to the pool with whatever it holds. A failed statement
 may leave the connection broken, in which case every later statement on it fails as well; a failed BEGIN,
 COMMIT or ROLLBACK always does so if the server could still be inside a transaction.
 */
module Sessions {
  import opened Text

  datatype Place =
    | Idle            // in its process's pool
    | Lent(proc: nat) // out of the pool
    | Gone            // ended

  datatype Session = Session(
    owner: nat,    // the process whose pool it belongs to
    place: Place,
    holds: nat,    // how many times it holds the advisory lock
    inTx: bool,
    timeout: bool, // lock_timeout is set for the running transaction
    broken: bool)

  function NewSession(p: nat): Session {
    Session(p, Lent(p), 0, false, false, false)
  }

  /** A session that may be handed to anybody. */
  predicate IsClean(s: Session) {
    s.holds == 0 && !s.inTx && !s.timeout
  }

  /** How a statement fares: done, or an error that may or may not have taken effect or broken the connection. */
  datatype Reply = Done | Error(landed: bool, breaks: bool)

  function Break(s: Session, breaks: bool): Session {
    s.(broken := s.broken || breaks)
  }

  /** BEGIN; an error after which the server might be in a transaction breaks the connection. */
  function Begin(s: Session, r: Reply): Session {
    if r.Done? then s.(inTx := true) else Break(s.(inTx := r.landed), r.breaks || r.landed)
  }

  /** set_config('lock_timeout', ..., true), in force until the transaction ends. */
  function SetTimeout(s: Session, r: Reply): Session {
    if r.Done? then s.(timeout := true) else Break(s.(timeout := r.landed), r.breaks)
  }

  /** pg_advisory_lock; whether it can be granted is the server's affair. */
  function Lock(s: Session, r: Reply): Session {
    if r.Done? then s.(holds := s.holds + 1)
    else Break(if r.landed then s.(holds := s.holds + 1) else s, r.breaks)
  }

  /** While another session holds the lock, it is not granted: lock_timeout elapses, or the wait is cut short. */
  function LockReply(r: Reply, free: bool): Reply {
    if free then r else Error(false, r.Error? && r.breaks)
  }

  /**
   COMMIT keeps the session's lock and drops what was set for the transaction. An error that did not end the
   transaction, one way or the other, breaks the connection: no ROLLBACK follows it, since to database/sql the
   transaction is over.
   */
  function Commit(s: Session, r: Reply): Session {
    if r.Done? then s.(inTx := false, timeout := false)
    else Break(if r.landed then s.(inTx := false, timeout := false) else s, r.breaks || !r.landed)
  }

  /** ROLLBACK, whose failure means that the connection is lost. */
  function Rollback(s: Session, ok: bool): Session {
    if ok && !s.broken then s.(inTx := false, timeout := false) else s.(broken := true)
  }

  /** (*sql.Conn).Close: back to the pool as it is. */
  function Close(s: Session): Session {
    s.(place := Idle)
  }

  /** sqlconn.Destroy: the session ends, and with it everything it held. */
  function Destroy(s: Session): Session {
    s.(place := Gone, holds := 0, inTx := false, timeout := false)
  }

  /** releaseAllAndClose: pg_advisory_unlock_all, then Close; Destroy if that cannot be confirmed. */
  function ReleaseAllAndClose(s: Session, ok: bool): Session {
    if ok && !s.broken then Close(s.(holds := 0)) else Destroy(s)
  }

  /** How the statements of one AcquireLock fare. `free`: no other session holds the lock while this one asks. */
  datatype AcquireFate = AcquireFate(
    connected: bool, begin: Reply, setTimeout: Reply, lock: Reply, free: bool, commit: Reply,
    rollback: bool, scrub: bool)

  predicate Locks(f: AcquireFate) {
    f.begin.Done? && f.setTimeout.Done? && f.lock.Done? && f.free && f.commit.Done?
  }

  /** What lockOnConn, with its deferred Rollback, makes of a session. */
  function LockTx(s: Session, f: AcquireFate): Session {
    var begun := Begin(s, f.begin);
    if !f.begin.Done? then begun
    else
      var limited := SetTimeout(begun, f.setTimeout);
      if !f.setTimeout.Done? then Rollback(limited, f.rollback)
      else
        var asked := Lock(limited, LockReply(f.lock, f.free));
        if !LockReply(f.lock, f.free).Done? then Rollback(asked, f.rollback)
        else Commit(asked, f.commit)
  }

  /** And AcquireLock as a whole. */
  function AcquireOn(s: Session, f: AcquireFate): Session {
    if Locks(f) then LockTx(s, f) else ReleaseAllAndClose(LockTx(s, f), f.scrub)
  }

  /** The sessions after the i-th has been taken from the pool, or opened. */
  function Borrowed(sessions: seq<Session>, i: nat, p: nat): (r: seq<Session>)
    requires i <= |sessions|
    ensures i < |r|
  {
    if i < |sessions| then sessions[i := sessions[i].(place := Lent(p))] else sessions + [NewSession(p)]
  }

  /** The statement of ReleaseLock: true or false from the server, or an error. */
  datatype UnlockReply = Unlocked | NotHeld | UnlockError

  /** The server's answer, if there is one, says whether the session held the lock. */
  function UnlockReplyOf(s: Session, answers: bool): UnlockReply {
    if !answers || s.broken then UnlockError else if s.holds > 0 then Unlocked else NotHeld
  }

  function Unlock(s: Session, r: UnlockReply): Session {
    match r
    case Unlocked => Close(s.(holds := if s.holds > 0 then s.holds - 1 else 0))
    case NotHeld => Close(s)
    case UnlockError => Destroy(s)
  }
}

/** AcquireLock and ReleaseLock as they are written, for one process and its pool. */
module PostgresLock {
  import opened Text
  import opened Sessions

  datatype LockError = AlreadyAcquired | TooFewConnections | NoConnection | NotLocked | NotAcquired | StatementFailed | LostLock

  /** In the pool and clean, or gone. */
  predicate PoolOk(s: Session) {
    IsClean(s) && (s.place == Gone || (s.place == Idle && !s.broken))
  }

  class Postgres {
    const process: nat
    const maxOpen: nat
    var sessions: seq<Session> // this process's sessions
    var lockConn: Option<nat>
    var isLockAcquired: bool

    constructor (process: nat, maxOpen: nat)
      ensures Valid() && !isLockAcquired && sessions == []
    {
      this.process, this.maxOpen := process, maxOpen;
      sessions, lockConn, isLockAcquired := [], None, false;
    }

    /** Everything in the pool is clean, and the only session that holds the lock is the recorded one. */
    ghost predicate Valid()
      reads this
    {
      && (isLockAcquired <==> lockConn.Some?)
      && (lockConn.Some? ==> lockConn.value < |sessions| && sessions[lockConn.value].place == Lent(process)
                             && sessions[lockConn.value].holds <= 1
                             && !sessions[lockConn.value].inTx && !sessions[lockConn.value].timeout)
      && forall i :: 0 <= i < |sessions| && Some(i) != lockConn ==> PoolOk(sessions[i])
    }

    /** Takes an idle session from the pool, or opens a new one. */
    method Conn() returns (i: nat)
      modifies this`sessions
      ensures i == |old(sessions)| || (i < |old(sessions)| && old(sessions)[i].place == Idle)
      ensures sessions == Borrowed(old(sessions), i, process)
    {
      if k :| 0 <= k < |sessions| && sessions[k].place == Idle {
        i := k;
        sessions := sessions[k := sessions[k].(place := Lent(process))];
      } else {
        i := |sessions|;
        sessions := sessions + [NewSession(process)];
      }
    }

    /** Unless it fails before it has a connection, it does to the session at conn what AcquireOn says. */
    method AcquireLock(f: AcquireFate) returns (err: Option<LockError>, ghost conn: nat)
      requires Valid()
      modifies this
      ensures Valid()
      ensures old(isLockAcquired) ==>
                err == Some(AlreadyAcquired) && sessions == old(sessions) && lockConn == old(lockConn)
      ensures err.None? <==> !old(isLockAcquired) && maxOpen != 1 && f.connected && Locks(f)
      ensures err.None? ==> isLockAcquired && lockConn == Some(conn) && sessions[conn].holds == 1
      ensures !old(isLockAcquired) && maxOpen != 1 && f.connected ==>
                && conn <= |old(sessions)| && (conn < |old(sessions)| ==> old(sessions)[conn].place == Idle)
                && var lent := Borrowed(old(sessions), conn, process);
                   sessions == lent[conn := AcquireOn(lent[conn], f)]
      ensures err.Some? && !old(isLockAcquired) ==> !isLockAcquired && forall i :: 0 <= i < |sessions| ==> sessions[i].holds == 0
    {
      conn := 0;
      if isLockAcquired {
        return Some(AlreadyAcquired), conn;
      }
      if maxOpen == 1 {
        return Some(TooFewConnections), conn;
      }
      if !f.connected {
        return Some(NoConnection), conn;
      }
      var i := Conn();
      conn := i;
      assert IsClean(sessions[i]) && !sessions[i].broken;
      var locked := LockOnConn(i, f);
      if !locked {
        sessions := sessions[i := ReleaseAllAndClose(sessions[i], f.scrub)];
        return Some(NotLocked), conn;
      }
      lockConn := Some(i);
      isLockAcquired := true;
      return None, conn;
    }

    /** lockOnConn, with its deferred Rollback. */
    method LockOnConn(conn: nat, f: AcquireFate) returns (ok: bool)
      requires conn < |sessions| && IsClean(sessions[conn]) && !sessions[conn].broken
      modifies this`sessions
      ensures ok == Locks(f) && sessions == old(sessions)[conn := LockTx(old(sessions)[conn], f)]
      ensures sessions[conn].place == old(sessions)[conn].place && sessions[conn].owner == old(sessions)[conn].owner
      ensures ok ==> sessions[conn].holds == 1 && !sessions[conn].inTx && !sessions[conn].timeout
      ensures !ok && !sessions[conn].broken ==> !sessions[conn].inTx && !sessions[conn].timeout
    {
      var s := Begin(sessions[conn], f.begin);
      if !f.begin.Done? {
        sessions := sessions[conn := s];
        return false;
      }
      s := SetTimeout(s, f.setTimeout);
      if !f.setTimeout.Done? {
        sessions := sessions[conn := Rollback(s, f.rollback)];
        return false;
      }
      var reply := LockReply(f.lock, f.free);
      s := Lock(s, reply);
      if !reply.Done? {
        sessions := sessions[conn := Rollback(s, f.rollback)];
        return false;
      }
      s := Commit(s, f.commit);
      sessions := sessions[conn := s];
      return f.commit.Done?; // after a failed COMMIT the deferred Rollback sends nothing
    }

    /** `answers`: the server's answer to the unlock arrives. */
    method ReleaseLock(answers: bool) returns (err: Option<LockError>)
      requires Valid()
      modifies this
      ensures Valid() && !isLockAcquired && lockConn.None?
      ensures forall i :: 0 <= i < |sessions| ==> sessions[i].holds == 0
      ensures err == if !old(isLockAcquired) then Some(NotAcquired)
                     else if !answers || old(sessions[lockConn.value]).broken then Some(StatementFailed)
                     else if old(sessions[lockConn.value]).holds == 0 then Some(LostLock)
                     else None
      ensures sessions == if !old(isLockAcquired) then old(sessions)
                          else
                            var conn, s := old(lockConn).value, old(sessions[lockConn.value]);
                            old(sessions)[conn := Unlock(s, UnlockReplyOf(s, answers))]
    {
      if !isLockAcquired || lockConn.None? {
        return Some(NotAcquired);
      }
      var conn := lockConn.value;
      lockConn := None;
      isLockAcquired := false;
      var reply := UnlockReplyOf(sessions[conn], answers);
      sessions := sessions[conn := Unlock(sessions[conn], reply)];
      match reply {
        case UnlockError => return Some(StatementFailed);
        case NotHeld => return Some(LostLock);
        case Unlocked => return None;
      }
    }
  }
}
