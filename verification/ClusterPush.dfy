/**
 * Pushing the configuration to the cluster's slaves, one push at a time, and
 * applying what is pushed.  The sections under the lock are methods; a run is any
 * sequence of them, interleaved with changes of the configuration.
 */
module ClusterPush {
  import opened Wrappers

  // --------------------------------------------------------------- single flight

  /** A pusher is about to read the configuration, or to see whether there is more to do. */
  datatype Pusher = Reading | Checking

  /**
   * The service, its pushers, and for the statements: how many steps there have
   * been, and when a push was last asked for and the configuration last read.
   */
  datatype State = State(running: bool, requeued: bool, pushers: seq<Pusher>, clock: nat, asked: nat, read: nat)

  const IDLE: State := State(false, false, [], 0, 0, 0)

  datatype Step = Ask | Read(i: nat) | Check(i: nat) | Other

  function Next(s: State, step: Step): State {
    var t := s.(clock := s.clock + 1);
    match step
    case Ask =>
      if s.running then t.(requeued := true, asked := t.clock)
      else t.(running := true, pushers := s.pushers + [Reading], asked := t.clock)
    case Read(i) =>
      if i < |s.pushers| && s.pushers[i].Reading? then t.(pushers := s.pushers[i := Checking], read := t.clock) else t
    case Check(i) =>
      if !(i < |s.pushers| && s.pushers[i].Checking?) then t
      else if s.requeued then t.(requeued := false, pushers := s.pushers[i := Reading])
      else t.(running := false, pushers := s.pushers[..i] + s.pushers[i + 1..])
    case Other => t
  }

  function Exec(steps: seq<Step>): State {
    if steps == [] then IDLE else Next(Exec(steps[..|steps| - 1]), steps[|steps| - 1])
  }

  predicate Inv(s: State) {
    && |s.pushers| == (if s.running then 1 else 0)
    && (!s.running ==> !s.requeued)
    && s.asked <= s.clock && s.read <= s.clock
    && (s.asked == 0 || s.asked < s.read || s.requeued || (s.running && s.pushers[0].Reading?))
  }

  lemma {:induction false} ExecInv(steps: seq<Step>)
    ensures Inv(Exec(steps))
  {
    if steps != [] {
      ExecInv(steps[..|steps| - 1]);
    }
  }

  /**
   * In every run there is at most one pusher; and when there is none, the
   * configuration has been read since a push was last asked for.
   */
  lemma SingleFlight(steps: seq<Step>)
    ensures var s := Exec(steps);
            && |s.pushers| <= 1
            && (s.pushers == [] ==> s.asked == 0 || s.asked < s.read)
  {
    ExecInv(steps);
  }

  // ------------------------------------------------------------------ applying

  /** What a master exported: its hash, and when it was updated, if it says so. */
  datatype Payload = Payload(hash: string, updated: Option<int>)

  datatype Applied = Applied(hash: string, updated: Option<int>)

  function Later(a: Option<int>, b: Option<int>): bool {
    a.Some? && (b.None? || a.value > b.value)
  }

  /** A payload from before the applied one is refused. */
  predicate Refused(s: Applied, p: Payload) {
    p.updated.Some? && s.updated.Some? && p.updated.value < s.updated.value
  }

  function Marked(s: Applied, p: Payload): Applied {
    Applied(p.hash, if Later(p.updated, s.updated) then p.updated else s.updated)
  }

  class Service {
    var pushRunning: bool
    var pushRequeued: bool
    var appliedHash: string
    var appliedUpdated: Option<int>

    ghost function Now(): Applied
      reads this
    {
      Applied(appliedHash, appliedUpdated)
    }

    constructor ()
      ensures !pushRunning && !pushRequeued && Now() == Applied("", None)
    {
      pushRunning, pushRequeued, appliedHash, appliedUpdated := false, false, "", None;
    }

    /** The section of a request; it starts a pusher if none is running. */
    method EnqueuePush(ghost s: State) returns (start: bool)
      requires s.running == pushRunning && s.requeued == pushRequeued
      modifies this`pushRunning, this`pushRequeued
      ensures pushRunning == Next(s, Ask).running && pushRequeued == Next(s, Ask).requeued
      ensures start <==> |Next(s, Ask).pushers| > |s.pushers|
    {
      if pushRunning {
        pushRequeued := true;
        return false;
      }
      pushRunning := true;
      return true;
    }

    /** The section of pusher `i` after a push; it goes on or ends. */
    method PushDone(ghost s: State, ghost i: nat) returns (again: bool)
      requires s.running == pushRunning && s.requeued == pushRequeued && i < |s.pushers| && s.pushers[i].Checking?
      modifies this`pushRunning, this`pushRequeued
      ensures pushRunning == Next(s, Check(i)).running && pushRequeued == Next(s, Check(i)).requeued
      ensures again <==> |Next(s, Check(i)).pushers| == |s.pushers|
    {
      if !pushRequeued {
        pushRunning := false;
        return false;
      }
      pushRequeued := false;
      return true;
    }

    /** The check of an incoming payload against what has been applied. */
    method Admit(p: Payload) returns (ok: bool)
      ensures ok <==> !Refused(Now(), p)
    {
      ok := !(p.updated.Some? && appliedUpdated.Some? && p.updated.value < appliedUpdated.value);
    }

    method MarkApplied(p: Payload)
      modifies this`appliedHash, this`appliedUpdated
      ensures Now() == Marked(old(Now()), p)
    {
      appliedHash := p.hash;
      if p.updated.Some? && (appliedUpdated.None? || p.updated.value > appliedUpdated.value) {
        appliedUpdated := p.updated;
      }
    }
  }

  /** Calls of apply check at one time and mark at another; others may come between. */
  datatype ApplyState = ApplyState(applied: Applied, admitted: map<nat, Payload>)

  datatype ApplyStep = Begin(call: nat, p: Payload) | Mark(call: nat)

  const NOTHING: ApplyState := ApplyState(Applied("", None), map[])

  function ApplyNext(s: ApplyState, step: ApplyStep): ApplyState {
    match step
    case Begin(call, p) => if Refused(s.applied, p) || call in s.admitted then s else s.(admitted := s.admitted[call := p])
    case Mark(call) =>
      if call !in s.admitted then s
      else
        ApplyState(Marked(s.applied, s.admitted[call]), s.admitted - {call})
  }

  function ApplyExec(steps: seq<ApplyStep>): ApplyState {
    if steps == [] then NOTHING else ApplyNext(ApplyExec(steps[..|steps| - 1]), steps[|steps| - 1])
  }

  predicate NotBefore(a: Option<int>, b: Option<int>) {
    b.None? || (a.Some? && a.value >= b.value)
  }

  /** The applied time stamp never moves backwards, whatever calls interleave. */
  lemma {:induction false} UpdatedNeverRegresses(steps: seq<ApplyStep>, more: seq<ApplyStep>)
    ensures NotBefore(ApplyExec(steps + more).applied.updated, ApplyExec(steps).applied.updated)
    decreases |more|
  {
    if more == [] {
      assert steps + more == steps;
    } else {
      UpdatedNeverRegresses(steps, more[..|more| - 1]);
      assert (steps + more)[..|steps + more| - 1] == steps + more[..|more| - 1];
    }
  }

  /** The payload that the last step of a run marks, if it marks one. */
  function MarkedAt(steps: seq<ApplyStep>): Option<Payload> {
    if steps == [] then None
    else
      var s, step := ApplyExec(steps[..|steps| - 1]), steps[|steps| - 1];
      if step.Mark? && step.call in s.admitted then Some(s.admitted[step.call]) else None
  }

  /** All the payloads that a run marks, in order. */
  function AllMarked(steps: seq<ApplyStep>): seq<Payload> {
    if steps == [] then []
    else AllMarked(steps[..|steps| - 1]) + (if MarkedAt(steps).Some? then [MarkedAt(steps).value] else [])
  }

  /** The payload that a run marked last, and what had been applied before. */
  function LastMarked(steps: seq<ApplyStep>): Option<(Applied, Payload)> {
    if steps == [] then None
    else if MarkedAt(steps).Some? then Some((ApplyExec(steps[..|steps| - 1]).applied, MarkedAt(steps).value))
    else LastMarked(steps[..|steps| - 1])
  }

  /** A marked payload with a time stamp, and none of the marked ones has a later. */
  ghost predicate IsNewest(p: Payload, marked: seq<Payload>) {
    p in marked && p.updated.Some? && forall q :: q in marked ==> !Later(q.updated, p.updated)
  }

  /** The time stamp is that of the newest of the payloads marked, and there is none as long as no payload had one. */
  lemma {:induction false} UpdatedIsNewest(steps: seq<ApplyStep>)
    ensures var s, marked := ApplyExec(steps), AllMarked(steps);
            && (s.applied.updated.Some? <==> exists p :: p in marked && p.updated.Some?)
            && (s.applied.updated.Some? ==> exists p :: IsNewest(p, marked) && s.applied.updated == p.updated)
            && (forall p :: IsNewest(p, marked) ==> s.applied.updated == p.updated)
  {
    if steps != [] {
      var rest := steps[..|steps| - 1];
      var s, before := ApplyExec(steps), ApplyExec(rest);
      UpdatedIsNewest(rest);
      if MarkedAt(steps).Some? {
        NewestGrows(before.applied, AllMarked(rest), MarkedAt(steps).value);
      } else {
        assert AllMarked(steps) == AllMarked(rest);
      }
    }
  }

  ghost predicate Stamped(updated: Option<int>, marked: seq<Payload>) {
    && (updated.Some? <==> exists p :: p in marked && p.updated.Some?)
    && (updated.Some? ==> exists p :: IsNewest(p, marked) && updated == p.updated)
    && (forall p :: IsNewest(p, marked) ==> updated == p.updated)
  }

  lemma NewestGrows(s: Applied, marked: seq<Payload>, p: Payload)
    requires Stamped(s.updated, marked)
    ensures Stamped(Marked(s, p).updated, marked + [p])
  {
    var all, t := marked + [p], Marked(s, p);
    assert p in all && forall q :: q in all <==> q in marked || q == p;
    if Later(p.updated, s.updated) {
      assert IsNewest(p, all);
    } else if s.updated.Some? {
      var q :| IsNewest(q, marked) && s.updated == q.updated;
      assert IsNewest(q, all);
    }
  }

  /** Hash and time stamp are those of one newest payload. */
  ghost predicate Together(s: Applied, marked: seq<Payload>) {
    exists q :: IsNewest(q, marked) && s == Applied(q.hash, q.updated)
  }

  /**
   * The hash, however, is that of the last payload marked.  It belongs with the time
   * stamp just when that payload was not older, at the time it was marked, than what
   * had been applied: the check made before applying is not enough.  (Unless an older
   * payload has the hash of a newer one, when it does no harm.)
   */
  lemma {:induction false} HashIsOfNewest(steps: seq<ApplyStep>)
    requires LastMarked(steps).Some?
    ensures var s, marked := ApplyExec(steps).applied, AllMarked(steps);
            var (before, p) := LastMarked(steps).value;
            && (p.updated.Some? && !Refused(before, p) ==> Together(s, marked))
            && ((forall q :: q in marked && q.hash == p.hash ==> q.updated == p.updated) ==>
                  (Together(s, marked) <==> p.updated.Some? && !Refused(before, p)))
  {
    var rest := steps[..|steps| - 1];
    if MarkedAt(steps).None? {
      HashIsOfNewest(rest);
      assert AllMarked(steps) == AllMarked(rest);
    } else {
      var s, before, p := ApplyExec(steps).applied, ApplyExec(rest).applied, MarkedAt(steps).value;
      UpdatedIsNewest(steps);
      assert s == Marked(before, p) && AllMarked(steps) == AllMarked(rest) + [p];
      if p.updated.Some? && !Refused(before, p) {
        var q :| IsNewest(q, AllMarked(steps)) && s.updated == q.updated;
        assert IsNewest(p, AllMarked(steps));
      }
    }
  }

  /** So a call that no other comes between keeps them together. */
  lemma UndisturbedCall(steps: seq<ApplyStep>, call: nat, p: Payload)
    requires call !in ApplyExec(steps).admitted && p.updated.Some? && !Refused(ApplyExec(steps).applied, p)
    ensures Together(ApplyExec(steps + [Begin(call, p)] + [Mark(call)]).applied, AllMarked(steps + [Begin(call, p)] + [Mark(call)]))
  {
    var begun := steps + [Begin(call, p)];
    ApplySnoc(steps, Begin(call, p));
    assert (begun + [Mark(call)])[..|begun|] == begun;
    assert LastMarked(begun + [Mark(call)]) == Some((ApplyExec(begun).applied, p));
    HashIsOfNewest(begun + [Mark(call)]);
  }

  /** Two overlapping calls can leave the hash of the older payload with the time stamp of the newer. */
  lemma HashMayRegress(older: Payload, newer: Payload)
    requires older.updated.Some? && newer.updated.Some? && older.updated.value < newer.updated.value && older.hash != newer.hash
    ensures var s := ApplyExec([Begin(0, older)] + [Begin(1, newer)] + [Mark(1)] + [Mark(0)]);
            s.applied == Applied(older.hash, newer.updated)
  {
    var a := [Begin(0, older)];
    ApplySnoc([], Begin(0, older));
    assert [] + a == a;
    ApplySnoc(a, Begin(1, newer));
    ApplySnoc(a + [Begin(1, newer)], Mark(1));
    ApplySnoc(a + [Begin(1, newer)] + [Mark(1)], Mark(0));
  }

  lemma ApplySnoc(steps: seq<ApplyStep>, step: ApplyStep)
    ensures ApplyExec(steps + [step]) == ApplyNext(ApplyExec(steps), step)
  {
    assert (steps + [step])[..|steps|] == steps;
  }
}
