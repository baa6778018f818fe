/**
 * A channel-monitor query reads the buffer and the database without holding a lock
 * over both.  Its steps interleave with arriving records and with flushes, which
 * move the buffered records through the air into the database, or back.
 */
module ChannelReads {

  type Id = nat

  datatype Place = Pending | Flying | Stored | Lost

  datatype Phase = Start | Cloned | MetricsRead | ErrorsRead | Done

  /**
   * A query: the buffer it copied, the flush number it saw, and what it read.  For
   * the statements: where the records were when it copied, when it read the metric
   * rows, when it read the error rows, and at a check that copied once more; whether
   * the database was there for each read; whether it did copy once more; and whether
   * a batch has been committed between the two reads.
   */
  datatype Query = Query(phase: Phase, attempt: nat, flushSeq: nat, clone: set<Id>, metrics: set<Id>, errors: set<Id>,
                         copied: Places, first: Places, second: Places, last: Places,
                         metricsThere: bool, errorsThere: bool, again: bool, torn: bool)

  type Places = map<Id, Place>

  datatype State = State(place: Places, flushing: bool, flushSeq: nat, q: Query)

  datatype Action =
    | Arrive(id: Id, kept: bool)
    | Swap | Commit | Fail(kept: bool)
    | Clone | LoadMetrics(there: bool) | LoadErrors(there: bool) | Check

  const INIT: State := State(map[], false, 0, Query(Start, 0, 0, {}, {}, {}, map[], map[], map[], map[], false, false, false, false))

  function At(place: Places, p: Place): set<Id> {
    set id | id in place && place[id] == p
  }

  function Moved(place: Places, from: Place, to: Place): Places {
    map id | id in place :: if place[id] == from then to else place[id]
  }

  function Next(s: State, a: Action): State {
    var q := s.q;
    match a
    case Arrive(id, kept) =>
      if id in s.place then s else s.(place := s.place[id := if kept then Pending else Lost])
    case Swap =>
      if s.flushing then s
      else
        s.(place := Moved(s.place, Pending, Flying), flushing := true,
           flushSeq := if At(s.place, Pending) == {} then s.flushSeq else s.flushSeq + 1)
    case Commit =>
      if !s.flushing then s
      else
        s.(place := Moved(s.place, Flying, Stored), flushing := false,
           q := if q.phase == MetricsRead && At(s.place, Flying) != {} then q.(torn := true) else q)
    case Fail(kept) =>
      if !s.flushing then s else s.(place := Moved(s.place, Flying, if kept then Pending else Lost), flushing := false)
    case Clone =>
      if q.phase != Start then s
      else s.(q := q.(phase := Cloned, flushSeq := s.flushSeq, clone := At(s.place, Pending), metrics := {}, errors := {},
                      copied := s.place, torn := false))
    case LoadMetrics(there) =>
      if q.phase != Cloned then s
      else s.(q := q.(phase := MetricsRead, metrics := if there then At(s.place, Stored) else {}, first := s.place, metricsThere := there))
    case LoadErrors(there) =>
      if q.phase != MetricsRead then s
      else s.(q := q.(phase := ErrorsRead, errors := if there then At(s.place, Stored) else {}, second := s.place, errorsThere := there))
    case Check => if q.phase != ErrorsRead then s else s.(q := Checked(s.q, s.flushSeq, s.place))
  }

  /** The flush number is compared with the one seen; after three repetitions the buffer is copied again. */
  function Checked(q: Query, flushSeq: nat, now: Places): Query {
    if flushSeq == q.flushSeq then q.(phase := Done)
    else if q.attempt == 3 then q.(phase := Done, clone := At(now, Pending), last := now, again := true)
    else q.(phase := Start, attempt := q.attempt + 1)
  }

  function Exec(actions: seq<Action>): State {
    if actions == [] then INIT else Next(Exec(actions[..|actions| - 1]), actions[|actions| - 1])
  }

  // ---------------------------------------------------------------- invariant

  /** Whatever happens, what is stored stays so, and what is lost. */
  ghost predicate Later(now: Places, was: Places) {
    was.Keys <= now.Keys && forall id :: id in was && (was[id] == Stored || was[id] == Lost) ==> now[id] == was[id]
  }

  /** As long as no flush has begun with anything to write, moreover only what was in flight has moved. */
  ghost predicate Steady(now: Places, was: Places) {
    && Later(now, was)
    && (forall id :: id in was && was[id] == Pending ==> now[id] == Pending)
    && (forall id :: id in now && id !in was ==> now[id] == Pending || now[id] == Lost)
  }

  ghost predicate ReadFirst(q: Query) {
    q.metrics == if q.metricsThere then At(q.first, Stored) else {}
  }

  ghost predicate ReadSecond(q: Query) {
    && q.errors == (if q.errorsThere then At(q.second, Stored) else {})
    && Later(q.second, q.first) && (q.torn <==> At(q.second, Stored) != At(q.first, Stored))
  }

  /** A query between two of its steps. */
  ghost predicate Underway(s: State) {
    var q := s.q;
    match q.phase
    case Start => !q.again
    case Cloned => Copied(s) && !q.torn
    case MetricsRead =>
      && Copied(s) && ReadFirst(q) && Later(s.place, q.first) && (q.torn <==> At(s.place, Stored) != At(q.first, Stored))
      && (s.flushSeq == q.flushSeq ==> Steady(q.first, q.copied))
    case ErrorsRead =>
      && Copied(s) && ReadFirst(q) && ReadSecond(q) && Later(s.place, q.second)
      && (s.flushSeq == q.flushSeq ==> Steady(q.first, q.copied) && Steady(q.second, q.copied))
    case Done => Answered(q)
  }

  ghost predicate Copied(s: State) {
    && !s.q.again && s.q.clone == At(s.q.copied, Pending) && s.q.flushSeq <= s.flushSeq
    && (s.flushSeq == s.q.flushSeq ==> Steady(s.place, s.q.copied))
  }

  ghost predicate Answered(q: Query) {
    && ReadFirst(q) && ReadSecond(q)
    && if q.again then q.clone == At(q.last, Pending) && Later(q.last, q.second)
       else q.clone == At(q.copied, Pending) && Steady(q.first, q.copied) && Steady(q.second, q.copied)
  }

  ghost predicate Inv(s: State) {
    && (s.flushing || At(s.place, Flying) == {}) && s.q.attempt <= 3 && Underway(s)
    && (s.q.again ==> s.q.phase == Done && s.q.attempt == 3)
  }

  lemma MovedPlaces(place: Places, from: Place, to: Place)
    requires from != to
    ensures At(Moved(place, from, to), from) == {}
    ensures At(Moved(place, from, to), to) == At(place, to) + At(place, from)
    ensures forall p :: p != from && p != to ==> At(Moved(place, from, to), p) == At(place, p)
  {
  }

  /** What a step does to the records; a begun flush with anything to write is told by its number. */
  lemma PlacesMove(s: State, a: Action)
    requires s.flushing || At(s.place, Flying) == {}
    ensures var t := Next(s, a);
            && Later(t.place, s.place) && s.flushSeq <= t.flushSeq && (t.flushing || At(t.place, Flying) == {})
            && (forall was :: Later(s.place, was) ==> Later(t.place, was))
            && (t.flushSeq == s.flushSeq ==> forall was :: Steady(s.place, was) ==> Steady(t.place, was))
  {
    match a
    case Swap =>
      if !s.flushing {
        MovedPlaces(s.place, Pending, Flying);
        if At(s.place, Pending) == {} {
          forall id | id in s.place
            ensures s.place[id] != Pending
          {
            assert s.place[id] == Pending ==> id in At(s.place, Pending);
          }
          assert Next(s, a).place == s.place;
        }
      }
    case Commit => MovedPlaces(s.place, Flying, Stored);
    case Fail(kept) => MovedPlaces(s.place, Flying, if kept then Pending else Lost);
    case _ =>
  }

  /** Of the steps, only a commit with records stores any. */
  lemma StoredGrow(s: State, a: Action)
    ensures At(Next(s, a).place, Stored) == At(s.place, Stored) + if a.Commit? && s.flushing then At(s.place, Flying) else {}
  {
    match a
    case Swap => MovedPlaces(s.place, Pending, Flying);
    case Commit => MovedPlaces(s.place, Flying, Stored);
    case Fail(kept) => MovedPlaces(s.place, Flying, if kept then Pending else Lost);
    case _ =>
  }

  /** Records arriving and flushes, seen from a query. */
  lemma FlushKeeps(s: State, a: Action)
    requires Inv(s) && (a.Arrive? || a.Swap? || a.Commit? || a.Fail?)
    ensures Inv(Next(s, a))
  {
    PlacesMove(s, a);
    if s.q.phase == MetricsRead {
      StoredGrow(s, a);
      assert At(s.place, Flying) !! At(s.place, Stored);
      assert At(s.q.first, Stored) <= At(s.place, Stored);
    }
  }

  lemma CopyKeeps(s: State)
    requires Inv(s)
    ensures Inv(Next(s, Clone))
  {
  }

  lemma LoadKeeps(s: State, a: Action)
    requires Inv(s) && (a.LoadMetrics? || a.LoadErrors?)
    ensures Inv(Next(s, a))
  {
  }

  /** The flush number has not changed: what was copied and read is the answer. */
  lemma StableAnswer(q: Query, t: Query)
    requires ReadFirst(q) && ReadSecond(q) && !q.again && q.clone == At(q.copied, Pending)
    requires Steady(q.first, q.copied) && Steady(q.second, q.copied) && t == q.(phase := Done)
    ensures Answered(t)
  {
  }

  /** After four flushes: what was read and what is pending now is the answer. */
  lemma LastAnswer(q: Query, t: Query, now: Places)
    requires ReadFirst(q) && ReadSecond(q) && Later(now, q.second)
    requires t == q.(phase := Done, clone := At(now, Pending), last := now, again := true)
    ensures Answered(t)
  {
  }

  lemma CheckKeeps(s: State)
    requires Inv(s)
    ensures Inv(Next(s, Check))
  {
    var q, t := s.q, Next(s, Check);
    if q.phase == ErrorsRead {
      if s.flushSeq == q.flushSeq {
        StableAnswer(q, t.q);
      } else if q.attempt == 3 {
        LastAnswer(q, t.q, s.place);
      } else {
        assert t.q.phase == Start;
      }
    }
  }

  lemma CheckEnds(s: State)
    requires Inv(s) && s.q.phase == ErrorsRead && s.q.attempt >= 3
    ensures Next(s, Check).q.phase == Done
  {
    assert s.q.attempt == 3;
  }

  lemma {:induction false} ExecInv(actions: seq<Action>)
    ensures Inv(Exec(actions))
  {
    if actions != [] {
      var s, a := Exec(actions[..|actions| - 1]), actions[|actions| - 1];
      ExecInv(actions[..|actions| - 1]);
      match a
      case Clone => CopyKeeps(s);
      case Check => CheckKeeps(s);
      case LoadMetrics(_) => LoadKeeps(s, a);
      case LoadErrors(_) => LoadKeeps(s, a);
      case _ => FlushKeeps(s, a);
    }
  }

  // ------------------------------------------------------------- main results

  function Times(id: Id, clone: set<Id>, read: set<Id>): nat {
    (if id in clone then 1 else 0) + if id in read then 1 else 0
  }

  /** In every run, a finished query counts no record twice, in its metrics or in its errors. */
  lemma NeverTwice(actions: seq<Action>, id: Id)
    requires Exec(actions).q.phase == Done
    ensures Times(id, Exec(actions).q.clone, Exec(actions).q.metrics) <= 1
    ensures Times(id, Exec(actions).q.clone, Exec(actions).q.errors) <= 1
  {
    ExecInv(actions);
  }

  predicate Is(places: Places, id: Id, p: Place) {
    id in places && places[id] == p
  }

  /**
   * When no flush with anything to write began during a query, it misses just the
   * records that were in flight when it copied the buffer and were not yet stored
   * when the rows were read, besides those dropped before and those that came later.
   */
  lemma MissedExactly(actions: seq<Action>, id: Id)
    requires var q := Exec(actions).q; q.phase == Done && !q.again && q.metricsThere && q.errorsThere
    ensures var q := Exec(actions).q;
            if id in q.copied && q.copied[id] != Lost then
              && (Times(id, q.clone, q.metrics) == 0 <==> q.copied[id] == Flying && !Is(q.first, id, Stored))
              && (Times(id, q.clone, q.errors) == 0 <==> q.copied[id] == Flying && !Is(q.second, id, Stored))
            else Times(id, q.clone, q.metrics) == Times(id, q.clone, q.errors) == 0
  {
    ExecInv(actions);
  }

  /**
   * After four flushes in a row the buffer is copied again instead: a record that is
   * not dropped is then missed just when it was not yet stored as the rows were
   * read, and no longer pending at the end.
   */
  lemma MissedAfterConflict(actions: seq<Action>, id: Id)
    requires var q := Exec(actions).q; q.phase == Done && q.again && q.metricsThere && q.errorsThere
    requires id in Exec(actions).q.last && Exec(actions).q.last[id] != Lost
    ensures var q := Exec(actions).q;
            && (Times(id, q.clone, q.metrics) == 0 <==> !Is(q.first, id, Stored) && (q.last[id] == Flying || q.last[id] == Stored))
            && (Times(id, q.clone, q.errors) == 0 <==> !Is(q.second, id, Stored) && (q.last[id] == Flying || q.last[id] == Stored))
  {
    ExecInv(actions);
  }

  /**
   * The metrics and the errors of one answer count the same records just when no
   * batch was committed between the two reads; the errors are never behind.
   */
  lemma PartsAgree(actions: seq<Action>)
    requires var q := Exec(actions).q; q.phase == Done && q.metricsThere && q.errorsThere
    ensures var q := Exec(actions).q;
            && (forall id :: Times(id, q.clone, q.metrics) <= Times(id, q.clone, q.errors))
            && ((forall id :: Times(id, q.clone, q.metrics) == Times(id, q.clone, q.errors)) <==> !q.torn)
  {
    ExecInv(actions);
    var q := Exec(actions).q;
    if q.torn {
      assert q.metrics <= q.errors && q.metrics != q.errors;
      var id :| id in q.errors && id !in q.metrics;
      assert Times(id, q.clone, q.metrics) != Times(id, q.clone, q.errors);
    }
  }

  /**
   * Whether a flush with anything to write has begun since the buffer was copied is all
   * that decides: without one the check answers, on the first three attempts with one
   * the query starts anew, and only on the fourth the buffer is copied once more.
   */
  lemma CheckDecides(actions: seq<Action>)
    requires Exec(actions).q.phase == ErrorsRead
    ensures Decided(Exec(actions).q, Exec(actions).flushSeq, Exec(actions + [Check]).q)
  {
    ExecInv(actions);
    NotAgain(Exec(actions));
    ExecSnoc(actions, Check);
    CheckDecided(Exec(actions).q, Exec(actions).flushSeq, Exec(actions).place);
  }

  lemma NotAgain(s: State)
    requires Inv(s) && s.q.phase == ErrorsRead
    ensures !s.q.again
  {
  }

  lemma CheckDecided(q: Query, flushSeq: nat, now: Places)
    requires q.phase == ErrorsRead && !q.again
    ensures Decided(q, flushSeq, Checked(q, flushSeq, now))
  {
    var t := Checked(q, flushSeq, now);
    if flushSeq == q.flushSeq {
      assert t.phase == Done && !t.again;
    } else if q.attempt == 3 {
      assert t.phase == Done && t.again;
    } else {
      assert t.phase == Start && !t.again && t.attempt == q.attempt + 1;
    }
  }

  /** What a check makes of a query. */
  predicate Decided(was: Query, flushSeq: nat, q: Query) {
    && (q.again <==> flushSeq != was.flushSeq && was.attempt == 3)
    && (q.phase == Done <==> flushSeq == was.flushSeq || was.attempt == 3)
    && (q.phase != Done ==> q.phase == Start && q.attempt == was.attempt + 1)
  }

  /** An answer from a second copy comes from the fourth attempt. */
  lemma AgainIsFourth(actions: seq<Action>)
    requires Exec(actions).q.again
    ensures Exec(actions).q.phase == Done && Exec(actions).q.attempt == 3
  {
    ExecInv(actions);
  }

  /** The fourth attempt always answers, so the conflict error cannot happen. */
  lemma FourthAnswers(actions: seq<Action>)
    requires Exec(actions).q.phase == ErrorsRead && Exec(actions).q.attempt >= 3
    ensures Exec(actions + [Check]).q.phase == Done
  {
    ExecInv(actions);
    CheckEnds(Exec(actions));
    ExecSnoc(actions, Check);
  }

  lemma ExecSnoc(actions: seq<Action>, a: Action)
    ensures Exec(actions + [a]) == Next(Exec(actions), a)
  {
    assert (actions + [a])[..|actions|] == actions;
  }

  /** A record is in flight while the buffer is copied and the metric rows are read. */
  function OneInFlight(id: Id): seq<Action> {
    [Arrive(id, true)] + [Swap] + [Clone] + [LoadMetrics(true)]
  }

  lemma OneFlies(id: Id)
    ensures var s := Exec(OneInFlight(id));
            && s.place == map[id := Flying] && s.flushing && s.flushSeq == s.q.flushSeq && s.q.phase == MetricsRead
            && !s.q.again && s.q.clone == s.q.metrics == {} && Is(s.q.copied, id, Flying)
  {
    var a1 := [Arrive(id, true)];
    ExecSnoc([], Arrive(id, true));
    assert [] + a1 == a1;
    assert Exec(a1).place == map[id := Pending] && id in At(Exec(a1).place, Pending);
    ExecSnoc(a1, Swap);
    var s2 := Exec(a1 + [Swap]);
    assert s2.place == map[id := Flying] && At(s2.place, Pending) == {} == At(s2.place, Stored);
    ExecSnoc(a1 + [Swap], Clone);
    ExecSnoc(a1 + [Swap] + [Clone], LoadMetrics(true));
  }

  /** A record in flight throughout the read is missed: the query undercounts, and finds nothing amiss. */
  lemma InFlightIsMissed(id: Id)
    ensures var q := Exec(OneInFlight(id) + [LoadErrors(true)] + [Check]).q;
            q.phase == Done && !q.again && id in q.copied && Times(id, q.clone, q.metrics) == Times(id, q.clone, q.errors) == 0
  {
    OneFlies(id);
    assert At(Exec(OneInFlight(id)).place, Stored) == {};
    ExecSnoc(OneInFlight(id), LoadErrors(true));
    ExecSnoc(OneInFlight(id) + [LoadErrors(true)], Check);
  }

  /** A batch committed between the two reads is in the errors of the answer and not in its metrics. */
  lemma CommitTears(id: Id)
    ensures var q := Exec(OneInFlight(id) + [Commit] + [LoadErrors(true)] + [Check]).q;
            q.phase == Done && !q.again && Times(id, q.clone, q.metrics) == 0 && Times(id, q.clone, q.errors) == 1
  {
    OneFlies(id);
    ExecSnoc(OneInFlight(id), Commit);
    var s := Exec(OneInFlight(id) + [Commit]);
    assert s.place == map[id := Stored] && At(s.place, Stored) == {id};
    ExecSnoc(OneInFlight(id) + [Commit], LoadErrors(true));
    ExecSnoc(OneInFlight(id) + [Commit] + [LoadErrors(true)], Check);
  }
}
