/**
 * Releasing execution slots at Home.  Callers mark a group dirty up to a cumulative
 * sequence and hold a ticket; a flusher sends the latest sequences and, once one is
 * accepted, closes the tickets it covers.  Every section under the lock is one
 * method here, so that what each of them keeps holds in every interleaving.
 */
module ReleaseFlusher {
  import opened Wrappers

  datatype Group = Group(credential: string, model: string)

  /** A channel that is closed when its sequence has been acknowledged. */
  type Ticket = nat

  /** A key under which tickets wait. */
  datatype Sequence = Sequence(n: int)

  datatype Release = Release(latest: int, acked: int, waiters: map<Sequence, seq<Ticket>>)

  const NOTHING: Release := Release(0, 0, map[])

  /** A sequence of a group: what a ticket waits for, or what has been sent. */
  datatype Claim = Claim(group: Group, seqno: int)

  function Of(groups: map<Group, Release>, g: Group): Release {
    if g in groups then groups[g] else NOTHING
  }

  predicate NoDuplicates(s: seq<Ticket>) {
    forall i, j :: 0 <= i < j < |s| ==> s[i] != s[j]
  }

  /** The tickets waiting for a sequence of a group are open ones issued for it, once each. */
  ghost predicate Waiting(tickets: seq<Ticket>, c: Claim, closed: set<Ticket>, issued: map<Ticket, Claim>) {
    NoDuplicates(tickets) && forall t :: t in tickets ==> t in issued && issued[t] == c && t !in closed
  }

  ghost predicate GroupInv(g: Group, r: Release, closed: set<Ticket>, issued: map<Ticket, Claim>, sent: set<Claim>) {
    && 0 <= r.acked <= r.latest
    && (r.acked == 0 || Claim(g, r.acked) in sent)
    && forall q :: q in r.waiters ==> r.acked < q.n <= r.latest && Waiting(r.waiters[q], Claim(g, q.n), closed, issued)
  }

  /** A ticket is closed just when its sequence has been acknowledged, and waits until then. */
  ghost predicate TicketInv(t: Ticket, groups: map<Group, Release>, closed: set<Ticket>, issued: map<Ticket, Claim>)
    requires t in issued
  {
    var c := issued[t];
    var r := Of(groups, c.group);
    0 < c.seqno && if t in closed then c.seqno <= r.acked else r.acked < c.seqno && Sequence(c.seqno) in r.waiters && t in r.waiters[Sequence(c.seqno)]
  }

  ghost predicate Inv(groups: map<Group, Release>, closed: set<Ticket>, issued: map<Ticket, Claim>, sent: set<Claim>) {
    && closed <= issued.Keys
    && (forall g :: g in groups ==> GroupInv(g, groups[g], closed, issued, sent))
    && (forall c :: c in sent ==> c.group in groups && c.seqno <= groups[c.group].latest)
    && (forall t :: t in issued ==> TicketInv(t, groups, closed, issued))
  }

  // -------------------------------------------------------------- mark dirty

  function Marked(r: Release, sequence: int, t: Ticket): Release {
    Release(if sequence > r.latest then sequence else r.latest, r.acked,
            r.waiters[Sequence(sequence) := (if Sequence(sequence) in r.waiters then r.waiters[Sequence(sequence)] else []) + [t]])
  }

  lemma MarkedGroup(g: Group, r: Release, closed: set<Ticket>, issued: map<Ticket, Claim>, sent: set<Claim>, sequence: int, t: Ticket)
    requires GroupInv(g, r, closed, issued, sent) && closed <= issued.Keys
    requires t !in issued && 0 < sequence && r.acked < sequence
    ensures GroupInv(g, Marked(r, sequence, t), closed, issued[t := Claim(g, sequence)], sent)
  {
    var more, next := issued[t := Claim(g, sequence)], Marked(r, sequence, t);
    forall q | q in next.waiters
      ensures Waiting(next.waiters[q], Claim(g, q.n), closed, more)
    {
      if q in r.waiters {
        assert Waiting(r.waiters[q], Claim(g, q.n), closed, issued);
      }
    }
  }

  lemma OtherGroup(g: Group, r: Release, closed: set<Ticket>, issued: map<Ticket, Claim>, sent: set<Claim>, t: Ticket, c: Claim)
    requires GroupInv(g, r, closed, issued, sent) && t !in issued
    ensures GroupInv(g, r, closed, issued[t := c], sent)
  {
    forall q | q in r.waiters
      ensures Waiting(r.waiters[q], Claim(g, q.n), closed, issued[t := c])
    {
      assert Waiting(r.waiters[q], Claim(g, q.n), closed, issued);
    }
  }

  lemma MarkKeeps(groups: map<Group, Release>, closed: set<Ticket>, issued: map<Ticket, Claim>, sent: set<Claim>, g: Group, sequence: int, t: Ticket)
    requires Inv(groups, closed, issued, sent) && t !in issued && 0 < sequence && Of(groups, g).acked < sequence
    ensures Inv(groups[g := Marked(Of(groups, g), sequence, t)], closed, issued[t := Claim(g, sequence)], sent)
  {
    var more := issued[t := Claim(g, sequence)];
    var next := groups[g := Marked(Of(groups, g), sequence, t)];
    forall k | k in next
      ensures GroupInv(k, next[k], closed, more, sent)
    {
      if k == g {
        MarkedGroup(g, Of(groups, g), closed, issued, sent, sequence, t);
      } else {
        OtherGroup(k, groups[k], closed, issued, sent, t, Claim(g, sequence));
      }
    }
    forall u | u in more
      ensures TicketInv(u, next, closed, more)
    {
      if u != t {
        TicketStillWaits(groups, closed, issued, g, sequence, t, u);
      }
    }
  }

  lemma TicketStillWaits(groups: map<Group, Release>, closed: set<Ticket>, issued: map<Ticket, Claim>, g: Group, sequence: int, t: Ticket, u: Ticket)
    requires u in issued && t !in issued && TicketInv(u, groups, closed, issued)
    ensures TicketInv(u, groups[g := Marked(Of(groups, g), sequence, t)], closed, issued[t := Claim(g, sequence)])
  {
  }

  /** A ticket for what has been acknowledged already is closed at once. */
  lemma ClosedAtOnce(groups: map<Group, Release>, closed: set<Ticket>, issued: map<Ticket, Claim>, sent: set<Claim>, g: Group, sequence: int, t: Ticket)
    requires Inv(groups, closed, issued, sent) && t !in issued && 0 < sequence <= Of(groups, g).acked
    ensures Inv(groups, closed + {t}, issued[t := Claim(g, sequence)], sent)
  {
    var more := issued[t := Claim(g, sequence)];
    forall k | k in groups
      ensures GroupInv(k, groups[k], closed + {t}, more, sent)
    {
      OtherGroup(k, groups[k], closed, issued, sent, t, Claim(g, sequence));
      forall q | q in groups[k].waiters
        ensures Waiting(groups[k].waiters[q], Claim(k, q.n), closed + {t}, more)
      {
        assert Waiting(groups[k].waiters[q], Claim(k, q.n), closed, issued);
      }
    }
    forall u | u in more
      ensures TicketInv(u, groups, closed + {t}, more)
    {
      if u != t {
        assert TicketInv(u, groups, closed, issued);
      }
    }
  }

  // ------------------------------------------------------------- acknowledge

  function Later(waiters: map<Sequence, seq<Ticket>>, sequence: int): map<Sequence, seq<Ticket>> {
    map q | q in waiters && q.n > sequence :: waiters[q]
  }

  function Released(waiters: map<Sequence, seq<Ticket>>, sequence: int): set<Ticket> {
    set q, i | q in waiters && q.n <= sequence && 0 <= i < |waiters[q]| :: waiters[q][i]
  }

  function AckedTo(r: Release, sequence: int): Release {
    if sequence > r.acked then Release(r.latest, sequence, Later(r.waiters, sequence)) else r
  }

  function ClosedBy(r: Release, sequence: int): set<Ticket> {
    if sequence > r.acked then Released(r.waiters, sequence) else {}
  }

  lemma AckKeeps(groups: map<Group, Release>, closed: set<Ticket>, issued: map<Ticket, Claim>, sent: set<Claim>, c: Claim)
    requires Inv(groups, closed, issued, sent) && c in sent
    ensures var r := groups[c.group];
            Inv(groups[c.group := AckedTo(r, c.seqno)], closed + ClosedBy(r, c.seqno), issued, sent)
  {
    var g, sequence := c.group, c.seqno;
    var r := groups[g];
    assert GroupInv(g, r, closed, issued, sent);
    if sequence > r.acked {
      var next, more := groups[g := AckedTo(r, sequence)], closed + Released(r.waiters, sequence);
      forall t | t in Released(r.waiters, sequence)
        ensures t in issued && issued[t].group == g && issued[t].seqno <= sequence && Sequence(issued[t].seqno) in r.waiters && t !in closed
      {
        var q, i :| q in r.waiters && q.n <= sequence && 0 <= i < |r.waiters[q]| && r.waiters[q][i] == t;
        assert Waiting(r.waiters[q], Claim(g, q.n), closed, issued);
      }
      forall k | k in next
        ensures GroupInv(k, next[k], more, issued, sent)
      {
        assert GroupInv(k, groups[k], closed, issued, sent);
        forall q | q in next[k].waiters
          ensures Waiting(next[k].waiters[q], Claim(k, q.n), more, issued)
        {
          assert Waiting(groups[k].waiters[q], Claim(k, q.n), closed, issued);
        }
      }
      forall t | t in issued
        ensures TicketInv(t, next, more, issued)
      {
        assert TicketInv(t, groups, closed, issued);
        if t !in closed && issued[t].group == g && issued[t].seqno <= sequence {
          var q := Sequence(issued[t].seqno);
          var i :| 0 <= i < |r.waiters[q]| && r.waiters[q][i] == t;
          assert t in Released(r.waiters, sequence);
        }
      }
    } else {
      assert groups[g := r] == groups && closed + {} == closed;
    }
  }

  /** How far closing the waiters has come. */
  ghost predicate Progress(rest: map<Sequence, seq<Ticket>>, left: set<Sequence>, done: map<Sequence, seq<Ticket>>, waiters: map<Sequence, seq<Ticket>>, sequence: int) {
    && left <= waiters.Keys && done.Keys == waiters.Keys - left && (forall q :: q in done ==> done[q] == waiters[q])
    && rest.Keys <= waiters.Keys && forall q :: q in waiters ==> (q in rest <==> q in left || q.n > sequence) && (q in rest ==> rest[q] == waiters[q])
  }

  lemma ProgressEnds(rest: map<Sequence, seq<Ticket>>, done: map<Sequence, seq<Ticket>>, waiters: map<Sequence, seq<Ticket>>, sequence: int)
    requires Progress(rest, {}, done, waiters, sequence)
    ensures done == waiters && rest == Later(waiters, sequence)
  {
  }

  /** All that the flusher remembers, and all that has happened. */
  datatype Record = Record(groups: map<Group, Release>, closed: set<Ticket>, issued: map<Ticket, Claim>, sent: set<Claim>)

  /** Nothing is taken back: sequences only grow, and closed tickets stay closed. */
  ghost predicate Grew(now: Record, was: Record) {
    && (forall g :: g in was.groups ==> g in now.groups && was.groups[g].latest <= now.groups[g].latest && was.groups[g].acked <= now.groups[g].acked)
    && was.closed <= now.closed && was.sent <= now.sent
    && was.issued.Keys <= now.issued.Keys && forall t :: t in was.issued ==> now.issued[t] == was.issued[t]
  }

  class Flusher {
    var groups: map<Group, Release>
    var closed: set<Ticket>
    var made: nat
    ghost var issued: map<Ticket, Claim>
    ghost var sent: set<Claim>

    ghost predicate Valid()
      reads this
    {
      Inv(groups, closed, issued, sent) && forall t :: t in issued ==> t < made
    }

    ghost function Now(): Record
      reads this
    {
      Record(groups, closed, issued, sent)
    }

    constructor ()
      ensures Valid() && groups == map[] && issued == map[]
    {
      groups, closed, made, issued, sent := map[], {}, 0, map[], {};
    }

    /** Records a sequence, and hands out a ticket with a new channel. */
    method MarkDirty(group: Group, sequence: int) returns (ticket: Option<Ticket>)
      requires Valid()
      modifies this
      ensures Valid() && Grew(Now(), old(Now())) && sent == old(sent)
      ensures ticket.Some? <==> sequence > 0 && group.credential != "" && group.model != ""
      ensures ticket.None? ==> groups == old(groups) && issued == old(issued)
      ensures ticket.Some? ==>
                && groups == (if sequence <= Of(old(groups), group).acked then old(groups)
                              else old(groups)[group := Marked(Of(old(groups), group), sequence, ticket.value)])
                && ticket.value !in old(issued) && issued == old(issued)[ticket.value := Claim(group, sequence)]
                && closed == old(closed) + (if sequence <= Of(old(groups), group).acked then {ticket.value} else {})
                && sequence <= Of(groups, group).latest
    {
      if sequence <= 0 || group.credential == "" || group.model == "" {
        return None;
      }
      var done := made;
      made := made + 1;
      var state := Of(groups, group);
      if sequence <= state.acked {
        ClosedAtOnce(groups, closed, issued, sent, group, sequence, done);
        closed := closed + {done};
      } else {
        MarkKeeps(groups, closed, issued, sent, group, sequence, done);
        groups := groups[group := Marked(state, sequence, done)];
      }
      issued := issued[done := Claim(group, sequence)];
      return Some(done);
    }

    /** What there is to send: the latest sequence of every dirty group. */
    method Pending() returns (pending: map<Group, int>)
      ensures pending == map g | g in groups && groups[g].latest > groups[g].acked :: groups[g].latest
    {
      pending := map[];
      var left := groups.Keys;
      while left != {}
        invariant left <= groups.Keys
        invariant pending == map g | g in groups && g !in left && groups[g].latest > groups[g].acked :: groups[g].latest
        decreases |left|
      {
        var g :| g in left;
        if groups[g].latest > groups[g].acked {
          pending := pending[g := groups[g].latest];
        }
        left := left - {g};
      }
    }

    /** Sends a sequence to Home, which may fail. */
    method Send(c: Claim) returns (ok: bool)
      requires Valid() && c.group in groups && c.seqno <= groups[c.group].latest
      modifies this`sent
      ensures Valid() && sent == old(sent) + if ok then {c} else {}
    {
      ok := *;
      if ok {
        sent := sent + {c};
      }
    }

    /** Closing a channel twice is an error. */
    method Close(t: Ticket)
      requires t !in closed
      modifies this`closed
      ensures closed == old(closed) + {t}
    {
      closed := closed + {t};
    }

    method CloseAll(tickets: seq<Ticket>)
      requires NoDuplicates(tickets) && forall t :: t in tickets ==> t !in closed
      modifies this`closed
      ensures closed == old(closed) + set t | t in tickets
    {
      for i := 0 to |tickets|
        invariant closed == old(closed) + set t | t in tickets[..i]
      {
        assert tickets[i] !in tickets[..i];
        assert tickets[..i + 1] == tickets[..i] + [tickets[i]];
        Close(tickets[i]);
      }
      assert tickets[..|tickets|] == tickets;
    }

    /** Closes the tickets of one sequence, if it is covered. */
    method CloseOne(q: Sequence, tickets: seq<Ticket>, sequence: int, ghost done: map<Sequence, seq<Ticket>>, ghost was: set<Ticket>)
      requires q !in done && closed == was + Released(done, sequence)
      requires NoDuplicates(tickets) && forall t :: t in tickets ==> t !in closed
      modifies this`closed
      ensures closed == was + Released(done[q := tickets], sequence)
    {
      ReleasedMore(done, q, tickets, sequence);
      if q.n <= sequence {
        CloseAll(tickets);
      }
    }

    /** Closes the tickets that a sequence covers, each once. */
    method CloseWaiters(g: Group, waiters: map<Sequence, seq<Ticket>>, sequence: int) returns (rest: map<Sequence, seq<Ticket>>)
      requires forall q :: q in waiters ==> Waiting(waiters[q], Claim(g, q.n), closed, issued)
      modifies this`closed
      ensures rest == Later(waiters, sequence) && closed == old(closed) + Released(waiters, sequence)
    {
      rest := waiters;
      var left := waiters.Keys;
      ghost var done: map<Sequence, seq<Ticket>> := map[];
      assert Released(done, sequence) == {};
      while left != {}
        invariant Progress(rest, left, done, waiters, sequence)
        invariant closed == old(closed) + Released(done, sequence)
        decreases |left|
      {
        var q :| q in left;
        rest := CloseStep(g, waiters, q, rest, left, sequence, done, old(closed));
        done, left := done[q := waiters[q]], left - {q};
      }
      ProgressEnds(rest, done, waiters, sequence);
    }

    method CloseStep(g: Group, waiters: map<Sequence, seq<Ticket>>, q: Sequence, rest: map<Sequence, seq<Ticket>>, ghost left: set<Sequence>, sequence: int,
        ghost done: map<Sequence, seq<Ticket>>, ghost was: set<Ticket>) returns (less: map<Sequence, seq<Ticket>>)
      requires forall p :: p in waiters ==> Waiting(waiters[p], Claim(g, p.n), was, issued)
      requires q in left && Progress(rest, left, done, waiters, sequence) && closed == was + Released(done, sequence)
      modifies this`closed
      ensures Progress(less, left - {q}, done[q := waiters[q]], waiters, sequence)
      ensures closed == was + Released(done[q := waiters[q]], sequence)
    {
      NotReleasedYet(g, waiters, done, q, sequence, was, issued);
      CloseOne(q, waiters[q], sequence, done, was);
      less := if q.n <= sequence then rest - {q} else rest;
    }

    /** What becomes of a group when a sequence of it has been accepted; its covered tickets are closed. */
    method Advance(g: Group, state: Release, sequence: int) returns (next: Release)
      requires forall q :: q in state.waiters ==> Waiting(state.waiters[q], Claim(g, q.n), closed, issued)
      modifies this`closed
      ensures next == AckedTo(state, sequence) && closed == old(closed) + ClosedBy(state, sequence)
    {
      next := state;
      if sequence > state.acked {
        var rest := CloseWaiters(g, state.waiters, sequence);
        next := Release(state.latest, sequence, rest);
      } else {
        assert closed + {} == closed;
      }
    }

    /** Home has accepted a sequence. */
    method Ack(c: Claim)
      requires Valid() && c in sent
      modifies this`groups, this`closed
      ensures Valid() && Grew(Now(), old(Now()))
      ensures groups == old(groups)[c.group := AckedTo(old(groups)[c.group], c.seqno)]
      ensures closed == old(closed) + ClosedBy(old(groups)[c.group], c.seqno)
    {
      AckKeeps(groups, closed, issued, sent, c);
      var state := Advance(c.group, groups[c.group], c.seqno);
      groups := groups[c.group := state];
    }

    /** No group has anything left to send. */
    method Idle() returns (idle: bool)
      ensures idle <==> forall g :: g in groups ==> groups[g].latest <= groups[g].acked
    {
      var left := groups.Keys;
      while left != {}
        invariant left <= groups.Keys
        invariant forall g :: g in groups && g !in left ==> groups[g].latest <= groups[g].acked
        decreases |left|
      {
        var g :| g in left;
        if groups[g].latest > groups[g].acked {
          return false;
        }
        left := left - {g};
      }
      return true;
    }

    /** Whatever other goroutines do between two sections under the lock. */
    method Others()
      requires Valid()
      modifies this
      ensures Valid() && Grew(Now(), old(Now()))
    {
      var n: nat :| n >= 0;
      for i := 0 to n
        invariant Valid() && Grew(Now(), old(Now()))
      {
        var g: Group, sequence: int := *, *;
        if * {
          var ticket := MarkDirty(g, sequence);
        } else if g in groups && sequence <= groups[g].latest {
          var ok := Send(Claim(g, sequence));
          if ok {
            Ack(Claim(g, sequence));
          }
        }
      }
    }
  }

  lemma ReleasedMore(done: map<Sequence, seq<Ticket>>, q: Sequence, tickets: seq<Ticket>, sequence: int)
    requires q !in done
    ensures Released(done[q := tickets], sequence) == Released(done, sequence) + if q.n <= sequence then set t | t in tickets else {}
  {
    var more := done[q := tickets];
    forall t | t in Released(done, sequence)
      ensures t in Released(more, sequence)
    {
      var p, i :| p in done && p.n <= sequence && 0 <= i < |done[p]| && done[p][i] == t;
      assert more[p][i] == t;
    }
    if q.n <= sequence {
      forall t | t in tickets
        ensures t in Released(more, sequence)
      {
        var i :| 0 <= i < |tickets| && tickets[i] == t;
        assert more[q][i] == t;
      }
    }
  }

  /** Tickets of one sequence have not been closed with those of another. */
  lemma NotReleasedYet(g: Group, waiters: map<Sequence, seq<Ticket>>, done: map<Sequence, seq<Ticket>>, q: Sequence, sequence: int, closed: set<Ticket>, issued: map<Ticket, Claim>)
    requires forall p :: p in waiters ==> Waiting(waiters[p], Claim(g, p.n), closed, issued)
    requires q in waiters && q !in done && forall p :: p in done ==> p in waiters && done[p] == waiters[p]
    ensures NoDuplicates(waiters[q]) && forall t :: t in waiters[q] ==> t !in closed + Released(done, sequence)
  {
    assert Waiting(waiters[q], Claim(g, q.n), closed, issued);
    forall t | t in Released(done, sequence)
      ensures t !in waiters[q]
    {
      var p, i :| p in done && p.n <= sequence && 0 <= i < |done[p]| && done[p][i] == t;
      assert Waiting(waiters[p], Claim(g, p.n), closed, issued);
    }
  }

  // ------------------------------------------------------------- main results

  /** An acknowledged sequence was sent, is at most the latest, and no ticket that waits is behind it. */
  lemma AckedWasSent(f: map<Group, Release>, closed: set<Ticket>, issued: map<Ticket, Claim>, sent: set<Claim>, t: Ticket)
    requires Inv(f, closed, issued, sent) && t in issued
    ensures var c := issued[t];
            if t in closed then exists s :: s in sent && s.group == c.group && s.seqno >= c.seqno
            else c.group in f && f[c.group].acked < c.seqno <= f[c.group].latest
  {
    var c := issued[t];
    assert TicketInv(t, f, closed, issued);
    if c.group in f {
      assert GroupInv(c.group, f[c.group], closed, issued, sent);
      if t in closed {
        assert Claim(c.group, f[c.group].acked) in sent;
      }
    }
  }

  /** When no group has anything left to send, every ticket ever issued has been closed. */
  lemma IdleHasNoWaiters(f: map<Group, Release>, closed: set<Ticket>, issued: map<Ticket, Claim>, sent: set<Claim>)
    requires Inv(f, closed, issued, sent) && forall g :: g in f ==> f[g].latest <= f[g].acked
    ensures issued.Keys == closed
  {
    forall t | t in issued
      ensures t in closed
    {
      AckedWasSent(f, closed, issued, sent, t);
    }
  }

  lemma GrewTwice(c: Record, b: Record, a: Record)
    requires Grew(c, b) && Grew(b, a)
    ensures Grew(c, a)
  {
  }

  /** Sends one group's sequence; other goroutines step in before the send and after it. */
  method Dispatch(f: Flusher, c: Claim) returns (ok: bool)
    requires f.Valid() && c.group in f.groups && c.seqno <= f.groups[c.group].latest
    modifies f
    ensures f.Valid() && Grew(f.Now(), old(f.Now())) && (ok ==> c in f.sent)
  {
    f.Others();
    ghost var before := f.Now();
    ok := f.Send(c);
    ghost var sent := f.Now();
    f.Others();
    GrewTwice(f.Now(), sent, before);
    GrewTwice(f.Now(), before, old(f.Now()));
  }

  /** Sends one group's sequence and notes its acknowledgement. */
  method FlushGroup(f: Flusher, c: Claim, ghost start: Record) returns (ok: bool)
    requires f.Valid() && c.group in f.groups && c.seqno <= f.groups[c.group].latest && Grew(f.Now(), start)
    modifies f
    ensures f.Valid() && Grew(f.Now(), old(f.Now())) && Grew(f.Now(), start)
    ensures ok ==> c.seqno <= f.groups[c.group].acked
  {
    ok := Dispatch(f, c);
    ghost var sent := f.Now();
    if ok {
      f.Ack(c);
      GrewTwice(f.Now(), sent, old(f.Now()));
    }
    GrewTwice(f.Now(), old(f.Now()), start);
  }

  /** What was dirty at the start has been acknowledged, but for some groups. */
  ghost predicate Settled(now: map<Group, Release>, start: map<Group, Release>, left: set<Group>) {
    forall g :: g in start && g !in left ==> g in now && start[g].latest <= now[g].acked
  }

  lemma SettledGrows(now: Record, before: Record, start: Record, left: set<Group>, g: Group, ok: bool)
    requires Grew(now, before) && Grew(before, start) && g in start.groups
    requires ok ==> g in now.groups && start.groups[g].latest <= now.groups[g].acked
    ensures Settled(before.groups, start.groups, left) && ok ==> Settled(now.groups, start.groups, left - {g})
  {
  }

  /** One flush: with a sender, if it reports no failure, all that was dirty at its start has been acknowledged. */
  method Flush(f: Flusher, sender: bool) returns (failed: bool)
    requires f.Valid()
    modifies f
    ensures f.Valid() && Grew(f.Now(), old(f.Now()))
    ensures sender && !failed ==> forall g :: g in old(f.groups) ==> old(f.groups)[g].latest <= f.groups[g].acked
    ensures !sender ==> !failed && f.Now() == old(f.Now())
  {
    ghost var start := f.Now();
    var pending := f.Pending();
    if !sender {
      return false;
    }
    failed := false;
    var left := pending.Keys;
    while left != {}
      invariant left <= pending.Keys && f.Valid() && Grew(f.Now(), start)
      invariant !failed ==> Settled(f.groups, start.groups, left)
      decreases |left|
    {
      var g :| g in left;
      ghost var before := f.Now();
      var ok := FlushGroup(f, Claim(g, pending[g]), start);
      SettledGrows(f.Now(), before, start, left, g, ok);
      failed := failed || !ok;
      left := left - {g};
    }
  }
}
