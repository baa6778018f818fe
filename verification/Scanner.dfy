/** Running a machine that takes one byte at a time over data split anywhere. */
module Scanner {

  /** One byte's effect: carry on, finish with this byte, or fail (having taken it or not). */
  datatype Next<S> = Go(t: S) | Done(t: S) | Bad(t: S, ate: bool)

  datatype Status = Going | Complete | Failed

  /** Where a scan left the machine, how far it read, and how it ended. */
  datatype Outcome<S> = Outcome(t: S, used: nat, status: Status)

  function Scan<S>(t: S, step: (S, char) -> Next<S>, data: string, i: nat): (o: Outcome<S>)
    requires i <= |data|
    ensures i <= o.used <= |data|
    ensures o.status == Going ==> o.used == |data|
    ensures o.status == Complete ==> i < o.used
    decreases |data| - i
  {
    if i == |data| then Outcome(t, i, Going)
    else
      match step(t, data[i])
      case Go(u) => Scan(u, step, data, i + 1)
      case Done(u) => Outcome(u, i + 1, Complete)
      case Bad(u, ate) => Outcome(u, if ate then i + 1 else i, Failed)
  }

  function Shift<S>(o: Outcome<S>, n: nat): Outcome<S> {
    o.(used := o.used + n)
  }

  lemma {:induction false} ScanSuffix<S>(t: S, step: (S, char) -> Next<S>, a: string, b: string, i: nat)
    requires i <= |b|
    ensures Scan(t, step, a + b, |a| + i) == Shift(Scan(t, step, b, i), |a|)
    decreases |b| - i
  {
    if i < |b| {
      assert (a + b)[|a| + i] == b[i];
      if step(t, b[i]).Go? {
        ScanSuffix(step(t, b[i]).t, step, a, b, i + 1);
      }
    }
  }

  lemma {:induction false} ScanPrefix<S>(t: S, step: (S, char) -> Next<S>, a: string, b: string, i: nat)
    requires i <= |a|
    ensures var o := Scan(t, step, a, i);
            Scan(t, step, a + b, i) == if o.status == Going then Scan(o.t, step, a + b, |a|) else o
    decreases |a| - i
  {
    if i < |a| {
      assert (a + b)[i] == a[i];
      if step(t, a[i]).Go? {
        ScanPrefix(step(t, a[i]).t, step, a, b, i + 1);
      }
    }
  }

  /** Scanning a ++ b is scanning a and then, unless that ended, b. */
  lemma ScanConcat<S>(t: S, step: (S, char) -> Next<S>, a: string, b: string)
    ensures var o := Scan(t, step, a, 0);
            Scan(t, step, a + b, 0) == if o.status == Going then Shift(Scan(o.t, step, b, 0), |a|) else o
  {
    ScanPrefix(t, step, a, b, 0);
    var o := Scan(t, step, a, 0);
    if o.status == Going {
      ScanSuffix(o.t, step, a, b, 0);
    }
  }

  /**
   * Scanning again just what a preview took reaches the preview's state and
   * verdict; scanning less than that is still going.
   */
  lemma Rescan<S>(t: S, step: (S, char) -> Next<S>, a: string, b: string)
    requires Scan(t, step, a + b, 0).status != Failed && |a| <= Scan(t, step, a + b, 0).used
    ensures Scan(t, step, a, 0).used == |a|
    ensures |a| == Scan(t, step, a + b, 0).used ==> Scan(t, step, a, 0) == Scan(t, step, a + b, 0)
    ensures |a| < Scan(t, step, a + b, 0).used ==> Scan(t, step, a, 0).status == Going
  {
    ScanConcat(t, step, a, b);
  }
}
