/**
 * What a query answers with, told from the records: its range by name, and counters
 * that are the sums of the fields of the records whose minute lies in it.
 */
module ChannelTotals {
  import opened ChannelCounters
  import opened ChannelMemory
  import opened ChannelQuery
  import opened ChannelStore
  import opened Tally
  import opened Text
  import opened TextLaws
  import opened Wrappers

  // ------------------------------------------------------------ what is asked

  /** A range covers the named time, back from the end of the bucket that it is. */
  lemma RangeCovers(now: nat, left: string, right: string)
    requires Blank(left) && Blank(right)
    ensures var w := ParseRange(now, left + "24h" + right); w.bucket == 3600 && w.end - w.start == 24 * 3600
    ensures var w := ParseRange(now, left + "7d" + right); w.bucket == 12 * 3600 && w.end - w.start == 7 * 24 * 3600
    ensures var w := ParseRange(now, left + "30d" + right); w.bucket == 24 * 3600 && w.end - w.start == 30 * 24 * 3600
  {
    TrimAround(left, "24h", right);
    TrimAround(left, "7d", right);
    TrimAround(left, "30d", right);
  }

  /** Any other name, also none, means ninety minutes. */
  lemma OtherRange(now: nat, name: string)
    requires TrimSpace(name) != "24h" && TrimSpace(name) != "7d" && TrimSpace(name) != "30d"
    ensures var w := ParseRange(now, name); w.bucket == 5 * 60 && w.end - w.start == 90 * 60
  {
  }

  /** The minute of a time from 1970 on. */
  lemma MinuteHolds(at: nat)
    ensures MinuteOf(at) <= at < MinuteOf(at) + 60 && MinuteOf(at) % 60 == 0
  {
  }

  /** A record counts under its trimmed names; a name that is blank is unknown, but for the credential. */
  lemma SeriesNames(r: Record, a: string, provider: string, auth: string, model: string, b: string)
    requires Blank(a) && Blank(b) && r.provider == a + provider + b && r.auth == a + auth + b && r.model == a + model + b
    requires forall s: string :: s in [provider, auth, model] ==> s != "" && !IsSpace(s[0]) && !IsSpace(s[|s| - 1])
    ensures SeriesOf(r) == Series(provider, auth, model)
    ensures SeriesOf(r.(provider := a, model := b)) == Series("unknown", auth, "unknown")
  {
    assert provider in [provider, auth, model] && auth in [provider, auth, model] && model in [provider, auth, model];
    TrimAround(a, provider, b);
    TrimAround(a, auth, b);
    TrimAround(a, model, b);
    BlankTrims(a);
    BlankTrims(b);
  }

  lemma BlankTrims(a: string)
    requires Blank(a)
    ensures TrimSpace(a) == ""
  {
    TrimLeftBlank(a, "");
    assert a + "" == a;
  }

  // ----------------------------------------------------------- what is counted

  /** The records whose minute lies in a range and whose channel the query asks for. */
  function InRange(w: Range, matches: Series -> bool): Chosen {
    (r: Record) => w.start <= KeyOf(r).bucket < w.end && matches(SeriesOf(r))
  }

  /** Bucket `i` of a range. */
  function BucketOf(w: Range, i: nat): Range {
    Range(w.start + i * w.bucket, w.start + i * w.bucket + w.bucket, w.bucket)
  }

  lemma AskedOf(w: Range, matches: Series -> bool, r: Record)
    ensures Asked(BY_MINUTE, w, matches).key(r)
         == if InRange(w, matches)(r) then Some(Row(ParentStart(KeyOf(r).bucket, w.bucket), SeriesOf(r))) else None
  {
    var k := KeyOf(r);
    assert BY_MINUTE.key(r) == Some(k) && k.series == SeriesOf(r);
    assert Asked(BY_MINUTE, w, matches).key(r) == Via(Some(k), Display(w, matches)) == Display(w, matches)(k);
  }

  /** The total of a query is the sum over the records it asks for. */
  lemma TotalIs(records: seq<Record>, w: Range, matches: Series -> bool)
    ensures Sums(Total(records, Coarse(Asked(BY_MINUTE, w, matches), ToAll), (), COUNTERS), records, InRange(w, matches))
  {
    var how := Coarse(Asked(BY_MINUTE, w, matches), ToAll);
    forall r: Record | r in records
      ensures InRange(w, matches)(r) <==> how.key(r) == Some(())
    {
      AskedOf(w, matches, r);
      assert how.key(r) == Via(Asked(BY_MINUTE, w, matches).key(r), ToAll);
    }
    TotalSums(records, how, (), InRange(w, matches));
  }

  lemma InBucketOf(minute: nat, start: int, size: nat)
    requires size > 0 && start % size == 0
    ensures ParentStart(minute, size) == start <==> start <= minute < start + size
  {
    if start >= 0 {
      WindowIsParent(start, minute, size);
    } else {
      NegativeBucket(start, size);
    }
  }

  lemma NegativeBucket(start: int, size: nat)
    requires size > 0 && start % size == 0 && start < 0
    ensures start + size <= 0
  {
    Whole(start, size);
    if start / size > -1 {
      assert start / size >= 0;
    } else if start / size < -1 {
      Ladder(start / size, -1, size);
    }
  }

  lemma GridPoint(start: int, i: nat, size: nat)
    requires size > 0 && start % size == 0
    ensures (start + i * size) % size == 0
  {
    Whole(start, size);
    MultipleMod(start / size + i, size);
    assert (start / size + i) * size == start + i * size;
  }

  /** A trend point is the sum over the records in its bucket. */
  lemma PointIs(records: seq<Record>, w: Range, matches: Series -> bool, i: nat)
    requires Aligned(w) && w.start + i * w.bucket + w.bucket <= w.end && forall r :: r in records ==> KeyOf(r).bucket >= 0
    ensures Sums(Total(records, Coarse(Asked(BY_MINUTE, w, matches), ToBucket), w.start + i * w.bucket, COUNTERS), records, InRange(BucketOf(w, i), matches))
  {
    var how, start := Coarse(Asked(BY_MINUTE, w, matches), ToBucket), w.start + i * w.bucket;
    GridPoint(w.start, i, w.bucket);
    forall r: Record | r in records
      ensures InRange(BucketOf(w, i), matches)(r) <==> how.key(r) == Some(start)
    {
      AskedOf(w, matches, r);
      InBucketOf(KeyOf(r).bucket, start, w.bucket);
      assert how.key(r) == Via(Asked(BY_MINUTE, w, matches).key(r), ToBucket);
    }
    TotalSums(records, how, start, InRange(BucketOf(w, i), matches));
  }

  // ------------------------------------------------------------------ retention

  /** Minute rows go after seven days; the precomputed ones after 7, 30, 45 and 90, by their size. */
  lemma OldRowsGo<S, C>(minutes: map<Row<S>, C>, rollups: map<Rollup<S>, C>, now: int)
    ensures forall k :: k in KeepMinutes(minutes, now) <==> k in minutes && now - k.bucket <= 7 * 24 * 3600
    ensures forall k: Rollup<S> :: k in KeepRollups(rollups, now) <==>
              && k in rollups
              && (k.seconds == 5 * 60 ==> now - k.row.bucket <= 7 * 24 * 3600)
              && (k.seconds == 3600 ==> now - k.row.bucket <= 30 * 24 * 3600)
              && (k.seconds == 12 * 3600 ==> now - k.row.bucket <= 45 * 24 * 3600)
              && (k.seconds == 24 * 3600 ==> now - k.row.bucket <= 90 * 24 * 3600)
    ensures forall k :: k in KeepMinutes(minutes, now) ==> KeepMinutes(minutes, now)[k] == minutes[k]
    ensures forall k :: k in KeepRollups(rollups, now) ==> KeepRollups(rollups, now)[k] == rollups[k]
  {
  }
}
