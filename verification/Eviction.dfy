/**
 * Batch eviction, shared by the replay caches: sort the entries by time stamp
 * and drop the first `count`.  The sort is not stable and starts from a map, so
 * entries with equal stamps may leave in any order.
 */
module Eviction {
  /** `victims` is a batch that some order of the ties could have removed. */
  ghost predicate OldestBatch<K>(stamps: map<K, int>, count: nat, victims: set<K>) {
    && victims <= stamps.Keys
    && |victims| == (if count <= |stamps| then count else |stamps|)
    && forall v, s :: v in victims && s in stamps && s !in victims ==> stamps[v] <= stamps[s]
  }

  lemma {:induction false} OldestExists<K>(stamps: map<K, int>, rest: set<K>)
    requires rest != {} && rest <= stamps.Keys
    ensures exists k :: k in rest && forall s :: s in rest ==> stamps[k] <= stamps[s]
    decreases |rest|
  {
    var k :| k in rest;
    if rest == {k} {
      assert forall s :: s in rest ==> stamps[k] <= stamps[s];
    } else {
      OldestExists(stamps, rest - {k});
      var m :| m in rest - {k} && forall s :: s in rest - {k} ==> stamps[m] <= stamps[s];
      var least := if stamps[k] <= stamps[m] then k else m;
      assert forall s :: s in rest ==> stamps[least] <= stamps[s];
    }
  }

  method SelectOldest<K(==)>(stamps: map<K, int>, count: nat) returns (victims: set<K>)
    ensures OldestBatch(stamps, count, victims)
  {
    var limit := if count <= |stamps| then count else |stamps|;
    victims := {};
    var rest := stamps.Keys;
    for i := 0 to limit
      invariant victims !! rest && victims + rest == stamps.Keys
      invariant |victims| == i && |rest| == |stamps| - i
      invariant forall v, s :: v in victims && s in rest ==> stamps[v] <= stamps[s]
    {
      OldestExists(stamps, rest);
      var k :| k in rest && forall s :: s in rest ==> stamps[k] <= stamps[s];
      victims, rest := victims + {k}, rest - {k};
    }
  }
}
