/**
 * Merging a rendered configuration into the document it was loaded from, so that
 * the document keeps its shape and takes on the configuration's meaning.
 */
module YamlMerge {
  import opened Wrappers
  import opened YamlTree
  import Text

  // ------------------------------------------------------- pruning new values

  predicate EmptyCollection(n: Node) {
    (n.Mapping? && n.entries == []) || (n.Sequence? && n.items == [])
  }

  /** A new value without its default-valued descendants. */
  function Pruned(path: Path, n: Node): Node
    decreases n, 1
  {
    match n
    case Mapping(entries) => Mapping(PrunedEntries(path, n, |entries|))
    case Sequence(items) => Sequence(seq(|items|, i requires 0 <= i < |items| => Pruned(path, items[i])))
    case _ => n
  }

  function PrunedEntries(path: Path, n: Node, k: nat): seq<Entry>
    requires n.Mapping? && k <= |n.entries|
    decreases n, 0, k
  {
    if k == 0 then []
    else
      var rest, e := PrunedEntries(path, n, k - 1), n.entries[k - 1];
      if IsKnownDefault(path + [e.key], e.value) || EmptyCollection(Pruned(path + [e.key], e.value)) then rest
      else rest + [Entry(e.key, Pruned(path + [e.key], e.value))]
  }

  // ------------------------------------------------------- matching list items

  type Pick = Node -> bool

  function FirstUnused(original: seq<Node>, used: seq<bool>, pick: Pick, i: nat): (r: int)
    requires |used| == |original| && i <= |original|
    ensures r == -1 || (i <= r < |original| && !used[r] && pick(original[r]))
    decreases |original| - i
  {
    if i == |original| then -1
    else if !used[i] && pick(original[i]) then i
    else FirstUnused(original, used, pick, i + 1)
  }

  function SameIdentity(id: string): Pick {
    (n: Node) => n.Mapping? && Identity(n) == id
  }

  function SameScalar(value: string): Pick {
    (n: Node) => n.Scalar? && Text.TrimSpace(n.value) == value
  }

  function SameAs(target: Node): Pick {
    (n: Node) => SameStructure(n, target)
  }

  /** The element of the original list that is to become `target`: by identity, by value, or by structure. */
  function Match(original: seq<Node>, used: seq<bool>, target: Node): (r: int)
    requires |used| == |original|
    ensures r == -1 || (0 <= r < |original| && !used[r])
  {
    var first :=
      match target
      case Mapping(_) => (if Identity(target) != "" then FirstUnused(original, used, SameIdentity(Identity(target)), 0) else -1)
      case Scalar(_, value) => (if Text.TrimSpace(value) != "" then FirstUnused(original, used, SameScalar(Text.TrimSpace(value)), 0) else -1)
      case _ => -1;
    if first >= 0 then first else FirstUnused(original, used, SameAs(target), 0)
  }

  function Taken(n: nat, matches: seq<int>): seq<bool> {
    seq(n, i => i in matches)
  }

  /** For each new element the original one it takes over, or -1. */
  function Matches(original: seq<Node>, items: seq<Node>): (matches: seq<int>)
    ensures |matches| == |items|
    ensures forall i :: 0 <= i < |matches| ==> -1 <= matches[i] < |original|
  {
    if items == [] then []
    else
      var rest := Matches(original, items[..|items| - 1]);
      rest + [Match(original, Taken(|original|, rest), items[|items| - 1])]
  }

  /** No original element is taken over twice. */
  lemma {:induction false} MatchesAreDistinct(original: seq<Node>, items: seq<Node>, i: nat, j: nat)
    requires i < j < |items| && Matches(original, items)[j] >= 0
    ensures Matches(original, items)[i] != Matches(original, items)[j]
  {
    var rest := Matches(original, items[..|items| - 1]);
    if j == |items| - 1 {
      assert rest[i] in rest;
      assert !Taken(|original|, rest)[Matches(original, items)[j]];
    } else {
      MatchesAreDistinct(original, items[..|items| - 1], i, j);
    }
  }

  // ------------------------------------------------------------------ merging

  function KeptKeys(src: seq<Entry>): set<string> {
    set i | 0 <= i < |src| && Text.TrimSpace(src[i].key) != "" :: Text.TrimSpace(src[i].key)
  }

  /** The entries whose key, up to white space, is one of the new ones. */
  function WithoutMissing(dst: seq<Entry>, keep: set<string>): seq<Entry> {
    if dst == [] then []
    else if Text.TrimSpace(dst[0].key) in keep then [dst[0]] + WithoutMissing(dst[1..], keep)
    else WithoutMissing(dst[1..], keep)
  }

  /** The entries that a mapping is merged into. */
  function BaseEntries(dst: Node, src: Node): seq<Entry>
    requires src.Mapping?
  {
    if dst.Mapping? then dst.entries else src.entries
  }

  function BaseItems(dst: Node): seq<Node> {
    if dst.Sequence? then dst.items else []
  }

  function MergedNode(dst: Node, src: Node, path: Path): Node
    requires Rendered(src)
    decreases src, 1
  {
    match src
    case Mapping(entries) => Mapping(MergedEntries(BaseEntries(dst, src), src, |entries|, path))
    case Sequence(items) =>
      if IsNull(dst) && items == [] then dst
      else Sequence(MergedItems(BaseItems(dst), src, path))
    case Scalar(_, _) => src
  }

  /** The new list: what each element makes of the original one it takes over. */
  function MergedItems(original: seq<Node>, src: Node, path: Path): seq<Node>
    requires Rendered(src) && src.Sequence?
    decreases src, 0
  {
    var items := src.items;
    seq(|items|, i requires 0 <= i < |items| => MergedItem(original, Matches(original, items)[i], items[i], path))
  }

  function MergedEntries(dst: seq<Entry>, src: Node, k: nat, path: Path): seq<Entry>
    requires Rendered(src) && src.Mapping? && k <= |src.entries|
    decreases src, 0, k
  {
    if k == 0 then dst
    else
      var done, e := MergedEntries(dst, src, k - 1, path), src.entries[k - 1];
      var at := FindKey(done, e.key);
      if at >= 0 then done[at := Entry(e.key, MergedNode(done[at].value, e.value, path + [e.key]))]
      else WithNew(done, e, path)
  }

  /** A new key is added unless what is left of its value is a default. */
  function WithNew(dst: seq<Entry>, e: Entry, path: Path): seq<Entry> {
    var candidate := Pruned(path + [e.key], e.value);
    if IsKnownDefault(path + [e.key], candidate) then dst else dst + [Entry(e.key, candidate)]
  }

  /** A list element: merged into the original one it takes over, which loses the keys that are gone; or a copy. */
  function MergedItem(original: seq<Node>, at: int, item: Node, path: Path): Node
    requires Rendered(item) && -1 <= at < |original|
    decreases item, 2
  {
    if at < 0 then item
    else
      var merged := MergedNode(original[at], item, path);
      if merged.Mapping? && item.Mapping? then Mapping(WithoutMissing(merged.entries, KeptKeys(item.entries))) else merged
  }

  // ------------------------------------------------------------------ meaning

  /**
   * The document says what the configuration says: every key agrees or is left out
   * because it is insignificant, lists agree element by element, and null may stand
   * for an empty list.
   */
  predicate Agrees(src: Node, out: Node, path: Path)
    decreases src, 1
  {
    match src
    case Mapping(entries) => out.Mapping? && forall i :: 0 <= i < |entries| ==> EntryAgrees(src, i, out.entries, path)
    case Sequence(items) =>
      || (IsNull(out) && items == [])
      || (out.Sequence? && |out.items| == |items| && forall i :: 0 <= i < |items| ==> Agrees(items[i], out.items[i], path))
    case _ => out == src
  }

  predicate EntryAgrees(src: Node, i: nat, out: seq<Entry>, path: Path)
    requires src.Mapping? && i < |src.entries|
    decreases src, 0
  {
    var e := src.entries[i];
    var at := FindKey(out, e.key);
    if at >= 0 then Agrees(e.value, out[at].value, path + [e.key]) else Insignificant(path + [e.key], e.value)
  }

  lemma FirstKey(entries: seq<Entry>, i: nat)
    requires DistinctKeys(entries) && i < |entries|
    ensures FindKey(entries, entries[i].key) == i
  {
  }

  lemma {:induction false} AgreesItself(n: Node, path: Path)
    requires Rendered(n)
    ensures Agrees(n, n, path)
    decreases n
  {
    match n
    case Mapping(entries) =>
      forall i | 0 <= i < |entries|
        ensures EntryAgrees(n, i, entries, path)
      {
        FirstKey(entries, i);
        AgreesItself(entries[i].value, path + [entries[i].key]);
      }
    case Sequence(items) =>
      forall i | 0 <= i < |items|
        ensures Agrees(items[i], items[i], path)
      {
        AgreesItself(items[i], path);
      }
    case _ =>
  }

  // ------------------------------------------------------------------ pruning

  predicate Skipped(path: Path, e: Entry) {
    IsKnownDefault(path + [e.key], e.value) || EmptyCollection(Pruned(path + [e.key], e.value))
  }

  /** Where an entry is after pruning. */
  lemma {:induction false} PrunedFind(path: Path, n: Node, k: nat, i: nat)
    requires n.Mapping? && i < k <= |n.entries| && DistinctKeys(n.entries)
    ensures var e, out := n.entries[i], PrunedEntries(path, n, k);
            var at := FindKey(out, e.key);
            if Skipped(path, e) then at < 0 else at >= 0 && out[at].value == Pruned(path + [e.key], e.value)
    decreases k
  {
    var e, rest, last := n.entries[i], PrunedEntries(path, n, k - 1), n.entries[k - 1];
    if i < k - 1 {
      PrunedFind(path, n, k - 1, i);
      FindSnoc(rest, Entry(last.key, Pruned(path + [last.key], last.value)), e.key);
    } else {
      PrunedKeys(path, n, k - 1, e.key);
      FindSnoc(rest, Entry(last.key, Pruned(path + [last.key], last.value)), e.key);
    }
  }

  lemma FindSnoc(entries: seq<Entry>, e: Entry, key: string)
    ensures FindKey(entries + [e], key) == if FindKey(entries, key) >= 0 then FindKey(entries, key) else if e.key == key then |entries| else -1
  {
    var r := FindKey(entries + [e], key);
    assert (entries + [e])[|entries|] == e;
    assert forall i :: 0 <= i < |entries| ==> (entries + [e])[i] == entries[i];
  }

  lemma {:induction false} PrunedKeys(path: Path, n: Node, k: nat, key: string)
    requires n.Mapping? && k <= |n.entries| && forall i :: 0 <= i < k ==> n.entries[i].key != key
    ensures FindKey(PrunedEntries(path, n, k), key) < 0
    decreases k
  {
    if k > 0 {
      var e := n.entries[k - 1];
      PrunedKeys(path, n, k - 1, key);
      FindSnoc(PrunedEntries(path, n, k - 1), Entry(e.key, Pruned(path + [e.key], e.value)), key);
    }
  }

  /** Every entry that pruning keeps comes from one of the mapping's. */
  lemma {:induction false} PrunedHas(path: Path, n: Node, k: nat, i: nat)
    requires n.Mapping? && i < k <= |n.entries| && !Skipped(path, n.entries[i])
    ensures Entry(n.entries[i].key, Pruned(path + [n.entries[i].key], n.entries[i].value)) in PrunedEntries(path, n, k)
    decreases k
  {
    if i < k - 1 {
      PrunedHas(path, n, k - 1, i);
    }
  }

  /** What prunes to zero was made of zeros and defaults. */
  lemma {:induction false} ZeroPruned(path: Path, n: Node)
    requires IsZero(Pruned(path, n))
    ensures Negligible(path, n)
    decreases n, 1
  {
    match n
    case Mapping(entries) =>
      forall i | 0 <= i < |entries|
        ensures Negligible(path + [entries[i].key], entries[i].value)
      {
        ZeroEntry(path, n, i);
      }
    case Sequence(items) =>
      forall i | 0 <= i < |items|
        ensures Negligible(path, items[i])
      {
        assert IsZero(Pruned(path, n).items[i]);
        ZeroPruned(path, items[i]);
      }
    case _ =>
  }

  lemma {:induction false} ZeroEntry(path: Path, n: Node, i: nat)
    requires n.Mapping? && i < |n.entries| && IsZero(Pruned(path, n))
    ensures Negligible(path + [n.entries[i].key], n.entries[i].value)
    decreases n, 0
  {
    var e := n.entries[i];
    var child := path + [e.key];
    if !Skipped(path, e) {
      PrunedHas(path, n, |n.entries|, i);
      ZeroPruned(child, e.value);
    } else if !IsKnownDefault(child, e.value) {
      ZeroPruned(child, e.value);
    }
  }

  /** What is skipped in a new value, or not added because of what is left of it, was insignificant. */
  lemma DefaultPruned(path: Path, n: Node)
    requires IsKnownDefault(path, Pruned(path, n)) || IsKnownDefault(path, n) || EmptyCollection(Pruned(path, n))
    ensures Insignificant(path, n)
  {
    if IsZero(Pruned(path, n)) {
      ZeroPruned(path, n);
    }
  }

  /** A pruned value says what the whole one said. */
  lemma {:induction false} PrunedAgrees(path: Path, n: Node)
    requires Rendered(n)
    ensures Agrees(n, Pruned(path, n), path)
    decreases n
  {
    match n
    case Mapping(entries) =>
      forall i | 0 <= i < |entries|
        ensures EntryAgrees(n, i, Pruned(path, n).entries, path)
      {
        var e := entries[i];
        PrunedFind(path, n, |entries|, i);
        if Skipped(path, e) {
          DefaultPruned(path + [e.key], e.value);
        } else {
          PrunedAgrees(path + [e.key], e.value);
        }
      }
    case Sequence(items) =>
      forall i | 0 <= i < |items|
        ensures Agrees(items[i], Pruned(path, n).items[i], path)
      {
        PrunedAgrees(path, items[i]);
      }
    case _ =>
  }

  // ---------------------------------------------------------- list elements

  lemma {:induction false} WithoutMissingFind(dst: seq<Entry>, keep: set<string>, key: string)
    ensures var out := WithoutMissing(dst, keep);
            var at, was := FindKey(out, key), FindKey(dst, key);
            if Text.TrimSpace(key) in keep then
              (at < 0 <==> was < 0) && (at >= 0 ==> out[at] == dst[was])
            else at < 0
  {
    if dst != [] {
      WithoutMissingFind(dst[1..], keep, key);
    }
  }

  predicate BlankKey(e: Entry) {
    Text.TrimSpace(e.key) == ""
  }

  /**
   * What a list element says after the keys that are gone have been removed: a key of
   * white space only is always removed, and agrees just when its value was not worth
   * keeping; any other key says what it said before.
   */
  predicate EntryLeft(item: Node, i: nat, out: seq<Entry>, path: Path)
    requires item.Mapping? && i < |item.entries|
  {
    var e := item.entries[i];
    if BlankKey(e) then Insignificant(path + [e.key], e.value) else EntryAgrees(item, i, out, path)
  }

  lemma EntryLeftAgrees(item: Node, i: nat, out: seq<Entry>, path: Path)
    requires item.Mapping? && i < |item.entries|
    ensures EntryAgrees(item, i, WithoutMissing(out, KeptKeys(item.entries)), path) <==> EntryLeft(item, i, out, path)
  {
    var keep, e := KeptKeys(item.entries), item.entries[i];
    WithoutMissingFind(out, keep, e.key);
    if BlankKey(e) {
      assert Text.TrimSpace(e.key) !in keep;
    } else {
      assert Text.TrimSpace(e.key) in keep;
    }
  }

  lemma ElementAgrees(item: Node, out: seq<Entry>, path: Path)
    requires item.Mapping?
    ensures Agrees(item, Mapping(WithoutMissing(out, KeptKeys(item.entries))), path)
       <==> forall i :: 0 <= i < |item.entries| ==> EntryLeft(item, i, out, path)
  {
    var less := WithoutMissing(out, KeptKeys(item.entries));
    forall i | 0 <= i < |item.entries|
      ensures EntryAgrees(item, i, less, path) <==> EntryLeft(item, i, out, path)
    {
      EntryLeftAgrees(item, i, out, path);
    }
    MappingAgrees(item, Mapping(less), path);
  }

  predicate AllAgree(src: Node, out: seq<Entry>, path: Path)
    requires src.Mapping?
  {
    forall i :: 0 <= i < |src.entries| ==> EntryAgrees(src, i, out, path)
  }

  lemma MappingAgrees(src: Node, out: Node, path: Path)
    requires src.Mapping? && out.Mapping?
    ensures Agrees(src, out, path) <==> AllAgree(src, out.entries, path)
  {
    match src
    case Mapping(entries) =>
      if AllAgree(src, out.entries, path) {
        forall i | 0 <= i < |entries|
          ensures EntryAgrees(src, i, out.entries, path)
        {
        }
      }
  }

  // -------------------------------------------------- when the meaning survives

  /**
   * What is merged into the old document loses no meaning: no list element that takes
   * over an original one has a key of white space only with a value worth keeping.
   */
  predicate Survives(dst: Node, src: Node, path: Path)
    decreases src, 1
  {
    match src
    case Mapping(entries) => forall i :: 0 <= i < |entries| ==> EntrySurvives(BaseEntries(dst, src), src, i, path)
    case Sequence(items) =>
      var original := BaseItems(dst);
      forall i :: 0 <= i < |items| ==> ItemSurvives(original, Matches(original, items)[i], items[i], path)
    case _ => true
  }

  predicate EntrySurvives(base: seq<Entry>, src: Node, i: nat, path: Path)
    requires src.Mapping? && i < |src.entries|
    decreases src, 0
  {
    var e := src.entries[i];
    var at := FindKey(base, e.key);
    at >= 0 ==> Survives(base[at].value, e.value, path + [e.key])
  }

  predicate ItemSurvives(original: seq<Node>, at: int, item: Node, path: Path)
    requires -1 <= at < |original|
    decreases item, 2
  {
    at >= 0 ==>
      if item.Mapping? then
        forall i :: 0 <= i < |item.entries| ==>
          if BlankKey(item.entries[i]) then Insignificant(path + [item.entries[i].key], item.entries[i].value)
          else EntrySurvives(BaseEntries(original[at], item), item, i, path)
      else Survives(original[at], item, path)
  }

  /** No mapping in a list has a key of white space only with a value worth keeping. */
  predicate NoBlankKeys(n: Node, path: Path)
    decreases n
  {
    match n
    case Mapping(entries) => forall i :: 0 <= i < |entries| ==> NoBlankKeys(entries[i].value, path + [entries[i].key])
    case Sequence(items) => forall i :: 0 <= i < |items| ==> NoBlankKeys(items[i], path) && NoBlankEntries(items[i], path)
    case _ => true
  }

  predicate NoBlankEntries(n: Node, path: Path) {
    n.Mapping? ==> forall i :: 0 <= i < |n.entries| && BlankKey(n.entries[i]) ==> Insignificant(path + [n.entries[i].key], n.entries[i].value)
  }

  // ------------------------------------------------------------- main results

  /** A key that has not been merged yet is as it was. */
  lemma {:induction false} Untouched(base: seq<Entry>, src: Node, k: nat, key: string, path: Path)
    requires Rendered(src) && src.Mapping? && k <= |src.entries| && forall i :: 0 <= i < k ==> src.entries[i].key != key
    ensures var out := MergedEntries(base, src, k, path);
            FindKey(out, key) == FindKey(base, key) && (FindKey(base, key) >= 0 ==> out[FindKey(out, key)] == base[FindKey(base, key)])
    decreases k
  {
    if k > 0 {
      Untouched(base, src, k - 1, key, path);
      OthersStay(base, src, k, path);
    }
  }

  /** Merging the next key changes no other. */
  lemma OthersStay(base: seq<Entry>, src: Node, k: nat, path: Path)
    requires Rendered(src) && src.Mapping? && 0 < k <= |src.entries|
    ensures var done, out := MergedEntries(base, src, k - 1, path), MergedEntries(base, src, k, path);
            forall other :: other != src.entries[k - 1].key ==>
              FindKey(out, other) == FindKey(done, other) && (FindKey(done, other) >= 0 ==> out[FindKey(out, other)] == done[FindKey(done, other)])
  {
    var done, e := MergedEntries(base, src, k - 1, path), src.entries[k - 1];
    var at := FindKey(done, e.key);
    if at >= 0 {
      SetValue(done, at, MergedNode(done[at].value, e.value, path + [e.key]));
    } else {
      NewAgrees(done, e, path);
    }
  }

  /** What the next key becomes: merged into the value it had, or left as new. */
  lemma LastMerged(base: seq<Entry>, src: Node, k: nat, path: Path)
    requires Rendered(src) && src.Mapping? && 0 < k <= |src.entries|
    ensures var e, out := src.entries[k - 1], MergedEntries(base, src, k, path);
            var was, at := FindKey(base, e.key), FindKey(out, e.key);
            if was >= 0 then at == was && out[at].value == MergedNode(base[was].value, e.value, path + [e.key])
            else if at >= 0 then Agrees(e.value, out[at].value, path + [e.key])
            else Insignificant(path + [e.key], e.value)
  {
    var done, e := MergedEntries(base, src, k - 1, path), src.entries[k - 1];
    Untouched(base, src, k - 1, e.key, path);
    var at := FindKey(done, e.key);
    if at >= 0 {
      SetValue(done, at, MergedNode(done[at].value, e.value, path + [e.key]));
    } else {
      NewAgrees(done, e, path);
    }
  }

  /** The last key merged agrees just when it survives. */
  lemma {:induction false} LastSurvives(base: seq<Entry>, src: Node, k: nat, path: Path)
    requires Rendered(src) && src.Mapping? && 0 < k <= |src.entries|
    ensures EntryAgrees(src, k - 1, MergedEntries(base, src, k, path), path) <==> EntrySurvives(base, src, k - 1, path)
    decreases src, 0, 0
  {
    var e := src.entries[k - 1];
    var at := FindKey(base, e.key);
    LastMerged(base, src, k, path);
    if at >= 0 {
      MergeAgreesExactly(base[at].value, e.value, path + [e.key]);
    }
  }

  /** Once they have been merged, of the first `k` keys just those agree that survive. */
  lemma {:induction false} EntriesSurvive(base: seq<Entry>, src: Node, k: nat, path: Path)
    requires Rendered(src) && src.Mapping? && k <= |src.entries|
    ensures forall i :: 0 <= i < k ==> (EntryAgrees(src, i, MergedEntries(base, src, k, path), path) <==> EntrySurvives(base, src, i, path))
    decreases src, 0, k
  {
    if k > 0 {
      var done, out := MergedEntries(base, src, k - 1, path), MergedEntries(base, src, k, path);
      EntriesSurvive(base, src, k - 1, path);
      LastSurvives(base, src, k, path);
      OthersStay(base, src, k, path);
      forall i | 0 <= i < k
        ensures EntryAgrees(src, i, out, path) <==> EntrySurvives(base, src, i, path)
      {
        if i < k - 1 {
          assert src.entries[i].key != src.entries[k - 1].key;
          assert EntryAgrees(src, i, out, path) <==> EntryAgrees(src, i, done, path);
        }
      }
    }
  }

  /** Replacing a value leaves all other keys as they were. */
  lemma SetValue(entries: seq<Entry>, at: nat, v: Node)
    requires at < |entries| && FindKey(entries, entries[at].key) == at
    ensures var out, key := entries[at := Entry(entries[at].key, v)], entries[at].key;
            && FindKey(out, key) == at && out[at].value == v
            && forall other :: FindKey(out, other) == FindKey(entries, other)
                 && (other != key && FindKey(entries, other) >= 0 ==> out[FindKey(out, other)] == entries[FindKey(entries, other)])
  {
    var out, key := entries[at := Entry(entries[at].key, v)], entries[at].key;
    forall other
      ensures FindKey(out, other) == FindKey(entries, other)
    {
      SameKeys(entries, out, other);
    }
  }

  lemma {:induction false} SameKeys(a: seq<Entry>, b: seq<Entry>, key: string)
    requires |a| == |b| && forall i :: 0 <= i < |a| ==> a[i].key == b[i].key
    ensures FindKey(a, key) == FindKey(b, key)
  {
    if a != [] {
      SameKeys(a[1..], b[1..], key);
    }
  }

  /** A key that was not there agrees, added or not, and no other key changes. */
  lemma NewAgrees(done: seq<Entry>, e: Entry, path: Path)
    requires Rendered(e.value) && FindKey(done, e.key) < 0
    ensures var out := WithNew(done, e, path);
            && (if FindKey(out, e.key) >= 0 then Agrees(e.value, out[FindKey(out, e.key)].value, path + [e.key])
                else Insignificant(path + [e.key], e.value))
            && forall other :: other != e.key ==>
                 FindKey(out, other) == FindKey(done, other) && (FindKey(done, other) >= 0 ==> out[FindKey(out, other)] == done[FindKey(done, other)])
  {
    var candidate := Pruned(path + [e.key], e.value);
    PrunedAgrees(path + [e.key], e.value);
    if IsKnownDefault(path + [e.key], candidate) {
      DefaultPruned(path + [e.key], e.value);
    }
    forall other
      ensures FindKey(done + [Entry(e.key, candidate)], other)
           == if FindKey(done, other) >= 0 then FindKey(done, other) else if e.key == other then |done| else -1
    {
      FindSnoc(done, Entry(e.key, candidate), other);
    }
  }

  predicate AllSurvive(base: seq<Entry>, src: Node, path: Path)
    requires src.Mapping?
  {
    forall i :: 0 <= i < |src.entries| ==> EntrySurvives(base, src, i, path)
  }

  lemma MappingSurvives(dst: Node, src: Node, path: Path)
    requires src.Mapping?
    ensures Survives(dst, src, path) <==> AllSurvive(BaseEntries(dst, src), src, path)
  {
    match src
    case Mapping(entries) =>
      if AllSurvive(BaseEntries(dst, src), src, path) {
        forall i | 0 <= i < |entries|
          ensures EntrySurvives(BaseEntries(dst, src), src, i, path)
        {
        }
      }
  }

  /** Of a list element that takes over an original one, keys of white space only go. */
  predicate KeySurvives(base: seq<Entry>, item: Node, i: nat, path: Path)
    requires item.Mapping? && i < |item.entries|
  {
    var e := item.entries[i];
    if BlankKey(e) then Insignificant(path + [e.key], e.value) else EntrySurvives(base, item, i, path)
  }

  lemma ElementSurvives(original: seq<Node>, at: nat, item: Node, path: Path)
    requires at < |original| && item.Mapping?
    ensures ItemSurvives(original, at, item, path)
       <==> forall i :: 0 <= i < |item.entries| ==> KeySurvives(BaseEntries(original[at], item), item, i, path)
  {
    var base := BaseEntries(original[at], item);
    if forall i :: 0 <= i < |item.entries| ==> KeySurvives(base, item, i, path) {
      forall i | 0 <= i < |item.entries|
        ensures if BlankKey(item.entries[i]) then Insignificant(path + [item.entries[i].key], item.entries[i].value)
                else EntrySurvives(base, item, i, path)
      {
        assert KeySurvives(base, item, i, path);
      }
    }
  }

  /** After the merge the document says what the configuration says just when all of it survives. */
  lemma {:induction false} MergeAgreesExactly(dst: Node, src: Node, path: Path)
    requires Rendered(src)
    ensures Agrees(src, MergedNode(dst, src, path), path) <==> Survives(dst, src, path)
    decreases src, 1
  {
    match src
    case Mapping(entries) =>
      EntriesSurvive(BaseEntries(dst, src), src, |entries|, path);
      MappingAgrees(src, MergedNode(dst, src, path), path);
      MappingSurvives(dst, src, path);
    case Sequence(items) =>
      if !(IsNull(dst) && items == []) {
        var original := BaseItems(dst);
        forall i | 0 <= i < |items|
          ensures Agrees(items[i], MergedItem(original, Matches(original, items)[i], items[i], path), path)
             <==> ItemSurvives(original, Matches(original, items)[i], items[i], path)
        {
          ItemAgreesExactly(original, Matches(original, items)[i], items[i], path);
        }
        ItemsAgree(dst, src, path);
      }
    case _ =>
  }

  lemma ItemsAgree(dst: Node, src: Node, path: Path)
    requires Rendered(src) && src.Sequence? && !(IsNull(dst) && src.items == [])
    ensures var original, items := BaseItems(dst), src.items;
            Agrees(src, MergedNode(dst, src, path), path) <==>
              forall i :: 0 <= i < |items| ==> Agrees(items[i], MergedItem(original, Matches(original, items)[i], items[i], path), path)
  {
    var original, items, out := BaseItems(dst), src.items, MergedNode(dst, src, path);
    match src
    case Sequence(all) =>
      assert out.items == MergedItems(original, src, path);
      assert forall i :: 0 <= i < |items| ==> out.items[i] == MergedItem(original, Matches(original, items)[i], items[i], path);
  }

  /** A list element says the same after the merge just when it is a copy or survives. */
  lemma {:induction false} ItemAgreesExactly(original: seq<Node>, at: int, item: Node, path: Path)
    requires Rendered(item) && -1 <= at < |original|
    ensures Agrees(item, MergedItem(original, at, item, path), path) <==> ItemSurvives(original, at, item, path)
    decreases item, 2
  {
    if at < 0 {
      AgreesItself(item, path);
    } else if item.Mapping? {
      var base := BaseEntries(original[at], item);
      EntriesSurvive(base, item, |item.entries|, path);
      ElementAgrees(item, MergedEntries(base, item, |item.entries|, path), path);
      ElementSurvives(original, at, item, path);
      assert forall i :: 0 <= i < |item.entries| ==>
        (EntryLeft(item, i, MergedEntries(base, item, |item.entries|, path), path) <==> KeySurvives(base, item, i, path));
    } else {
      MergeAgreesExactly(original[at], item, path);
    }
  }

  /** Without a key of white space only in any list, all survives, whatever the document was before. */
  lemma {:induction false} MergeAgrees(dst: Node, src: Node, path: Path)
    requires Rendered(src) && NoBlankKeys(src, path)
    ensures Agrees(src, MergedNode(dst, src, path), path)
  {
    NoBlankSurvives(dst, src, path);
    MergeAgreesExactly(dst, src, path);
  }

  lemma {:induction false} NoBlankSurvives(dst: Node, src: Node, path: Path)
    requires NoBlankKeys(src, path)
    ensures Survives(dst, src, path)
    decreases src, 1
  {
    match src
    case Mapping(entries) =>
      forall i | 0 <= i < |entries|
        ensures EntrySurvives(BaseEntries(dst, src), src, i, path)
      {
        NoBlankEntry(BaseEntries(dst, src), src, i, path);
      }
    case Sequence(items) =>
      var original := BaseItems(dst);
      forall i | 0 <= i < |items|
        ensures ItemSurvives(original, Matches(original, items)[i], items[i], path)
      {
        NoBlankItem(original, Matches(original, items)[i], items[i], path);
      }
    case _ =>
  }

  lemma {:induction false} NoBlankEntry(base: seq<Entry>, src: Node, i: nat, path: Path)
    requires src.Mapping? && i < |src.entries| && NoBlankKeys(src, path)
    ensures EntrySurvives(base, src, i, path)
    decreases src, 0
  {
    var e := src.entries[i];
    var at := FindKey(base, e.key);
    if at >= 0 {
      NoBlankSurvives(base[at].value, e.value, path + [e.key]);
    }
  }

  lemma {:induction false} NoBlankItem(original: seq<Node>, at: int, item: Node, path: Path)
    requires -1 <= at < |original| && NoBlankKeys(item, path) && NoBlankEntries(item, path)
    ensures ItemSurvives(original, at, item, path)
    decreases item, 2
  {
    if at >= 0 {
      if item.Mapping? {
        forall i | 0 <= i < |item.entries| && !BlankKey(item.entries[i])
          ensures EntrySurvives(BaseEntries(original[at], item), item, i, path)
        {
          NoBlankEntry(BaseEntries(original[at], item), item, i, path);
        }
      } else {
        NoBlankSurvives(original[at], item, path);
      }
    }
  }

  // ------------------------------------------------------------ what is lost

  /** Elements of a list that have a key of white space only, and of a list in such an element. */
  const BLANK: Node := Mapping([Entry("id", Scalar("!!str", "a")), Entry(" ", Scalar("!!str", "b"))])
  const AROUND: Node := Mapping([Entry("id", Scalar("!!str", "a")), Entry("match", Sequence([BLANK]))])

  /** A key of white space only is lost even when an element is merged into one equal to it. */
  lemma {:induction false} BlankKeyIsLost(path: Path)
    ensures Rendered(BLANK) && Matches([BLANK], [BLANK]) == [0] && !Agrees(BLANK, MergedItem([BLANK], 0, BLANK, path), path)
  {
    IdentityMatches(BLANK, BLANK.entries[1]);
    ItemAgreesExactly([BLANK], 0, BLANK, path);
    BlankCounts(path, BLANK.entries[1]);
  }

  /**
   * So it is in a list that is part of a list element, though that element has no such
   * key itself, and all the document is what it was before.
   */
  lemma {:induction false} NestedBlankKeyIsLost(path: Path)
    ensures Rendered(AROUND) && NoBlankEntries(AROUND, path)
    ensures !Agrees(Sequence([AROUND]), MergedNode(Sequence([AROUND]), Sequence([AROUND]), path), path)
  {
    AroundKeys();
    AroundIsLost(path);
    MergeAgreesExactly(Sequence([AROUND]), Sequence([AROUND]), path);
  }

  lemma {:induction false} AroundIsLost(path: Path)
    ensures !Survives(Sequence([AROUND]), Sequence([AROUND]), path)
  {
    AroundKeys();
    ListLosesBlank(path + ["match"]);
    ElementSurvives([AROUND], 0, AROUND, path);
    assert !KeySurvives(AROUND.entries, AROUND, 1, path);
    IdentityMatches(AROUND, AROUND.entries[1]);
    FirstIsLost(AROUND, path);
  }

  lemma {:induction false} FirstIsLost(item: Node, path: Path)
    requires Matches([item], [item]) == [0] && !ItemSurvives([item], 0, item, path)
    ensures !Survives(Sequence([item]), Sequence([item]), path)
  {
  }

  lemma {:induction false} AroundKeys()
    ensures Rendered(AROUND) && FindKey(AROUND.entries, "match") == 1
    ensures !BlankKey(AROUND.entries[0]) && !BlankKey(AROUND.entries[1])
  {
    FirstKey(AROUND.entries, 1);
    assert Text.TrimSpace("id") == "id" && Text.TrimSpace("match") == "match";
  }

  lemma {:induction false} ListLosesBlank(path: Path)
    ensures !Survives(Sequence([BLANK]), Sequence([BLANK]), path)
  {
    ElementSurvives([BLANK], 0, BLANK, path);
    BlankCounts(path, BLANK.entries[1]);
    assert !KeySurvives(BLANK.entries, BLANK, 1, path);
    IdentityMatches(BLANK, BLANK.entries[1]);
    FirstIsLost(BLANK, path);
  }

  lemma {:induction false} BlankCounts(path: Path, e: Entry)
    requires e == Entry(" ", Scalar("!!str", "b"))
    ensures BlankKey(e) && !Insignificant(path + [e.key], e.value)
  {
    assert (path + [e.key])[|path|] == " ";
    assert Text.TrimLeft(" ") == "";
  }

  lemma {:induction false} IdentityMatches(item: Node, e: Entry)
    requires item == Mapping([Entry("id", Scalar("!!str", "a")), e])
    ensures Matches([item], [item]) == [0]
  {
    assert Text.TrimSpace("a") == "a" && Text.TrimSpace("id") == "id";
    assert ScalarUnder(item.entries, "id") == "a";
    assert IdentityUnder(item.entries, IDENTITY_KEYS) == "id=a";
    assert [item][..0] == [];
    assert Taken(1, []) == [false];
    assert FirstUnused([item], [false], SameIdentity("id=a"), 0) == 0;
  }

  // ------------------------------------------------ what the document keeps

  /**
   * The entries of a document's mapping stay in place: those that the configuration
   * does not mention with their value, the others merged; new keys come after them.
   */
  predicate Kept(dst: Node, src: Node, out: Node)
    decreases dst, 1
  {
    dst.Mapping? && src.Mapping? ==>
      && out.Mapping? && |dst.entries| <= |out.entries|
      && (forall i :: 0 <= i < |dst.entries| ==> KeptEntry(dst, i, src.entries, out.entries[i]))
      && (forall i :: |dst.entries| <= i < |out.entries| ==>
            FindKey(dst.entries, out.entries[i].key) < 0 && FindKey(src.entries, out.entries[i].key) >= 0)
  }

  predicate KeptEntry(dst: Node, i: nat, src: seq<Entry>, now: Entry)
    requires dst.Mapping? && i < |dst.entries|
    decreases dst, 0
  {
    var was := dst.entries[i];
    var at := FindKey(src, was.key);
    && now.key == was.key
    && (if at < 0 || FindKey(dst.entries, was.key) != i then now.value == was.value
        else Kept(was.value, src[at].value, now.value))
  }

  /** The entries so far, when the first `k` keys have been merged. */
  predicate KeptSoFar(dst: Node, src: Node, k: nat, out: seq<Entry>)
    requires dst.Mapping? && src.Mapping? && k <= |src.entries|
  {
    && |dst.entries| <= |out|
    && (forall i :: 0 <= i < |dst.entries| ==>
          if FindKey(src.entries, dst.entries[i].key) < k then KeptEntry(dst, i, src.entries, out[i]) else out[i] == dst.entries[i])
    && (forall i :: |dst.entries| <= i < |out| ==>
          FindKey(dst.entries, out[i].key) < 0 && 0 <= FindKey(src.entries, out[i].key) < k)
  }

  lemma KeptSet(dst: Node, src: Node, k: nat, done: seq<Entry>, at: nat, v: Node)
    requires src.Mapping? && dst.Mapping? && 0 < k <= |src.entries| && DistinctKeys(src.entries)
    requires KeptSoFar(dst, src, k - 1, done)
    requires at < |dst.entries| && at == FindKey(dst.entries, src.entries[k - 1].key) && Kept(dst.entries[at].value, src.entries[k - 1].value, v)
    ensures KeptSoFar(dst, src, k, done[at := Entry(src.entries[k - 1].key, v)])
  {
    FirstKey(src.entries, k - 1);
    forall i | 0 <= i < |dst.entries|
      ensures var now := done[at := Entry(src.entries[k - 1].key, v)][i];
              if FindKey(src.entries, dst.entries[i].key) < k then KeptEntry(dst, i, src.entries, now) else now == dst.entries[i]
    {
      if i != at && dst.entries[i].key == src.entries[k - 1].key {
        assert done[i] == dst.entries[i];
      }
    }
  }

  lemma KeptNew(dst: Node, src: Node, k: nat, done: seq<Entry>, path: Path)
    requires src.Mapping? && dst.Mapping? && 0 < k <= |src.entries| && DistinctKeys(src.entries)
    requires KeptSoFar(dst, src, k - 1, done) && FindKey(dst.entries, src.entries[k - 1].key) < 0
    ensures KeptSoFar(dst, src, k, WithNew(done, src.entries[k - 1], path))
  {
    FirstKey(src.entries, k - 1);
    forall i | 0 <= i < |dst.entries|
      ensures FindKey(src.entries, dst.entries[i].key) != k - 1
    {
    }
  }

  lemma {:induction false} EntriesKept(dst: Node, src: Node, k: nat, path: Path)
    requires Rendered(src) && src.Mapping? && dst.Mapping? && k <= |src.entries|
    ensures KeptSoFar(dst, src, k, MergedEntries(dst.entries, src, k, path))
    decreases src, 0, k
  {
    if k > 0 {
      var done, e := MergedEntries(dst.entries, src, k - 1, path), src.entries[k - 1];
      EntriesKept(dst, src, k - 1, path);
      FirstKey(src.entries, k - 1);
      var at := FindKey(done, e.key);
      FoundAlike(dst.entries, done, e.key);
      if at >= 0 {
        assert at < |dst.entries|;
        MergeKeeps(done[at].value, e.value, path + [e.key]);
        KeptSet(dst, src, k, done, at, MergedNode(done[at].value, e.value, path + [e.key]));
      } else {
        KeptNew(dst, src, k, done, path);
      }
    }
  }

  /** The first of the entries with a key is found in front of those that were added. */
  lemma FoundAlike(dst: seq<Entry>, done: seq<Entry>, key: string)
    requires |dst| <= |done| && forall i :: 0 <= i < |dst| ==> done[i].key == dst[i].key
    ensures FindKey(dst, key) >= 0 ==> FindKey(done, key) == FindKey(dst, key)
    ensures 0 <= FindKey(done, key) < |dst| ==> FindKey(dst, key) == FindKey(done, key)
  {
    var a, b := FindKey(dst, key), FindKey(done, key);
    if 0 <= b < |dst| {
      assert dst[b].key == key;
      assert a >= 0 && !(a < b) && !(b < a);
    }
    if a >= 0 {
      assert done[a].key == key;
    }
  }

  /** Keys that only the document has keep their value, and all its keys their order. */
  lemma {:induction false} MergeKeeps(dst: Node, src: Node, path: Path)
    requires Rendered(src)
    ensures Kept(dst, src, MergedNode(dst, src, path))
    decreases src, 1
  {
    if dst.Mapping? && src.Mapping? {
      EntriesKept(dst, src, |src.entries|, path);
    }
  }

  // --------------------------------------------------------- the code's loops

  method Scan(original: seq<Node>, used: seq<bool>, pick: Pick) returns (r: int)
    requires |used| == |original|
    ensures r == FirstUnused(original, used, pick, 0)
  {
    for i := 0 to |original|
      invariant FirstUnused(original, used, pick, 0) == FirstUnused(original, used, pick, i)
    {
      if !used[i] && pick(original[i]) {
        return i;
      }
    }
    return -1;
  }

  method MatchSequenceElement(original: seq<Node>, used: seq<bool>, target: Node) returns (r: int)
    requires |used| == |original|
    ensures r == Match(original, used, target)
  {
    if target.Mapping? {
      var id := Identity(target);
      if id != "" {
        r := Scan(original, used, SameIdentity(id));
        if r >= 0 {
          return;
        }
      }
    } else if target.Scalar? {
      var value := Text.TrimSpace(target.value);
      if value != "" {
        r := Scan(original, used, SameScalar(value));
        if r >= 0 {
          return;
        }
      }
    }
    r := Scan(original, used, SameAs(target));
  }

  /** Which original element each new one takes over, marking them as used. */
  method ReorderSequence(original: seq<Node>, items: seq<Node>) returns (matches: seq<int>)
    ensures matches == Matches(original, items)
  {
    matches := [];
    var used := seq(|original|, _ => false);
    for i := 0 to |items|
      invariant matches == Matches(original, items[..i])
      invariant used == Taken(|original|, matches)
    {
      var at := MatchSequenceElement(original, used, items[i]);
      assert items[..i + 1][..i] == items[..i];
      matches := matches + [at];
      if at >= 0 {
        used := used[at := true];
      }
    }
    assert items[..|items|] == items;
  }

  method PruneMissingMapKeys(dst: seq<Entry>, src: seq<Entry>) returns (out: seq<Entry>)
    ensures out == WithoutMissing(dst, KeptKeys(src))
  {
    var keep: set<string> := {};
    for i := 0 to |src|
      invariant keep == KeptKeys(src[..i])
    {
      var key := Text.TrimSpace(src[i].key);
      KeptSnoc(src[..i], src[i]);
      assert src[..i] + [src[i]] == src[..i + 1];
      if key == "" {
        continue;
      }
      keep := keep + {key};
    }
    assert src[..|src|] == src;
    out := dst;
    var i := 0;
    while i < |out|
      invariant i <= |out|
      invariant out[..i] + WithoutMissing(out[i..], keep) == WithoutMissing(dst, keep)
      decreases |out| - i
    {
      assert out[i..][1..] == out[i + 1..];
      if Text.TrimSpace(out[i].key) !in keep {
        assert (out[..i] + out[i + 1..])[i..] == out[i + 1..];
        assert (out[..i] + out[i + 1..])[..i] == out[..i];
        out := out[..i] + out[i + 1..];
      } else {
        assert out[..i + 1] == out[..i] + [out[i]];
        i := i + 1;
      }
    }
    assert out[..i] == out && out[i..] == [];
  }

  lemma KeptSnoc(src: seq<Entry>, e: Entry)
    ensures KeptKeys(src + [e]) == KeptKeys(src) + if Text.TrimSpace(e.key) == "" then {} else {Text.TrimSpace(e.key)}
  {
    var all := src + [e];
    assert all[|src|] == e;
    forall key | key in KeptKeys(src)
      ensures key in KeptKeys(all)
    {
      var i :| 0 <= i < |src| && Text.TrimSpace(src[i].key) != "" && Text.TrimSpace(src[i].key) == key;
      assert all[i] == src[i];
    }
  }

  method PruneKnownDefaults(path: Path, n: Node) returns (out: Node)
    ensures out == Pruned(path, n)
    decreases n
  {
    match n
    case Mapping(entries) =>
      var filtered: seq<Entry> := [];
      for i := 0 to |entries|
        invariant filtered == PrunedEntries(path, n, i)
      {
        var child := path + [entries[i].key];
        if IsKnownDefault(child, entries[i].value) {
          continue;
        }
        var value := PruneKnownDefaults(child, entries[i].value);
        if EmptyCollection(value) {
          continue;
        }
        filtered := filtered + [Entry(entries[i].key, value)];
      }
      out := Mapping(filtered);
    case Sequence(items) =>
      var done: seq<Node> := [];
      for i := 0 to |items|
        invariant |done| == i && forall j :: 0 <= j < i ==> done[j] == Pruned(path, items[j])
      {
        var child := PruneKnownDefaults(path, items[i]);
        done := done + [child];
      }
      out := Sequence(done);
    case _ => out := n;
  }

  method MergeMappingPreserve(dst: seq<Entry>, src: Node, path: Path) returns (out: seq<Entry>)
    requires Rendered(src) && src.Mapping?
    ensures out == MergedEntries(dst, src, |src.entries|, path)
    decreases src, 0
  {
    out := dst;
    for i := 0 to |src.entries|
      invariant out == MergedEntries(dst, src, i, path)
    {
      var e := src.entries[i];
      var child := path + [e.key];
      var at := FindKey(out, e.key);
      if at >= 0 {
        var merged := MergeNodePreserve(out[at].value, e.value, child);
        out := out[at := Entry(e.key, merged)];
      } else {
        var candidate := PruneKnownDefaults(child, e.value);
        if !IsKnownDefault(child, candidate) {
          out := out + [Entry(e.key, candidate)];
        }
      }
    }
  }

  method MergeNodePreserve(dst: Node, src: Node, path: Path) returns (out: Node)
    requires Rendered(src)
    ensures out == MergedNode(dst, src, path)
    decreases src, 1
  {
    match src
    case Mapping(entries) =>
      var merged := MergeMappingPreserve(BaseEntries(dst, src), src, path);
      out := Mapping(merged);
    case Sequence(items) =>
      if IsNull(dst) && items == [] {
        return dst;
      }
      var merged := MergeItems(BaseItems(dst), src, path);
      out := Sequence(merged);
    case Scalar(_, _) => out := src;
  }

  method MergeItems(original: seq<Node>, src: Node, path: Path) returns (out: seq<Node>)
    requires Rendered(src) && src.Sequence?
    ensures out == MergedItems(original, src, path)
    decreases src, 0
  {
    var items := src.items;
    var matches := ReorderSequence(original, items);
    out := [];
    for i := 0 to |items|
      invariant |out| == i
      invariant forall j :: 0 <= j < i ==> out[j] == MergedItem(original, matches[j], items[j], path)
    {
      var item := MergeItem(original, matches[i], items[i], path);
      out := out + [item];
    }
  }

  method MergeItem(original: seq<Node>, at: int, item: Node, path: Path) returns (out: Node)
    requires Rendered(item) && -1 <= at < |original|
    ensures out == MergedItem(original, at, item, path)
    decreases item, 2
  {
    if at < 0 {
      return item;
    }
    out := MergeNodePreserve(original[at], item, path);
    if out.Mapping? && item.Mapping? {
      var left := PruneMissingMapKeys(out.entries, item.entries);
      out := Mapping(left);
    }
  }

  /** Takes out the first entry with a key. */
  method RemoveMapKey(entries: seq<Entry>, key: string) returns (out: seq<Entry>)
    ensures var at := FindKey(entries, key); out == if key == "" || at < 0 then entries else entries[..at] + entries[at + 1..]
  {
    if key == "" {
      return entries;
    }
    for i := 0 to |entries|
      invariant forall j :: 0 <= j < i ==> entries[j].key != key
    {
      if entries[i].key == key {
        assert FindKey(entries, key) == i;
        return entries[..i] + entries[i + 1..];
      }
    }
    return entries;
  }
}
