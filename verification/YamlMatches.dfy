/**
 * Which original list element a new one takes over, and what becomes of keys and
 * values, told from the documents themselves.
 */
module YamlMatches {
  import opened YamlMerge
  import opened YamlTree
  import Text

  // ------------------------------------------------------------ one element

  /** The least place that is not used and holds what is looked for. */
  ghost predicate Least(original: seq<Node>, used: seq<bool>, pick: Pick, r: int)
    requires |used| == |original|
  {
    && 0 <= r < |original| && !used[r] && pick(original[r])
    && forall j :: 0 <= j < r ==> used[j] || !pick(original[j])
  }

  ghost predicate Has(original: seq<Node>, used: seq<bool>, pick: Pick)
    requires |used| == |original|
  {
    exists j :: 0 <= j < |original| && !used[j] && pick(original[j])
  }

  lemma {:induction false} FirstIsLeast(original: seq<Node>, used: seq<bool>, pick: Pick, i: nat)
    requires |used| == |original| && i <= |original| && forall j :: 0 <= j < i ==> used[j] || !pick(original[j])
    ensures var r := FirstUnused(original, used, pick, i);
            if Has(original, used, pick) then Least(original, used, pick, r) else r == -1
    decreases |original| - i
  {
    if i < |original| && !(!used[i] && pick(original[i])) {
      FirstIsLeast(original, used, pick, i + 1);
    }
  }

  /** Mappings with the identity of another. */
  function WithIdentity(id: string): Pick {
    (n: Node) => n.Mapping? && Identity(n) == id
  }

  /** Scalars whose value is some text up to white space. */
  function WithValue(text: string): Pick {
    (n: Node) => n.Scalar? && Text.TrimSpace(n.value) == text
  }

  function AlikeTo(target: Node): Pick {
    (n: Node) => SameStructure(n, target)
  }

  lemma SameHas(original: seq<Node>, used: seq<bool>, p: Pick, q: Pick, r: int)
    requires |used| == |original| && forall n: Node {:trigger p(n)} {:trigger q(n)} :: p(n) == q(n)
    ensures Has(original, used, p) <==> Has(original, used, q)
    ensures Least(original, used, p, r) <==> Least(original, used, q, r)
  {
    if Has(original, used, q) {
      var j :| 0 <= j < |original| && !used[j] && q(original[j]);
      assert p(original[j]);
    }
  }

  /**
   * A mapping with an identity takes over the first unused mapping of that identity, a
   * scalar that is not blank the first unused one of its value; where there is none, as
   * for all other elements, it is the first unused one of equal structure, or none.
   */
  lemma MatchIs(original: seq<Node>, used: seq<bool>, target: Node)
    requires |used| == |original|
    ensures var r := Match(original, used, target);
            if target.Mapping? && Identity(target) != "" && Has(original, used, WithIdentity(Identity(target))) then
              Least(original, used, WithIdentity(Identity(target)), r)
            else if target.Scalar? && Text.TrimSpace(target.value) != "" && Has(original, used, WithValue(Text.TrimSpace(target.value))) then
              Least(original, used, WithValue(Text.TrimSpace(target.value)), r)
            else if Has(original, used, AlikeTo(target)) then Least(original, used, AlikeTo(target), r)
            else r == -1
  {
    var r := Match(original, used, target);
    FirstIsLeast(original, used, SameAs(target), 0);
    SameHas(original, used, SameAs(target), AlikeTo(target), r);
    if target.Mapping? {
      FirstIsLeast(original, used, SameIdentity(Identity(target)), 0);
      SameHas(original, used, SameIdentity(Identity(target)), WithIdentity(Identity(target)), r);
    } else if target.Scalar? {
      FirstIsLeast(original, used, SameScalar(Text.TrimSpace(target.value)), 0);
      SameHas(original, used, SameScalar(Text.TrimSpace(target.value)), WithValue(Text.TrimSpace(target.value)), r);
    }
  }

  // ---------------------------------------------------------- equal structure

  lemma {:induction false} StructureReflexive(n: Node)
    ensures SameStructure(n, n)
    decreases n
  {
    match n
    case Scalar(_, _) =>
    case Mapping(entries) =>
      forall i | 0 <= i < |entries|
        ensures SameStructure(entries[i].value, entries[i].value)
      {
        StructureReflexive(entries[i].value);
      }
    case Sequence(items) =>
      forall i | 0 <= i < |items|
        ensures SameStructure(items[i], items[i])
      {
        StructureReflexive(items[i]);
      }
    case Alias(_, target) => StructureReflexive(target);
  }

  /** Entry by entry the same key, up to white space, and the same kind and text of value. */
  ghost predicate AlikeEntries(a: seq<Entry>, b: seq<Entry>) {
    |a| == |b| && forall i :: 0 <= i < |a| ==>
      && Text.TrimSpace(a[i].key) == Text.TrimSpace(b[i].key) && a[i].value.Scalar? == b[i].value.Scalar?
      && (a[i].value.Scalar? ==> Text.TrimSpace(a[i].value.value) == Text.TrimSpace(b[i].value.value))
  }

  lemma {:induction false} AlikeScalarUnder(a: seq<Entry>, b: seq<Entry>, key: string)
    requires AlikeEntries(a, b)
    ensures ScalarUnder(a, key) == ScalarUnder(b, key)
  {
    if a != [] {
      AlikeScalarUnder(a[1..], b[1..], key);
    }
  }

  lemma {:induction false} AlikeIdentityUnder(a: seq<Entry>, b: seq<Entry>, keys: seq<string>)
    requires AlikeEntries(a, b)
    ensures IdentityUnder(a, keys) == IdentityUnder(b, keys)
  {
    if keys != [] {
      AlikeScalarUnder(a, b, keys[0]);
      AlikeIdentityUnder(a, b, keys[1..]);
    }
  }

  lemma {:induction false} AlikeFirstScalar(a: seq<Entry>, b: seq<Entry>)
    requires AlikeEntries(a, b)
    ensures FirstScalar(a) == FirstScalar(b)
  {
    if a != [] {
      AlikeFirstScalar(a[1..], b[1..]);
    }
  }

  /** Elements of equal structure have equal identities. */
  lemma StructureIdentity(a: Node, b: Node)
    requires SameStructure(a, b)
    ensures Identity(a) == Identity(b) && a.Mapping? == b.Mapping?
  {
    if a.Mapping? {
      forall i | 0 <= i < |a.entries|
        ensures a.entries[i].value.Scalar? == b.entries[i].value.Scalar?
      {
        assert SameStructure(a.entries[i].value, b.entries[i].value);
      }
      AlikeIdentityUnder(a.entries, b.entries, IDENTITY_KEYS);
      AlikeFirstScalar(a.entries, b.entries);
    }
  }

  // -------------------------------------------------------------- whole lists

  /** Mappings, each with an identity of its own. */
  ghost predicate Identified(nodes: seq<Node>) {
    && (forall i :: 0 <= i < |nodes| ==> nodes[i].Mapping? && Identity(nodes[i]) != "")
    && (forall i, j :: 0 <= i < j < |nodes| ==> Identity(nodes[i]) != Identity(nodes[j]))
  }

  /** The place of the element with an identity, or -1. */
  ghost predicate PlaceOf(original: seq<Node>, id: string, r: int) {
    if r == -1 then forall j :: 0 <= j < |original| ==> Identity(original[j]) != id
    else 0 <= r < |original| && Identity(original[r]) == id
  }

  lemma MatchOne(original: seq<Node>, used: seq<bool>, target: Node)
    requires |used| == |original| && Identified(original) && target.Mapping? && Identity(target) != ""
    requires forall j :: 0 <= j < |original| && Identity(original[j]) == Identity(target) ==> !used[j]
    ensures PlaceOf(original, Identity(target), Match(original, used, target))
  {
    var r, id := Match(original, used, target), Identity(target);
    MatchIs(original, used, target);
    if exists j :: 0 <= j < |original| && Identity(original[j]) == id {
      var j :| 0 <= j < |original| && Identity(original[j]) == id;
      assert WithIdentity(id)(original[j]);
    } else if Has(original, used, AlikeTo(target)) {
      StructureIdentity(original[r], target);
    }
  }

  ghost predicate AllPlaced(original: seq<Node>, items: seq<Node>, matches: seq<int>) {
    |matches| == |items| && forall i :: 0 <= i < |items| ==> PlaceOf(original, Identity(items[i]), matches[i])
  }

  /** An original element of another identity than all those before has not been taken. */
  lemma NotTaken(original: seq<Node>, items: seq<Node>, matches: seq<int>, id: string, j: nat)
    requires AllPlaced(original, items, matches) && forall i :: 0 <= i < |items| ==> Identity(items[i]) != id
    requires j < |original| && Identity(original[j]) == id
    ensures !Taken(|original|, matches)[j]
  {
    forall i | 0 <= i < |items|
      ensures matches[i] != j
    {
      assert PlaceOf(original, Identity(items[i]), matches[i]);
    }
  }

  lemma PlacedNext(original: seq<Node>, items: seq<Node>, matches: seq<int>, last: Node)
    requires Identified(original) && last.Mapping? && Identity(last) != ""
    requires AllPlaced(original, items, matches) && forall i :: 0 <= i < |items| ==> Identity(items[i]) != Identity(last)
    ensures PlaceOf(original, Identity(last), Match(original, Taken(|original|, matches), last))
  {
    forall j: nat | j < |original| && Identity(original[j]) == Identity(last)
      ensures !Taken(|original|, matches)[j]
    {
      NotTaken(original, items, matches, Identity(last), j);
    }
    MatchOne(original, Taken(|original|, matches), last);
  }

  lemma {:induction false} Placed(original: seq<Node>, items: seq<Node>)
    requires Identified(original) && Identified(items)
    ensures AllPlaced(original, items, Matches(original, items))
    decreases |items|
  {
    if items != [] {
      var rest, last := items[..|items| - 1], items[|items| - 1];
      Placed(original, rest);
      PlacedNext(original, rest, Matches(original, rest), last);
      assert items == rest + [last];
    }
  }

  /**
   * Where the elements of both lists have distinct identities, each new one takes over
   * the original one of its identity, whatever the two orders, and none if there is none.
   */
  lemma IdentityDecides(original: seq<Node>, items: seq<Node>, i: nat)
    requires Identified(original) && Identified(items) && i < |items|
    ensures PlaceOf(original, Identity(items[i]), Matches(original, items)[i])
  {
    Placed(original, items);
  }

  // --------------------------------------------------- what identifies a mapping

  /** An entry is a scalar that is not blank under one of the well-known keys, up to case and white space. */
  predicate Identifies(e: Entry, key: string) {
    e.value.Scalar? && Text.TrimSpace(e.value.value) != "" && Text.Lower(Text.TrimSpace(e.key)) == Text.Lower(key)
  }

  predicate UnderKey(e: Entry, key: string) {
    e.value.Scalar? && Text.Lower(Text.TrimSpace(e.key)) == Text.Lower(key)
  }

  lemma {:induction false} ScalarUnderIs(entries: seq<Entry>, key: string, i: nat)
    requires i < |entries| && UnderKey(entries[i], key) && forall j :: 0 <= j < i ==> !UnderKey(entries[j], key)
    ensures ScalarUnder(entries, key) == Text.TrimSpace(entries[i].value.value)
  {
    if i > 0 {
      ScalarUnderIs(entries[1..], key, i - 1);
    }
  }

  lemma {:induction false} NoScalarUnder(entries: seq<Entry>, key: string)
    requires forall j :: 0 <= j < |entries| ==> !UnderKey(entries[j], key)
    ensures ScalarUnder(entries, key) == ""
  {
    if entries != [] {
      NoScalarUnder(entries[1..], key);
    }
  }

  /** A mapping is identified by its first well-known key that has a scalar which is not blank, the keys taken in their order. */
  lemma {:induction false} IdentityUnderIs(entries: seq<Entry>, keys: seq<string>, m: nat, i: nat)
    requires m < |keys| && i < |entries| && Identifies(entries[i], keys[m]) && forall j :: 0 <= j < i ==> !UnderKey(entries[j], keys[m])
    requires forall l, j :: 0 <= l < m && 0 <= j < |entries| ==> !UnderKey(entries[j], keys[l])
    ensures IdentityUnder(entries, keys) == keys[m] + "=" + Text.TrimSpace(entries[i].value.value)
    decreases m
  {
    if m == 0 {
      ScalarUnderIs(entries, keys[0], i);
    } else {
      NoScalarUnder(entries, keys[0]);
      IdentityUnderIs(entries, keys[1..], m - 1, i);
    }
  }

  lemma IdentityIs(n: Node, m: nat, i: nat)
    requires n.Mapping? && m < |IDENTITY_KEYS| && i < |n.entries|
    requires Identifies(n.entries[i], IDENTITY_KEYS[m]) && forall j :: 0 <= j < i ==> !UnderKey(n.entries[j], IDENTITY_KEYS[m])
    requires forall l, j :: 0 <= l < m && 0 <= j < |n.entries| ==> !UnderKey(n.entries[j], IDENTITY_KEYS[l])
    ensures Identity(n) == IDENTITY_KEYS[m] + "=" + Text.TrimSpace(n.entries[i].value.value)
  {
    IdentityUnderIs(n.entries, IDENTITY_KEYS, m, i);
  }

  // ---------------------------------------------- what is added, left out, removed

  /** Scalars that a configuration may leave out, wherever they are. */
  predicate ZeroText(tag: string, value: string) {
    || (tag == "!!bool" && value == "false") || (tag == "!!str" && value == "") || tag == "!!null"
    || ((tag == "!!int" || tag == "!!float") && (value == "0" || value == "0.0"))
  }

  /** A scalar that the merge writes even where the document has no such key: neither zero nor the value of any known default. */
  predicate Telling(tag: string, value: string) {
    && !ZeroText(tag, value) && value != "10" && value != "127.0.0.1:8316" && value != "round-robin"
    && value != "https://github.com/icaruszezen/AI-Provider-Scheduling-Management-Center"
  }

  lemma TellingCounts(path: Path, n: Node)
    requires n.Scalar? && path != [] && (Telling(n.tag, n.value) || (n.tag == "!!int" && path[|path| - 1] == "weight"))
    ensures !Insignificant(path, n)
  {
  }

  /** A generated scalar that counts is in the document after the merge, whatever was there before. */
  lemma ValueIsCarried(dst: Node, src: Node, i: nat, path: Path)
    requires Rendered(src) && src.Mapping? && i < |src.entries| && src.entries[i].value.Scalar?
    requires var e := src.entries[i];
             Telling(e.value.tag, e.value.value) || (e.value.tag == "!!int" && e.key == "weight")
    ensures var out, e := MergedNode(dst, src, path), src.entries[i];
            out.Mapping? && FindKey(out.entries, e.key) >= 0 && out.entries[FindKey(out.entries, e.key)].value == e.value
  {
    var e, base := src.entries[i], BaseEntries(dst, src);
    EntriesSurvive(base, src, |src.entries|, path);
    assert EntrySurvives(base, src, i, path);
    assert EntryAgrees(src, i, MergedEntries(base, src, |src.entries|, path), path);
    TellingCounts(path + [e.key], e.value);
    var out := MergedNode(dst, src, path).entries;
    assert Agrees(e.value, out[FindKey(out, e.key)].value, path + [e.key]);
  }

  lemma ZeroSkipped(done: seq<Entry>, e: Entry, path: Path)
    requires e.value.Scalar? && ZeroText(e.value.tag, e.value.value) && !(e.value.tag == "!!int" && e.key == "weight")
    ensures WithNew(done, e, path) == done
  {
    assert (path + [e.key])[|path|] == e.key;
  }

  lemma ZeroStep(base: seq<Entry>, src: Node, k: nat, path: Path)
    requires Rendered(src) && src.Mapping? && k < |src.entries| && FindKey(base, src.entries[k].key) < 0
    requires src.entries[k].value.Scalar? && ZeroText(src.entries[k].value.tag, src.entries[k].value.value)
    requires !(src.entries[k].value.tag == "!!int" && src.entries[k].key == "weight")
    ensures FindKey(MergedEntries(base, src, k + 1, path), src.entries[k].key) < 0
  {
    Untouched(base, src, k, src.entries[k].key, path);
    ZeroSkipped(MergedEntries(base, src, k, path), src.entries[k], path);
  }

  /** A key that the document does not have and whose value is zero is not added. */
  lemma {:induction false} ZeroIsNotAdded(base: seq<Entry>, src: Node, k: nat, i: nat, path: Path)
    requires Rendered(src) && src.Mapping? && i < k <= |src.entries| && FindKey(base, src.entries[i].key) < 0
    requires src.entries[i].value.Scalar? && ZeroText(src.entries[i].value.tag, src.entries[i].value.value)
    requires !(src.entries[i].value.tag == "!!int" && src.entries[i].key == "weight")
    ensures FindKey(MergedEntries(base, src, k, path), src.entries[i].key) < 0
    decreases k
  {
    if i < k - 1 {
      ZeroIsNotAdded(base, src, k - 1, i, path);
      OthersStay(base, src, k, path);
    } else {
      ZeroStep(base, src, i, path);
    }
  }

  /** In a list element that takes over an original one, only keys of the new element are left, up to white space. */
  lemma GoneKeysGo(original: seq<Node>, at: nat, item: Node, path: Path, i: nat)
    requires Rendered(item) && item.Mapping? && at < |original|
    ensures var out := MergedItem(original, at, item, path);
            out.Mapping? && (i < |out.entries| ==>
              exists j :: 0 <= j < |item.entries| && Text.TrimSpace(item.entries[j].key) == Text.TrimSpace(out.entries[i].key) != "")
  {
    var merged := MergedNode(original[at], item, path).entries;
    LeftAreKept(merged, KeptKeys(item.entries));
  }

  lemma {:induction false} LeftAreKept(dst: seq<Entry>, keep: set<string>)
    ensures forall i :: 0 <= i < |WithoutMissing(dst, keep)| ==> Text.TrimSpace(WithoutMissing(dst, keep)[i].key) in keep
  {
    if dst != [] {
      LeftAreKept(dst[1..], keep);
    }
  }

  /** A new mapping does not bring its zero values with it. */
  lemma ZeroIsPruned(path: Path, n: Node, i: nat)
    requires n.Mapping? && DistinctKeys(n.entries) && i < |n.entries| && n.entries[i].value.Scalar?
    requires ZeroText(n.entries[i].value.tag, n.entries[i].value.value) && !(n.entries[i].value.tag == "!!int" && n.entries[i].key == "weight")
    ensures Pruned(path, n).Mapping? && FindKey(Pruned(path, n).entries, n.entries[i].key) < 0
  {
    assert (path + [n.entries[i].key])[|path|] == n.entries[i].key;
    PrunedFind(path, n, |n.entries|, i);
  }

  /** Null in the document stands for an empty list as before. */
  lemma NullStays(dst: Node, path: Path)
    requires dst.Scalar? && dst.tag == "!!null"
    ensures MergedNode(dst, Sequence([]), path) == dst
  {
  }

  lemma {:induction false} PprofAddress()
    ensures IsKnownDefault(["pprof", "addr"], Scalar("!!str", "127.0.0.1:8316"))
  {
    TwoKeys("pprof", "addr");
  }

  lemma {:induction false} RoutingStrategy()
    ensures IsKnownDefault(["routing", "strategy"], Scalar("!!str", "round-robin"))
  {
    TwoKeys("routing", "strategy");
  }

  lemma {:induction false} PanelRepository()
    ensures IsKnownDefault(["remote-management", "panel-github-repository"], Scalar("!!str", DEFAULT_PANEL_REPOSITORY))
  {
    TwoKeys("remote-management", "panel-github-repository");
  }

  lemma {:induction false} ErrorLogFiles()
    ensures IsKnownDefault(["error-logs-max-files"], Scalar("!!int", "10"))
  {
    assert ["error-logs-max-files"][0] == "error-logs-max-files";
  }

  lemma {:induction false} TwoKeys(a: string, b: string)
    ensures Dotted([a, b]) == a + "." + b
  {
    assert [a, b][1..] == [b];
  }
}
