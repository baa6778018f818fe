/**
 * YAML documents as trees, and what the configuration writer asks of them: whether
 * a value is zero or a known default, and whether two list elements are the same.
 */
module YamlTree {
  import Text

  datatype Node =
    | Scalar(tag: string, value: string)
    | Mapping(entries: seq<Entry>)
    | Sequence(items: seq<Node>)
    | Alias(name: string, target: Node)

  datatype Entry = Entry(key: string, value: Node)

  type Path = seq<string>

  const DEFAULT_PPROF_ADDR: string := "127.0.0.1:8316"
  const DEFAULT_PANEL_REPOSITORY: string := "https://github.com/icaruszezen/AI-Provider-Scheduling-Management-Center"

  // ------------------------------------------------------------------ lookup

  /** The place of the first entry with a key, or -1. */
  function FindKey(entries: seq<Entry>, key: string): (r: int)
    ensures -1 <= r < |entries|
    ensures r >= 0 ==> entries[r].key == key && forall i :: 0 <= i < r ==> entries[i].key != key
    ensures r < 0 ==> forall i :: 0 <= i < |entries| ==> entries[i].key != key
  {
    if entries == [] then -1
    else if entries[0].key == key then 0
    else
      var r := FindKey(entries[1..], key);
      if r < 0 then -1 else r + 1
  }

  predicate DistinctKeys(entries: seq<Entry>) {
    forall i, j :: 0 <= i < j < |entries| ==> entries[i].key != entries[j].key
  }

  /** A document as the encoder renders one: no aliases, and no key twice in a mapping. */
  predicate Rendered(n: Node) {
    match n
    case Scalar(_, _) => true
    case Mapping(entries) => DistinctKeys(entries) && forall i :: 0 <= i < |entries| ==> Rendered(entries[i].value)
    case Sequence(items) => forall i :: 0 <= i < |items| ==> Rendered(items[i])
    case Alias(_, _) => false
  }

  // ---------------------------------------------------------------- defaults

  predicate IsNull(n: Node) {
    n.Scalar? && n.tag == "!!null"
  }

  predicate ZeroScalar(tag: string, value: string) {
    if tag == "!!bool" then value == "false"
    else if tag == "!!int" || tag == "!!float" then value == "0" || value == "0.0"
    else if tag == "!!str" then value == ""
    else tag == "!!null"
  }

  predicate IsZero(n: Node) {
    match n
    case Scalar(tag, value) => ZeroScalar(tag, value)
    case Mapping(entries) => forall i :: 0 <= i < |entries| ==> IsZero(entries[i].value)
    case Sequence(items) => forall i :: 0 <= i < |items| ==> IsZero(items[i])
    case Alias(_, _) => false
  }

  function Dotted(path: Path): string {
    if path == [] then ""
    else if |path| == 1 then path[0]
    else path[0] + "." + Dotted(path[1..])
  }

  /** A known non-zero default, by its dotted path. */
  predicate DefaultScalar(path: Path, tag: string, value: string) {
    var p := Dotted(path);
    if path == [] then false
    else if tag == "!!str" then
      || (p == "pprof.addr" && value == DEFAULT_PPROF_ADDR)
      || (p == "remote-management.panel-github-repository" && value == DEFAULT_PANEL_REPOSITORY)
      || (p == "routing.strategy" && value == "round-robin")
    else tag == "!!int" && p == "error-logs-max-files" && value == "10"
  }

  /** An integer weight: its explicit zero means something. */
  predicate IsWeight(path: Path, n: Node) {
    path != [] && path[|path| - 1] == "weight" && n.Scalar? && n.tag == "!!int"
  }

  predicate IsKnownDefault(path: Path, n: Node) {
    if IsWeight(path, n) then false
    else IsZero(n) || (n.Scalar? && DefaultScalar(path, n.tag, n.value))
  }

  /** Made of zero values and known defaults only. */
  predicate Negligible(path: Path, n: Node)
    decreases n
  {
    || IsZero(n)
    || (n.Scalar? && DefaultScalar(path, n.tag, n.value))
    || (n.Mapping? && forall i :: 0 <= i < |n.entries| ==> Negligible(path + [n.entries[i].key], n.entries[i].value))
    || (n.Sequence? && forall i :: 0 <= i < |n.items| ==> Negligible(path, n.items[i]))
  }

  /** What may be left out of a document that does not mention it. */
  predicate Insignificant(path: Path, n: Node) {
    !IsWeight(path, n) && Negligible(path, n)
  }

  // ----------------------------------------------------- identity of elements

  /** Equality up to white space around scalars. */
  predicate SameStructure(a: Node, b: Node) {
    match a
    case Scalar(_, value) => b.Scalar? && Text.TrimSpace(value) == Text.TrimSpace(b.value)
    case Mapping(entries) =>
      b.Mapping? && |entries| == |b.entries| && forall i :: 0 <= i < |entries| ==>
        Text.TrimSpace(entries[i].key) == Text.TrimSpace(b.entries[i].key) && SameStructure(entries[i].value, b.entries[i].value)
    case Sequence(items) => b.Sequence? && |items| == |b.items| && forall i :: 0 <= i < |items| ==> SameStructure(items[i], b.items[i])
    case Alias(_, target) => b.Alias? && SameStructure(target, b.target)
  }

  const IDENTITY_KEYS: seq<string> := ["id", "name", "alias", "api-key", "api_key", "apikey", "key", "provider", "model"]

  /** The value of the first scalar entry under a key, up to case and white space. */
  function ScalarUnder(entries: seq<Entry>, key: string): string {
    if entries == [] then ""
    else if entries[0].value.Scalar? && Text.Lower(Text.TrimSpace(entries[0].key)) == Text.Lower(key) then Text.TrimSpace(entries[0].value.value)
    else ScalarUnder(entries[1..], key)
  }

  function IdentityUnder(entries: seq<Entry>, keys: seq<string>): string {
    if keys == [] then ""
    else
      var v := ScalarUnder(entries, keys[0]);
      if v != "" then keys[0] + "=" + v else IdentityUnder(entries, keys[1..])
  }

  function FirstScalar(entries: seq<Entry>): string {
    if entries == [] then ""
    else if entries[0].value.Scalar? && Text.TrimSpace(entries[0].value.value) != "" then
      Text.Lower(Text.TrimSpace(entries[0].key)) + "=" + Text.TrimSpace(entries[0].value.value)
    else FirstScalar(entries[1..])
  }

  /** What identifies a mapping in a list: a well-known key, else its first scalar. */
  function Identity(n: Node): string {
    if !n.Mapping? then ""
    else
      var id := IdentityUnder(n.entries, IDENTITY_KEYS);
      if id != "" then id else FirstScalar(n.entries)
  }
}
