/** Payloads that several sources make up together. Each source is checked by itself; what they
    come to is not checked again. */
module ProjectedSources {
  import opened Arithmetic
  import opened ProjectedFiles

  /** A projected volume takes the files of its sources in turn. */
  function Merge(sources: seq<Payload>): Payload {
    if sources == [] then map[] else Merge(sources[..|sources| - 1]) + sources[|sources| - 1]
  }

  ghost predicate AllValid(sources: seq<Payload>) { forall source | source in sources :: ValidPayload(source) }

  lemma {:induction false} MergedIsRelative(sources: seq<Payload>)
    requires AllValid(sources)
    ensures AllRelative(Merge(sources))
  {
    if sources != [] {
      assert sources[|sources| - 1] in sources;
      MergedIsRelative(sources[..|sources| - 1]);
    }
  }

  lemma {:induction false} MergedHas(sources: seq<Payload>, i: nat)
    requires i < |sources|
    ensures sources[i].Keys <= Merge(sources).Keys
  {
    if i < |sources| - 1 { MergedHas(sources[..|sources| - 1], i); }
  }

  lemma OneFile(path: Path, file: File)
    requires Relative(path) && |file.bytes| <= LIMIT
    ensures ValidPayload(map[path := file])
  {
    var files := map[path := file];
    CostRemove(Tree({}, files), {path}, path);
    assert files.Keys == {path} && {path} - {path} == {};
  }

  const TOKEN: Path := ["token"]
  const NAMESPACE: Path := ["namespace"]
  const UNDER_TOKEN: Path := ["token", "x"]

  predicate Plain(name: string) { 0 < |name| <= 255 && forall i | 0 <= i < |name| :: name[i] >= 'a' }

  lemma PlainIsRelative(path: Path)
    requires 1 <= |path| <= 2 && forall i | 0 <= i < |path| :: Plain(path[i])
    ensures Relative(path)
  {
    forall i | 0 <= i < |path| ensures path[i] != "." && path[i] != ".." && !(".." <= path[i]) {
      assert path[i][0] >= 'a' && "."[0] < 'a' && ".."[0] < 'a';
    }
    if |path| == 2 { assert path[1..] == [path[1]] && Length(path[1..]) == |path[1]|; }
  }

  lemma NamesAreRelative()
    ensures Relative(TOKEN) && Relative(NAMESPACE) && Relative(UNDER_TOKEN)
  {
    PlainIsRelative(TOKEN);
    PlainIsRelative(NAMESPACE);
    PlainIsRelative(UNDER_TOKEN);
  }

  /** Valid sources can conflict: a CA item at `token/x` beside the token. */
  lemma SourcesCanConflict(token: File, ca: File, namespace: File)
    requires |token.bytes| <= LIMIT && |ca.bytes| <= LIMIT && |namespace.bytes| <= LIMIT
    ensures var sources := [map[TOKEN := token], map[UNDER_TOKEN := ca], map[NAMESPACE := namespace]];
            AllValid(sources) && AllRelative(Merge(sources)) && !NoConflict(Merge(sources).Keys)
  {
    var sources: seq<Payload> := [map[TOKEN := token], map[UNDER_TOKEN := ca], map[NAMESPACE := namespace]];
    NamesAreRelative();
    OneFile(TOKEN, token);
    OneFile(UNDER_TOKEN, ca);
    OneFile(NAMESPACE, namespace);
    MergedIsRelative(sources);
    MergedHas(sources, 0);
    MergedHas(sources, 1);
    assert TOKEN in sources[0] && UNDER_TOKEN in sources[1] && TOKEN <= UNDER_TOKEN;
  }

  // ----- too many files together -----

  /** Names of two characters, one for each number. */
  function Label(n: nat): string
    requires n < MAX_FILES
  {
    ['a' + (n / 32) as char, 'a' + (n % 32) as char]
  }

  function Many(n: nat): Payload
    requires n <= MAX_FILES
  {
    if n == 0 then map[] else Many(n - 1)[[Label(n - 1)] := File([], 0x1A4)]
  }

  /** The number a label stands for. */
  function Index(name: string): int
    requires |name| == 2
  {
    32 * (name[0] as int - 'a' as int) + (name[1] as int - 'a' as int)
  }

  predicate Labelled(p: Path, n: nat) {
    |p| == 1 && |p[0]| == 2 && Plain(p[0]) && Index(p[0]) < n
  }

  ghost predicate AllLabelled(files: Payload, n: nat) {
    forall p :: p in files ==> Labelled(p, n) && files[p].bytes == []
  }

  lemma {:induction false} ManyAre(n: nat)
    requires n <= MAX_FILES
    ensures |Many(n)| == n && AllLabelled(Many(n), n)
  {
    if n > 0 {
      ManyAre(n - 1);
      OneLabelMore(Many(n - 1), n - 1);
    }
  }

  lemma OneLabelMore(files: Payload, n: nat)
    requires n < MAX_FILES && |files| == n && AllLabelled(files, n)
    ensures var more := files[[Label(n)] := File([], 0x1A4)]; |more| == n + 1 && AllLabelled(more, n + 1)
  {
    NewLabel(n);
    var more := files[[Label(n)] := File([], 0x1A4)];
    assert more.Keys == files.Keys + {[Label(n)]} && |more| == |more.Keys| && |files| == |files.Keys|;
  }

  lemma NewLabel(n: nat)
    requires n < MAX_FILES
    ensures !Labelled([Label(n)], n) && Labelled([Label(n)], n + 1)
  {
    assert n == 32 * (n / 32) + n % 32;
  }

  lemma LabelIsRelative(p: Path)
    requires Labelled(p, MAX_FILES)
    ensures Relative(p) && p != TOKEN && p != NAMESPACE
  {
    assert |TOKEN[0]| == 5 && |NAMESPACE[0]| == 9;
    PlainIsRelative(p);
  }

  lemma {:induction false} NoBytes(tree: Tree, paths: set<Path>)
    requires forall p :: p in paths ==> Weight(tree, p) == 0
    ensures Cost(tree, paths) == 0
    decreases |paths|
  {
    if paths != {} {
      var p :| p in paths;
      CostRemove(tree, paths, p);
      NoBytes(tree, paths - {p});
    }
  }

  /** A source as large as its limits allow. */
  lemma FullSource(n: nat) returns (many: Payload)
    requires n <= MAX_FILES
    ensures ValidPayload(many) && |many| == n && forall p :: p in many ==> |p| == 1 && p != TOKEN && p != NAMESPACE
  {
    many := Many(n);
    ManyAre(n);
    forall p | p in many ensures Relative(p) && |p| == 1 && p != TOKEN && p != NAMESPACE { LabelIsRelative(p); }
    NoBytes(Tree({}, many), many.Keys);
  }

  /** Valid sources can exceed the file limit together: the volume is published, and never read
      back. */
  lemma SourcesCanOverflow(token: File, namespace: File) returns (many: Payload, sources: seq<Payload>)
    requires |token.bytes| <= LIMIT && |namespace.bytes| <= LIMIT
    ensures sources == [many, map[TOKEN := token], map[NAMESPACE := namespace]]
    ensures AllValid(sources) && Placeable(Merge(sources)) && !ReadsBack(TreeOf(Merge(sources)))
  {
    many := FullSource(MAX_FILES);
    NamesAreRelative();
    OneFile(TOKEN, token);
    OneFile(NAMESPACE, namespace);
    sources := Overflows(many, map[TOKEN := token], map[NAMESPACE := namespace]);
  }

  lemma Overflows(many: Payload, token: Payload, namespace: Payload) returns (sources: seq<Payload>)
    requires ValidPayload(many) && ValidPayload(token) && ValidPayload(namespace) && |many| == MAX_FILES
    requires token.Keys == {TOKEN} && namespace.Keys == {NAMESPACE} && forall p :: p in many ==> |p| == 1 && p != TOKEN
    ensures sources == [many, token, namespace]
    ensures AllValid(sources) && Placeable(Merge(sources)) && !ReadsBack(TreeOf(Merge(sources)))
  {
    sources := [many, token, namespace];
    var merged := Merge(sources);
    MergedIsRelative(sources);
    MergedOfThree(sources);
    TogetherTooMany(many, token, namespace);
  }

  lemma TogetherTooMany(many: Payload, token: Payload, namespace: Payload)
    requires |many| == MAX_FILES && AllRelative(many + token + namespace)
    requires token.Keys == {TOKEN} && namespace.Keys == {NAMESPACE} && forall p :: p in many ==> |p| == 1 && p != TOKEN
    ensures Placeable(many + token + namespace) && !ReadsBack(TreeOf(many + token + namespace))
  {
    TooMany(many, many + token + namespace);
  }

  lemma MergedOfThree(sources: seq<Payload>)
    requires |sources| == 3
    ensures Merge(sources) == sources[0] + sources[1] + sources[2]
  {
    assert sources[..2][..1] == [sources[0]] && [sources[0]][..0] == [];
    assert Merge([sources[0]]) == map[] + sources[0] == sources[0];
  }

  lemma TooMany(many: Payload, files: Payload)
    requires |many| == MAX_FILES && TOKEN !in many && TOKEN in files && many.Keys <= files.Keys
    requires AllRelative(files) && forall p :: p in files ==> |p| == 1
    ensures Placeable(files) && !ReadsBack(TreeOf(files))
  {
    SubsetSize(many.Keys + {TOKEN}, files.Keys);
    assert |many.Keys + {TOKEN}| == MAX_FILES + 1 && |files| == |files.Keys|;
    ReadsBackIff(files);
  }
}
