/** The manifest of a recovery archive, and what it has to say for an archive to be written or believed. */
module RecoveryManifest {
  import opened Wrappers

  type Digest(==, !new)
  type Path = seq<string>

  datatype Entry = Entry(path: Path, bytes: int, digest: Digest)
  datatype Key = Key(id: string, root: string, path: Path)
  datatype Reference = Reference(root: string, path: Path, encrypted: bool, keyId: string)
  datatype Manifest = Manifest(
    supported: bool,  // version, identifiers, dates and protocol
    roots: seq<string>, files: seq<Entry>, keys: seq<Key>, references: seq<Reference>,
    claimsComplete: bool, unresolved: bool)

  const MAX_FILE := 256 * 1024 * 1024
  const MAX_TOTAL := 4 * 1024 * 1024 * 1024
  const MAX_FILES := 100_000
  const MAX_ROOTS := 64
  const DUMP: Path := ["database.dump"]

  // ---- Manifest ----

  predicate SafeSegment(s: string) {
    s != "" && s != "." && s != ".." && forall c :: c in s ==> c >= ' ' && c != '\\' && c != ':' && c != '/'
  }

  function PathLength(p: Path): nat {
    if p == [] then 0 else |p[0]| + (if |p| > 1 then 1 else 0) + PathLength(p[1..])
  }

  predicate SafePath(p: Path) {
    p != [] && PathLength(p) <= 1024 && forall s :: s in p ==> SafeSegment(s)
  }

  predicate SafeRoot(s: string) {
    1 <= |s| <= 80 && 'a' <= s[0] <= 'z' && forall c :: c in s ==> 'a' <= c <= 'z' || '0' <= c <= '9' || c == '-'
  }

  function Rooted(root: string, path: Path): Path {
    ["roots", root] + path
  }

  function Total(files: seq<Entry>): int {
    if files == [] then 0 else Total(files[..|files| - 1]) + files[|files| - 1].bytes
  }

  predicate Listed(m: Manifest, path: Path) {
    exists i :: 0 <= i < |m.files| && m.files[i].path == path
  }

  predicate RootsOk(m: Manifest) {
    && (forall i :: 0 <= i < |m.roots| ==> SafeRoot(m.roots[i]))
    && (forall i, j :: 0 <= i < j < |m.roots| ==> m.roots[i] != m.roots[j])
  }

  predicate FilesOk(m: Manifest) {
    && (forall i :: 0 <= i < |m.files| ==> SafePath(m.files[i].path) && 0 <= m.files[i].bytes <= MAX_FILE)
    && (forall i, j :: 0 <= i < j < |m.files| ==> m.files[i].path != m.files[j].path)
    && Total(m.files) <= MAX_TOTAL
    && Listed(m, DUMP)
  }

  predicate Resolves(m: Manifest, root: string, path: Path) {
    SafePath(path) && root in m.roots && Listed(m, Rooted(root, path))
  }

  predicate KeysOk(m: Manifest) {
    && (forall i :: 0 <= i < |m.keys| ==> Resolves(m, m.keys[i].root, m.keys[i].path))
    && (forall i, j :: 0 <= i < j < |m.keys| ==> m.keys[i].id != m.keys[j].id)
  }

  predicate ReferencesOk(m: Manifest) {
    forall i :: 0 <= i < |m.references| ==>
      && Resolves(m, m.references[i].root, m.references[i].path)
      && (m.references[i].encrypted ==> exists k :: 0 <= k < |m.keys| && m.keys[k].id == m.references[i].keyId)
  }

  predicate ValidManifest(m: Manifest) {
    && m.supported && |m.files| <= MAX_FILES && |m.roots| <= MAX_ROOTS && |m.references| <= MAX_FILES
    && RootsOk(m) && FilesOk(m) && KeysOk(m) && ReferencesOk(m)
    && !(m.claimsComplete && m.unresolved)
  }

  // ---- Paths as texts ----

  /** Splitting at slashes. */
  function Parts(text: string): (parts: Path)
    ensures parts != []
  {
    if text == "" then [""]
    else
      var rest := Parts(text[1..]);
      if text[0] == '/' then [""] + rest else [[text[0]] + rest[0]] + rest[1..]
  }

  /** The check that is made of a path's text. */
  predicate SafeText(text: string) {
    && |text| <= 1024 && (text != "" ==> text[0] != '/')
    && (forall c :: c in text ==> c != '\\' && c != ':' && c >= ' ')
    && (forall part :: part in Parts(text) ==> part != "" && part != "." && part != "..")
  }

  lemma {:induction false} PartsLength(text: string)
    ensures PathLength(Parts(text)) == |text|
    decreases |text|
  {
    if text != "" {
      PartsLength(text[1..]);
      var rest := Parts(text[1..]);
      assert rest == [rest[0]] + rest[1..];
      if text[0] == '/' {
        assert Parts(text)[1..] == rest;
      } else {
        assert Parts(text)[1..] == rest[1..];
      }
    } else {
      assert [""][1..] == [];
    }
  }

  predicate HasChar(path: Path, c: char) {
    exists i :: 0 <= i < |path| && c in path[i]
  }

  /** The characters of the parts are those of the text but for slashes. */
  lemma {:induction false} PartsChars(text: string, c: char)
    ensures HasChar(Parts(text), c) <==> c in text && c != '/'
    decreases |text|
  {
    if text != "" {
      PartsChars(text[1..], c);
      var rest, parts := Parts(text[1..]), Parts(text);
      assert c in text <==> c == text[0] || c in text[1..];
      if text[0] == '/' {
        SameChars(parts, rest, c);
      } else {
        MoreChars(parts, rest, text[0], c);
      }
    }
  }

  lemma SameChars(parts: Path, rest: Path, c: char)
    requires parts == [""] + rest
    ensures HasChar(parts, c) <==> HasChar(rest, c)
  {
    if HasChar(rest, c) {
      var i :| 0 <= i < |rest| && c in rest[i];
      assert parts[i + 1] == rest[i];
    }
    if HasChar(parts, c) {
      var i :| 0 <= i < |parts| && c in parts[i];
      assert parts[i] == rest[i - 1];
    }
  }

  lemma MoreChars(parts: Path, rest: Path, first: char, c: char)
    requires rest != [] && parts == [[first] + rest[0]] + rest[1..]
    ensures HasChar(parts, c) <==> c == first || HasChar(rest, c)
  {
    assert forall i :: 0 < i < |parts| ==> parts[i] == rest[i];
    assert c in parts[0] <==> c == first || c in rest[0];
    if HasChar(rest, c) {
      var i :| 0 <= i < |rest| && c in rest[i];
      assert c in parts[i];
    }
    if c == first {
      assert c in parts[0];
    }
  }

  lemma PartsSegments(text: string)
    ensures (forall s :: s in Parts(text) ==> SafeSegment(s)) <==>
            && (forall c :: c in text ==> c != '\\' && c != ':' && c >= ' ')
            && (forall part :: part in Parts(text) ==> part != "" && part != "." && part != "..")
  {
    var parts := Parts(text);
    forall c ensures HasChar(parts, c) <==> c in text && c != '/' {
      PartsChars(text, c);
    }
    if forall s :: s in parts ==> SafeSegment(s) {
      forall c | c in text ensures c != '\\' && c != ':' && c >= ' ' {
        if c != '/' {
          var i :| 0 <= i < |parts| && c in parts[i];
          assert SafeSegment(parts[i]);
        }
      }
    } else {
      var s :| s in parts && !SafeSegment(s);
      if s != "" && s != "." && s != ".." {
        var c :| c in s && !(c >= ' ' && c != '\\' && c != ':' && c != '/');
        assert HasChar(parts, c);
      }
    }
  }

  /** The segments of a path are acceptable exactly if its text is: a leading slash makes an empty segment. */
  lemma SafePathIff(text: string)
    ensures SafePath(Parts(text)) <==> SafeText(text)
  {
    PartsLength(text);
    PartsSegments(text);
    if text != "" && text[0] == '/' {
      assert Parts(text)[0] == "" && Parts(text)[0] in Parts(text);
    }
  }

  lemma {:induction false} PartsBehind(root: string, text: string)
    requires '/' !in root
    ensures Parts(root + "/" + text) == [root] + Parts(text)
    decreases |root|
  {
    var all := root + "/" + text;
    if root == "" {
      assert all[1..] == text;
    } else {
      PartsBehind(root[1..], text);
      assert all[1..] == root[1..] + "/" + text;
      assert [root[0]] + root[1..] == root;
    }
  }

  /** Keys and references name their files under `roots/<root>/`. */
  lemma RootedText(root: string, text: string)
    requires SafeRoot(root)
    ensures Parts("roots/" + root + "/" + text) == Rooted(root, Parts(text))
  {
    PartsBehind(root, text);
    PartsBehind("roots", root + "/" + text);
    assert "roots" + "/" == "roots/";
    assert "roots" + "/" + (root + "/" + text) == "roots/" + root + "/" + text;
    assert ["roots"] + ([root] + Parts(text)) == ["roots", root] + Parts(text);
  }

  // ---- What the checks accept ----

  /** The sum of all sizes. */
  function Sum(files: seq<Entry>): int {
    if files == [] then 0 else files[0].bytes + Sum(files[1..])
  }

  lemma {:induction false} SumIsTotal(files: seq<Entry>)
    ensures Sum(files) == Total(files)
    decreases |files|
  {
    if files != [] {
      var last := |files| - 1;
      SumIsTotal(files[..last]);
      SumSnoc(files[..last], files[last]);
      assert files[..last] + [files[last]] == files;
    }
  }

  lemma {:induction false} SumSnoc(files: seq<Entry>, e: Entry)
    ensures Sum(files + [e]) == Sum(files) + e.bytes
    decreases |files|
  {
    if files == [] {
      assert ([] + [e])[1..] == [];
    } else {
      assert (files + [e])[1..] == files[1..] + [e];
      SumSnoc(files[1..], e);
    }
  }

  /** Within the bounds: 64 roots, 100,000 files and references, 256 MiB a file and 4 GiB in all. */
  predicate Bounded(m: Manifest) {
    && |m.roots| <= 64 && |m.files| <= 100_000 && |m.references| <= 100_000
    && (forall e :: e in m.files ==> 0 <= e.bytes <= 268_435_456)
    && Sum(m.files) <= 4_294_967_296
  }

  predicate InRoot(c: char) {
    'a' <= c <= 'z' || '0' <= c <= '9' || c == '-'
  }

  /** A lower-case letter, and up to 79 more of those, digits and hyphens. */
  predicate RootName(s: string) {
    s != "" && 'a' <= s[0] <= 'z' && |s[1..]| <= 79 && forall c :: c in s[1..] ==> InRoot(c)
  }

  lemma RootNameIff(s: string)
    ensures SafeRoot(s) <==> RootName(s)
  {
    if s != "" {
      assert forall c :: c in s <==> c == s[0] || c in s[1..];
      assert RootName(s) ==> forall c :: c in s ==> InRoot(c);
    }
  }

  predicate HasFile(m: Manifest, path: Path) {
    exists e :: e in m.files && e.path == path
  }

  /** What keys and references name is under a declared root, and is one of the files. */
  predicate Leads(m: Manifest, root: string, path: Path) {
    SafePath(path) && root in m.roots && HasFile(m, ["roots", root] + path)
  }

  lemma LeadsIff(m: Manifest, root: string, path: Path)
    ensures Resolves(m, root, path) <==> Leads(m, root, path)
  {
    HasFileIff(m, ["roots", root] + path);
  }

  lemma HasFileIff(m: Manifest, path: Path)
    ensures Listed(m, path) <==> HasFile(m, path)
  {
    if HasFile(m, path) {
      var e :| e in m.files && e.path == path;
      var i :| 0 <= i < |m.files| && m.files[i] == e;
    }
  }

  predicate HasKey(m: Manifest, id: string) {
    exists k :: k in m.keys && k.id == id
  }

  /** Everything the manifest names is there, and nothing twice. */
  predicate Consistent(m: Manifest) {
    && (forall r :: r in m.roots ==> RootName(r))
    && (forall e :: e in m.files ==> SafePath(e.path))
    && HasFile(m, ["database.dump"])
    && (forall k :: k in m.keys ==> Leads(m, k.root, k.path))
    && (forall r :: r in m.references ==> Leads(m, r.root, r.path) && (r.encrypted ==> HasKey(m, r.keyId)))
    && (forall i, j :: 0 <= i < j < |m.roots| ==> m.roots[i] != m.roots[j])
    && (forall i, j :: 0 <= i < j < |m.files| ==> m.files[i].path != m.files[j].path)
    && (forall i, j :: 0 <= i < j < |m.keys| ==> m.keys[i].id != m.keys[j].id)
  }

  lemma RootsIff(m: Manifest)
    ensures RootsOk(m) <==> (forall r :: r in m.roots ==> RootName(r)) &&
                            forall i, j :: 0 <= i < j < |m.roots| ==> m.roots[i] != m.roots[j]
  {
    forall r ensures SafeRoot(r) <==> RootName(r) { RootNameIff(r); }
    assert forall i :: 0 <= i < |m.roots| ==> m.roots[i] in m.roots;
  }

  lemma FilesIff(m: Manifest)
    ensures FilesOk(m) <==>
            && (forall e :: e in m.files ==> SafePath(e.path) && 0 <= e.bytes <= 268_435_456)
            && Sum(m.files) <= 4_294_967_296 && HasFile(m, ["database.dump"])
            && (forall i, j :: 0 <= i < j < |m.files| ==> m.files[i].path != m.files[j].path)
  {
    SumIsTotal(m.files);
    HasFileIff(m, ["database.dump"]);
    assert forall i :: 0 <= i < |m.files| ==> m.files[i] in m.files;
  }

  lemma KeysIff(m: Manifest)
    ensures KeysOk(m) <==> (forall k :: k in m.keys ==> Leads(m, k.root, k.path)) &&
                           forall i, j :: 0 <= i < j < |m.keys| ==> m.keys[i].id != m.keys[j].id
  {
    forall k: Key ensures Resolves(m, k.root, k.path) <==> Leads(m, k.root, k.path) { LeadsIff(m, k.root, k.path); }
    assert forall i :: 0 <= i < |m.keys| ==> m.keys[i] in m.keys;
  }

  lemma ReferencesIff(m: Manifest)
    ensures ReferencesOk(m) <==> forall r :: r in m.references ==>
              Leads(m, r.root, r.path) && (r.encrypted ==> HasKey(m, r.keyId))
  {
    forall r: Reference ensures Resolves(m, r.root, r.path) <==> Leads(m, r.root, r.path) {
      LeadsIff(m, r.root, r.path);
    }
    forall id ensures HasKey(m, id) <==> exists k :: 0 <= k < |m.keys| && m.keys[k].id == id {
      if HasKey(m, id) {
        var key :| key in m.keys && key.id == id;
        var k :| 0 <= k < |m.keys| && m.keys[k] == key;
      }
    }
    assert forall i :: 0 <= i < |m.references| ==> m.references[i] in m.references;
  }

  /** A manifest is accepted exactly if it is supported, bounded and consistent, and does not claim too much. */
  lemma ValidManifestIff(m: Manifest)
    ensures ValidManifest(m) <==>
            m.supported && Bounded(m) && Consistent(m) && (m.claimsComplete ==> !m.unresolved)
  {
    RootsIff(m);
    FilesIff(m);
    KeysIff(m);
    ReferencesIff(m);
  }

  /** The checks in the order in which the program makes them, with the sets it collects on the way. */
  method AssertManifest(m: Manifest) returns (ok: bool)
    ensures ok == ValidManifest(m)
  {
    if !m.supported || |m.files| > MAX_FILES || |m.roots| > MAX_ROOTS || |m.references| > MAX_FILES {
      return false;
    }
    var roots: set<string> := {};
    for i := 0 to |m.roots|
      invariant roots == set r | r in m.roots[..i]
      invariant forall j :: 0 <= j < i ==> SafeRoot(m.roots[j])
      invariant forall j, k :: 0 <= j < k < i ==> m.roots[j] != m.roots[k]
    {
      if !SafeRoot(m.roots[i]) || m.roots[i] in roots {
        return false;
      }
      roots := roots + {m.roots[i]};
    }
    assert m.roots[..|m.roots|] == m.roots;
    var paths := CheckFiles(m);
    if paths.None? {
      return false;
    }
    var keys := CheckKeys(m, roots, paths.value);
    if keys.None? {
      return false;
    }
    for i := 0 to |m.references|
      invariant forall j :: 0 <= j < i ==>
                  && Resolves(m, m.references[j].root, m.references[j].path)
                  && (m.references[j].encrypted ==> exists k ::
                        0 <= k < |m.keys| && m.keys[k].id == m.references[j].keyId)
    {
      var r := m.references[i];
      if !SafePath(r.path) || r.root !in roots || Rooted(r.root, r.path) !in paths.value ||
          (r.encrypted && r.keyId !in keys.value) {
        return false;
      }
    }
    ok := !(m.claimsComplete && m.unresolved);
  }

  method CheckFiles(m: Manifest) returns (paths: Option<set<Path>>)
    ensures paths.Some? <==> FilesOk(m)
    ensures paths.Some? ==> forall p :: p in paths.value <==> Listed(m, p)
  {
    var seen: set<Path> := {};
    var bytes := 0;
    for i := 0 to |m.files|
      invariant forall p :: p in seen <==> exists j :: 0 <= j < i && m.files[j].path == p
      invariant bytes == Total(m.files[..i])
      invariant forall j :: 0 <= j < i ==> SafePath(m.files[j].path) && 0 <= m.files[j].bytes <= MAX_FILE
      invariant forall j, k :: 0 <= j < k < i ==> m.files[j].path != m.files[k].path
    {
      var file := m.files[i];
      if !SafePath(file.path) || file.path in seen || file.bytes < 0 || file.bytes > MAX_FILE {
        return None;
      }
      seen := seen + {file.path};
      bytes := bytes + file.bytes;
      assert m.files[..i + 1][..i] == m.files[..i];
    }
    assert m.files[..|m.files|] == m.files;
    paths := if bytes > MAX_TOTAL || DUMP !in seen then None else Some(seen);
  }

  method CheckKeys(m: Manifest, roots: set<string>, paths: set<Path>) returns (keys: Option<set<string>>)
    requires roots == set r | r in m.roots
    requires forall p :: p in paths <==> Listed(m, p)
    ensures keys.Some? <==> KeysOk(m)
    ensures keys.Some? ==> forall id :: id in keys.value <==> exists k :: 0 <= k < |m.keys| && m.keys[k].id == id
  {
    var seen: set<string> := {};
    for i := 0 to |m.keys|
      invariant forall id :: id in seen <==> exists k :: 0 <= k < i && m.keys[k].id == id
      invariant forall j :: 0 <= j < i ==> Resolves(m, m.keys[j].root, m.keys[j].path)
      invariant forall j, k :: 0 <= j < k < i ==> m.keys[j].id != m.keys[k].id
    {
      var key := m.keys[i];
      if !SafePath(key.path) || key.id in seen || key.root !in roots || Rooted(key.root, key.path) !in paths {
        return None;
      }
      seen := seen + {key.id};
    }
    keys := Some(seen);
  }
}
