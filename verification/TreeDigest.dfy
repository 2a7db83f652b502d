/** Digests and copies of files and directory trees (internal/resourcehub/fs.go).  The
    hash is a parameter: nothing here supposes that it is injective. */
module TreeDigest {
  import opened Wrappers
  import opened JsonSize
  import opened Text

  type Bytes = string
  type Digest = string

  const MAX_FILES := 10_000
  const MAX_FILE_BYTES := 16 * 1024 * 1024
  const MAX_TOTAL_BYTES := 64 * 1024 * 1024

  const IGNORED := {".git", "node_modules", "dist", "build", "target",
                    "__pycache__", ".pytest_cache", ".mypy_cache", ".ruff_cache"}

  datatype Entry = Regular(bytes: Bytes) | Link(target: string)

  /** A directory tree is its files and links, by slash-separated relative path. */
  datatype Content = File(bytes: Bytes) | Directory(entries: map<string, Entry>) | Symlink(target: string)

  function FirstSlash(path: string): (i: nat)
    ensures i <= |path| && '/' !in path[..i] && (i < |path| ==> path[i] == '/')
  {
    if path == "" || path[0] == '/' then 0
    else
      var i := 1 + FirstSlash(path[1..]);
      assert path[..i] == [path[0]] + path[1..][..i - 1];
      i
  }

  /** A walk does not enter a directory with an ignored name; a file may bear one. */
  predicate Visible(path: string)
    decreases |path|
  {
    var i := FirstSlash(path);
    i < |path| ==> path[..i] !in IGNORED && Visible(path[i + 1..])
  }

  function Walked(entries: map<string, Entry>): map<string, Entry> {
    map p | p in entries && Visible(p) :: entries[p]
  }

  function EntryBytes(entries: map<string, Entry>): map<string, nat> {
    map p | p in entries :: if entries[p].Regular? then |entries[p].bytes| else 0
  }

  function TotalBytes(entries: map<string, Entry>): nat {
    Total(EntryBytes(entries))
  }

  /** No symlink on the walk and none of the three limits exceeded. */
  predicate Walkable(entries: map<string, Entry>) {
    var walked := Walked(entries);
    && (forall p <- walked :: walked[p].Regular? && |walked[p].bytes| <= MAX_FILE_BYTES)
    && |walked| <= MAX_FILES
    && TotalBytes(walked) <= MAX_TOTAL_BYTES
  }

  /** What is fed to the hash: each path and body in turn, without lengths. */
  function Preimage(paths: seq<string>, bodies: map<string, Bytes>): string
    requires forall p <- paths :: p in bodies
  {
    if paths == [] then "" else Framed(paths[0], bodies[paths[0]]) + Preimage(paths[1..], bodies)
  }

  function Framed(path: string, body: Bytes): string {
    "F\0" + path + "\0" + body
  }

  function Bodies(entries: map<string, Entry>): map<string, Bytes>
    requires forall p <- entries :: entries[p].Regular?
  {
    map p | p in entries :: entries[p].bytes
  }

  function TreePreimage(entries: map<string, Entry>): string
    requires Walkable(entries)
  {
    var bodies := Bodies(Walked(entries));
    Preimage(SortedElements(bodies.Keys), bodies)
  }

  /** The digest of the content found under the name `base`, or None for an error. */
  function Of(base: string, content: Content, hash: string -> Digest): Option<Digest> {
    match content
    case Symlink(target) => Some(hash("L\0" + target))
    case File(bytes) => if |bytes| <= MAX_FILE_BYTES then Some(hash(Framed(base, bytes))) else None
    case Directory(entries) =>
      if Walkable(entries) then Some(hash(TreePreimage(entries))) else None
  }

  // ------------------------------------------------------------------- copies

  /** copyResource: symlinks are refused, ignored directories are left behind. */
  function Copy(content: Content): Option<Content> {
    match content
    case Symlink(_) => None
    case File(bytes) => if |bytes| <= MAX_FILE_BYTES then Some(content) else None
    case Directory(entries) => if Walkable(entries) then Some(Directory(Walked(entries))) else None
  }

  /** The directory an import makes of its source: a file becomes its only entry. */
  function Imported(base: string, content: Content): Option<Content> {
    match content
    case File(bytes) => if |bytes| <= MAX_FILE_BYTES then Some(Directory(map[base := Regular(bytes)])) else None
    case _ => Copy(content)
  }

  lemma WalkedIsIdempotent(entries: map<string, Entry>)
    ensures Walked(Walked(entries)) == Walked(entries)
  {
  }

  /** A copy has its source's digest, and copying succeeds exactly when digesting does
      unless the source is a symlink. */
  lemma CopyKeepsDigest(base: string, content: Content, hash: string -> Digest)
    ensures Copy(content).Some? ==> Of(base, Copy(content).value, hash) == Of(base, content, hash)
    ensures !content.Symlink? ==> (Copy(content).Some? <==> Of(base, content, hash).Some?)
  {
    if content.Directory? { WalkedIsIdempotent(content.entries); }
  }

  /** A file is hashed with its name: a copy under another name is hashed as another text. */
  lemma RenamedFileIsAnother(base: string, other: string, bytes: Bytes, hash: string -> Digest)
    requires |bytes| <= MAX_FILE_BYTES
    ensures Copy(File(bytes)) == Some(File(bytes)) && Of(other, File(bytes), hash) == Some(hash(Framed(other, bytes)))
    ensures Framed(other, bytes) == Framed(base, bytes) <==> other == base
  {
    var s, t := Framed(other, bytes), Framed(base, bytes);
    assert s[2..2 + |other|] == other && t[2..2 + |base|] == base;
    if s == t { assert |s| == |t|; }
  }

  lemma TotalOfOne(p: string, bytes: Bytes)
    ensures TotalBytes(map[p := Regular(bytes)]) == |bytes|
  {
    var sizes := EntryBytes(map[p := Regular(bytes)]);
    assert sizes == map[p := |bytes|];
    TotalWithout(sizes, p);
    assert sizes - {p} == map[];
  }

  lemma PreimageOfOneFile(name: string, bytes: Bytes)
    requires '/' !in name && |bytes| <= MAX_FILE_BYTES
    ensures var entries := map[name := Regular(bytes)];
      Walkable(entries) && TreePreimage(entries) == Framed(name, bytes)
  {
    var entries := map[name := Regular(bytes)];
    assert Visible(name);
    assert Walked(entries) == entries && |entries| == 1;
    TotalOfOne(name, bytes);
    var bodies := Bodies(entries);
    assert bodies.Keys == {name};
    SortedSingleton(name);
    PreimageOfOne(name, bodies);
  }

  lemma PreimageOfOne(p: string, bodies: map<string, Bytes>)
    requires p in bodies
    ensures Preimage([p], bodies) == Framed(p, bodies[p])
  {
    assert Preimage([p][1..], bodies) == [];
  }

  /** A single-file import is a directory with the digest of the file it came from. */
  lemma ImportKeepsDigest(base: string, other: string, content: Content, hash: string -> Digest)
    requires '/' !in base && Imported(base, content).Some?
    ensures Of(other, Imported(base, content).value, hash) == Of(base, content, hash)
  {
    match content
    case File(bytes) => PreimageOfOneFile(base, bytes);
    case Directory(entries) => WalkedIsIdempotent(entries);
    case Symlink(_) =>
  }

  lemma SortedSingleton(x: string)
    ensures SortedElements({x}) == [x]
  {
    var r := SortedElements({x});
    assert r[0] in r;
  }

  lemma SortedPair(x: string, y: string)
    requires Compare(x, y) < 0
    ensures SortedElements({x, y}) == [x, y]
  {
    var r := SortedElements({x, y});
    assert |{x, y}| == 2;
    assert r[0] in r && r[1] in r && x in r && y in r;
    CompareFlips(x, y);
  }

  lemma BytesOfTwo(p: string, x: Bytes, q: string, y: Bytes)
    requires p != q
    ensures EntryBytes(map[p := Regular(x), q := Regular(y)]) - {p} == EntryBytes(map[q := Regular(y)])
  {
  }

  lemma TotalOfTwo(p: string, x: Bytes, q: string, y: Bytes)
    requires p != q
    ensures TotalBytes(map[p := Regular(x), q := Regular(y)]) == |x| + |y|
    ensures |map[p := Regular(x), q := Regular(y)]| == 2
  {
    var two := map[p := Regular(x), q := Regular(y)];
    assert two.Keys == {p, q} && |two.Keys| == 2;
    var sizes := EntryBytes(two);
    TotalWithout(sizes, p);
    BytesOfTwo(p, x, q, y);
    TotalOfOne(q, y);
  }

  lemma TwoFilesAreWalkable(p: string, x: Bytes, q: string, y: Bytes)
    requires '/' !in p && '/' !in q && p != q && |x| <= MAX_FILE_BYTES && |y| <= MAX_FILE_BYTES
    ensures var entries := map[p := Regular(x), q := Regular(y)];
      Walked(entries) == entries && Walkable(entries)
  {
    var entries := map[p := Regular(x), q := Regular(y)];
    assert Visible(p) && Visible(q);
    assert Walked(entries) == entries;
    TotalOfTwo(p, x, q, y);
  }

  lemma PreimageOfPair(p: string, q: string, bodies: map<string, Bytes>)
    requires p in bodies && q in bodies
    ensures Preimage([p, q], bodies) == Framed(p, bodies[p]) + Framed(q, bodies[q])
  {
    assert [p, q][1..] == [q];
    PreimageOfOne(q, bodies);
  }

  lemma PreimageOfTwoFiles(p: string, x: Bytes, q: string, y: Bytes)
    requires '/' !in p && '/' !in q && Compare(p, q) < 0 && |x| <= MAX_FILE_BYTES && |y| <= MAX_FILE_BYTES
    ensures var entries := map[p := Regular(x), q := Regular(y)];
      Walkable(entries) && TreePreimage(entries) == Framed(p, x) + Framed(q, y)
  {
    var entries := map[p := Regular(x), q := Regular(y)];
    TwoFilesAreWalkable(p, x, q, y);
    var bodies := Bodies(entries);
    assert bodies.Keys == {p, q} && bodies[p] == x && bodies[q] == y;
    SortedPair(p, q);
    PreimageOfPair(p, q, bodies);
  }

  lemma FramedAbsorbs(p: string, x: Bytes, more: string)
    ensures Framed(p, x + more) == Framed(p, x) + more
  {
  }

  lemma FramedIsLonger(q: string, y: Bytes)
    ensures |Framed(q, y)| >= |y|
  {
  }

  /** Without lengths the hashed text does not determine the tree: under any hash, a file
      that carries the framed text of the next one has the digest of the two. */
  lemma DigestDoesNotDetermineTheTree(base: string, p: string, x: Bytes, q: string, y: Bytes, both: Bytes,
                                      hash: string -> Digest)
    requires '/' !in p && '/' !in q && Compare(p, q) < 0
    requires both == x + Framed(q, y) && |both| <= MAX_FILE_BYTES
    ensures var one, two := map[p := Regular(both)], map[p := Regular(x), q := Regular(y)];
      one != two && Of(base, Directory(one), hash) == Of(base, Directory(two), hash) != None
  {
    var one, two := map[p := Regular(both)], map[p := Regular(x), q := Regular(y)];
    assert q in two.Keys && q !in one.Keys;
    FramedIsLonger(q, y);
    PreimageOfOneFile(p, both);
    PreimageOfTwoFiles(p, x, q, y);
    FramedAbsorbs(p, x, Framed(q, y));
  }
}
