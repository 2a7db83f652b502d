/** The workspace hierarchy (internal/workspace/store.go): items with parents, and the
    memory and artifacts keyed to them.  A save is one atomic commit that may fail. */
module WorkspaceStore {
  import opened Wrappers
  import opened FreeNames
  import opened JsonSize
  import opened Text

  const MAX_ITEMS := 4096
  const MAX_NAME_BYTES := 64 * 1024
  const MAX_PROMPT_BYTES := 1024 * 1024
  const MAX_VARS := 1024
  const MAX_LINKS := 4096
  const MAX_VAR_KEY_BYTES := 1024
  const MAX_VAR_VALUE := 64 * 1024
  const MAX_STATE_BYTES := 64 * 1024 * 1024

  /** Nanoseconds since the epoch. */
  type Time = int

  datatype ItemType = Workspace | Folder

  datatype Item = Item(
    id: string, name: string, itemType: ItemType, parentId: string, root: string, prompt: string,
    vars: map<string, string>, resourceIds: set<string>, routineIds: set<string>, createdAt: Time, updatedAt: Time)

  datatype MemoryEntry = MemoryEntry(workspaceLayer: bool, scope: string, key: string, value: string)
  datatype Artifact = Artifact(workspaceId: string, name: string)

  type Items = map<string, Item>

  predicate ValidId(value: string) {
    var trimmed := TrimSpace(value);
    && trimmed != "" && trimmed != "." && trimmed != ".."
    && forall c <- trimmed :: 'a' <= c <= 'z' || 'A' <= c <= 'Z' || '0' <= c <= '9' || c in {'-', '_', '.'}
  }

  // ------------------------------------------------------------ parent chains

  function Next(items: Items, id: string): string {
    if id != "" && id in items then items[id].parentId else ""
  }

  function Climb(items: Items, id: string, n: nat): string
    decreases n
  {
    if n == 0 then id else Climb(items, Next(items, id), n - 1)
  }

  /** `ancestor` is the item or one of the parents above it. */
  ghost predicate ClimbsTo(items: Items, id: string, ancestor: string) {
    ancestor != "" && exists n: nat :: Climb(items, id, n) == ancestor
  }

  ghost predicate Rooted(items: Items, id: string) {
    exists n: nat :: Climb(items, id, n) == ""
  }

  predicate ParentIsAFolder(items: Items, id: string)
    requires id in items
  {
    var parent := items[id].parentId;
    parent == "" || (parent in items && items[parent].itemType.Folder?)
  }

  ghost predicate Forest(items: Items) {
    && "" !in items
    && forall id <- items :: ParentIsAFolder(items, id) && Rooted(items, id)
  }

  lemma {:induction false} ClimbSplit(items: Items, id: string, a: nat, b: nat)
    ensures Climb(items, id, a + b) == Climb(items, Climb(items, id, a), b)
    decreases a
  {
    if a > 0 { ClimbSplit(items, Next(items, id), a - 1, b); }
  }

  lemma {:induction false} ClimbFromNowhere(items: Items, n: nat)
    ensures Climb(items, "", n) == ""
  {
    if n > 0 { ClimbFromNowhere(items, n - 1); }
  }

  /** A chain that meets itself never reaches a root. */
  lemma {:induction false} LoopIsNotRooted(items: Items, id: string, j: nat, n: nat, m: nat)
    requires j < n && Climb(items, id, j) == Climb(items, id, n)
    requires forall k | 0 <= k < n :: Climb(items, id, k) != ""
    ensures Climb(items, id, m) != ""
    decreases m
  {
    if m >= n {
      ClimbSplit(items, id, n, m - n);
      ClimbSplit(items, id, j, m - n);
      LoopIsNotRooted(items, id, j, n, j + (m - n));
    }
  }

  /** The chain ended after `n` steps without meeting `ancestor`. */
  lemma EndedChainMissed(items: Items, id: string, n: nat, ancestor: string)
    requires Climb(items, id, n) == ""
    requires forall k | 0 <= k < n :: Climb(items, id, k) != ancestor
    ensures Rooted(items, id) && !ClimbsTo(items, id, ancestor)
  {
    forall m: nat | ancestor != ""
      ensures Climb(items, id, m) != ancestor
    {
      if m >= n {
        ClimbSplit(items, id, n, m - n);
        ClimbFromNowhere(items, m - n);
      }
    }
  }

  /** On any items at all: true exactly when the new parent is the item or below it, or
      when the chain above the parent already loops. */
  method CreatesCycle(items: Items, id: string, parent: string) returns (cycle: bool)
    requires id != ""
    ensures cycle <==> ClimbsTo(items, parent, id) || !Rooted(items, parent)
  {
    var seen := {id};
    var current := parent;
    ghost var n: nat := 0;
    while current != ""
      invariant current == Climb(items, parent, n)
      invariant forall k | 0 <= k < n :: Climb(items, parent, k) !in {"", id}
      invariant seen == {id} + set k | 0 <= k < n :: Climb(items, parent, k)
      decreases items.Keys - seen
    {
      if current in seen {
        if current == id {
          assert ClimbsTo(items, parent, id);
        } else {
          ghost var j :| 0 <= j < n && Climb(items, parent, j) == current;
          forall m: nat ensures Climb(items, parent, m) != "" { LoopIsNotRooted(items, parent, j, n, m); }
        }
        return true;
      }
      seen := seen + {current};
      ClimbSplit(items, parent, n, 1);
      if current !in items {
        assert Climb(items, current, 1) == "";
        EndedChainMissed(items, parent, n + 1, id);
        return false;
      }
      assert Climb(items, current, 1) == items[current].parentId;
      current, n := items[current].parentId, n + 1;
    }
    EndedChainMissed(items, parent, n, id);
    return false;
  }

  // ---------------------------------------------------------------- load check

  predicate PersistedItem(key: string, item: Item) {
    && key == item.id && ValidId(item.id)
    && !Blank(item.name) && Utf8Size(item.name) <= MAX_NAME_BYTES
    && (item.parentId == "" || ValidId(item.parentId))
    && (match item.itemType
        case Workspace =>
          && item.root != "" && item.root[0] == '/' && '\0' !in item.root
          && Utf8Size(item.prompt) <= MAX_PROMPT_BYTES && |item.vars| <= MAX_VARS
          && |item.resourceIds| <= MAX_LINKS && |item.routineIds| <= MAX_LINKS
          && (forall k <- item.vars ::
                && !Blank(k) && Utf8Size(k) <= MAX_VAR_KEY_BYTES && '\0' !in k
                && Utf8Size(item.vars[k]) <= MAX_VAR_VALUE && '\0' !in item.vars[k])
        case Folder => item.root == "" && item.prompt == "" && item.vars == map[])
    && (forall id <- item.resourceIds + item.routineIds :: ValidId(id))
  }

  // ------------------------------------------------------------ the state file

  /** The digits behind the seconds, without trailing zeros. */
  function FractionDigits(n: nat, width: nat): (digits: nat)
    ensures digits <= width
  {
    if width == 0 || n % 10 != 0 then width else FractionDigits(n / 10, width - 1)
  }

  /** An instant in UTC between its quotes (time.RFC3339Nano). */
  function TimeSize(t: Time): (n: nat)
    ensures n <= 32
  {
    22 + (if t % 1_000_000_000 == 0 then 0 else 1 + FractionDigits(t % 1_000_000_000, 9))
  }

  /** One line of an item: indentation, name, colon, value, comma. */
  function FieldSize(name: nat, value: nat): nat {
    6 + (name + 2) + 2 + value + 2
  }

  function OptionalSize(name: nat, text: string): nat {
    if text == "" then 0 else FieldSize(name, TextSize(text))
  }

  function ListSize(name: nat, ids: set<string>): nat {
    if ids == {} then 0 else FieldSize(name, 8 + Total(map id | id in ids :: TextSize(id) + 10))
  }

  function VarsSize(vars: map<string, string>): nat {
    if vars == map[] then 0 else FieldSize(4, 8 + Total(map k | k in vars :: TextSize(k) + TextSize(vars[k]) + 12))
  }

  /** The lines of one item, with the comma behind it. */
  function EntrySize(key: string, item: Item): nat {
    4 + TextSize(key) + 4
    + FieldSize(2, TextSize(item.id)) + FieldSize(4, TextSize(item.name))
    + FieldSize(4, if item.itemType.Workspace? then 11 else 8)
    + OptionalSize(8, item.parentId) + OptionalSize(4, item.root) + OptionalSize(6, item.prompt)
    + VarsSize(item.vars) + ListSize(11, item.resourceIds) + ListSize(10, item.routineIds)
    + FieldSize(9, TimeSize(item.createdAt)) + FieldSize(9, TimeSize(item.updatedAt)) + 6
  }

  function Sizes(items: Items): map<string, nat> {
    map k | k in items :: EntrySize(k, items[k])
  }

  /** The envelope with the braces of a collection that is not empty, without the last comma. */
  const FRAME_BYTES := 78

  /** The file that encodeCollection makes of the items. */
  function EncodedSize(items: Items): nat {
    if items == map[] then FRAME_BYTES - 2 else FRAME_BYTES + Total(Sizes(items))
  }

  lemma SizesAfterPut(items: Items, key: string, item: Item)
    ensures Sizes(items[key := item]) == Sizes(items)[key := EntrySize(key, item)]
  {
  }

  /** What the file is still short enough for, with the item in place of the one it replaces. */
  predicate FitsBeside(items: Items, item: Item) {
    var replaced := if item.id in items then EntrySize(item.id, items[item.id]) else 0;
    FitsWith(Total(Sizes(items)), replaced, EntrySize(item.id, item))
  }

  predicate FitsWith(total: nat, replaced: nat, entry: nat) {
    FRAME_BYTES + total - replaced + entry <= MAX_STATE_BYTES
  }

  predicate Fits(items: Items) {
    EncodedSize(items) <= MAX_STATE_BYTES
  }

  lemma FitsAfterPutIff(items: Items, item: Item)
    ensures Fits(items[item.id := item]) <==> FitsBeside(items, item)
  {
    SizesAfterPut(items, item.id, item);
    TotalAfterPut(Sizes(items), item.id, EntrySize(item.id, item));
  }

  /** What a load accepts. */
  ghost predicate Loadable(items: Items) {
    && Fits(items)
    && WellFormed(items)
  }

  ghost predicate WellFormed(items: Items) {
    && |items| <= MAX_ITEMS
    && AllPersisted(items)
    && Forest(items)
  }

  predicate AllPersisted(items: Items) {
    forall key <- items :: PersistedItem(key, items[key])
  }

  lemma EmptyIdIsInvalid()
    ensures !ValidId("")
  {
  }

  /** The check run on every load accepts exactly the bounded, well-formed forests. */
  method ValidateLoadedItems(items: Items) returns (ok: bool)
    ensures ok <==> WellFormed(items)
  {
    if |items| > MAX_ITEMS { return false; }
    var rest := items.Keys;
    while rest != {}
      invariant rest <= items.Keys
      invariant forall key <- items.Keys - rest :: PersistedItem(key, items[key])
      decreases rest
    {
      var key :| key in rest;
      rest := rest - {key};
      if !PersistedItem(key, items[key]) { return false; }
    }
    EmptyIdIsInvalid();
    assert AllPersisted(items) by { assert forall key <- items :: key in items.Keys - rest; }
    assert "" in items ==> PersistedItem("", items[""]);
    ok := ValidateParents(items);
  }

  method ValidateParents(items: Items) returns (ok: bool)
    requires "" !in items
    ensures ok <==> Forest(items)
  {
    var rest := items.Keys;
    while rest != {}
      invariant rest <= items.Keys
      invariant forall key <- items.Keys - rest :: ParentIsAFolder(items, key) && Rooted(items, key)
      decreases rest
    {
      var key :| key in rest;
      rest := rest - {key};
      ok := ValidateParent(items, key);
      if !ok { return; }
    }
    assert forall key <- items :: key in items.Keys - rest;
    return true;
  }

  method ValidateParent(items: Items, key: string) returns (ok: bool)
    requires "" !in items && key in items
    ensures ok <==> ParentIsAFolder(items, key) && Rooted(items, key)
  {
    var parent := items[key].parentId;
    if parent != "" {
      if parent !in items || !items[parent].itemType.Folder? { return false; }
      var cycle := CreatesCycle(items, key, parent);
      if cycle {
        ParentLoopsUnrootTheItem(items, key);
        return false;
      }
    }
    RootedThroughParent(items, key);
    return true;
  }

  lemma RootedThroughParent(items: Items, id: string)
    requires id in items && id != "" && (items[id].parentId == "" || Rooted(items, items[id].parentId))
    ensures Rooted(items, id)
  {
    var parent := items[id].parentId;
    var n: nat :| (parent == "" && n == 0) || Climb(items, parent, n) == "";
    assert Climb(items, id, n + 1) == "";
  }

  lemma ParentLoopsUnrootTheItem(items: Items, id: string)
    requires id in items && id != "" && (ClimbsTo(items, items[id].parentId, id) || !Rooted(items, items[id].parentId))
    ensures !Rooted(items, id)
  {
    var parent := items[id].parentId;
    if n: nat :| Climb(items, id, n) == "" {
      assert Climb(items, parent, n - 1) == "";
      var j: nat :| Climb(items, parent, j) == id;
      SelfAncestorHasNoRoot(items, id, j + 1, n);
    }
  }

  lemma {:induction false} SelfAncestorHasNoRoot(items: Items, id: string, period: nat, n: nat)
    requires period > 0 && id != "" && Climb(items, id, period) == id && Climb(items, id, n) == ""
    ensures false
    decreases n
  {
    if n >= period {
      ClimbSplit(items, id, period, n - period);
      SelfAncestorHasNoRoot(items, id, period, n - period);
    } else {
      ClimbSplit(items, id, n, period - n);
      ClimbFromNowhere(items, period - n);
    }
  }

  // -------------------------------------------------------- reparenting, deleting

  /** Putting an item under a root or folder that is neither it nor below it. */
  lemma PutKeepsForest(items: Items, item: Item)
    requires Forest(items) && item.id != ""
    requires item.id in items ==> items[item.id].itemType == item.itemType
    requires item.parentId == "" || (item.parentId in items && items[item.parentId].itemType.Folder?)
    requires !ClimbsTo(items, item.parentId, item.id)
    ensures Forest(items[item.id := item])
  {
    var items' := items[item.id := item];
    forall id <- items'
      ensures Rooted(items', id)
    {
      if item.parentId == "" {
        assert Climb(items', "", 0) == "";
      } else {
        var n: nat :| Climb(items, item.parentId, n) == "";
        ClimbAvoids(items, item, item.parentId, n);
      }
      RootedThroughParent(items', item.id);
      if id != item.id {
        var n: nat :| Climb(items, id, n) == "";
        RootedAfterPut(items, item, id, n);
      }
    }
  }

  lemma {:induction false} ClimbAvoids(items: Items, item: Item, id: string, n: nat)
    requires item.id != "" && !ClimbsTo(items, id, item.id)
    ensures Climb(items[item.id := item], id, n) == Climb(items, id, n)
    decreases n
  {
    if n > 0 {
      assert Climb(items, id, 0) == id;
      forall m: nat ensures Climb(items, Next(items, id), m) != item.id { assert Climb(items, id, m + 1) != item.id; }
      ClimbAvoids(items, item, Next(items, id), n - 1);
    }
  }

  lemma {:induction false} RootedAfterPut(items: Items, item: Item, id: string, n: nat)
    requires Climb(items, id, n) == "" && Rooted(items[item.id := item], item.id)
    ensures Rooted(items[item.id := item], id)
    decreases n
  {
    var items' := items[item.id := item];
    if id == "" {
      assert Climb(items', id, 0) == "";
    } else if id != item.id {
      RootedAfterPut(items, item, Next(items, id), n - 1);
      var m: nat :| Climb(items', Next(items, id), m) == "";
      assert Climb(items', id, m + 1) == "";
    }
  }

  /** Everything a delete of `id` removes: the item and all its descendants. */
  ghost function Subtree(items: Items, id: string): set<string> {
    set x <- items | ClimbsTo(items, x, id)
  }

  lemma DeleteKeepsForest(items: Items, id: string)
    requires Forest(items)
    ensures Forest(items - Subtree(items, id))
  {
    var items' := items - Subtree(items, id);
    forall x <- items'
      ensures ParentIsAFolder(items', x) && Rooted(items', x)
    {
      var parent := items[x].parentId;
      if parent != "" && ClimbsTo(items, parent, id) {
        var n: nat :| Climb(items, parent, n) == id;
        assert Climb(items, x, n + 1) == id;
      }
      var n: nat :| Climb(items, x, n) == "";
      ClimbOutside(items, id, x, n);
    }
  }

  lemma {:induction false} ClimbOutside(items: Items, id: string, x: string, n: nat)
    requires !ClimbsTo(items, x, id)
    ensures Climb(items - Subtree(items, id), x, n) == Climb(items, x, n)
    decreases n
  {
    if n > 0 {
      var next := Next(items, x);
      forall m: nat
        ensures id == "" || Climb(items, next, m) != id
      {
        assert Climb(items, x, m + 1) == Climb(items, next, m);
      }
      ClimbOutside(items, id, next, n - 1);
    }
  }

  /** The fixpoint loop of a delete, whatever order each pass visits the items in. */
  method CollectSubtree(items: Items, id: string) returns (deleteSet: set<string>)
    requires "" !in items && id in items
    ensures deleteSet == Subtree(items, id)
  {
    deleteSet := {id};
    assert Climb(items, id, 0) == id;
    var changed := true;
    while changed
      invariant id in deleteSet && deleteSet <= Subtree(items, id)
      invariant !changed ==> forall x <- items :: items[x].parentId in deleteSet ==> x in deleteSet
      decreases items.Keys - deleteSet, changed
    {
      changed := false;
      ghost var before := deleteSet;
      var rest := items.Keys;
      while rest != {}
        invariant rest <= items.Keys && before <= deleteSet <= Subtree(items, id)
        invariant if changed then before < deleteSet else before == deleteSet
        invariant !changed ==> forall x <- items.Keys - rest :: items[x].parentId in deleteSet ==> x in deleteSet
        decreases rest
      {
        var child :| child in rest;
        rest := rest - {child};
        var parent := items[child].parentId;
        if parent in deleteSet && child !in deleteSet {
          var n: nat :| Climb(items, parent, n) == id;
          assert Climb(items, child, n + 1) == id;
          deleteSet := deleteSet + {child};
          changed := true;
        }
      }
    }
    forall x <- Subtree(items, id)
      ensures x in deleteSet
    {
      var n: nat :| Climb(items, x, n) == id;
      DescendantsFollow(items, id, deleteSet, x, n);
    }
  }

  lemma {:induction false} DescendantsFollow(items: Items, id: string, closed: set<string>, x: string, n: nat)
    requires id in closed && id != "" && "" !in closed
    requires forall y <- items :: items[y].parentId in closed ==> y in closed
    requires Climb(items, x, n) == id
    ensures x in closed
    decreases n
  {
    if n > 0 {
      DescendantsFollow(items, id, closed, Next(items, x), n - 1);
    }
  }

  // ------------------------------------------------------------------ manager

  datatype Request = Request(
    id: string, name: string, itemType: Option<ItemType>, parentId: string, root: string, prompt: string,
    vars: map<string, string>, resourceIds: seq<string>, routineIds: seq<string>)

  /** Trimmed, without blanks or repetitions. */
  function UniqueStrings(input: seq<string>): set<string> {
    set s <- input | TrimSpace(s) != "" :: TrimSpace(s)
  }

  /** The stored form of a request once its root, if any, has been resolved. */
  function Stored(request: Request, itemType: ItemType, name: string, root: string, createdAt: Time, now: Time): Item {
    match itemType
    case Workspace =>
      Item(request.id, name, itemType, request.parentId, root, request.prompt, request.vars,
           UniqueStrings(request.resourceIds), UniqueStrings(request.routineIds), createdAt, now)
    case Folder =>
      Item(request.id, name, itemType, request.parentId, "", "", map[],
           UniqueStrings(request.resourceIds), UniqueStrings(request.routineIds), createdAt, now)
  }

  predicate FolderExists(items: Items, parentId: string) {
    parentId == "" || (parentId in items && items[parentId].itemType.Folder?)
  }

  predicate KeyedTo(entry: MemoryEntry, ids: set<string>) {
    entry.workspaceLayer && entry.scope in ids
  }

  function MemoriesWithout(memories: map<string, MemoryEntry>, ids: set<string>): map<string, MemoryEntry> {
    map k | k in memories && !KeyedTo(memories[k], ids) :: memories[k]
  }

  function ArtifactsWithout(artifacts: map<string, Artifact>, ids: set<string>): map<string, Artifact> {
    map k | k in artifacts && artifacts[k].workspaceId !in ids :: artifacts[k]
  }

  method DropMemories(memories: map<string, MemoryEntry>, ids: set<string>) returns (kept: map<string, MemoryEntry>)
    ensures kept == MemoriesWithout(memories, ids)
  {
    kept := memories;
    var rest := memories.Keys;
    while rest != {}
      invariant rest <= memories.Keys
      invariant kept == map k | k in memories && (k in rest || !KeyedTo(memories[k], ids)) :: memories[k]
      decreases rest
    {
      var key :| key in rest;
      rest := rest - {key};
      if KeyedTo(memories[key], ids) { kept := kept - {key}; }
    }
  }

  method DropArtifacts(artifacts: map<string, Artifact>, ids: set<string>) returns (kept: map<string, Artifact>)
    ensures kept == ArtifactsWithout(artifacts, ids)
  {
    kept := artifacts;
    var rest := artifacts.Keys;
    while rest != {}
      invariant rest <= artifacts.Keys
      invariant kept == map k | k in artifacts && (k in rest || artifacts[k].workspaceId !in ids) :: artifacts[k]
      decreases rest
    {
      var key :| key in rest;
      rest := rest - {key};
      if artifacts[key].workspaceId in ids { kept := kept - {key}; }
    }
  }

  class Manager {
    var items: Items
    var memories: map<string, MemoryEntry>
    var artifacts: map<string, Artifact>

    constructor ()
      ensures Forest(items) && memories == map[] && artifacts == map[]
    {
      items, memories, artifacts := map[], map[], map[];
    }

    /** A load, a save or a resolved root may fail for reasons outside the hierarchy. */
    method Attempt() returns (ok: bool)
    {
      ok := *;
    }

    method ResolveRoot(root: string) returns (resolved: Option<string>)
    {
      resolved := *;
    }

    /** `failed` says that the files could not be read. */
    method Load() returns (ok: bool, ghost failed: bool)
      ensures ok <==> !failed && Loadable(items)
    {
      ok := Attempt();
      failed := !ok;
      if !ok { return; }
      ok := Fits(items);
      if ok { ok := ValidateLoadedItems(items); }
    }

    /** Unless a file operation fails, a request is carried out exactly when it is accepted;
        the store that is left can be loaded again exactly when there was room for one more
        item, in number and in bytes, and the stored item is within the bounds. */
    method Create(request: Request, now: Time) returns (created: Option<Item>, ghost failed: bool)
      modifies this`items
      ensures created.Some? <==> AcceptsCreate(old(items), request) && !failed
      ensures created.None? ==> items == old(items)
      ensures created.Some? ==>
        && Forest(items) && items == old(items)[request.id := created.value]
        && created.value == Stored(request, request.itemType.value, request.name, created.value.root, now, now)
      ensures created.Some? ==>
        (Loadable(items) <==>
          && |old(items)| < MAX_ITEMS && PersistedItem(request.id, created.value)
          && FitsBeside(old(items), created.value))
    {
      failed := false;
      if !ValidId(request.id) || Blank(request.name) || request.itemType.None? { return None, failed; }
      if request.parentId != "" && !ValidId(request.parentId) { return None, failed; }
      EmptyIdIsInvalid();
      var ok;
      ok, failed := Load();
      if !ok || request.id in items || !FolderExists(items, request.parentId) { return None, failed; }
      created := AddItem(request, now);
      failed := created.None?;
      if created.Some? { CreateStaysLoadableIff(old(items), created.value); }
    }

    method AddItem(request: Request, now: Time) returns (created: Option<Item>)
      requires Forest(items) && request.id !in items && request.id != "" && request.itemType.Some?
      requires FolderExists(items, request.parentId)
      modifies this`items
      ensures created.None? ==> items == old(items)
      ensures created.Some? ==>
        && Forest(items) && items == old(items)[request.id := created.value]
        && created.value == Stored(request, request.itemType.value, request.name, created.value.root, now, now)
    {
      var root := "";
      if request.itemType.value.Workspace? {
        var resolved := ResolveRoot(request.root);
        if resolved.None? { return None; }
        root := resolved.value;
      }
      var item := Stored(request, request.itemType.value, request.name, root, now, now);
      NobodyClimbsToANewId(items, request.parentId, request.id);
      PutKeepsForest(items, item);
      var ok := Attempt();
      if !ok { return None; }
      items := items[request.id := item];
      return Some(item);
    }

    /** The same for an update, which keeps the item's type and time of creation; here the
        number of items plays no part, but how much longer the item gets does. */
    method Update(request: Request, now: Time) returns (updated: Option<Item>, ghost failed: bool)
      modifies this`items
      ensures updated.Some? <==> AcceptsUpdate(old(items), request) && !failed
      ensures updated.None? ==> items == old(items)
      ensures updated.Some? ==>
        && Forest(items) && items == old(items)[request.id := updated.value]
        && Updates(old(items)[request.id], request, updated.value, now)
      ensures updated.Some? ==>
        (Loadable(items) <==> PersistedItem(request.id, updated.value) && FitsBeside(old(items), updated.value))
    {
      updated := None;
      var accepted;
      accepted, failed := CheckUpdate(request);
      if !accepted { return; }
      updated := ReplaceItem(request, now);
      failed := updated.None?;
      if updated.Some? { UpdateStaysLoadableIff(old(items), updated.value); }
    }

    method CheckUpdate(request: Request) returns (accepted: bool, ghost failed: bool)
      ensures accepted <==> AcceptsUpdate(items, request) && !failed
    {
      accepted, failed := Load();
      if !accepted { return; }
      if request.id !in items || (request.itemType.Some? && request.itemType.value != items[request.id].itemType) {
        return false, failed;
      }
      if request.parentId == "" {
        NobodyIsAboveARoot(items, request.id);
        return;
      }
      if !FolderExists(items, request.parentId) { return false, failed; }
      var cycle := CreatesCycle(items, request.id, request.parentId);
      assert Rooted(items, request.parentId);
      accepted := !cycle;
    }

    method ReplaceItem(request: Request, now: Time) returns (updated: Option<Item>)
      requires Forest(items) && request.id in items
      requires FolderExists(items, request.parentId) && !ClimbsTo(items, request.parentId, request.id)
      modifies this`items
      ensures updated.None? ==> items == old(items)
      ensures updated.Some? ==>
        && Forest(items) && items == old(items)[request.id := updated.value]
        && Updates(old(items)[request.id], request, updated.value, now)
    {
      var previous := items[request.id];
      var name := if Blank(request.name) then previous.name else request.name;
      var root := "";
      if previous.itemType.Workspace? {
        var resolved := ResolveRoot(if request.root == "" then previous.root else request.root);
        if resolved.None? { return None; }
        root := resolved.value;
      }
      var item := Stored(request, previous.itemType, name, root, previous.createdAt, now);
      PutKeepsForest(items, item);
      var ok := Attempt();
      if !ok { return None; }
      items := items[request.id := item];
      return Some(item);
    }

    /** One commit removes the subtree and everything keyed to it, or nothing changes; after
        a removal the store can be loaded again. */
    method Delete(id: string) returns (ok: bool)
      modifies this
      ensures ok ==> Loadable(old(items)) && Loadable(items)
      ensures ok && id in old(items) ==>
        && items == old(items) - Subtree(old(items), id)
        && memories == MemoriesWithout(old(memories), Subtree(old(items), id))
        && artifacts == ArtifactsWithout(old(artifacts), Subtree(old(items), id))
      ensures !ok || id !in old(items) ==>
        items == old(items) && memories == old(memories) && artifacts == old(artifacts)
    {
      ghost var failed;
      ok, failed := Load();
      if !ok || id !in items { return; }
      ok := RemoveSubtree(id);
      if ok { FewerStayLoadable(old(items), items); }
    }

    method RemoveSubtree(id: string) returns (ok: bool)
      requires Forest(items) && id in items
      modifies this
      ensures Forest(items)
      ensures ok ==>
        && items == old(items) - Subtree(old(items), id)
        && memories == MemoriesWithout(old(memories), Subtree(old(items), id))
        && artifacts == ArtifactsWithout(old(artifacts), Subtree(old(items), id))
      ensures !ok ==> items == old(items) && memories == old(memories) && artifacts == old(artifacts)
    {
      var deleteSet := CollectSubtree(items, id);
      DeleteKeepsForest(items, id);
      var keptMemories := DropMemories(memories, deleteSet);
      var keptArtifacts := DropArtifacts(artifacts, deleteSet);
      ok := Attempt();
      if !ok { return; }
      items, memories, artifacts := items - deleteSet, keptMemories, keptArtifacts;
    }
  }

  lemma NobodyClimbsToANewId(items: Items, parent: string, id: string)
    requires Forest(items) && id !in items && (parent == "" || parent in items)
    ensures !ClimbsTo(items, parent, id)
  {
    forall n: nat ensures id == "" || Climb(items, parent, n) != id { ClimbStaysInside(items, parent, n); }
  }

  lemma {:induction false} ClimbStaysInside(items: Items, id: string, n: nat)
    requires Forest(items) && (id == "" || id in items)
    ensures Climb(items, id, n) == "" || Climb(items, id, n) in items
    decreases n
  {
    if n > 0 {
      assert id in items ==> ParentIsAFolder(items, id);
      ClimbStaysInside(items, Next(items, id), n - 1);
    }
  }

  /** What Create looks at, apart from the files and the workspace root. */
  ghost predicate AcceptsCreate(items: Items, request: Request) {
    && ValidId(request.id) && !Blank(request.name) && request.itemType.Some?
    && (request.parentId == "" || ValidId(request.parentId))
    && Loadable(items) && request.id !in items && FolderExists(items, request.parentId)
  }

  ghost predicate AcceptsUpdate(items: Items, request: Request) {
    && Loadable(items) && request.id in items
    && (request.itemType.Some? ==> request.itemType.value == items[request.id].itemType)
    && FolderExists(items, request.parentId) && !ClimbsTo(items, request.parentId, request.id)
  }

  /** A blank name keeps the old one; type and time of creation never change. */
  predicate Updates(previous: Item, request: Request, updated: Item, now: Time) {
    updated == Stored(request, previous.itemType, if Blank(request.name) then previous.name else request.name,
                      updated.root,
                      previous.createdAt, now)
  }

  lemma NobodyIsAboveARoot(items: Items, id: string)
    ensures !ClimbsTo(items, "", id)
  {
    forall n: nat ensures Climb(items, "", n) == "" { ClimbFromNowhere(items, n); }
  }

  lemma FewerStayLoadable(items: Items, kept: Items)
    requires Loadable(items) && Forest(kept) && kept.Keys <= items.Keys && forall key <- kept :: kept[key] == items[key]
    ensures Loadable(kept)
  {
    Cardinality(kept.Keys, items.Keys);
    TotalOfFewer(Sizes(items), Sizes(kept));
  }

  lemma {:induction false} Cardinality(a: set<string>, b: set<string>)
    requires a <= b
    ensures |a| <= |b|
  {
    if a != {} {
      var x :| x in a;
      Cardinality(a - {x}, b - {x});
    }
  }

  /** A store that Create has written can be loaded again exactly when there was room for
      one more item, the stored item is within the load bounds and the file is still short
      enough; Create checks none of this, so either failure locks every later operation out. */
  lemma CreateStaysLoadableIff(items: Items, item: Item)
    requires Loadable(items) && item.id !in items && item.id != "" && FolderExists(items, item.parentId)
    ensures Loadable(items[item.id := item]) <==>
      && |items| < MAX_ITEMS && PersistedItem(item.id, item) && FitsBeside(items, item)
  {
    FitsAfterPutIff(items, item);
    WellFormedAfterCreateIff(items, item);
  }

  lemma WellFormedAfterCreateIff(items: Items, item: Item)
    requires WellFormed(items) && item.id !in items && item.id != "" && FolderExists(items, item.parentId)
    ensures WellFormed(items[item.id := item]) <==> |items| < MAX_ITEMS && PersistedItem(item.id, item)
  {
    var items' := items[item.id := item];
    assert items'.Keys == items.Keys + {item.id};
    assert |items'.Keys| == |items.Keys| + 1;
    NobodyClimbsToANewId(items, item.parentId, item.id);
    PutKeepsForest(items, item);
    PersistedAfterPut(items, item);
  }

  /** For an update only what is stored in place of the old item can lock the store. */
  lemma UpdateStaysLoadableIff(items: Items, item: Item)
    requires Loadable(items) && item.id in items && item.itemType == items[item.id].itemType
    requires FolderExists(items, item.parentId) && !ClimbsTo(items, item.parentId, item.id)
    ensures Loadable(items[item.id := item]) <==> PersistedItem(item.id, item) && FitsBeside(items, item)
  {
    FitsAfterPutIff(items, item);
    WellFormedAfterUpdateIff(items, item);
  }

  lemma WellFormedAfterUpdateIff(items: Items, item: Item)
    requires WellFormed(items) && item.id in items && item.itemType == items[item.id].itemType
    requires FolderExists(items, item.parentId) && !ClimbsTo(items, item.parentId, item.id)
    ensures WellFormed(items[item.id := item]) <==> PersistedItem(item.id, item)
  {
    var items' := items[item.id := item];
    assert items'.Keys == items.Keys && |items'.Keys| == |items.Keys|;
    PutKeepsForest(items, item);
    PersistedAfterPut(items, item);
  }

  lemma PersistedAfterPut(items: Items, item: Item)
    requires AllPersisted(items)
    ensures AllPersisted(items[item.id := item]) <==> PersistedItem(item.id, item)
  {
    var items' := items[item.id := item];
    assert items'[item.id] == item;
    forall key <- items | key != item.id ensures PersistedItem(key, items[key]) && items'[key] == items[key] { }
  }

  /** A folder that names a resource with a slash in its id is created, and from then on no
      request of any kind is accepted. */
  lemma AnAcceptedFolderLocksTheStore(items: Items, request: Request, now: Time)
    requires AcceptsCreate(items, request) && request.itemType == Some(Folder) && "a/b" in request.resourceIds
    ensures var after := items[request.id := Stored(request, Folder, request.name, "", now, now)];
      !Loadable(after) && forall next :: !AcceptsCreate(after, next) && !AcceptsUpdate(after, next)
  {
    SlashIsNoId();
    var item := Stored(request, Folder, request.name, "", now, now);
    assert "a/b" in item.resourceIds;
    assert items[request.id := item][request.id] == item;
  }

  lemma SlashIsNoId()
    ensures TrimSpace("a/b") == "a/b" && !ValidId("a/b")
  {
    assert "a/b"[0] == 'a' && "a/b"[2] == 'b' && "a/b"[1] in "a/b";
    assert !IsSpace('a') && !IsSpace('b');
    assert TrimSpace("a/b") == "a/b";
  }

  /** There are such requests: this one is accepted by the empty store. */
  lemma SuchAFolder() returns (request: Request)
    ensures AcceptsCreate(map[], request) && request.itemType == Some(Folder) && "a/b" in request.resourceIds
  {
    request := Request("f", "f", Some(Folder), "", "", "", map[], ["a/b"], []);
    OneLetter("f");
    NoItemsAreLoadable();
  }

  lemma NoItemsAreLoadable()
    ensures Loadable(map[])
  {
    assert EncodedSize(map[]) == FRAME_BYTES - 2;
  }

  /** An item with short texts and no links. */
  predicate Plain(item: Item) {
    && item.vars == map[] && item.resourceIds == {} && item.routineIds == {}
    && |item.id| <= 2 && |item.name| <= 2 && |item.parentId| <= 2 && |item.root| <= 2
  }

  lemma PlainEntrySize(item: Item)
    requires Plain(item)
    ensures OptionalSize(6, item.prompt) <= EntrySize(item.id, item) <= OptionalSize(6, item.prompt) + 400
  {
    var texts := [item.id, item.name, item.parentId, item.root];
    forall t <- texts ensures TextSize(t) <= 14 { SizesOfText(t); }
    assert item.id in texts && item.name in texts && item.parentId in texts && item.root in texts;
  }

  lemma OneFolderIsLoadable(folder: Item)
    requires Plain(folder) && folder.itemType.Folder? && folder.parentId == "" && folder.prompt == ""
    requires PersistedItem(folder.id, folder)
    ensures Loadable(map[folder.id := folder])
  {
    NoItemsAreLoadable();
    EmptyIdIsInvalid();
    PlainEntrySize(folder);
    assert Sizes(map[]) == map[];
    CreateStaysLoadableIff(map[], folder);
    assert map[][folder.id := folder] == map[folder.id := folder];
  }

  /** And this update is accepted by the store that holds one sound folder. */
  lemma AnAcceptedUpdateLocksTheStore(now: Time) returns (items: Items, request: Request)
    ensures AcceptsUpdate(items, request)
    ensures !Loadable(items[request.id := Stored(request, Folder, "f", "", now, now)])
  {
    OneLetter("f");
    SlashIsNoId();
    var folder := Item("f", "f", Folder, "", "", "", map[], {}, {}, now, now);
    items := map["f" := folder];
    OneFolderIsLoadable(folder);
    request := Request("f", "f", None, "", "", "", map[], ["a/b"], []);
    NobodyIsAboveARoot(items, "f");
    var item := Stored(request, Folder, "f", "", now, now);
    assert "a/b" in item.resourceIds;
    assert !PersistedItem("f", item);
    assert items["f" := item]["f"] == item;
  }

  lemma OneLetter(letter: string)
    requires letter == "f"
    ensures ValidId(letter) && !Blank(letter)
  {
    assert !IsSpace('f');
    NothingToTrim(letter);
  }

  /** Lengths are counted in bytes: a name of fewer letters than the limit has bytes may be
      accepted and be too long for the loader. */
  lemma AnAcceptedNameLocksTheStore(now: Time) returns (request: Request)
    ensures AcceptsCreate(map[], request) && |request.name| < MAX_NAME_BYTES
    ensures !Loadable(map[request.id := Stored(request, Folder, request.name, "", now, now)])
  {
    var name := Repeated('\U{E9}', 40_000);
    request := Request("f", name, Some(Folder), "", "", "", map[], [], []);
    OneLetter("f");
    NoItemsAreLoadable();
    RepeatedUtf8Size('\U{E9}', 40_000);
    assert name[0] in name && !IsSpace(name[0]);
    var item := Stored(request, Folder, name, "", now, now);
    assert !PersistedItem("f", item);
    assert map["f" := item]["f"] == item;
  }

  // ------------------------------------------------------------- an oversized store

  /** A workspace with as long a prompt as is allowed, of a character that takes six bytes. */
  function Wordy(n: nat, now: Time): Item {
    Item(Decimal(n), Decimal(n), Workspace, "", "/", Repeated('<', MAX_PROMPT_BYTES), map[], {}, {}, now, now)
  }

  const WORDY_BYTES := 6 * MAX_PROMPT_BYTES

  function Wordies(n: nat, now: Time): Items {
    if n == 0 then map[] else Wordies(n - 1, now)[Decimal(n) := Wordy(n, now)]
  }

  lemma ShortNumber(n: nat)
    requires n < 100
    ensures |Decimal(n)| <= 2 && ValidId(Decimal(n)) && !Blank(Decimal(n)) && Utf8Size(Decimal(n)) <= 8
  {
    DecimalHasDigits(n);
    assert forall c | '0' <= c <= '9' :: !IsSpace(c);
    NothingToTrim(Decimal(n));
    SizesOfText(Decimal(n));
  }

  lemma WordyPromptSize()
    ensures OptionalSize(6, Repeated('<', MAX_PROMPT_BYTES)) == WORDY_BYTES + 20
  {
    RepeatedEscapedSize('<', MAX_PROMPT_BYTES);
  }

  lemma WordyEntrySize(n: nat, now: Time)
    requires n < 100
    ensures WORDY_BYTES <= EntrySize(Decimal(n), Wordy(n, now)) <= WORDY_BYTES + 500
  {
    var item := Wordy(n, now);
    assert Plain(item) by { ShortNumber(n); }
    assert OptionalSize(6, item.prompt) == WORDY_BYTES + 20 by { WordyPromptSize(); }
    PlainEntrySize(item);
  }

  lemma WordyIsPersisted(n: nat, now: Time)
    requires n < 100
    ensures PersistedItem(Decimal(n), Wordy(n, now))
  {
    ShortNumber(n);
    RepeatedUtf8Size('<', MAX_PROMPT_BYTES);
  }

  ghost predicate IsWordy(key: string, item: Item, n: nat, now: Time) {
    exists i | 1 <= i <= n :: key == Decimal(i) && item == Wordy(i, now)
  }

  lemma {:induction false} WordyKeys(n: nat, now: Time)
    ensures |Wordies(n, now)| == n
    ensures forall key <- Wordies(n, now) :: IsWordy(key, Wordies(n, now)[key], n, now)
  {
    if n > 0 {
      WordyKeys(n - 1, now);
      var items, fewer := Wordies(n, now), Wordies(n - 1, now);
      NewKey(n - 1, now, n);
      assert items.Keys == fewer.Keys + {Decimal(n)} && |items| == |items.Keys| && |fewer| == |fewer.Keys|;
      assert items[Decimal(n)] == Wordy(n, now);
    }
  }

  lemma NewKey(n: nat, now: Time, m: nat)
    requires n < m
    requires forall key <- Wordies(n, now) :: IsWordy(key, Wordies(n, now)[key], n, now)
    ensures Decimal(m) !in Wordies(n, now)
  {
    forall i | 1 <= i <= n ensures Decimal(i) != Decimal(m) {
      if Decimal(i) == Decimal(m) { DecimalIsInjective(i, m); }
    }
  }

  lemma WordySizes(n: nat, now: Time)
    requires n < 100
    ensures |Wordies(n, now)| == n && Decimal(n + 1) !in Wordies(n, now)
    ensures n * WORDY_BYTES <= Total(Sizes(Wordies(n, now))) <= n * (WORDY_BYTES + 500)
  {
    var items := Wordies(n, now);
    WordyKeys(n, now);
    NewKey(n, now, n + 1);
    forall key <- items ensures WORDY_BYTES <= EntrySize(key, items[key]) <= WORDY_BYTES + 500 {
      assert IsWordy(key, items[key], n, now);
      var i :| 1 <= i <= n && key == Decimal(i) && items[key] == Wordy(i, now);
      WordyEntrySize(i, now);
    }
    SizesBetween(items, WORDY_BYTES, WORDY_BYTES + 500);
  }

  lemma SizesBetween(items: Items, low: nat, high: nat)
    requires forall key <- items :: low <= EntrySize(key, items[key]) <= high
    ensures |items| * low <= Total(Sizes(items)) <= |items| * high
  {
    assert Sizes(items).Keys == items.Keys;
    assert |Sizes(items)| == |Sizes(items).Keys| && |items| == |items.Keys|;
    TotalBetween(Sizes(items), |items|, low, high);
  }

  /** Ten of them fit into the file, and no more. */
  lemma TenFit(total: nat, entry: nat, n: nat)
    requires n < 99 && n * WORDY_BYTES <= total <= n * (WORDY_BYTES + 500) && WORDY_BYTES <= entry <= WORDY_BYTES + 500
    ensures FitsWith(total, 0, entry) <==> n < 10
  {
  }

  lemma WordyFitsIff(items: Items, n: nat, now: Time)
    requires n < 99 && Decimal(n + 1) !in items
    requires n * WORDY_BYTES <= Total(Sizes(items)) <= n * (WORDY_BYTES + 500)
    ensures FitsBeside(items, Wordy(n + 1, now)) <==> n < 10
  {
    var item := Wordy(n + 1, now);
    assert item.id == Decimal(n + 1);
    var total, entry := Total(Sizes(items)), EntrySize(item.id, item);
    assert WORDY_BYTES <= entry <= WORDY_BYTES + 500 by { WordyEntrySize(n + 1, now); }
    assert FitsBeside(items, item) <==> FitsWith(total, 0, entry);
    TenFit(total, entry, n);
  }

  lemma OneWordyMore(items: Items, n: nat, now: Time)
    requires Loadable(items) && n < 99 && |items| < MAX_ITEMS && Decimal(n + 1) !in items
    ensures Loadable(items[Decimal(n + 1) := Wordy(n + 1, now)]) <==> FitsBeside(items, Wordy(n + 1, now))
  {
    ShortNumber(n + 1);
    EmptyIdIsInvalid();
    WordyIsPersisted(n + 1, now);
    CreateStaysLoadableIff(items, Wordy(n + 1, now));
  }

  lemma {:induction false} WordiesAreLoadable(n: nat, now: Time)
    requires n <= 11
    ensures Loadable(Wordies(n, now)) <==> n <= 10
  {
    if n == 0 {
      NoItemsAreLoadable();
    } else {
      WordiesAreLoadable(n - 1, now);
      WordySizes(n - 1, now);
      WordyFitsIff(Wordies(n - 1, now), n - 1, now);
      OneWordyMore(Wordies(n - 1, now), n - 1, now);
    }
  }

  /** Ten sound workspaces load; an eleventh, as sound, is accepted and makes the file longer
      than the loader reads. */
  lemma AnAcceptedWorkspaceOutgrowsTheFile(now: Time) returns (items: Items, request: Request)
    ensures |items| == 10 && AcceptsCreate(items, request) && request.itemType == Some(Workspace)
    ensures var item := Stored(request, Workspace, request.name, "/", now, now);
      PersistedItem(item.id, item) && !Loadable(items[item.id := item])
  {
    items := Wordies(10, now);
    WordiesAreLoadable(10, now);
    WordiesAreLoadable(11, now);
    WordySizes(10, now);
    WordyIsPersisted(11, now);
    ShortNumber(11);
    var prompt := Repeated('<', MAX_PROMPT_BYTES);
    request := Request(Decimal(11), Decimal(11), Some(Workspace), "", "/", prompt, map[], [], []);
    NoLinks();
    assert Stored(request, Workspace, request.name, "/", now, now) == Wordy(11, now);
  }

  lemma NoLinks()
    ensures UniqueStrings([]) == {}
  {
  }
}
