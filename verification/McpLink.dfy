/** Linking clients that keep their servers in a JSON file to the router
    (internal/mcplink/manager.go). */
module McpLink {
  import opened Wrappers
  import opened Saga
  import Text

  datatype Json =
    | Null
    | Boolean(value: bool)
    | Number(text: string)
    | Str(text: string)
    | Array(items: seq<Json>)
    | Object(fields: map<string, Json>)

  const ROUTER := "agentstack-router"
  const SERVERS := "mcpServers"
  const MAX_CONFIG_BYTES := 4 * 1024 * 1024

  /** What is taken from the platform: case mapping, path cleaning, encoding and decoding. */
  datatype Platform = Platform(
    lower: string -> string,
    clean: string -> string,
    encode: Json -> string,
    decode: string -> Option<Json>)

  datatype Registration = Registration(command: string, args: seq<string>, unsafeExtras: bool)
  datatype Mode = Link | Unlink
  datatype Action = Create | Update | Noop | Remove | Conflict

  // ------------------------------------------------------------- registrations

  function WithSlashes(s: string): (r: string)
    ensures |r| == |s| && '\\' !in r
    ensures forall i | 0 <= i < |s| :: r[i] == if s[i] == '\\' then '/' else s[i]
  {
    if s == "" then "" else [if s[0] == '\\' then '/' else s[0]] + WithSlashes(s[1..])
  }

  function LastComponent(path: string): (r: string)
    ensures '/' !in r
  {
    if path == "" || path[|path| - 1] == '/' then ""
    else LastComponent(path[..|path| - 1]) + [path[|path| - 1]]
  }

  predicate IsSlash(c: char) {
    c == '/'
  }

  /** filepath.Base. */
  function Base(path: string): string {
    var stripped := Text.TrimRightBy(path, IsSlash);
    if path == "" then "." else if stripped == "" then "/" else LastComponent(stripped)
  }

  function Strings(items: seq<Json>): Option<seq<string>> {
    if items == [] then Some([])
    else if !items[0].Str? then None
    else
      var rest := Strings(items[1..]);
      if rest.None? then None else Some([items[0].text] + rest.value)
  }

  predicate SafeKey(key: string, value: Json, lower: string -> string) {
    || lower(key) in {"command", "args", "type", "name", "enabled", "status"}
    || (lower(key) in {"env", "environment"} && value.Null?)
  }

  /** parseRegistration on a decoded object. */
  function Parse(fields: map<string, Json>, lower: string -> string): Option<Registration> {
    if "command" !in fields || !fields["command"].Str? || fields["command"].text == "" then None
    else
      var args := if "args" in fields && fields["args"].Array? then Strings(fields["args"].items) else Some([]);
      if args.None? then None
      else Some(Registration(fields["command"].text, args.value, exists k <- fields :: !SafeKey(k, fields[k], lower)))
  }

  function Expected(command: string, config: string): map<string, Json> {
    map["command" := Str(command), "args" := Array([Str("mcp-router"), Str("--config"), Str(config)])]
  }

  function Normalize(s: string, p: Platform): string {
    p.lower(p.clean(WithSlashes(Text.TrimSpace(s))))
  }

  function NormalizeArg(s: string, p: Platform): string {
    if '\\' in s || '/' in s then Normalize(s, p) else p.lower(Text.TrimSpace(s))
  }

  predicate Equivalent(a: Registration, b: Registration, p: Platform) {
    && !a.unsafeExtras && !b.unsafeExtras
    && Normalize(a.command, p) == Normalize(b.command, p)
    && |a.args| == |b.args|
    && forall i | 0 <= i < |a.args| :: NormalizeArg(a.args[i], p) == NormalizeArg(b.args[i], p)
  }

  predicate Owned(r: Registration, p: Platform) {
    && !r.unsafeExtras && |r.args| == 3
    && p.lower(r.args[0]) == p.lower("mcp-router") && r.args[1] == "--config" && Text.TrimSpace(r.args[2]) != ""
    && p.lower(Base(WithSlashes(r.command))) in {"agentstack", "agentstack.exe"}
  }

  predicate EntryOwned(entry: Json, p: Platform) {
    entry.Object? && Parse(entry.fields, p.lower).Some? && Owned(Parse(entry.fields, p.lower).value, p)
  }

  predicate EntryEquivalent(entry: Json, expected: map<string, Json>, p: Platform) {
    && entry.Object?
    && Parse(entry.fields, p.lower).Some? && Parse(expected, p.lower).Some?
    && Equivalent(Parse(entry.fields, p.lower).value, Parse(expected, p.lower).value, p)
  }

  /** The case mapping leaves the two keys of a registration alone. */
  predicate KeepsKeys(lower: string -> string) {
    lower("command") == "command" && lower("args") == "args"
  }

  lemma ParseExpected(command: string, config: string, lower: string -> string)
    requires KeepsKeys(lower)
    ensures Parse(Expected(command, config), lower) ==
      if command == "" then None else Some(Registration(command, ["mcp-router", "--config", config], false))
  {
    StringsOf(["mcp-router", "--config", config], [Str("mcp-router"), Str("--config"), Str(config)]);
  }

  lemma {:induction false} StringsOf(texts: seq<string>, items: seq<Json>)
    requires |items| == |texts| && forall i | 0 <= i < |items| :: items[i] == Str(texts[i])
    ensures Strings(items) == Some(texts)
  {
    if items != [] {
      StringsOf(texts[1..], items[1..]);
      assert texts == [texts[0]] + texts[1..];
    }
  }

  lemma ExpectedIsEquivalent(command: string, config: string, p: Platform)
    requires KeepsKeys(p.lower) && command != ""
    ensures EntryEquivalent(Object(Expected(command, config)), Expected(command, config), p)
  {
    ParseExpected(command, config, p.lower);
  }

  // ------------------------------------------------------------------ documents

  /** The decision and the document it makes.  A file whose whole content is `null` makes
      the source assign into a nil map, which panics. */
  datatype Change = Rejected | Panics | Changed(action: Action, document: Json)

  function Build(mode: Mode, root: Option<Json>, expected: map<string, Json>, p: Platform): Change {
    match root
    case Some(Null) => Panics
    case None => BuildIn(mode, map[], expected, p)
    case Some(Object(fields)) => BuildIn(mode, fields, expected, p)
    case _ => Rejected
  }

  function BuildIn(mode: Mode, root: map<string, Json>, expected: map<string, Json>, p: Platform): Change {
    if SERVERS in root && !root[SERVERS].Object? then Rejected
    else
      var servers := ServersOf(root);
      var (action, servers') := Decide(mode, servers, expected, p);
      Changed(action, Object(root[SERVERS := Object(servers')]))
  }

  function ServersOf(root: map<string, Json>): map<string, Json> {
    if SERVERS in root && root[SERVERS].Object? then root[SERVERS].fields else map[]
  }

  function Decide(mode: Mode, servers: map<string, Json>, expected: map<string, Json>, p: Platform)
    : (Action, map<string, Json>)
  {
    match mode
    case Link =>
      if ROUTER !in servers then (Create, servers[ROUTER := Object(expected)])
      else if EntryEquivalent(servers[ROUTER], expected, p) then (Noop, servers)
      else if EntryOwned(servers[ROUTER], p) then (Update, servers[ROUTER := Object(expected)])
      else (Conflict, servers)
    case Unlink =>
      if ROUTER !in servers then (Noop, servers)
      else if EntryOwned(servers[ROUTER], p) then (Remove, servers - {ROUTER})
      else (Conflict, servers)
  }

  /** Whatever the decision, only the router's own entry can differ. */
  lemma OnlyOwnEntryChanges(mode: Mode, root: Option<Json>, expected: map<string, Json>, p: Platform)
    requires Build(mode, root, expected, p).Changed?
    ensures root.None? || root.value.Object?
    ensures var before := if root.Some? then root.value.fields else map[];
      var change := Build(mode, root, expected, p);
      && change.document.Object? && SERVERS in change.document.fields && change.document.fields[SERVERS].Object?
      && change.document.fields - {SERVERS} == before - {SERVERS}
      && ServersOf(change.document.fields) - {ROUTER} == ServersOf(before) - {ROUTER}
      && (change.action in {Noop, Conflict} ==> ServersOf(change.document.fields) == ServersOf(before))
  {
    var before := if root.Some? then root.value.fields else map[];
    DecidesOnOwnEntry(mode, ServersOf(before), expected, p);
    PutOnly(before, SERVERS, Object(Decide(mode, ServersOf(before), expected, p).1));
  }

  lemma DecidesOnOwnEntry(mode: Mode, servers: map<string, Json>, expected: map<string, Json>, p: Platform)
    ensures var (action, servers') := Decide(mode, servers, expected, p);
      servers' - {ROUTER} == servers - {ROUTER} && (action in {Noop, Conflict} ==> servers' == servers)
  {
  }

  lemma PutOnly(fields: map<string, Json>, key: string, value: Json)
    ensures fields[key := value] - {key} == fields - {key}
  {
  }

  /** A document the source takes to be an object with an object of servers. */
  predicate Linkable(root: Option<Json>) {
    match root
    case None => true
    case Some(Object(fields)) => SERVERS in fields ==> fields[SERVERS].Object?
    case _ => false
  }

  /** The entry that linking writes is one that unlinking will take for its own. */
  predicate OwnsItsEntry(command: string, config: string, p: Platform) {
    && command != "" && Text.TrimSpace(config) != ""
    && p.lower(Base(WithSlashes(command))) in {"agentstack", "agentstack.exe"}
  }

  lemma ExpectedIsOwned(command: string, config: string, p: Platform)
    requires KeepsKeys(p.lower)
    ensures EntryOwned(Object(Expected(command, config)), p) <==> OwnsItsEntry(command, config, p)
  {
    ParseExpected(command, config, p.lower);
  }

  /** Linking again does nothing. */
  lemma LinkingIsIdempotent(root: Option<Json>, command: string, config: string, p: Platform)
    requires KeepsKeys(p.lower) && command != "" && Linkable(root)
    requires !Build(Link, root, Expected(command, config), p).action.Conflict?
    ensures var linked := Build(Link, root, Expected(command, config), p).document;
      Build(Link, Some(linked), Expected(command, config), p) == Changed(Noop, linked)
  {
    ExpectedIsEquivalent(command, config, p);
    LinkedStaysLinked(root, Expected(command, config), p);
  }

  lemma LinkedStaysLinked(root: Option<Json>, expected: map<string, Json>, p: Platform)
    requires Linkable(root) && EntryEquivalent(Object(expected), expected, p)
    requires !Build(Link, root, expected, p).action.Conflict?
    ensures var linked := Build(Link, root, expected, p).document;
      Build(Link, Some(linked), expected, p) == Changed(Noop, linked)
  {
    var linked := Build(Link, root, expected, p).document;
    var servers := ServersOf(linked.fields);
    assert ROUTER in servers && EntryEquivalent(servers[ROUTER], expected, p);
    assert linked.fields[SERVERS := Object(servers)] == linked.fields;
  }

  /** Unlinking takes back what linking added exactly when the entry is recognized: under
      another executable name the router cannot remove its own entry. */
  lemma UnlinkUndoesLinkIff(root: Option<Json>, command: string, config: string, p: Platform)
    requires KeepsKeys(p.lower) && command != "" && Linkable(root)
    requires Build(Link, root, Expected(command, config), p).action.Create?
    ensures var before := if root.Some? then root.value.fields else map[];
      var linked := Build(Link, root, Expected(command, config), p).document;
      var unlinked := Build(Unlink, Some(linked), Expected(command, config), p);
      && unlinked.Changed?
      && (OwnsItsEntry(command, config, p) ==>
            unlinked == Changed(Remove, Object(before[SERVERS := Object(ServersOf(before))])))
      && (!OwnsItsEntry(command, config, p) ==> unlinked == Changed(Conflict, linked))
  {
    ExpectedIsOwned(command, config, p);
    var before := if root.Some? then root.value.fields else map[];
    var servers := ServersOf(before);
    assert servers[ROUTER := Object(Expected(command, config))] - {ROUTER} == servers;
    var linked := before[SERVERS := Object(servers[ROUTER := Object(Expected(command, config))])];
    assert linked[SERVERS := Object(servers)] == before[SERVERS := Object(servers)];
    assert linked[SERVERS := linked[SERVERS]] == linked;
  }

  /** So a document that had its object of servers comes back as it was. */
  lemma LinkThenUnlinkRestores(fields: map<string, Json>, command: string, config: string, p: Platform)
    requires KeepsKeys(p.lower) && OwnsItsEntry(command, config, p)
    requires SERVERS in fields && fields[SERVERS].Object? && ROUTER !in fields[SERVERS].fields
    ensures var linked := Build(Link, Some(Object(fields)), Expected(command, config), p);
      && linked.Changed?
      && Build(Unlink, Some(linked.document), Expected(command, config), p) == Changed(Remove, Object(fields))
  {
    UnlinkUndoesLinkIff(Some(Object(fields)), command, config, p);
    assert fields[SERVERS := Object(ServersOf(fields))] == fields;
  }

  // --------------------------------------------------------------- plan and apply

  type Digest = string
  type PlanId = string
  type Time = int

  /** The digest before is None for a file that is absent. */
  datatype Operation = Operation(path: Path, action: Action, before: Option<Digest>, after: Digest)
  datatype Plan = Plan(mode: Mode, command: string, config: string, expiresAt: Time, operations: seq<Operation>)
  datatype SavedPlan = SavedPlan(plan: Plan, digest: Digest)
  datatype Outcome = Refused | Panicked | Aborted(restored: bool) | Applied

  function Content(files: map<Path, string>, path: Path): Option<string> {
    if path in files then Some(files[path]) else None
  }

  /** buildFileClientChange on the bytes of a file. */
  datatype Edit = BadConfig | NilMap | Edited(action: Action, content: string)

  function BuildEdit(mode: Mode, data: Option<string>, expected: map<string, Json>, p: Platform): Edit {
    var root := if data.Some? then p.decode(data.value) else None;
    if data.Some? && root.None? then BadConfig
    else
      match Build(mode, root, expected, p)
      case Rejected => BadConfig
      case Panics => NilMap
      case Changed(action, document) =>
        var content := p.encode(document) + "\n";
        if |content| > MAX_CONFIG_BYTES then BadConfig else Edited(action, content)
  }

  /** Linking and unlinking alike panic on exactly the files that hold the document `null`:
      an absent file, and every other content, is edited or refused. */
  lemma PanicsIffNull(mode: Mode, data: Option<string>, command: string, config: string, p: Platform)
    ensures BuildEdit(mode, data, Expected(command, config), p) == NilMap
      <==> data.Some? && p.decode(data.value) == Some(Null)
  {
  }

  /** On the files themselves: a created link that is removed again leaves the document that
      was read, re-encoded, provided the router recognizes its own entry and the linked
      document is read back as it was written. */
  lemma FileRoundTrip(data: string, fields: map<string, Json>, command: string, config: string, p: Platform)
    requires p.decode(data) == Some(Object(fields)) && KeepsKeys(p.lower) && OwnsItsEntry(command, config, p)
    requires SERVERS in fields && fields[SERVERS].Object? && ROUTER !in fields[SERVERS].fields
    requires var linked := Build(Link, Some(Object(fields)), Expected(command, config), p);
      linked.Changed? && p.decode(p.encode(linked.document) + "\n") == Some(linked.document)
    ensures var linked := BuildEdit(Link, Some(data), Expected(command, config), p);
      linked.Edited? && |p.encode(Object(fields))| < MAX_CONFIG_BYTES ==>
        var unlinked := BuildEdit(Unlink, Some(linked.content), Expected(command, config), p);
        unlinked == Edited(Remove, p.encode(Object(fields)) + "\n")
  {
    LinkThenUnlinkRestores(fields, command, config, p);
  }

  // ------------------------------------------------------------ any sequence of changes

  /** What becomes of a document that is linked and unlinked in some order. */
  function After(modes: seq<Mode>, document: Json, expected: map<string, Json>, p: Platform): Json
    decreases |modes|
  {
    if modes == [] then document
    else
      var before := After(modes[..|modes| - 1], document, expected, p);
      var change := Build(modes[|modes| - 1], Some(before), expected, p);
      if change.Changed? then change.document else before
  }

  predicate HasServers(fields: map<string, Json>) {
    SERVERS in fields && fields[SERVERS].Object?
  }

  /** An entry that somebody else made under the router's name survives every sequence. */
  lemma {:induction false} ForeignEntryStays(modes: seq<Mode>, fields: map<string, Json>, expected: map<string, Json>,
                                             p: Platform)
    requires HasServers(fields) && ROUTER in ServersOf(fields) && !EntryOwned(ServersOf(fields)[ROUTER], p)
    requires !EntryEquivalent(ServersOf(fields)[ROUTER], expected, p)
    ensures After(modes, Object(fields), expected, p) == Object(fields)
    decreases |modes|
  {
    if modes != [] {
      ForeignEntryStays(modes[..|modes| - 1], fields, expected, p);
      assert fields[SERVERS := Object(ServersOf(fields))] == fields;
    }
  }

  /** Of a document without such an entry only the last change of a sequence matters. */
  lemma {:induction false} LastChangeDecides(modes: seq<Mode>, fields: map<string, Json>, command: string,
                                             config: string, p: Platform)
    requires KeepsKeys(p.lower) && OwnsItsEntry(command, config, p)
    requires HasServers(fields) && ROUTER !in ServersOf(fields)
    ensures After(modes, Object(fields), Expected(command, config), p) ==
      if modes == [] || modes[|modes| - 1].Unlink? then Object(fields)
      else Build(Link, Some(Object(fields)), Expected(command, config), p).document
    decreases |modes|
  {
    if modes != [] {
      LastChangeDecides(modes[..|modes| - 1], fields, command, config, p);
      LinkThenUnlinkRestores(fields, command, config, p);
      LinkingIsIdempotent(Some(Object(fields)), command, config, p);
      assert fields[SERVERS := Object(ServersOf(fields))] == fields;
    }
  }

  // ---------------------------------------------------------------- the rollback

  /** Every undo writes back what its file held at the start. */
  ghost predicate WritesBack(start: map<Path, string>, undos: seq<Undo<Path, string>>) {
    forall u <- undos :: u == WriteBack(u.path, Content(start, u.path))
  }

  ghost predicate AgreesOutside(files: map<Path, string>, start: map<Path, string>, undos: seq<Undo<Path, string>>) {
    forall p | (forall u <- undos :: u.path != p) :: Kept(files, start, p)
  }

  /** Then undoing all of them restores the start, even where two clients share a file. */
  lemma {:induction false} WriteBacksRestore(files: map<Path, string>, start: map<Path, string>,
                                             undos: seq<Undo<Path, string>>)
    requires WritesBack(start, undos) && AgreesOutside(files, start, undos)
    ensures UndoAll(files, undos) == start
    decreases |undos|
  {
    if undos == [] {
      forall p
        ensures (p in files <==> p in start) && (p in files ==> files[p] == start[p])
      {
        assert Kept(files, start, p);
      }
      assert files == start;
    } else {
      var n := |undos| - 1;
      var u := undos[n];
      assert undos == undos[..n] + [u];
      forall p | forall v <- undos[..n] :: v.path != p ensures Kept(UndoOne(files, u), start, p) {
        assert p != u.path ==> Kept(files, start, p);
      }
      WriteBacksRestore(UndoOne(files, u), start, undos[..n]);
    }
  }

  function Touched(operations: seq<Operation>): set<Path> {
    set op <- operations | !op.action.Noop? :: op.path
  }

  /** The operation's file holds the edit, and it is the reviewed one. */
  ghost predicate Holds(op: Operation, edit: Edit, files: map<Path, string>) {
    edit.Edited? && edit.action == op.action && op.path in files && files[op.path] == edit.content
  }

  lemma OneMoreUndo(undos: seq<Undo<Path, string>>, u: Undo<Path, string>, start: map<Path, string>,
                    before: map<Path, string>, after: map<Path, string>)
    requires WritesBack(start, undos) && AgreesOutside(before, start, undos)
    requires u == WriteBack(u.path, Content(start, u.path))
    requires forall p | p != u.path :: Kept(after, before, p)
    ensures WritesBack(start, undos + [u]) && AgreesOutside(after, start, undos + [u])
  {
    assert u in undos + [u] && forall v <- undos :: v in undos + [u];
    forall p | forall v <- undos + [u] :: v.path != p ensures Kept(after, start, p) {
      assert Kept(after, before, p) && Kept(before, start, p);
    }
  }

  class Manager {
    const tree: FileTree<Path, string>
    const p: Platform
    const digest: string -> Digest
    const seal: Plan -> Digest
    const command: string
    const config: string
    var plans: map<PlanId, SavedPlan>
    var backups: seq<Option<Registration>>

    constructor (tree: FileTree<Path, string>, p: Platform, digest: string -> Digest, seal: Plan -> Digest,
                 command: string, config: string)
      ensures this.tree == tree && plans == map[]
    {
      this.tree, this.p, this.digest, this.seal, this.command, this.config := tree, p, digest, seal, command, config;
      plans, backups := map[], [];
    }

    method Attempt() returns (ok: bool)
    {
      ok := *;
    }

    function EditOf(mode: Mode, files: map<Path, string>, path: Path): Edit {
      BuildEdit(mode, Content(files, path), Expected(command, config), p)
    }

    function DigestOf(files: map<Path, string>, path: Path): Option<Digest> {
      if path in files then Some(digest(files[path])) else None
    }

    /** A plan holds the edit of each client's file. */
    ghost predicate Assessed(op: Operation, mode: Mode, files: map<Path, string>) {
      var edit := EditOf(mode, files, op.path);
      edit.Edited? && op == Operation(op.path, edit.action, DigestOf(files, op.path), digest(edit.content))
    }

    method MakePlan(mode: Mode, paths: seq<Path>, planId: PlanId, expiresAt: Time) returns (plan: Option<Plan>)
      modifies this`plans
      ensures plan.None? ==> plans == old(plans)
      ensures plan.Some? ==>
        && Text.TrimSpace(command) != "" && Text.TrimSpace(config) != ""
        && plans == old(plans)[planId := SavedPlan(plan.value, seal(plan.value))]
        && plan.value.mode == mode && |plan.value.operations| == |paths|
        && forall i | 0 <= i < |paths| ::
          plan.value.operations[i].path == paths[i] && Assessed(plan.value.operations[i], mode, tree.files)
    {
      if Text.TrimSpace(command) == "" || Text.TrimSpace(config) == "" { return None; }
      var operations: seq<Operation> := [];
      for i := 0 to |paths|
        invariant plans == old(plans) && |operations| == i
        invariant forall j | 0 <= j < i :: operations[j].path == paths[j] && Assessed(operations[j], mode, tree.files)
      {
        var read := Attempt();
        if !read { return None; }
        var edit := EditOf(mode, tree.files, paths[i]);
        if !edit.Edited? { return None; }
        operations := operations + [Operation(paths[i], edit.action, DigestOf(tree.files, paths[i]),
                                              digest(edit.content))];
      }
      var stored := Attempt();
      if !stored { return None; }
      plan := Some(Plan(mode, command, config, expiresAt, operations));
      plans := plans[planId := SavedPlan(plan.value, seal(plan.value))];
    }

    predicate Reviewed(planId: PlanId, digest: Digest, confirmed: bool, now: Time)
      reads this
    {
      && confirmed && planId in plans && plans[planId].digest == digest
      && var plan := plans[planId].plan;
        seal(plan) == digest && now < plan.expiresAt && plan.command == command && plan.config == config
    }

    predicate Unchanged(op: Operation)
      reads tree
    {
      op.action.Noop? || (!op.action.Conflict? && DigestOf(tree.files, op.path) == op.before)
    }

    method Revalidate(operations: seq<Operation>) returns (ok: bool)
      ensures ok ==> forall op <- operations :: Unchanged(op)
    {
      for i := 0 to |operations|
        invariant forall op <- operations[..i] :: Unchanged(op)
      {
        assert operations[..i + 1] == operations[..i] + [operations[i]];
        var read := Attempt();
        if !Unchanged(operations[i]) || (!operations[i].action.Noop? && !read) { return false; }
      }
      assert operations[..|operations|] == operations;
      return true;
    }

    /** One file: the edit is built again from what was reviewed and must be the reviewed one. */
    method ApplyOne(mode: Mode, op: Operation, reviewed: map<Path, string>)
        returns (r: Outcome, u: Option<Undo<Path, string>>)
      modifies tree, this`backups
      ensures u.None? ==> tree.files == old(tree.files) && !r.Applied?
      ensures u.Some? ==>
        var edit := EditOf(mode, reviewed, op.path);
        && u.value == WriteBack(op.path, Content(reviewed, op.path))
        && edit.Edited? && edit.action == op.action && digest(edit.content) == op.after
        && tree.files == old(tree.files)[op.path := edit.content]
      ensures !r.Refused? && (r.Aborted? ==> !r.restored)
      ensures r.Panicked? ==> EditOf(mode, reviewed, op.path).NilMap?
    {
      r, u := Aborted(false), None;
      var allowed := Attempt();
      if !allowed { return; }
      var edit := EditOf(mode, reviewed, op.path);
      if edit.NilMap? { return Panicked, None; }
      if !edit.Edited? || edit.action != op.action || digest(edit.content) != op.after { return; }
      var backedUp := BackUp(Content(reviewed, op.path));
      if !backedUp { return; }
      var written := tree.Write(op.path, edit.content);
      if !written { return; }
      u := Some(WriteBack(op.path, Content(reviewed, op.path)));
      var read := Attempt();
      if read && digest(tree.files[op.path]) == op.after { r := Applied; }
    }

    /** Only a registration that is the router's own is copied into a backup. */
    method BackUp(data: Option<string>) returns (ok: bool)
      modifies this`backups
      ensures backups == if ok then old(backups) + [Previous(data)] else old(backups)
      ensures ok && Previous(data).Some? ==> Owned(Previous(data).value, p)
    {
      var previous := Previous(data);
      if previous.Some? && !Owned(previous.value, p) { return false; }
      ok := Attempt();
      if ok { backups := backups + [previous]; }
    }

    function Previous(data: Option<string>): Option<Registration> {
      var root := if data.Some? then p.decode(data.value) else None;
      if root.Some? && root.value.Object? && ROUTER in ServersOf(root.value.fields) &&
         ServersOf(root.value.fields)[ROUTER].Object?
      then Parse(ServersOf(root.value.fields)[ROUTER].fields, p.lower)
      else None
    }

    /** Files hold what the operations done so far made of what was reviewed. */
    ghost predicate DoneSoFar(mode: Mode, operations: seq<Operation>, start: map<Path, string>,
                              files: map<Path, string>)
    {
      && (forall q | q !in Touched(operations) :: Kept(files, start, q))
      && forall op <- operations :: op.action.Noop? || Holds(op, EditOf(mode, start, op.path), files)
    }

    lemma OneMoreDone(mode: Mode, operations: seq<Operation>, op: Operation, start: map<Path, string>,
                      before: map<Path, string>, after: map<Path, string>)
      requires DoneSoFar(mode, operations, start, before)
      requires if op.action.Noop? then after == before else
        && EditOf(mode, start, op.path).Edited?
        && after == before[op.path := EditOf(mode, start, op.path).content]
        && Holds(op, EditOf(mode, start, op.path), after)
      ensures DoneSoFar(mode, operations + [op], start, after)
    {
      assert forall x <- operations :: x in operations + [op];
      assert op in operations + [op];
      assert Touched(operations) <= Touched(operations + [op]);
      forall q | q !in Touched(operations + [op]) ensures Kept(after, start, q) {
        assert Kept(before, start, q);
      }
    }

    method ApplyAll(plan: Plan) returns (r: Outcome, undos: seq<Undo<Path, string>>)
      modifies tree, this`backups
      ensures WritesBack(old(tree.files), undos) && AgreesOutside(tree.files, old(tree.files), undos)
      ensures r.Applied? ==> DoneSoFar(plan.mode, plan.operations, old(tree.files), tree.files)
      ensures !r.Refused? && (r.Aborted? ==> !r.restored)
    {
      r, undos := Applied, [];
      var start := tree.files;
      for i := 0 to |plan.operations|
        invariant WritesBack(start, undos) && AgreesOutside(tree.files, start, undos) && r.Applied?
        invariant DoneSoFar(plan.mode, plan.operations[..i], start, tree.files)
      {
        var op := plan.operations[i];
        assert plan.operations[..i + 1] == plan.operations[..i] + [op];
        ghost var before := tree.files;
        if !op.action.Noop? {
          var u;
          r, u := ApplyOne(plan.mode, op, start);
          if u.Some? {
            OneMoreUndo(undos, u.value, start, before, tree.files);
            undos := undos + [u.value];
          }
          if !r.Applied? { return; }
        }
        OneMoreDone(plan.mode, plan.operations[..i], op, start, before, tree.files);
      }
      assert plan.operations[..|plan.operations|] == plan.operations;
    }

    /** A refusal touches nothing, a failure that was rolled back leaves every file as it
        was, and a success leaves each file with the reviewed edit of what it held. */
    method Apply(planId: PlanId, digest: Digest, confirmed: bool, now: Time) returns (r: Outcome)
      modifies tree, this`plans, this`backups
      ensures r.Refused? || r == Aborted(true) ==> tree.files == old(tree.files)
      ensures !r.Applied? ==> plans == old(plans)
      ensures !r.Refused? ==>
        && old(Reviewed(planId, digest, confirmed, now))
        && forall op <- old(plans[planId].plan.operations) :: old(Unchanged(op))
      ensures r.Applied? ==>
        var plan := old(plans[planId].plan);
        DoneSoFar(plan.mode, plan.operations, old(tree.files), tree.files)
    {
      if !Reviewed(planId, digest, confirmed, now) { return Refused; }
      var plan := plans[planId].plan;
      var ready := Revalidate(plan.operations);
      if !ready { return Refused; }
      var undos;
      r, undos := ApplyAll(plan);
      if r.Panicked? { return; }
      if !r.Applied? {
        WriteBacksRestore(tree.files, old(tree.files), undos);
        var restored := tree.RollBack(undos);
        return Aborted(restored);
      }
      var removed := Attempt();
      if removed { plans := plans - {planId}; }
    }
  }
}
