/** Where a resource goes on a target (targetDestination in internal/resourcehub/sync.go). */
module ResourceTargets {
  import opened Wrappers
  import opened Text

  datatype Kind = Skill | AgentFile | Rule | Command | Prompt | McpServer | Context
  datatype Agent = Codex | Claude | Cursor | OpenCode | Copilot | Generic

  function KindName(kind: Kind): string {
    match kind
    case Skill => "skill"
    case AgentFile => "agent"
    case Rule => "rule"
    case Command => "command"
    case Prompt => "prompt"
    case McpServer => "mcp-server"
    case Context => "context"
  }

  /** The directory under the target root, ending in a slash, and the file suffix. */
  datatype Layout = Layout(directory: string, suffix: string)

  function LayoutOf(agent: Agent, kind: Kind): Layout {
    match agent
    case Codex => (
      match kind
      case Skill => Layout("/.agents/skills/", "")
      case AgentFile => Layout("/.codex/agents/", ".md")
      case Rule => Layout("/.agents/rules/", ".md")
      case Context => Layout("/.agents/rules/", ".md")
      case Command => Layout("/.codex/prompts/", ".md")
      case Prompt => Layout("/.codex/prompts/", ".md")
      case McpServer => Layout("/.agentstack/mcp/", ".json"))
    case Claude => (
      match kind
      case Skill => Layout("/.claude/skills/", "")
      case AgentFile => Layout("/.claude/agents/", ".md")
      case Rule => Layout("/.claude/rules/", ".md")
      case Context => Layout("/.claude/rules/", ".md")
      case Command => Layout("/.claude/commands/", ".md")
      case Prompt => Layout("/.claude/commands/", ".md")
      case McpServer => Layout("/.agentstack/mcp/", ".json"))
    case Cursor => (
      match kind
      case Skill => Layout("/.cursor/skills/", "")
      case AgentFile => Layout("/.cursor/agents/", ".md")
      case Rule => Layout("/.cursor/rules/", ".mdc")
      case Context => Layout("/.cursor/rules/", ".mdc")
      case Command => Layout("/.cursor/commands/", ".md")
      case Prompt => Layout("/.cursor/commands/", ".md")
      case McpServer => Layout("/.agentstack/mcp/", ".json"))
    case OpenCode => (
      match kind
      case Skill => Layout("/.opencode/skills/", "")
      case AgentFile => Layout("/.opencode/agents/", ".md")
      case Rule => Layout("/.opencode/rules/", ".md")
      case Context => Layout("/.opencode/rules/", ".md")
      case Command => Layout("/.opencode/commands/", ".md")
      case Prompt => Layout("/.opencode/commands/", ".md")
      case McpServer => Layout("/.agentstack/mcp/", ".json"))
    case Copilot => (
      match kind
      case Rule => Layout("/.github/instructions/", ".instructions.md")
      case Context => Layout("/.github/instructions/", ".instructions.md")
      case Prompt => Layout("/.github/prompts/", ".prompt.md")
      case Command => Layout("/.github/prompts/", ".prompt.md")
      case _ => Layout("/.agentstack/" + KindName(kind) + "/", ""))
    case Generic => Layout("/.agentstack/" + KindName(kind) + "/", "")
  }

  function Destination(root: string, agent: Agent, kind: Kind, id: string): string {
    Place(root, LayoutOf(agent, kind), id)
  }

  lemma OwnLayoutShape(agent: Agent, kind: Kind)
    requires agent.Codex? || agent.Claude? || agent.Cursor?
    ensures WellShaped(LayoutOf(agent, kind))
  {
  }

  lemma FallbackLayoutShape(kind: Kind)
    ensures WellShaped(Layout("/.agentstack/" + KindName(kind) + "/", ""))
  {
    assert ("/.agentstack/" + KindName(kind)) + "/" == "/.agentstack/" + KindName(kind) + "/";
  }

  lemma SharedLayoutShape(agent: Agent, kind: Kind)
    requires !agent.Codex? && !agent.Claude? && !agent.Cursor?
    ensures WellShaped(LayoutOf(agent, kind))
  {
    FallbackLayoutShape(kind);
  }

  lemma LayoutShape(agent: Agent, kind: Kind)
    ensures WellShaped(LayoutOf(agent, kind))
  {
    if agent.Codex? || agent.Claude? || agent.Cursor? {
      OwnLayoutShape(agent, kind);
    } else {
      SharedLayoutShape(agent, kind);
    }
  }

  /** Kinds that share a directory share a suffix. */
  lemma DirectoryDecidesSuffix(agent: Agent, a: Kind, b: Kind)
    requires LayoutOf(agent, a).directory == LayoutOf(agent, b).directory
    ensures LayoutOf(agent, a).suffix == LayoutOf(agent, b).suffix
  {
  }

  lemma LastSlashSplits(d: string, n: string, e: string, m: string)
    requires d != "" && e != "" && d[|d| - 1] == '/' && e[|e| - 1] == '/'
    requires '/' !in n && '/' !in m && d + n == e + m
    ensures d == e && n == m
  {
    var s, t := d + n, e + m;
    assert s[|d| - 1] == '/' && forall i | |d| <= i < |s| :: s[i] == n[i - |d|] != '/';
    assert t[|e| - 1] == '/' && forall i | |e| <= i < |t| :: t[i] == m[i - |e|] != '/';
    assert s[..|d|] == d && t[..|e|] == e && s[|d|..] == n && t[|e|..] == m;
  }

  function Place(root: string, layout: Layout, id: string): string {
    root + layout.directory + (id + layout.suffix)
  }

  predicate WellShaped(layout: Layout) {
    layout.directory != "" && layout.directory[|layout.directory| - 1] == '/' && '/' !in layout.suffix
  }

  lemma PlacesSplit(root: string, a: Layout, x: string, b: Layout, y: string)
    requires WellShaped(a) && WellShaped(b) && '/' !in x && '/' !in y
    requires Place(root, a, x) == Place(root, b, y)
    ensures a.directory == b.directory && (a.suffix == b.suffix ==> x == y)
  {
    LastSlashSplits(root + a.directory, x + a.suffix, root + b.directory, y + b.suffix);
    assert (root + a.directory)[|root|..] == a.directory && (root + b.directory)[|root|..] == b.directory;
    assert (x + a.suffix)[..|x|] == x && (y + b.suffix)[..|y|] == y;
  }

  /** Two resources of a target never share a destination. */
  lemma DestinationsAreDistinct(root: string, agent: Agent, a: Kind, x: string, b: Kind, y: string)
    requires '/' !in x && '/' !in y
    requires Destination(root, agent, a, x) == Destination(root, agent, b, y)
    ensures x == y
  {
    LayoutShape(agent, a);
    LayoutShape(agent, b);
    PlacesSplit(root, LayoutOf(agent, a), x, LayoutOf(agent, b), y);
    DirectoryDecidesSuffix(agent, a, b);
  }
}
