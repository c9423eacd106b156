/** The records a session mirrors and the events that change them. */
module Records {

  /** An absent field, an explicit null, or a value. */
  datatype Optional<+T> = Absent | Null | Present(value: T)

  /** A map of labels: its content, or the address it is shared through. */
  datatype Labels = Labels(content: map<string, string>) | LabelsAt(address: nat)

  /** The panes and splits of a layout: their content, or the address they are shared through. */
  datatype Geometry = Geometry(content: string) | GeometryAt(address: nat)

  datatype Workspace = Workspace(
    id: string, focused: bool, name: string, activeTab: string, agentStatus: string,
    number: nat, paneCount: nat, tabCount: nat, tokens: Optional<Labels>, worktree: Optional<string>)

  datatype Tab = Tab(
    id: string, workspace: string, focused: bool, name: string,
    agentStatus: string, number: nat, paneCount: nat)

  /** The terminal fields that a pane and the agent in it both report. */
  datatype Terminal = Terminal(
    id: string, session: Optional<string>, cwd: Optional<string>, foregroundCwd: Optional<string>,
    title: Optional<string>, titleStripped: Optional<string>, tokens: Optional<Labels>)

  datatype Pane = Pane(
    id: string, tab: string, workspace: string, focused: bool,
    agent: Optional<string>, displayAgent: Optional<string>, agentStatus: string,
    title: Optional<string>, stateLabels: Optional<Labels>, revision: nat, terminal: Terminal,
    scroll: Optional<string>, name: Optional<string>, restoreError: Optional<string>)

  /** The fields of an agent that only a snapshot reports. */
  datatype AgentOwn = AgentOwn(
    name: Optional<string>, completionSeq: Optional<nat>, stateChangeSeq: Optional<nat>,
    interactiveReady: Optional<bool>, launchPending: Optional<bool>, screenDetectionSkipped: Optional<bool>)

  datatype Agent = Agent(
    pane: string, tab: string, workspace: string, focused: bool,
    agent: Optional<string>, displayAgent: Optional<string>, agentStatus: string,
    title: Optional<string>, stateLabels: Optional<Labels>, revision: nat, terminal: Terminal,
    own: AgentOwn)

  datatype Layout = Layout(tab: string, workspace: string, focusedPane: string, geometry: Geometry)

  /** The agent record of Go's zero value, which a first detection starts from. */
  const ZERO_TERMINAL := Terminal("", Absent, Absent, Absent, Absent, Absent, Absent)
  const ZERO_AGENT := Agent("", "", "", false, Absent, Absent, "", Absent, Absent, 0, ZERO_TERMINAL,
                            AgentOwn(Absent, Absent, Absent, Absent, Absent, Absent))

  datatype Snapshot = Snapshot(
    workspaces: seq<Workspace>, tabs: seq<Tab>, panes: seq<Pane>, agents: seq<Agent>, layouts: seq<Layout>,
    focusedWorkspace: Optional<string>, focusedTab: Optional<string>, focusedPane: Optional<string>,
    version: string, protocol: nat)

  /** Which event reported a whole record; the mirror treats them alike. */
  datatype Report = Created | Updated | MetadataUpdated | WorktreeCreated | WorktreeOpened

  /** Which event listed all workspaces in order. */
  datatype Listing = Moved | Reordered

  datatype Event =
    | WorkspaceReported(report: Report, workspace: Workspace)
    | WorkspaceRenamed(workspaceId: string, name: string)
    | WorkspacesListed(listing: Listing, workspaces: seq<Workspace>)
    | WorkspaceFocused(workspaceId: string)
    | WorkspaceClosed(workspaceId: string)
    | WorktreeRemoved(remaining: Optional<Workspace>)
    | TabCreated(tab: Tab)
    | TabRenamed(tabId: string, name: string)
    | TabMoved(workspaceId: string, tabs: seq<Tab>)
    | TabFocused(tabId: string)
    | TabClosed(tabId: string)
    | PaneReported(report: Report, pane: Pane)
    | PaneMoved(previousPane: string, pane: Pane, createdWorkspace: Optional<Workspace>, createdTab: Optional<Tab>,
                closedTab: Optional<string>, closedWorkspace: Optional<string>)
    | PaneFocused(paneId: string)
    | PaneClosed(paneId: string)
    | PaneOutputChanged(paneId: string, revision: nat)
    | PaneScrollChanged(paneId: string, scroll: string)
    | PaneAgentDetected(paneId: string, agent: Optional<string>, finalStatus: Optional<string>,
                        released: Optional<bool>)
    | PaneAgentStatusChanged(paneId: string, agentStatus: string, agent: Optional<string>,
                             displayAgent: Optional<string>, title: Optional<string>, stateLabels: Optional<Labels>)
    | LayoutUpdated(layout: Layout)
    | Unmirrored(name: string) // pane.exited, pane.output_matched and events this version does not know

  function WorkspaceKey(w: Workspace): string { w.id }
  function TabKey(t: Tab): string { t.id }
  function PaneKey(p: Pane): string { p.id }
  function AgentKey(a: Agent): string { a.pane }
  function LayoutKey(l: Layout): string { l.tab }

  /** Refreshes the fields an agent shares with the pane it runs in and keeps its own. */
  function MergeAgent(agent: Agent, pane: Pane): Agent {
    agent.(pane := pane.id, tab := pane.tab, workspace := pane.workspace, focused := pane.focused,
           agent := pane.agent, displayAgent := pane.displayAgent, agentStatus := pane.agentStatus,
           title := pane.title, stateLabels := pane.stateLabels, revision := pane.revision,
           terminal := pane.terminal)
  }

  /** The agent repeats the pane in every field the two share. */
  predicate Repeats(agent: Agent, pane: Pane) {
    && agent.pane == pane.id && agent.tab == pane.tab && agent.workspace == pane.workspace
    && agent.focused == pane.focused && agent.agent == pane.agent && agent.displayAgent == pane.displayAgent
    && agent.agentStatus == pane.agentStatus && agent.title == pane.title && agent.stateLabels == pane.stateLabels
    && agent.revision == pane.revision && agent.terminal == pane.terminal
  }
}
