// The MCP server form hooks: `validateMCP`, the create parameters built from
// a valid form, and the create / toggle / delete / restart handlers of
// src/hooks/chats/use-mcp.ts and its older revision src/hooks/use-mcp.ts.
// The backend mutations are not part of this model: each handler records
// the request it sends, and whether the mutation succeeds is a parameter.

module McpForm {
  import opened Strings
  import opened EnvVars

  /** The server kinds the form offers. */
  datatype McpType = Http | Stdio | Docker

  datatype McpStatus = Creating | Created | Failed

  /** `MCPFormState`: the document's fields a user fills in. */
  datatype McpFormState = McpFormState(
    name: string,
    mcpType: McpType,
    command: Option<string>,
    url: Option<string>,
    dockerImage: Option<string>,
    dockerPort: Option<int>,
    env: Option<seq<EnvVar>>,
    status: McpStatus,
    restartOnNewChat: bool)

  /** `!s?.trim()`: missing, or nothing but white space. */
  predicate Blank(s: Option<string>) {
    s.None? || Trim(s.value) == []
  }

  /** `!port || port <= 0` */
  predicate BadPort(port: Option<int>) {
    port.None? || port.value <= 0
  }

  /** What a form needs to be accepted: a name, and the field its kind runs from. */
  predicate Acceptable(mcp: McpFormState) {
    && !Blank(Some(mcp.name))
    && (mcp.mcpType == Stdio ==> !Blank(mcp.command))
    && (mcp.mcpType == Http ==> !Blank(mcp.url))
    && (mcp.mcpType == Docker ==> !Blank(mcp.dockerImage) && !BadPort(mcp.dockerPort))
  }

  /**
   * `validateMCP`: the error it shows for the first failed check, nothing
   * for a valid form. Valid exactly when the form is acceptable.
   */
  function ValidateMcp(mcp: McpFormState): (error: Option<string>)
    ensures error.None? <==> Acceptable(mcp)
    ensures Blank(Some(mcp.name)) ==> error == Some("MCP name is required")
  {
    if Trim(mcp.name) == [] then Some("MCP name is required")
    else if mcp.mcpType == Stdio && Blank(mcp.command) then Some("Command is required for STDIO type")
    else if mcp.mcpType == Http && Blank(mcp.url) then Some("URL is required for HTTP type")
    else if mcp.mcpType == Docker && Blank(mcp.dockerImage) then Some("Docker image is required for Docker type")
    else if mcp.mcpType == Docker && BadPort(mcp.dockerPort) then Some("Valid Docker port is required for Docker type")
    else None
  }

  /** The check a form of one kind fails never depends on the fields of another kind. */
  lemma ValidationIgnoresOtherKinds(mcp: McpFormState, command: Option<string>, url: Option<string>,
                                    image: Option<string>, port: Option<int>)
    ensures mcp.mcpType == Stdio ==>
              ValidateMcp(mcp.(url := url, dockerImage := image, dockerPort := port)) == ValidateMcp(mcp)
    ensures mcp.mcpType == Http ==>
              ValidateMcp(mcp.(command := command, dockerImage := image, dockerPort := port)) == ValidateMcp(mcp)
    ensures mcp.mcpType == Docker ==>
              ValidateMcp(mcp.(command := command, url := url)) == ValidateMcp(mcp)
  {
  }

  /** The parameters `createMCP` receives. */
  datatype CreateParams = CreateParams(
    name: string,
    mcpType: McpType,
    command: Option<string>,
    url: Option<string>,
    dockerImage: Option<string>,
    dockerPort: Option<int>,
    env: Option<seq<EnvVar>>,
    enabled: bool,
    status: McpStatus,
    restartOnNewChat: bool)

  /** `s?.trim() || undefined`: the trimmed text, or nothing when that is empty. */
  function Normalized(s: Option<string>): (r: Option<string>)
    ensures r.None? <==> Blank(s)
    ensures r.Some? ==> r.value == Trim(s.value) && Trim(r.value) == r.value && r.value != []
  {
    if s.None? || Trim(s.value) == [] then None
    else
      TrimIdempotent(s.value);
      Some(Trim(s.value))
  }

  /**
   * The create parameters built from a form: text fields trimmed or dropped,
   * an empty environment dropped, the port kept only for docker, enabled
   * and in the creating state.
   */
  function CreateParamsOf(mcp: McpFormState): (p: CreateParams)
    ensures p.name == mcp.name && p.mcpType == mcp.mcpType && p.restartOnNewChat == mcp.restartOnNewChat
    ensures p.command == Normalized(mcp.command) && p.url == Normalized(mcp.url)
    ensures p.dockerImage == Normalized(mcp.dockerImage)
    ensures p.dockerPort == (if mcp.mcpType == Docker then mcp.dockerPort else None)
    ensures p.env.Some? <==> mcp.env.Some? && mcp.env.value != []
    ensures p.env.Some? ==> p.env == mcp.env
    ensures p.enabled && p.status == Creating
  {
    var params := CreateParams(
      mcp.name, mcp.mcpType,
      Normalized(mcp.command), Normalized(mcp.url), Normalized(mcp.dockerImage),
      mcp.dockerPort,
      if mcp.env.Some? && |mcp.env.value| > 0 then mcp.env else None,
      true, Creating, mcp.restartOnNewChat);
    if params.mcpType != Docker then params.(dockerPort := None) else params
  }

  /** The parameters of a valid form carry, trimmed, the field its kind runs from. */
  lemma ValidFormParamsAreComplete(mcp: McpFormState)
    requires ValidateMcp(mcp).None?
    ensures var p := CreateParamsOf(mcp);
            && (p.mcpType == Stdio ==> p.command.Some? && p.command.value != [] && Trim(p.command.value) == p.command.value)
            && (p.mcpType == Http ==> p.url.Some? && p.url.value != [])
            && (p.mcpType == Docker ==> p.dockerImage.Some? && p.dockerPort.Some? && p.dockerPort.value > 0)
            && (p.mcpType != Docker ==> p.dockerPort.None?)
  {
  }

  type McpId = string

  /** A request sent to the server's MCP mutations. */
  datatype Request =
    | Create(params: CreateParams)
    | Update(mcpId: McpId, enabled: bool)
    | Remove(mcpId: McpId)
    | Restart(mcpId: McpId)

  /** A toast. */
  datatype Notice = Success(text: string) | Failure(text: string)

  /** The state the handlers act on: the requests sent, the toasts shown and the edit dialog. */
  class McpHandlers {
    var requests: seq<Request>
    var notices: seq<Notice>
    var dialogOpen: bool

    constructor (dialogOpen: bool)
      ensures requests == [] && notices == [] && this.dialogOpen == dialogOpen
    {
      requests := [];
      notices := [];
      this.dialogOpen := dialogOpen;
    }

    /**
     * `handleCreateMCP` (and `handleCreate` of the older hook): an invalid
     * form shows its error and sends nothing; a valid one sends its create
     * parameters, then closes the dialog, or on failure reports it and
     * throws again.
     */
    method HandleCreate(mcp: McpFormState, succeeds: bool) returns (thrown: bool)
      modifies this
      ensures ValidateMcp(mcp).Some? ==>
                && requests == old(requests) && dialogOpen == old(dialogOpen) && !thrown
                && notices == old(notices) + [Failure(ValidateMcp(mcp).value)]
      ensures ValidateMcp(mcp).None? ==> requests == old(requests) + [Create(CreateParamsOf(mcp))]
      ensures ValidateMcp(mcp).None? && succeeds ==>
                !dialogOpen && !thrown && notices == old(notices) + [Success("MCP created successfully")]
      ensures ValidateMcp(mcp).None? && !succeeds ==>
                dialogOpen == old(dialogOpen) && thrown && notices == old(notices) + [Failure("Failed to create MCP")]
    {
      var error := ValidateMcp(mcp);
      if error.Some? {
        notices := notices + [Failure(error.value)];
        return false;
      }
      requests := requests + [Create(CreateParamsOf(mcp))];
      if succeeds {
        dialogOpen := false;
        notices := notices + [Success("MCP created successfully")];
        thrown := false;
      } else {
        notices := notices + [Failure("Failed to create MCP")];
        thrown := true;
      }
    }

    /** `handleToggleMCP`: asks for the opposite of the current flag; failures are only logged. */
    method HandleToggleMcp(mcpId: McpId, enabled: bool)
      modifies this
      ensures requests == old(requests) + [Update(mcpId, !enabled)]
      ensures notices == old(notices) && dialogOpen == old(dialogOpen)
    {
      requests := requests + [Update(mcpId, !enabled)];
    }

    /** `handleDeleteMCP`: asks for the removal; failures are only logged. */
    method HandleDeleteMcp(mcpId: McpId)
      modifies this
      ensures requests == old(requests) + [Remove(mcpId)]
      ensures notices == old(notices) && dialogOpen == old(dialogOpen)
    {
      requests := requests + [Remove(mcpId)];
    }

    /** `toggleMCP` of the older hook: the same request, with a toast saying what happened. */
    method ToggleMcp(mcpId: McpId, enabled: bool, succeeds: bool)
      modifies this
      ensures requests == old(requests) + [Update(mcpId, !enabled)]
      ensures notices == old(notices) + [ToggleNotice(enabled, succeeds)]
      ensures dialogOpen == old(dialogOpen)
    {
      requests := requests + [Update(mcpId, !enabled)];
      notices := notices + [ToggleNotice(enabled, succeeds)];
    }

    /** `handleDelete` of the older hook. */
    method HandleDelete(mcpId: McpId, succeeds: bool)
      modifies this
      ensures requests == old(requests) + [Remove(mcpId)]
      ensures notices == old(notices) + [if succeeds then Success("MCP deleted successfully") else Failure("Failed to delete MCP")]
      ensures dialogOpen == old(dialogOpen)
    {
      requests := requests + [Remove(mcpId)];
      notices := notices + [if succeeds then Success("MCP deleted successfully") else Failure("Failed to delete MCP")];
    }

    /** `restartMCP` of the older hook. */
    method RestartMcp(mcpId: McpId, succeeds: bool)
      modifies this
      ensures requests == old(requests) + [Restart(mcpId)]
      ensures notices == old(notices) + [if succeeds then Success("MCP restarted successfully") else Failure("Failed to restart MCP")]
      ensures dialogOpen == old(dialogOpen)
    {
      requests := requests + [Restart(mcpId)];
      notices := notices + [if succeeds then Success("MCP restarted successfully") else Failure("Failed to restart MCP")];
    }
  }

  /** The toast of the older `toggleMCP`: it names the state the server was asked to leave. */
  function ToggleNotice(enabled: bool, succeeds: bool): (n: Notice)
    ensures succeeds <==> n.Success?
    ensures succeeds ==> (n.text == "MCP stopped" <==> enabled)
  {
    if !succeeds then Failure("Failed to start/stop MCP")
    else if enabled then Success("MCP stopped") else Success("MCP started")
  }

  /** Toggling twice from the state the first toggle asked for asks for the original state again. */
  method ToggleTwiceRestores(h: McpHandlers, mcpId: McpId, enabled: bool)
    modifies h
    ensures h.requests == old(h.requests) + [Update(mcpId, !enabled), Update(mcpId, enabled)]
  {
    h.HandleToggleMcp(mcpId, enabled);
    h.HandleToggleMcp(mcpId, !enabled);
  }
}
