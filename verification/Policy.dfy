/**
 The tool registry and the side-effect-free policy evaluator. Times are integers on one scale.
 */
module Policy {
  import opened Options

  datatype Profile = Assistant | Sentinel | Inventory | Lab | RecoveryProfile

  datatype RiskClass = R0 | R1 | R2 | R3

  datatype TrustState = Unprovisioned | Trusted | Outdated | InRecovery | Revoked | Compromised

  datatype AuthorizationKind = NoAuthorization | ByResourceGrant | ByOperationScope

  datatype ConfirmationMethod = OperatorMethod | PhysicalMethod

  datatype Actor = Actor(actorId: string, organizationId: string, roles: set<string>)

  datatype Device = Device(deviceId: string, organizationId: string, trust: TrustState, capabilities: set<string>)

  datatype ResourceGrant = ResourceGrant(organizationId: string, resourceIds: set<string>, validUntil: int, enabled: bool)

  datatype OperationScope = OperationScope(
    scopeId: string, organizationId: string, toolIds: set<string>, targetIds: set<string>, validUntil: int)

  datatype Confirmation = Confirmation(
    actorId: string, deviceId: string, planHash: string, means: ConfirmationMethod, validUntil: int)

  datatype ToolManifest = ToolManifest(
    toolId: string,
    version: int,
    risk: RiskClass,
    requiredProfile: Profile,
    authorization: AuthorizationKind,
    requiredRoles: set<string>,
    requiredCapabilities: set<string>,
    requiresConfirmation: bool,
    requiresPhysicalConfirmation: bool,
    maximumDuration: Option<int>,
    maximumTargets: int)

  /** The `duration_seconds` parameter: absent, not an integer (booleans included), or an integer. */
  datatype Duration = Missing | NotAnInteger | Seconds(n: int)

  datatype Request = Request(
    actor: Actor,
    device: Device,
    profile: Profile,
    toolId: string,
    toolVersion: int,
    targets: seq<string>,
    duration: Duration,
    evaluatedAt: int,
    planHash: string,
    grant: Option<ResourceGrant>,
    scope: Option<OperationScope>,
    confirmation: Option<Confirmation>)

  datatype Decision = Allow | AllowWithConfirmation | Deny | RequireScope | RequireProfileChange | RequirePhysicalConfirmation

  datatype Reason =
    | Authorized
    | AuthorizedConfirmationRequired
    | ActorRoleRequired
    | CapabilityRequired
    | ConfirmationExpired
    | ConfirmationMismatch
    | DeviceNotTrusted
    | DurationInvalid
    | DurationLimitExceeded
    | GrantDisabled
    | GrantExpired
    | GrantRequired
    | OrganizationMismatch
    | ProfileRequired
    | ScopeExpired
    | ScopeRequired
    | TargetCountInvalid
    | TargetNotAuthorized
    | ToolNotAuthorized
    | ToolNotFound

  /** The text written to outcomes and audit records. */
  function ReasonCode(r: Reason): string {
    match r
    case Authorized => "AUTHORIZED"
    case AuthorizedConfirmationRequired => "AUTHORIZED_CONFIRMATION_REQUIRED"
    case ActorRoleRequired => "ACTOR_ROLE_REQUIRED"
    case CapabilityRequired => "CAPABILITY_REQUIRED"
    case ConfirmationExpired => "CONFIRMATION_EXPIRED"
    case ConfirmationMismatch => "CONFIRMATION_MISMATCH"
    case DeviceNotTrusted => "DEVICE_NOT_TRUSTED"
    case DurationInvalid => "DURATION_INVALID"
    case DurationLimitExceeded => "DURATION_LIMIT_EXCEEDED"
    case GrantDisabled => "GRANT_DISABLED"
    case GrantExpired => "GRANT_EXPIRED"
    case GrantRequired => "GRANT_REQUIRED"
    case OrganizationMismatch => "ORGANIZATION_MISMATCH"
    case ProfileRequired => "PROFILE_REQUIRED"
    case ScopeExpired => "SCOPE_EXPIRED"
    case ScopeRequired => "SCOPE_REQUIRED"
    case TargetCountInvalid => "TARGET_COUNT_INVALID"
    case TargetNotAuthorized => "TARGET_NOT_AUTHORIZED"
    case ToolNotAuthorized => "TOOL_NOT_AUTHORIZED"
    case ToolNotFound => "TOOL_NOT_FOUND"
  }

  datatype Obligation =
    | ConfirmPlan(planHash: string, means: ConfirmationMethod)
    | ExecutionLimit(maximumDuration: int, maximumTargets: int)

  datatype PolicyDecision = PolicyDecision(decision: Decision, reason: Reason, obligations: seq<Obligation>)

  // ---- The registry ----------------------------------------------------------------------------

  type Tools = map<(string, int), ToolManifest>

  datatype RegistrationError =
    | R3NotAllowed
    | PhysicalWithoutConfirmation
    | DurationRequired
    | ScopeRequiredForR2
    | ConfirmationRequiredForR2
    | RoleRequiredForR2
    | EmptyToolId
    | VersionNotPositive
    | TargetsNotPositive
    | DurationNotPositive
    | AlreadyRegistered

  function CheckManifest(m: ToolManifest): Option<RegistrationError> {
    if m.risk == R3 then Some(R3NotAllowed)
    else if m.requiresPhysicalConfirmation && !m.requiresConfirmation then Some(PhysicalWithoutConfirmation)
    else if (m.risk == R1 || m.risk == R2) && m.maximumDuration.None? then Some(DurationRequired)
    else if m.risk == R2 && m.authorization != ByOperationScope then Some(ScopeRequiredForR2)
    else if m.risk == R2 && !m.requiresConfirmation then Some(ConfirmationRequiredForR2)
    else if m.risk == R2 && m.requiredRoles == {} then Some(RoleRequiredForR2)
    else if m.toolId == "" then Some(EmptyToolId)
    else if m.version < 1 then Some(VersionNotPositive)
    else if m.maximumTargets < 1 then Some(TargetsNotPositive)
    else if m.maximumDuration.Some? && m.maximumDuration.value < 1 then Some(DurationNotPositive)
    else None
  }

  function Register(tools: Tools, m: ToolManifest): (Tools, Option<RegistrationError>) {
    if CheckManifest(m).Some? then (tools, CheckManifest(m))
    else if (m.toolId, m.version) in tools then (tools, Some(AlreadyRegistered))
    else (tools[(m.toolId, m.version) := m], None)
  }

  class ToolRegistry {
    var tools: Tools

    ghost predicate Valid()
      reads this
    {
      WellFormedTools(tools)
    }

    constructor ()
      ensures Valid() && tools == map[]
    {
      tools := map[];
    }

    method RegisterTool(m: ToolManifest) returns (error: Option<RegistrationError>)
      requires Valid()
      modifies this
      ensures Valid()
      ensures (tools, error) == Register(old(tools), m)
    {
      if m.risk == R3 {
        return Some(R3NotAllowed);
      }
      if m.requiresPhysicalConfirmation && !m.requiresConfirmation {
        return Some(PhysicalWithoutConfirmation);
      }
      if (m.risk == R1 || m.risk == R2) && m.maximumDuration.None? {
        return Some(DurationRequired);
      }
      if m.risk == R2 {
        if m.authorization != ByOperationScope {
          return Some(ScopeRequiredForR2);
        }
        if !m.requiresConfirmation {
          return Some(ConfirmationRequiredForR2);
        }
        if m.requiredRoles == {} {
          return Some(RoleRequiredForR2);
        }
      }
      if m.toolId == "" {
        return Some(EmptyToolId);
      }
      if m.version < 1 {
        return Some(VersionNotPositive);
      }
      if m.maximumTargets < 1 {
        return Some(TargetsNotPositive);
      }
      if m.maximumDuration.Some? && m.maximumDuration.value < 1 {
        return Some(DurationNotPositive);
      }
      var key := (m.toolId, m.version);
      if key in tools {
        return Some(AlreadyRegistered);
      }
      tools := tools[key := m];
      return None;
    }
  }

  /** What registration guarantees about every tool. */
  ghost predicate WellFormed(m: ToolManifest) {
    && m.risk != R3
    && (m.requiresPhysicalConfirmation ==> m.requiresConfirmation)
    && (m.risk == R1 || m.risk == R2 ==> m.maximumDuration.Some?)
    && (m.risk == R2 ==> m.authorization == ByOperationScope && m.requiresConfirmation && m.requiredRoles != {})
    && m.toolId != "" && m.version >= 1 && m.maximumTargets >= 1
    && (m.maximumDuration.Some? ==> m.maximumDuration.value >= 1)
  }

  ghost predicate WellFormedTools(tools: Tools) {
    forall key :: key in tools ==> WellFormed(tools[key]) && key == (tools[key].toolId, tools[key].version)
  }

  function RegisterAll(manifests: seq<ToolManifest>): Tools {
    if manifests == [] then map[]
    else Register(RegisterAll(manifests[..|manifests| - 1]), manifests[|manifests| - 1]).0
  }

  /** One registration adds a well-formed tool or nothing, and replaces none. */
  lemma RegisterKeeps(tools: Tools, m: ToolManifest)
    requires WellFormedTools(tools)
    ensures WellFormedTools(Register(tools, m).0)
    ensures forall key :: key in tools ==> key in Register(tools, m).0 && Register(tools, m).0[key] == tools[key]
  {}

  /** Every registry that registrations can reach is well formed, and a registered tool is never
      replaced. */
  lemma {:induction false} ReachableToolsWellFormed(manifests: seq<ToolManifest>, n: nat)
    requires n <= |manifests|
    ensures WellFormedTools(RegisterAll(manifests))
    ensures var earlier := RegisterAll(manifests[..n]);
            forall key :: key in earlier ==> key in RegisterAll(manifests) && RegisterAll(manifests)[key] == earlier[key]
    decreases |manifests|
  {
    hide Register, WellFormed;
    if manifests != [] {
      var front := manifests[..|manifests| - 1];
      ReachableToolsWellFormed(front, |front|);
      RegisterKeeps(RegisterAll(front), manifests[|front|]);
      ReachableToolsWellFormed(front, if n < |manifests| then n else |front|);
      if n < |manifests| {
        assert front[..n] == manifests[..n];
      } else {
        assert manifests[..n] == manifests;
      }
    }
  }

  // ---- The evaluator ---------------------------------------------------------------------------

  function Denied(reason: Reason): PolicyDecision {
    PolicyDecision(Deny, reason, [])
  }

  function AuthorizeTargets(r: Request, kind: AuthorizationKind): Option<PolicyDecision> {
    match kind
    case NoAuthorization => None
    case ByResourceGrant =>
      if r.grant.None? then Some(Denied(GrantRequired))
      else if !r.grant.value.enabled then Some(Denied(GrantDisabled))
      else if r.grant.value.validUntil <= r.evaluatedAt then Some(Denied(GrantExpired))
      else if !(forall t :: t in r.targets ==> t in r.grant.value.resourceIds) then Some(Denied(TargetNotAuthorized))
      else None
    case ByOperationScope =>
      if r.scope.None? then Some(PolicyDecision(RequireScope, ScopeRequired, []))
      else if r.scope.value.validUntil <= r.evaluatedAt then Some(Denied(ScopeExpired))
      else if r.toolId !in r.scope.value.toolIds then Some(Denied(ToolNotAuthorized))
      else if !(forall t :: t in r.targets ==> t in r.scope.value.targetIds) then Some(Denied(TargetNotAuthorized))
      else None
  }

  function ValidateDuration(duration: Duration, maximum: Option<int>): Option<PolicyDecision> {
    if maximum.None? then None
    else if !duration.Seconds? || duration.n < 1 then Some(Denied(DurationInvalid))
    else if duration.n > maximum.value then Some(Denied(DurationLimitExceeded))
    else None
  }

  function ValidateConfirmation(r: Request, requiresPhysical: bool): Option<PolicyDecision> {
    if r.confirmation.None? then
      Some(PolicyDecision(AllowWithConfirmation, AuthorizedConfirmationRequired,
                          [ConfirmPlan(r.planHash, if requiresPhysical then PhysicalMethod else OperatorMethod)]))
    else
      var c := r.confirmation.value;
      if c.validUntil <= r.evaluatedAt then Some(Denied(ConfirmationExpired))
      else if c.actorId != r.actor.actorId || c.deviceId != r.device.deviceId || c.planHash != r.planHash then
        Some(Denied(ConfirmationMismatch))
      else if requiresPhysical && c.means != PhysicalMethod then
        Some(PolicyDecision(RequirePhysicalConfirmation, AuthorizedConfirmationRequired, []))
      else None
  }

  function Evaluate(r: Request, tools: Tools): PolicyDecision {
    if (r.toolId, r.toolVersion) !in tools then Denied(ToolNotFound)
    else
      var tool := tools[(r.toolId, r.toolVersion)];
      if r.actor.organizationId != r.device.organizationId
         || (r.grant.Some? && r.actor.organizationId != r.grant.value.organizationId)
         || (r.scope.Some? && r.actor.organizationId != r.scope.value.organizationId)
      then Denied(OrganizationMismatch)
      else if r.device.trust != Trusted then Denied(DeviceNotTrusted)
      else if r.profile != tool.requiredProfile then PolicyDecision(RequireProfileChange, ProfileRequired, [])
      else if !(tool.requiredRoles <= r.actor.roles) then Denied(ActorRoleRequired)
      else if !(tool.requiredCapabilities <= r.device.capabilities) then Denied(CapabilityRequired)
      else if r.targets == [] || |r.targets| > tool.maximumTargets then Denied(TargetCountInvalid)
      else
        var authorization := AuthorizeTargets(r, tool.authorization);
        if authorization.Some? then authorization.value
        else
          var duration := ValidateDuration(r.duration, tool.maximumDuration);
          if duration.Some? then duration.value
          else
            var confirmation :=
              if tool.requiresConfirmation then ValidateConfirmation(r, tool.requiresPhysicalConfirmation) else None;
            if confirmation.Some? then confirmation.value
            else
              PolicyDecision(Allow, Authorized,
                             if tool.maximumDuration.Some?
                             then [ExecutionLimit(tool.maximumDuration.value, tool.maximumTargets)]
                             else [])
  }

  // ---- What ALLOW means ------------------------------------------------------------------------

  /** A live scope of the actor's organization that covers the tool and every target. */
  ghost predicate ScopeCovers(r: Request) {
    && r.scope.Some? && r.scope.value.validUntil > r.evaluatedAt
    && r.scope.value.organizationId == r.actor.organizationId
    && r.toolId in r.scope.value.toolIds
    && forall t :: t in r.targets ==> t in r.scope.value.targetIds
  }

  ghost predicate GrantCovers(r: Request) {
    && r.grant.Some? && r.grant.value.enabled && r.grant.value.validUntil > r.evaluatedAt
    && r.grant.value.organizationId == r.actor.organizationId
    && forall t :: t in r.targets ==> t in r.grant.value.resourceIds
  }

  /** A live confirmation of exactly this plan by this actor on this device. */
  ghost predicate Confirmed(r: Request, physically: bool) {
    && r.confirmation.Some? && r.confirmation.value.validUntil > r.evaluatedAt
    && r.confirmation.value.actorId == r.actor.actorId
    && r.confirmation.value.deviceId == r.device.deviceId
    && r.confirmation.value.planHash == r.planHash
    && (physically ==> r.confirmation.value.means == PhysicalMethod)
  }

  ghost predicate OneOrganization(r: Request) {
    && r.device.organizationId == r.actor.organizationId
    && (r.grant.Some? ==> r.grant.value.organizationId == r.actor.organizationId)
    && (r.scope.Some? ==> r.scope.value.organizationId == r.actor.organizationId)
  }

  /** Everything except the confirmation. */
  ghost predicate Entitled(r: Request, tool: ToolManifest) {
    && OneOrganization(r) && r.device.trust == Trusted && r.profile == tool.requiredProfile
    && tool.requiredRoles <= r.actor.roles && tool.requiredCapabilities <= r.device.capabilities
    && 0 < |r.targets| <= tool.maximumTargets
    && (tool.authorization == ByResourceGrant ==> GrantCovers(r))
    && (tool.authorization == ByOperationScope ==> ScopeCovers(r))
    && (tool.maximumDuration.Some? ==> r.duration.Seconds? && 1 <= r.duration.n <= tool.maximumDuration.value)
  }

  /** ALLOW is given exactly to a registered tool's entitled and, where required, confirmed request;
      the order of the checks does not matter for it. */
  lemma AllowIff(r: Request, tools: Tools)
    ensures Evaluate(r, tools).decision == Allow <==>
            && (r.toolId, r.toolVersion) in tools
            && var tool := tools[(r.toolId, r.toolVersion)];
               && Entitled(r, tool)
               && (tool.requiresConfirmation ==> Confirmed(r, tool.requiresPhysicalConfirmation))
  {}

  /** With a reachable registry, ALLOW implies: not R3; a duration in range for R1 and R2; and for R2
      a live covering scope, a live matching confirmation and a non-empty set of held roles. */
  lemma AllowedByRisk(r: Request, manifests: seq<ToolManifest>)
    requires Evaluate(r, RegisterAll(manifests)).decision == Allow
    ensures (r.toolId, r.toolVersion) in RegisterAll(manifests)
    ensures var tool := RegisterAll(manifests)[(r.toolId, r.toolVersion)];
            && tool.toolId == r.toolId && tool.version == r.toolVersion
            && tool.risk != R3
            && (tool.risk == R1 || tool.risk == R2 ==>
                  tool.maximumDuration.Some? && r.duration.Seconds? && 1 <= r.duration.n <= tool.maximumDuration.value)
            && (tool.risk == R2 ==>
                  && ScopeCovers(r) && Confirmed(r, tool.requiresPhysicalConfirmation)
                  && tool.requiredRoles != {} && tool.requiredRoles <= r.actor.roles)
  {
    hide Evaluate, RegisterAll;
    ReachableToolsWellFormed(manifests, 0);
    AllowIff(r, RegisterAll(manifests));
  }

  /** ALLOW survives an earlier time and any non-empty, no longer selection of the same targets. */
  lemma AllowIsMonotone(r: Request, tools: Tools, earlier: int, fewer: seq<string>)
    requires Evaluate(r, tools).decision == Allow
    requires earlier <= r.evaluatedAt
    requires fewer != [] && |fewer| <= |r.targets| && forall t :: t in fewer ==> t in r.targets
    ensures Evaluate(r.(evaluatedAt := earlier, targets := fewer), tools) == Evaluate(r, tools)
  {
    hide Evaluate;
    AllowIff(r, tools);
    AllowIff(r.(evaluatedAt := earlier, targets := fewer), tools);
    AllowedDecision(r, tools);
    AllowedDecision(r.(evaluatedAt := earlier, targets := fewer), tools);
  }

  lemma AllowedDecision(r: Request, tools: Tools)
    requires Evaluate(r, tools).decision == Allow
    ensures (r.toolId, r.toolVersion) in tools
    ensures var tool := tools[(r.toolId, r.toolVersion)];
            Evaluate(r, tools) ==
            PolicyDecision(Allow, Authorized,
                           if tool.maximumDuration.Some?
                           then [ExecutionLimit(tool.maximumDuration.value, tool.maximumTargets)] else [])
  {}

  /** The confirmation obligation is exact: it is asked for only when nothing else is missing, and
      fulfilling it as asked turns the decision into ALLOW. */
  lemma FulfilledObligationAllows(r: Request, tools: Tools, c: Confirmation)
    requires Evaluate(r, tools).decision == AllowWithConfirmation
    requires c.actorId == r.actor.actorId && c.deviceId == r.device.deviceId && c.validUntil > r.evaluatedAt
    ensures |Evaluate(r, tools).obligations| == 1 && Evaluate(r, tools).obligations[0].ConfirmPlan?
    ensures Evaluate(r, tools).obligations[0] == ConfirmPlan(c.planHash, c.means)
            ==> Evaluate(r.(confirmation := Some(c)), tools).decision == Allow
  {}

  /** Likewise a demand for a physical confirmation: only the method was wrong. */
  lemma PhysicalConfirmationSuffices(r: Request, tools: Tools)
    requires Evaluate(r, tools).decision == RequirePhysicalConfirmation
    ensures r.confirmation.Some?
    ensures Evaluate(r.(confirmation := Some(r.confirmation.value.(means := PhysicalMethod))), tools).decision == Allow
  {
    hide Evaluate, Entitled;
    PhysicalDemand(r, tools);
    AllowIff(r.(confirmation := Some(r.confirmation.value.(means := PhysicalMethod))), tools);
  }

  /** When physical confirmation is demanded: everything but the method of the confirmation is there. */
  lemma PhysicalDemand(r: Request, tools: Tools)
    requires Evaluate(r, tools).decision == RequirePhysicalConfirmation
    ensures (r.toolId, r.toolVersion) in tools && r.confirmation.Some? && Confirmed(r, false)
    ensures var approved := r.(confirmation := Some(r.confirmation.value.(means := PhysicalMethod)));
            Entitled(approved, tools[(r.toolId, r.toolVersion)])
  {}
}
