/** What every decision of the policy evaluator means, and what the registry takes. */
module PolicyDecisions {
  import opened Options
  import opened Policy

  /** A manifest is registered exactly when it is well formed and its id and version are free. */
  lemma RegisteredExactlyWhen(tools: Tools, m: ToolManifest)
    ensures var (after, error) := Register(tools, m);
            && (error.None? <==> WellFormed(m) && (m.toolId, m.version) !in tools)
            && after == if error.None? then tools[(m.toolId, m.version) := m] else tools
  {}

  /** A refused manifest tells what was wrong. */
  lemma RegistrationRefusalsTell(tools: Tools, m: ToolManifest)
    ensures var error := Register(tools, m).1;
            error.Some? ==>
              match error.value
              case R3NotAllowed => m.risk == R3
              case PhysicalWithoutConfirmation => m.requiresPhysicalConfirmation && !m.requiresConfirmation
              case DurationRequired => (m.risk == R1 || m.risk == R2) && m.maximumDuration.None?
              case ScopeRequiredForR2 => m.risk == R2 && m.authorization != ByOperationScope
              case ConfirmationRequiredForR2 => m.risk == R2 && !m.requiresConfirmation
              case RoleRequiredForR2 => m.risk == R2 && m.requiredRoles == {}
              case EmptyToolId => m.toolId == ""
              case VersionNotPositive => m.version < 1
              case TargetsNotPositive => m.maximumTargets < 1
              case DurationNotPositive => m.maximumDuration.Some? && m.maximumDuration.value < 1
              case AlreadyRegistered => (m.toolId, m.version) in tools
  {}

  /** Registered, one organization, and a trusted device. */
  ghost predicate Recognized(r: Request, tools: Tools) {
    (r.toolId, r.toolVersion) in tools && OneOrganization(r) && r.device.trust == Trusted
  }

  /** In the right profile, with the roles, capabilities and number of targets that the tool asks for. */
  ghost predicate Qualified(r: Request, tool: ToolManifest) {
    && r.profile == tool.requiredProfile
    && tool.requiredRoles <= r.actor.roles && tool.requiredCapabilities <= r.device.capabilities
    && 0 < |r.targets| <= tool.maximumTargets
  }

  /** A change of profile is asked for exactly when nothing before the profile is wrong. */
  lemma ProfileChangeExactlyWhen(r: Request, tools: Tools)
    ensures Evaluate(r, tools).decision == RequireProfileChange <==>
              Recognized(r, tools) && r.profile != tools[(r.toolId, r.toolVersion)].requiredProfile
    ensures Evaluate(r, tools).decision == RequireProfileChange <==> Evaluate(r, tools).reason == ProfileRequired
  {}

  /** A scope is asked for exactly by a qualified request that brings none to a tool that needs one. */
  lemma ScopeExactlyWhen(r: Request, tools: Tools)
    ensures Evaluate(r, tools).decision == RequireScope <==>
              && Recognized(r, tools)
              && var tool := tools[(r.toolId, r.toolVersion)];
                 Qualified(r, tool) && tool.authorization == ByOperationScope && r.scope.None?
    ensures Evaluate(r, tools).decision == RequireScope <==> Evaluate(r, tools).reason == ScopeRequired
  {}

  /** Confirmation is asked for exactly by an entitled request without one, of exactly its plan; physical
      confirmation exactly by one whose otherwise good confirmation was not physical. */
  lemma ConfirmationExactlyWhen(r: Request, tools: Tools)
    ensures Evaluate(r, tools).decision == AllowWithConfirmation <==>
              && (r.toolId, r.toolVersion) in tools
              && var tool := tools[(r.toolId, r.toolVersion)];
                 Entitled(r, tool) && tool.requiresConfirmation && r.confirmation.None?
    ensures Evaluate(r, tools).decision == AllowWithConfirmation ==>
              Evaluate(r, tools).obligations ==
              [ConfirmPlan(r.planHash, if tools[(r.toolId, r.toolVersion)].requiresPhysicalConfirmation
                                       then PhysicalMethod else OperatorMethod)]
    ensures Evaluate(r, tools).decision == RequirePhysicalConfirmation <==>
              && (r.toolId, r.toolVersion) in tools
              && var tool := tools[(r.toolId, r.toolVersion)];
                 && Entitled(r, tool) && tool.requiresConfirmation && tool.requiresPhysicalConfirmation
                 && Confirmed(r, false) && r.confirmation.value.means != PhysicalMethod
    ensures Evaluate(r, tools).reason == AuthorizedConfirmationRequired <==>
              Evaluate(r, tools).decision == AllowWithConfirmation || Evaluate(r, tools).decision == RequirePhysicalConfirmation
  {}

  lemma AllowReason(r: Request, tools: Tools)
    ensures Evaluate(r, tools).decision == Allow <==> Evaluate(r, tools).reason == Authorized
  {}

  /** What ALLOW carries: the limits of the tool, if it has one for the duration. */
  lemma AllowCarries(r: Request, tools: Tools)
    ensures Evaluate(r, tools).decision == Allow <==> Evaluate(r, tools).reason == Authorized
    ensures Evaluate(r, tools).decision == Allow ==>
              && (r.toolId, r.toolVersion) in tools
              && var tool := tools[(r.toolId, r.toolVersion)];
                 Evaluate(r, tools).obligations ==
                 if tool.maximumDuration.Some? then [ExecutionLimit(tool.maximumDuration.value, tool.maximumTargets)] else []
  {
    hide Evaluate;
    AllowReason(r, tools);
    if Evaluate(r, tools).decision == Allow {
      AllowedDecision(r, tools);
    }
  }

  /** A denial tells what was wrong. */
  lemma DenialsTell(r: Request, tools: Tools)
    ensures var d := Evaluate(r, tools);
            d.decision == Deny ==>
              && d.obligations == []
              && (d.reason == ToolNotFound <==> (r.toolId, r.toolVersion) !in tools)
              && (d.reason != ToolNotFound ==>
                    var tool := tools[(r.toolId, r.toolVersion)];
                    match d.reason
                    case OrganizationMismatch => !OneOrganization(r)
                    case DeviceNotTrusted => r.device.trust != Trusted
                    case ActorRoleRequired => !(tool.requiredRoles <= r.actor.roles)
                    case CapabilityRequired => !(tool.requiredCapabilities <= r.device.capabilities)
                    case TargetCountInvalid => !(0 < |r.targets| <= tool.maximumTargets)
                    case GrantRequired => tool.authorization == ByResourceGrant && r.grant.None?
                    case GrantDisabled => r.grant.Some? && !r.grant.value.enabled
                    case GrantExpired => r.grant.Some? && r.grant.value.validUntil <= r.evaluatedAt
                    case ScopeExpired => r.scope.Some? && r.scope.value.validUntil <= r.evaluatedAt
                    case ToolNotAuthorized => r.scope.Some? && r.toolId !in r.scope.value.toolIds
                    case TargetNotAuthorized =>
                      || (r.grant.Some? && exists t :: t in r.targets && t !in r.grant.value.resourceIds)
                      || (r.scope.Some? && exists t :: t in r.targets && t !in r.scope.value.targetIds)
                    case DurationInvalid => tool.maximumDuration.Some? && !(r.duration.Seconds? && r.duration.n >= 1)
                    case DurationLimitExceeded =>
                      tool.maximumDuration.Some? && r.duration.Seconds? && r.duration.n > tool.maximumDuration.value
                    case ConfirmationExpired => r.confirmation.Some? && r.confirmation.value.validUntil <= r.evaluatedAt
                    case ConfirmationMismatch =>
                      && r.confirmation.Some?
                      && var c := r.confirmation.value;
                         c.actorId != r.actor.actorId || c.deviceId != r.device.deviceId || c.planHash != r.planHash
                    case _ => false)
  {
    hide AuthorizeTargets, ValidateDuration, ValidateConfirmation;
    if (r.toolId, r.toolVersion) in tools {
      var tool := tools[(r.toolId, r.toolVersion)];
      AuthorizationTells(r, tool.authorization);
      DurationTells(r.duration, tool.maximumDuration);
      ConfirmationTells(r, tool.requiresPhysicalConfirmation);
    }
  }

  lemma AuthorizationTells(r: Request, kind: AuthorizationKind)
    ensures var d := AuthorizeTargets(r, kind);
            d.Some? && d.value.decision == Deny ==>
              && d.value.obligations == []
              && match d.value.reason
                 case GrantRequired => kind == ByResourceGrant && r.grant.None?
                 case GrantDisabled => r.grant.Some? && !r.grant.value.enabled
                 case GrantExpired => r.grant.Some? && r.grant.value.validUntil <= r.evaluatedAt
                 case ScopeExpired => r.scope.Some? && r.scope.value.validUntil <= r.evaluatedAt
                 case ToolNotAuthorized => r.scope.Some? && r.toolId !in r.scope.value.toolIds
                 case TargetNotAuthorized =>
                   || (r.grant.Some? && exists t :: t in r.targets && t !in r.grant.value.resourceIds)
                   || (r.scope.Some? && exists t :: t in r.targets && t !in r.scope.value.targetIds)
                 case _ => false
  {}

  lemma DurationTells(duration: Duration, maximum: Option<int>)
    ensures var d := ValidateDuration(duration, maximum);
            d.Some? ==>
              && maximum.Some? && d.value.obligations == []
              && ((d.value.reason == DurationInvalid && !(duration.Seconds? && duration.n >= 1))
                  || (d.value.reason == DurationLimitExceeded && duration.Seconds? && duration.n > maximum.value))
  {}

  lemma ConfirmationTells(r: Request, physical: bool)
    ensures var d := ValidateConfirmation(r, physical);
            d.Some? && d.value.decision == Deny ==>
              && d.value.obligations == [] && r.confirmation.Some?
              && var c := r.confirmation.value;
                 || (d.value.reason == ConfirmationExpired && c.validUntil <= r.evaluatedAt)
                 || (d.value.reason == ConfirmationMismatch
                     && (c.actorId != r.actor.actorId || c.deviceId != r.device.deviceId || c.planHash != r.planHash))
  {}
}
