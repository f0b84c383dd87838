/** The policy engine: risk scoring and the first matching rule. */
module Policy {
  import opened Options
  import opened Domains

  datatype ActionType =
    | OpenPage | ReadPage | FillForm | ClickButton | DownloadFile | SubmitForm | ChangePlan
    | CancelSubscription | InviteUser | ChangeBillingDetails | MakePurchase | CredentialInjection

  datatype AgentStatus = Active | Paused | Revoked

  datatype RiskLevel = Low | Medium | High | Critical

  datatype RiskSignal =
    | UnknownDomain | DestructiveKeyword | FinancialAmountPresent | CredentialUsed | NewVendor | FirstRunForAgent
    | SubmitButton | DownloadSensitiveFile | PlanChangeDetected | CancelDetected | PaymentDetected

  datatype Decision = Allow | RequireApproval | Deny

  datatype Rule =
    | AgentInactive | DomainBlocked | DomainNotAllowed | ActionDenied(action: ActionType) | AmountHardLimit
    | ActionRequiresApproval(action: ActionType) | AmountRequiresApproval | AmountAutoApproved
    | RiskRequiresApproval(risk: RiskLevel) | ActionNotAllowed(action: ActionType) | ActionAllowed(action: ActionType)

  datatype Snapshot = Snapshot(
    allowedDomains: seq<string>,
    blockedDomains: seq<string>,
    allowedActions: seq<ActionType>,
    deniedActions: seq<ActionType>,
    approvalRequiredActions: seq<ActionType>,
    autoApproveBelowCents: int,
    approvalRequiredAboveCents: int,
    denyAboveCents: int,
    dangerKeywords: seq<string>)

  /** `host` is the lower-case host name of the website. */
  datatype Input = Input(
    agentStatus: AgentStatus,
    host: string,
    action: ActionType,
    amountCents: Option<int>,
    riskSignals: seq<RiskSignal>,
    policy: Snapshot)

  datatype Evaluation = Evaluation(decision: Decision, risk: RiskLevel, matchedRules: seq<Rule>)

  // ---------------------------------------------------------------- risk

  /** `ACTION_RISK_DEFAULTS`. */
  function DefaultRisk(action: ActionType): RiskLevel {
    match action
    case OpenPage => Low
    case ReadPage => Low
    case DownloadFile => Low
    case FillForm => Medium
    case ClickButton => Medium
    case CredentialInjection => Medium
    case SubmitForm => High
    case ChangePlan => High
    case MakePurchase => High
    case CancelSubscription => Critical
    case InviteUser => Critical
    case ChangeBillingDetails => Critical
  }

  function RiskForSignal(signal: RiskSignal): RiskLevel {
    match signal
    case CredentialUsed => Medium
    case FinancialAmountPresent => Medium
    case DownloadSensitiveFile => Medium
    case FirstRunForAgent => Medium
    case _ => High
  }

  function Rank(risk: RiskLevel): nat {
    match risk
    case Low => 0
    case Medium => 1
    case High => 2
    case Critical => 3
  }

  /** `maxRisk`. */
  function MaxRisk(left: RiskLevel, right: RiskLevel): RiskLevel {
    if Rank(right) > Rank(left) then right else left
  }

  /** The score is the least level above the action's default and the level of every signal. */
  ghost predicate IsJoin(risk: RiskLevel, action: ActionType, signals: seq<RiskSignal>) {
    && Rank(DefaultRisk(action)) <= Rank(risk)
    && (forall s | s in signals :: Rank(RiskForSignal(s)) <= Rank(risk))
    && (risk == DefaultRisk(action) || exists s | s in signals :: RiskForSignal(s) == risk)
  }

  function Score(action: ActionType, signals: seq<RiskSignal>): RiskLevel {
    if signals == [] then DefaultRisk(action)
    else MaxRisk(Score(action, signals[..|signals| - 1]), RiskForSignal(signals[|signals| - 1]))
  }

  lemma {:induction false} ScoreIsJoin(action: ActionType, signals: seq<RiskSignal>)
    ensures IsJoin(Score(action, signals), action, signals)
  {
    if signals != [] {
      var n := |signals| - 1;
      ScoreIsJoin(action, signals[..n]);
      assert signals == signals[..n] + [signals[n]];
    }
  }

  /** `scoreRisk`. */
  method ScoreRisk(action: ActionType, signals: seq<RiskSignal>) returns (risk: RiskLevel)
    ensures risk == Score(action, signals) && IsJoin(risk, action, signals)
  {
    risk := DefaultRisk(action);
    var i := 0;
    while i < |signals|
      invariant 0 <= i <= |signals| && risk == Score(action, signals[..i])
    {
      assert signals[..i + 1][..i] == signals[..i];
      risk := MaxRisk(risk, RiskForSignal(signals[i]));
      i := i + 1;
    }
    assert signals[..i] == signals;
    ScoreIsJoin(action, signals);
  }

  /** More signals never lower the score; order and repetition do not matter. */
  lemma ScoreMonotone(action: ActionType, signals: seq<RiskSignal>, more: seq<RiskSignal>)
    requires forall s | s in signals :: s in more
    ensures Rank(Score(action, signals)) <= Rank(Score(action, more))
    ensures (forall s | s in more :: s in signals) ==> Score(action, signals) == Score(action, more)
  {
    ScoreIsJoin(action, signals);
    ScoreIsJoin(action, more);
  }

  /** Signals that alone ask for nobody's approval. */
  predicate IsMild(s: RiskSignal) {
    s == CredentialUsed || s == FinancialAmountPresent || s == DownloadSensitiveFile || s == FirstRunForAgent
  }

  /** What each score means, by the actions and signals themselves. */
  lemma ScoreMeans(action: ActionType, signals: seq<RiskSignal>)
    ensures Score(action, signals) == Low <==>
              (action == OpenPage || action == ReadPage || action == DownloadFile) && signals == []
    ensures Score(action, signals) in {High, Critical} <==>
              action in {SubmitForm, ChangePlan, MakePurchase, CancelSubscription, InviteUser, ChangeBillingDetails}
              || exists s | s in signals :: !IsMild(s)
    ensures Score(action, signals) == Critical <==> action in {CancelSubscription, InviteUser, ChangeBillingDetails}
  {
    var risk := Score(action, signals);
    ScoreIsJoin(action, signals);
    forall s ensures Rank(RiskForSignal(s)) == if IsMild(s) then 1 else 2 {
    }
    if signals != [] {
      assert signals[0] in signals && Rank(RiskForSignal(signals[0])) >= 1;
    }
    if s :| s in signals && !IsMild(s) {
      assert Rank(RiskForSignal(s)) == 2;
    }
  }

  // ---------------------------------------------------------------- evaluation

  predicate AtLeast(amount: Option<int>, threshold: int) {
    amount.Some? && amount.value >= threshold
  }

  predicate AutoApproved(input: Input) {
    && input.amountCents.Some? && input.policy.autoApproveBelowCents > 0
    && input.amountCents.value < input.policy.autoApproveBelowCents && input.action in input.policy.allowedActions
  }

  /** A rule that denies before any rule that asks for approval. */
  predicate HardDenied(input: Input, lower: string -> string) {
    || input.agentStatus != Active
    || MatchesAny(input.host, input.policy.blockedDomains, lower)
    || !MatchesAny(input.host, input.policy.allowedDomains, lower)
    || input.action in input.policy.deniedActions
    || AtLeast(input.amountCents, input.policy.denyAboveCents)
  }

  predicate AskedFor(input: Input) {
    input.action in input.policy.approvalRequiredActions
      || AtLeast(input.amountCents, input.policy.approvalRequiredAboveCents)
  }

  predicate Risky(input: Input) {
    Rank(Score(input.action, input.riskSignals)) >= Rank(High)
  }

  /** The outcome of the rules, taken in their order. */
  function Decide(input: Input, lower: string -> string): Decision {
    if HardDenied(input, lower) then Deny
    else if AskedFor(input) then RequireApproval
    else if AutoApproved(input) then Allow
    else if Risky(input) then RequireApproval
    else if input.action !in input.policy.allowedActions then Deny
    else Allow
  }

  /** The condition a rule stands for, whatever the rules before it say. */
  predicate Fires(rule: Rule, input: Input, lower: string -> string) {
    match rule
    case AgentInactive => input.agentStatus != Active
    case DomainBlocked => MatchesAny(input.host, input.policy.blockedDomains, lower)
    case DomainNotAllowed => !MatchesAny(input.host, input.policy.allowedDomains, lower)
    case ActionDenied(a) => a == input.action && a in input.policy.deniedActions
    case AmountHardLimit => AtLeast(input.amountCents, input.policy.denyAboveCents)
    case ActionRequiresApproval(a) => a == input.action && a in input.policy.approvalRequiredActions
    case AmountRequiresApproval => AtLeast(input.amountCents, input.policy.approvalRequiredAboveCents)
    case AmountAutoApproved => AutoApproved(input)
    case RiskRequiresApproval(risk) => risk == Score(input.action, input.riskSignals) && Risky(input)
    case ActionNotAllowed(a) => a == input.action && a !in input.policy.allowedActions
    case ActionAllowed(a) => a == input.action && a in input.policy.allowedActions
  }

  function Place(rule: Rule): nat {
    match rule
    case AgentInactive => 0
    case DomainBlocked => 1
    case DomainNotAllowed => 2
    case ActionDenied(_) => 3
    case AmountHardLimit => 4
    case ActionRequiresApproval(_) => 5
    case AmountRequiresApproval => 6
    case AmountAutoApproved => 7
    case RiskRequiresApproval(_) => 8
    case ActionNotAllowed(_) => 9
    case ActionAllowed(_) => 10
  }

  function Verdict(rule: Rule): Decision {
    match Place(rule)
    case 5 | 6 | 8 => RequireApproval
    case 7 | 10 => Allow
    case _ => Deny
  }

  ghost predicate IsFirst(rule: Rule, input: Input, lower: string -> string) {
    Fires(rule, input, lower) && forall other | Fires(other, input, lower) :: Place(rule) <= Place(other)
  }

  /** Two rules that are first are the same rule, and its verdict is the decision. */
  lemma FirstRuleDecides(rule: Rule, input: Input, lower: string -> string)
    requires IsFirst(rule, input, lower)
    ensures Verdict(rule) == Decide(input, lower)
    ensures forall other | IsFirst(other, input, lower) :: other == rule
  {
    assert Place(rule) <= Place(ActionAllowed(input.action)) && Place(rule) <= 10;
    assert Fires(ActionAllowed(input.action), input, lower) || Fires(ActionNotAllowed(input.action), input, lower);
    assert HardDenied(input, lower) <==>
      Fires(AgentInactive, input, lower) || Fires(DomainBlocked, input, lower) || Fires(DomainNotAllowed, input, lower)
      || Fires(ActionDenied(input.action), input, lower) || Fires(AmountHardLimit, input, lower);
    assert Fires(ActionRequiresApproval(input.action), input, lower) || Fires(AmountRequiresApproval, input, lower)
       <==> AskedFor(input);
    assert Fires(AmountAutoApproved, input, lower) <==> AutoApproved(input);
    assert Fires(RiskRequiresApproval(Score(input.action, input.riskSignals)), input, lower) <==> Risky(input);
  }

  /** `evaluatePolicy`. */
  method EvaluatePolicy(input: Input, lower: string -> string) returns (r: Evaluation)
    ensures r.decision == Decide(input, lower) && r.risk == Score(input.action, input.riskSignals)
    ensures r.matchedRules != [] && IsFirst(r.matchedRules[0], input, lower)
    ensures r.matchedRules[1..] == if r.matchedRules[0] == AmountAutoApproved then [ActionAllowed(input.action)] else []
  {
    var matchedRules := [];
    var risk := ScoreRisk(input.action, input.riskSignals);
    if input.agentStatus != Active {
      matchedRules := matchedRules + [AgentInactive];
      return Evaluation(Deny, risk, matchedRules);
    }
    if MatchesAny(input.host, input.policy.blockedDomains, lower) {
      matchedRules := matchedRules + [DomainBlocked];
      return Evaluation(Deny, risk, matchedRules);
    }
    if !MatchesAny(input.host, input.policy.allowedDomains, lower) {
      matchedRules := matchedRules + [DomainNotAllowed];
      return Evaluation(Deny, risk, matchedRules);
    }
    if input.action in input.policy.deniedActions {
      matchedRules := matchedRules + [ActionDenied(input.action)];
      return Evaluation(Deny, risk, matchedRules);
    }
    if input.amountCents.Some? && input.amountCents.value >= input.policy.denyAboveCents {
      matchedRules := matchedRules + [AmountHardLimit];
      return Evaluation(Deny, risk, matchedRules);
    }
    if input.action in input.policy.approvalRequiredActions {
      matchedRules := matchedRules + [ActionRequiresApproval(input.action)];
      return Evaluation(RequireApproval, risk, matchedRules);
    }
    if input.amountCents.Some? && input.amountCents.value >= input.policy.approvalRequiredAboveCents {
      matchedRules := matchedRules + [AmountRequiresApproval];
      return Evaluation(RequireApproval, risk, matchedRules);
    }
    if input.amountCents.Some? && input.policy.autoApproveBelowCents > 0 &&
       input.amountCents.value < input.policy.autoApproveBelowCents && input.action in input.policy.allowedActions {
      matchedRules := matchedRules + [AmountAutoApproved];
      matchedRules := matchedRules + [ActionAllowed(input.action)];
      return Evaluation(Allow, risk, matchedRules);
    }
    if risk == High || risk == Critical {
      matchedRules := matchedRules + [RiskRequiresApproval(risk)];
      return Evaluation(RequireApproval, risk, matchedRules);
    }
    if input.action !in input.policy.allowedActions {
      matchedRules := matchedRules + [ActionNotAllowed(input.action)];
      return Evaluation(Deny, risk, matchedRules);
    }
    matchedRules := matchedRules + [ActionAllowed(input.action)];
    return Evaluation(Allow, risk, matchedRules);
  }

  /** A domain of the list is the host or ends it after a dot, by labels. */
  predicate OnDomain(host: string, domains: seq<string>, lower: string -> string) {
    exists i | 0 <= i < |domains| :: LabelSuffix(Labels(lower(domains[i])), Labels(host))
  }

  lemma MatchesAnyByLabels(host: string, domains: seq<string>, lower: string -> string)
    ensures MatchesAny(host, domains, lower) <==> OnDomain(host, domains, lower)
  {
    forall i | 0 <= i < |domains|
      ensures Matches(host, lower(domains[i])) <==> LabelSuffix(Labels(lower(domains[i])), Labels(host))
    {
      MatchesIffLabelSuffix(host, lower(domains[i]));
    }
  }

  /** The request breaks no hard limit: the agent is active, the site allowed and not blocked, the action not denied,
      the amount below the limit. */
  predicate WithinLimits(input: Input, lower: string -> string) {
    && input.agentStatus == Active
    && OnDomain(input.host, input.policy.allowedDomains, lower)
    && !OnDomain(input.host, input.policy.blockedDomains, lower)
    && input.action !in input.policy.deniedActions
    && (input.amountCents.Some? ==> input.amountCents.value < input.policy.denyAboveCents)
  }

  /** No list and no threshold asks for approval. */
  predicate NotAskedFor(input: Input) {
    && input.action !in input.policy.approvalRequiredActions
    && (input.amountCents.Some? ==> input.amountCents.value < input.policy.approvalRequiredAboveCents)
  }

  /** The action is none of the six dangerous ones, and every signal is mild. */
  predicate Harmless(action: ActionType, signals: seq<RiskSignal>) {
    && action in {OpenPage, ReadPage, FillForm, ClickButton, DownloadFile, CredentialInjection}
    && forall s | s in signals :: IsMild(s)
  }

  /** There is an amount, and it is below the threshold for automatic approval, which is set. */
  predicate SmallAmount(input: Input) {
    input.amountCents.Some? && 0 < input.policy.autoApproveBelowCents
    && input.amountCents.value < input.policy.autoApproveBelowCents
  }

  /** Exactly which requests are allowed, and exactly which are denied; all others need approval. */
  lemma DecisionMeans(input: Input, lower: string -> string)
    ensures Decide(input, lower) == Allow <==>
              && WithinLimits(input, lower) && NotAskedFor(input) && input.action in input.policy.allowedActions
              && (Harmless(input.action, input.riskSignals) || SmallAmount(input))
    ensures Decide(input, lower) == Deny <==>
              || !WithinLimits(input, lower)
              || (NotAskedFor(input) && input.action !in input.policy.allowedActions
                  && Harmless(input.action, input.riskSignals))
  {
    MatchesAnyByLabels(input.host, input.policy.allowedDomains, lower);
    MatchesAnyByLabels(input.host, input.policy.blockedDomains, lower);
    ScoreMeans(input.action, input.riskSignals);
    RiskyIff(input);
  }

  /** The first rule, by the limits themselves: for denials what is wrong first, in the order agent, site, action,
      amount; for approvals the list, then the threshold, then the risk. */
  lemma FirstRuleMeans(rule: Rule, input: Input, lower: string -> string)
    requires IsFirst(rule, input, lower)
    ensures rule == AgentInactive <==> input.agentStatus != Active
    ensures rule == DomainBlocked <==>
              input.agentStatus == Active && OnDomain(input.host, input.policy.blockedDomains, lower)
    ensures rule in {AgentInactive, DomainBlocked, DomainNotAllowed} <==>
              || input.agentStatus != Active || OnDomain(input.host, input.policy.blockedDomains, lower)
              || !OnDomain(input.host, input.policy.allowedDomains, lower)
    ensures rule.ActionDenied? ==> rule.action == input.action && input.action in input.policy.deniedActions
    ensures rule == AmountHardLimit ==>
              input.action !in input.policy.deniedActions
              && input.amountCents.Some? && input.amountCents.value >= input.policy.denyAboveCents
    ensures rule.ActionRequiresApproval? ==>
              rule.action == input.action && input.action in input.policy.approvalRequiredActions
    ensures rule == AmountRequiresApproval ==>
              input.action !in input.policy.approvalRequiredActions && input.amountCents.Some?
              && input.amountCents.value >= input.policy.approvalRequiredAboveCents
    ensures rule == AmountAutoApproved <==>
              && WithinLimits(input, lower) && NotAskedFor(input) && SmallAmount(input)
              && input.action in input.policy.allowedActions
    ensures rule.RiskRequiresApproval? ==> rule.risk == Score(input.action, input.riskSignals)
  {
    MatchesAnyByLabels(input.host, input.policy.allowedDomains, lower);
    MatchesAnyByLabels(input.host, input.policy.blockedDomains, lower);
    FirstRuleDecides(rule, input, lower);
    var action := input.action;
    assert Fires(AgentInactive, input, lower) ==> Place(rule) <= 0;
    assert Fires(DomainBlocked, input, lower) ==> Place(rule) <= 1;
    assert Fires(DomainNotAllowed, input, lower) ==> Place(rule) <= 2;
    assert Fires(ActionDenied(action), input, lower) ==> Place(rule) <= 3;
    assert Fires(AmountHardLimit, input, lower) ==> Place(rule) <= 4;
    assert Fires(ActionRequiresApproval(action), input, lower) ==> Place(rule) <= 5;
    assert Fires(AmountRequiresApproval, input, lower) ==> Place(rule) <= 6;
    assert Fires(AmountAutoApproved, input, lower) ==> Place(rule) <= 7;
  }

  lemma RiskyIff(input: Input)
    ensures Risky(input) <==> !Harmless(input.action, input.riskSignals)
  {
    ScoreMeans(input.action, input.riskSignals);
    assert Risky(input) <==> Score(input.action, input.riskSignals) in {High, Critical};
  }

  // ---------------------------------------------------------------- tightening never loosens

  function Strictness(d: Decision): nat {
    match d
    case Allow => 0
    case RequireApproval => 1
    case Deny => 2
  }

  predicate Subset<T(==)>(xs: seq<T>, ys: seq<T>) {
    forall x | x in xs :: x in ys
  }

  /** `b` is `a` with a present amount raised, signals or restrictions added, permissions removed, thresholds
      lowered. */
  ghost predicate Tighter(a: Input, b: Input) {
    && (b.agentStatus == a.agentStatus || b.agentStatus != Active)
    && b.host == a.host && b.action == a.action
    && (if a.amountCents.None? then b.amountCents.None? else AtLeast(b.amountCents, a.amountCents.value))
    && Subset(a.riskSignals, b.riskSignals)
    && Subset(a.policy.blockedDomains, b.policy.blockedDomains)
      && Subset(b.policy.allowedDomains, a.policy.allowedDomains)
    && Subset(a.policy.deniedActions, b.policy.deniedActions)
      && Subset(b.policy.allowedActions, a.policy.allowedActions)
    && Subset(a.policy.approvalRequiredActions, b.policy.approvalRequiredActions)
    && b.policy.autoApproveBelowCents <= a.policy.autoApproveBelowCents
    && b.policy.approvalRequiredAboveCents <= a.policy.approvalRequiredAboveCents
    && b.policy.denyAboveCents <= a.policy.denyAboveCents
  }

  /** Denied by the last rule alone: the action is in no list and nothing before it applied. */
  predicate DeniedByDefault(input: Input, lower: string -> string) {
    !HardDenied(input, lower) && !AskedFor(input) && !Risky(input) && input.action !in input.policy.allowedActions
  }

  lemma MatchesMore(host: string, xs: seq<string>, ys: seq<string>, lower: string -> string)
    requires Subset(xs, ys) && MatchesAny(host, xs, lower)
    ensures MatchesAny(host, ys, lower)
  {
    var i :| 0 <= i < |xs| && Matches(host, lower(xs[i]));
    assert xs[i] in ys;
    var j :| 0 <= j < |ys| && ys[j] == xs[i];
    assert Matches(host, lower(ys[j]));
  }

  lemma TighterDeniesMore(a: Input, b: Input, lower: string -> string)
    requires Tighter(a, b) && HardDenied(a, lower)
    ensures HardDenied(b, lower)
  {
    if MatchesAny(a.host, a.policy.blockedDomains, lower) {
      MatchesMore(a.host, a.policy.blockedDomains, b.policy.blockedDomains, lower);
    }
    if MatchesAny(b.host, b.policy.allowedDomains, lower) {
      MatchesMore(a.host, b.policy.allowedDomains, a.policy.allowedDomains, lower);
    }
  }

  lemma TighterNeverLoosens(a: Input, b: Input, lower: string -> string)
    requires Tighter(a, b) && !DeniedByDefault(a, lower)
    ensures Strictness(Decide(a, lower)) <= Strictness(Decide(b, lower))
  {
    if HardDenied(a, lower) {
      TighterDeniesMore(a, b, lower);
    }
    ScoreMonotone(a.action, a.riskSignals, b.riskSignals);
    assert AskedFor(a) ==> AskedFor(b);
  }

  /** For an allowed action no tightening loosens the decision. */
  lemma MonotoneForAllowedActions(a: Input, b: Input, lower: string -> string)
    requires Tighter(a, b) && a.action in a.policy.allowedActions
    ensures Strictness(Decide(a, lower)) <= Strictness(Decide(b, lower))
  {
    TighterNeverLoosens(a, b, lower);
  }

  /** Exactly the requests denied by default can be loosened by tightening:
      asking for approval of the action turns the denial into an approval request. */
  lemma MonotoneUnlessDeniedByDefault(a: Input, lower: string -> string)
    ensures (forall b | Tighter(a, b) :: Strictness(Decide(a, lower)) <= Strictness(Decide(b, lower)))
       <==> !DeniedByDefault(a, lower)
  {
    if DeniedByDefault(a, lower) {
      var b := a.(policy := a.policy.(approvalRequiredActions := a.policy.approvalRequiredActions + [a.action]));
      assert a.action == b.policy.approvalRequiredActions[|b.policy.approvalRequiredActions| - 1];
      assert Tighter(a, b) && Decide(b, lower) == RequireApproval;
    } else {
      forall b | Tighter(a, b) ensures Strictness(Decide(a, lower)) <= Strictness(Decide(b, lower)) {
        TighterNeverLoosens(a, b, lower);
      }
    }
  }

  // ---------------------------------------------------------------- signals read off an action

  datatype Context = Context(
    host: string,
    action: ActionType,
    amountCents: Option<int>,
    text: string,
    credentialUsed: bool,
    knownVendor: bool,
    firstRunForAgent: bool,
    submitButton: bool,
    downloadSensitiveFile: bool,
    policy: Snapshot)

  predicate OccursAt(text: string, part: string, i: int) {
    0 <= i <= |text| - |part| && text[i..i + |part|] == part
  }

  predicate Includes(text: string, part: string) {
    exists i | 0 <= i <= |text| :: OccursAt(text, part, i)
  }

  predicate Destructive(c: Context, lower: string -> string) {
    exists i | 0 <= i < |c.policy.dangerKeywords| :: Includes(lower(c.text), lower(c.policy.dangerKeywords[i]))
  }

  predicate HasSignal(c: Context, s: RiskSignal, lower: string -> string) {
    match s
    case UnknownDomain => !MatchesAny(c.host, c.policy.allowedDomains, lower) || (c.credentialUsed && !c.knownVendor)
    case FinancialAmountPresent => c.amountCents.Some? && c.amountCents.value > 0
    case CredentialUsed => c.credentialUsed
    case NewVendor => c.credentialUsed && !c.knownVendor
    case FirstRunForAgent => c.firstRunForAgent
    case SubmitButton => c.submitButton || c.action == SubmitForm
    case DownloadSensitiveFile => c.downloadSensitiveFile
    case PlanChangeDetected => c.action == ChangePlan
    case CancelDetected => c.action == CancelSubscription
    case PaymentDetected => c.action == MakePurchase
    case DestructiveKeyword => Destructive(c, lower)
  }

  /** `signals.add`. */
  method Add(signals: set<RiskSignal>, signal: RiskSignal) returns (r: set<RiskSignal>)
    ensures forall s :: s in r <==> s == signal || s in signals
  {
    r := signals + {signal};
  }

  predicate FromOrigin(s: RiskSignal) {
    s in {UnknownDomain, FinancialAmountPresent, CredentialUsed, NewVendor}
  }

  predicate FromStep(s: RiskSignal) {
    s in {FirstRunForAgent, SubmitButton, DownloadSensitiveFile}
  }

  /** `extractRiskSignals`, the signals of the site, the amount and the credential. */
  method OriginSignals(c: Context, lower: string -> string) returns (signals: set<RiskSignal>)
    ensures forall s :: s in signals <==> FromOrigin(s) && HasSignal(c, s, lower)
  {
    signals := {};
    if !MatchesAny(c.host, c.policy.allowedDomains, lower) {
      signals := Add(signals, UnknownDomain);
    }
    if c.amountCents.Some? && c.amountCents.value > 0 {
      signals := Add(signals, FinancialAmountPresent);
    }
    if c.credentialUsed {
      signals := Add(signals, CredentialUsed);
      if !c.knownVendor {
        signals := Add(signals, UnknownDomain);
        signals := Add(signals, NewVendor);
      }
    }
  }

  /** `extractRiskSignals`, the signals of the browser step. */
  method StepSignals(c: Context, before: set<RiskSignal>, lower: string -> string) returns (signals: set<RiskSignal>)
    ensures forall s :: s in signals <==> s in before || (FromStep(s) && HasSignal(c, s, lower))
  {
    signals := before;
    if c.firstRunForAgent {
      signals := Add(signals, FirstRunForAgent);
    }
    if c.submitButton || c.action == SubmitForm {
      signals := Add(signals, SubmitButton);
    }
    if c.downloadSensitiveFile {
      signals := Add(signals, DownloadSensitiveFile);
    }
  }

  /** `extractRiskSignals`; the result is sorted there, here it is a set. */
  method ExtractRiskSignals(c: Context, lower: string -> string) returns (signals: set<RiskSignal>)
    ensures forall s :: s in signals <==> HasSignal(c, s, lower)
  {
    signals := OriginSignals(c, lower);
    signals := StepSignals(c, signals, lower);
    if c.action == ChangePlan {
      signals := Add(signals, PlanChangeDetected);
    }
    if c.action == CancelSubscription {
      signals := Add(signals, CancelDetected);
    }
    if c.action == MakePurchase {
      signals := Add(signals, PaymentDetected);
    }
    if Destructive(c, lower) {
      signals := Add(signals, DestructiveKeyword);
    }
  }

  /** Nothing about the request raises its risk above that of a credential, an amount, a sensitive file or a first run:
      the site is an allowed one, no form is submitted, a credential in use belongs to a known vendor,
        and the text holds
      no danger keyword. */
  ghost predicate Calm(c: Context, lower: string -> string) {
    && OnDomain(c.host, c.policy.allowedDomains, lower)
    && !c.submitButton && (c.credentialUsed ==> c.knownVendor)
    && (forall i, before, after | 0 <= i < |c.policy.dangerKeywords| ::
          lower(c.text) != before + lower(c.policy.dangerKeywords[i]) + after)
    && c.action in {OpenPage, ReadPage, FillForm, ClickButton, DownloadFile, CredentialInjection}
  }

  lemma IncludesIff(text: string, part: string)
    ensures Includes(text, part) <==> exists before, after :: text == before + part + after
  {
    if i :| 0 <= i <= |text| && OccursAt(text, part, i) {
      assert text == text[..i] + part + text[i + |part|..];
    }
    if before, after :| text == before + part + after {
      assert OccursAt(text, part, |before|);
    }
  }

  lemma DestructiveIff(c: Context, lower: string -> string)
    ensures Destructive(c, lower) <==>
            exists i, before, after | 0 <= i < |c.policy.dangerKeywords| ::
              lower(c.text) == before + lower(c.policy.dangerKeywords[i]) + after
  {
    forall i | 0 <= i < |c.policy.dangerKeywords|
      ensures Includes(lower(c.text), lower(c.policy.dangerKeywords[i])) <==>
              exists before, after :: lower(c.text) == before + lower(c.policy.dangerKeywords[i]) + after
    {
      IncludesIff(lower(c.text), lower(c.policy.dangerKeywords[i]));
    }
  }

  /** The signals read off a request are harmless exactly for calm requests. */
  lemma HarmlessIffCalm(c: Context, signals: seq<RiskSignal>, lower: string -> string)
    requires forall s :: s in signals <==> HasSignal(c, s, lower)
    ensures Harmless(c.action, signals) <==> Calm(c, lower)
  {
    MatchesAnyByLabels(c.host, c.policy.allowedDomains, lower);
    DestructiveIff(c, lower);
    if Harmless(c.action, signals) {
      assert !IsMild(UnknownDomain) && !IsMild(NewVendor) && !IsMild(SubmitButton) && !IsMild(DestructiveKeyword);
      assert UnknownDomain !in signals && NewVendor !in signals && SubmitButton !in signals
        && DestructiveKeyword !in signals;
    }
  }

  /** Scored by the signals read off it, a request is of low risk exactly when it opens, reads or downloads, is calm,
      and involves no amount, credential, first run or sensitive file. */
  lemma LowRiskIff(c: Context, signals: seq<RiskSignal>, lower: string -> string)
    requires forall s :: s in signals <==> HasSignal(c, s, lower)
    ensures Score(c.action, signals) == Low <==>
              && Calm(c, lower) && (c.action == OpenPage || c.action == ReadPage || c.action == DownloadFile)
              && !(c.amountCents.Some? && c.amountCents.value > 0)
              && !c.credentialUsed && !c.firstRunForAgent && !c.downloadSensitiveFile
  {
    ScoreMeans(c.action, signals);
    HarmlessIffCalm(c, signals, lower);
    if signals == [] {
      assert CredentialUsed !in signals && FinancialAmountPresent !in signals;
      assert FirstRunForAgent !in signals && DownloadSensitiveFile !in signals;
    } else {
      assert HasSignal(c, signals[0], lower);
    }
  }

  /** A request scored by the signals read off it is allowed exactly when it breaks no limit, is asked for by no list
      and no threshold, is an allowed action, and is calm or of a small amount. */
  lemma AllowedIsHarmless(c: Context, signals: seq<RiskSignal>, status: AgentStatus, lower: string -> string)
    requires forall s :: s in signals <==> HasSignal(c, s, lower)
    ensures var input := Input(status, c.host, c.action, c.amountCents, signals, c.policy);
            Decide(input, lower) == Allow <==>
              && WithinLimits(input, lower) && NotAskedFor(input) && c.action in c.policy.allowedActions
              && (Calm(c, lower) || SmallAmount(input))
  {
    DecisionMeans(Input(status, c.host, c.action, c.amountCents, signals, c.policy), lower);
    HarmlessIffCalm(c, signals, lower);
  }
}
