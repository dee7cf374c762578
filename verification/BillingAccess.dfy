/** What the subscription documents say, after any run of their writers, in terms of the last steps that wrote them. */
module BillingAccess {
  import opened Base
  import opened Billing
  import opened BillingRaces

  predicate Writes(s: State, step: Step, org: Org) {
    AppliesTo(s, step, org) || Manual(step, org) || (step.StatusBatch? && step.org == org)
  }

  predicate WritesAt(steps: seq<Step>, i: nat, org: Org)
    requires i < |steps|
  {
    Writes(Run(EMPTY, steps[..i]), steps[i], org)
  }

  /** The organization has access: an active subscription was reported, the subscription was resumed, or a manual term was granted. */
  predicate Grants(step: Step) {
    match step
    case Webhook(e, _) => e.subscription.status == "active"
    case StatusBatch(_, action, _, _, _) => action == Resume
    case ManualBatch(_, _, _) => true
    case CreateOrganization(_, _) => false
  }

  /** The billing status that the step writes. */
  predicate Tells(step: Step, status: Value) {
    match step
    case Webhook(e, _) => status == Text(e.subscription.status)
    case StatusBatch(_, Pause, _, _, _) => status == Text("paused")
    case StatusBatch(_, Resume, _, _, _) => status == Text("active")
    case StatusBatch(_, Cancel, _, _, _) => status == Text("cancelled")
    case ManualBatch(_, _, _) => status == Text("active")
    case CreateOrganization(_, _) => false
  }

  /** Both copies of the organization's document. */
  ghost predicate InBoth(s: State, org: Org, says: Doc -> bool) {
    org in s.global && org in s.tenant && says(s.global[org]) && says(s.tenant[org])
  }

  /** Who wrote the document last, when, and why. */
  predicate SignedBy(d: Doc, step: Step) {
    match step
    case Webhook(_, now) => d.updatedAt == Instant(now)
    case StatusBatch(_, _, reason, actor, now) => d.updatedAt == Instant(now) && d.updatedBy == Text(actor) && d.statusReason == Text(reason)
    case ManualBatch(a, _, now) => d.updatedAt == Instant(now) && d.updatedBy == Text(a.actor)
    case CreateOrganization(_, _) => false
  }

  predicate AccessAs(d: Doc, step: Step) {
    && SignedBy(d, step)
    && (d.accessStatus == Text("active") <==> Grants(step))
    && (d.accessStatus == Text("restricted") <==> !Grants(step))
    && Tells(step, d.billingStatus)
  }

  lemma AccessWritten(s: State, step: Step, org: Org)
    requires Writes(s, step, org)
    ensures InBoth(Next(s, step), org, d => AccessAs(d, step))
  {
  }

  lemma Unwritten(s: State, step: Step, org: Org)
    requires !Writes(s, step, org)
    ensures var s' := Next(s, step);
            && (org in s'.global <==> org in s.global) && (org in s.global ==> s'.global[org] == s.global[org])
            && (org in s'.tenant <==> org in s.tenant) && (org in s.tenant ==> s'.tenant[org] == s.tenant[org])
  {
  }

  /** Over every run, access and billing status in both copies are as the last step that wrote the document says; without such a step
      there is no document. */
  lemma {:induction false} AccessExactly(steps: seq<Step>, org: Org, i: nat)
    requires i <= |steps| && forall j :: i <= j < |steps| ==> !WritesAt(steps, j, org)
    requires i > 0 ==> WritesAt(steps, i - 1, org)
    ensures i > 0 ==> InBoth(Run(EMPTY, steps), org, d => AccessAs(d, steps[i - 1]))
    ensures i == 0 ==> org !in Run(EMPTY, steps).global && org !in Run(EMPTY, steps).tenant
  {
    if steps != [] {
      var n := |steps| - 1;
      var init, s := steps[..n], Run(EMPTY, steps[..n]);
      if i == |steps| {
        AccessWritten(s, steps[n], org);
      } else {
        forall j | 0 <= j < n ensures WritesAt(init, j, org) == WritesAt(steps, j, org) {
          assert init[..j] == steps[..j];
        }
        AccessExactly(init, org, i);
        assert !WritesAt(steps, n, org);
        Unwritten(s, steps[n], org);
      }
    }
  }

  /** A manual activation is refused for an unknown organization, while a provider subscription is pending, active, on hold or paused,
      and for an end that is not in the future. */
  lemma ActivationGranted(s: State, a: Activation, now: int)
    ensures CanActivate(s, a, now) <==>
            && a.org in s.names && (a.endsAt.None? || a.endsAt.value > now)
            && !(a.org in s.global && s.global[a.org].source == Text("dodo") &&
                 (s.global[a.org].billingStatus == Text("pending") || s.global[a.org].billingStatus == Text("active") ||
                  s.global[a.org].billingStatus == Text("on_hold") || s.global[a.org].billingStatus == Text("paused")))
  {
  }

  // ----- Plan, term and customer -----

  /** A step that says what the subscription is, and not only its status. */
  predicate Defines(s: State, step: Step, org: Org) {
    AppliesTo(s, step, org) || Manual(step, org)
  }

  predicate DefinesAt(steps: seq<Step>, i: nat, org: Org)
    requires i < |steps|
  {
    Defines(Run(EMPTY, steps[..i]), steps[i], org)
  }

  predicate At(v: Value, t: Option<int>) {
    if t.Some? then v == Instant(t.value) else v == Null
  }

  /** Plan, price, term, period and customer are those of the step. */
  predicate DefinedBy(d: Doc, step: Step) {
    match step
    case Webhook(e, now) =>
      && d.source == Text("dodo") && d.organizationId == Text(e.tenant.org)
      && d.planId == Text(e.tenant.plan.id) && d.planName == Text(e.tenant.plan.name) && d.limits == Number(e.tenant.plan.limits)
      && d.billingCycle == Text(e.tenant.cycle) && d.priceLkr == Number(e.tenant.price)
      && d.providerPriceMinor == Number(e.subscription.amount) && d.currency == Text(e.subscription.currency)
      && At(d.startsAt, e.subscription.createdAt) && At(d.endsAt, e.subscription.expiresAt)
      && At(d.currentPeriodStart, e.subscription.previousBilling) && At(d.currentPeriodEnd, e.subscription.nextBilling)
      && At(d.pausedAt, e.subscription.pausedAt) && At(d.cancelledAt, e.subscription.cancelledAt)
      && d.cancelAtPeriodEnd == Flag(e.subscription.cancelAtPeriodEnd) && d.trialPeriodDays == Number(e.subscription.trialDays)
      && d.providerCustomerId == Text(e.subscription.customerId) && d.providerSubscriptionId == Text(e.subscription.id)
      && d.providerProductId == Text(e.subscription.productId) && d.providerEventType == Text(e.kind)
      && d.providerEventAt == Instant(match e.at case Some(t) => t case None => now)
    case ManualBatch(a, _, now) =>
      && d.source == Text("manual") && d.organizationId == Text(a.org)
      && d.planId == Text(a.plan.id) && d.planName == Text(a.plan.name) && d.limits == Number(a.plan.limits)
      && d.billingCycle == Text(a.cycle) && d.priceLkr == Number(a.price) && d.currency == Text("LKR")
      && d.startsAt == Instant(match a.startsAt case Some(t) => t case None => now) && At(d.endsAt, a.endsAt)
      && d.currentPeriodStart == Absent && d.currentPeriodEnd == Absent && d.pausedAt == Absent && d.cancelledAt == Absent
      && d.cancelAtPeriodEnd == Flag(false) && d.providerCustomerId == Null && d.providerSubscriptionId == Null
      && d.providerProductId == Absent && d.providerEventAt == Absent
    case _ => false
  }

  lemma DefinitionWritten(s: State, step: Step, org: Org)
    requires Defines(s, step, org)
    ensures InBoth(Next(s, step), org, d => DefinedBy(d, step))
  {
  }

  lemma DefinitionKept(s: State, step: Step, org: Org, definer: Step)
    requires !Defines(s, step, org) && InBoth(s, org, d => DefinedBy(d, definer))
    ensures InBoth(Next(s, step), org, d => DefinedBy(d, definer))
  {
    if !Writes(s, step, org) {
      Unwritten(s, step, org);
    }
  }

  /** Over every run, plan, limits, term, period and customer in both copies are those of the last applied event or manual batch,
      whatever status changes came after it. */
  lemma {:induction false} DefinitionExactly(steps: seq<Step>, org: Org, i: nat)
    requires i < |steps| && DefinesAt(steps, i, org) && forall j :: i < j < |steps| ==> !DefinesAt(steps, j, org)
    ensures InBoth(Run(EMPTY, steps), org, d => DefinedBy(d, steps[i]))
  {
    var n := |steps| - 1;
    var init, s := steps[..n], Run(EMPTY, steps[..n]);
    if i == n {
      DefinitionWritten(s, steps[n], org);
    } else {
      forall j | 0 <= j < n ensures DefinesAt(init, j, org) == DefinesAt(steps, j, org) {
        assert init[..j] == steps[..j];
      }
      DefinitionExactly(init, org, i);
      assert !DefinesAt(steps, n, org);
      DefinitionKept(s, steps[n], org, steps[i]);
    }
  }

  /** The name under which the step writes the platform's copy. */
  function NameAt(steps: seq<Step>, i: nat, org: Org): Value
    requires i < |steps| && DefinesAt(steps, i, org)
  {
    match steps[i]
    case Webhook(_, _) => Text(Run(EMPTY, steps[..i]).names[org])
    case ManualBatch(_, name, _) => Text(name)
  }

  lemma NameWritten(s: State, step: Step, org: Org)
    ensures var s' := Next(s, step);
            match step
            case Webhook(_, _) => AppliesTo(s, step, org) ==> org in s'.global && s'.global[org].organizationName == Text(s.names[org])
            case ManualBatch(_, name, _) => Manual(step, org) ==> org in s'.global && s'.global[org].organizationName == Text(name)
            case _ => true
    ensures var s' := Next(s, step);
            !Defines(s, step, org) && org in s.global ==> org in s'.global && s'.global[org].organizationName == s.global[org].organizationName
  {
  }

  /** The platform's copy carries the organization's name as the last such step found it. */
  lemma {:induction false} NameExactly(steps: seq<Step>, org: Org, i: nat)
    requires i < |steps| && DefinesAt(steps, i, org) && forall j :: i < j < |steps| ==> !DefinesAt(steps, j, org)
    ensures org in Run(EMPTY, steps).global && Run(EMPTY, steps).global[org].organizationName == NameAt(steps, i, org)
  {
    var n := |steps| - 1;
    var init, s := steps[..n], Run(EMPTY, steps[..n]);
    NameWritten(s, steps[n], org);
    if i < n {
      forall j | 0 <= j < n ensures DefinesAt(init, j, org) == DefinesAt(steps, j, org) {
        assert init[..j] == steps[..j];
      }
      NameExactly(init, org, i);
      assert init[..i] == steps[..i] && !DefinesAt(steps, n, org);
    }
  }

  /** So a provider's document always names its subscription, and a status change is refused for no other reason than that there is no
      document or that its provider does not agree. */
  lemma {:induction false} ProviderIsNamed(steps: seq<Step>, org: Org)
    ensures var s := Run(EMPTY, steps);
            org in s.global && s.global[org].source == Text("dodo") ==> s.global[org].providerSubscriptionId.Text?
    ensures forall agrees :: CanSetStatus(Run(EMPTY, steps), org, agrees) <==>
              org in Run(EMPTY, steps).global && (agrees || Run(EMPTY, steps).global[org].source != Text("dodo"))
  {
    if steps != [] {
      ProviderIsNamed(steps[..|steps| - 1], org);
    }
  }

  predicate AppliesAt(steps: seq<Step>, i: nat, org: Org)
    requires i < |steps|
  {
    AppliesTo(Run(EMPTY, steps[..i]), steps[i], org)
  }

  lemma AccountWritten(s: State, step: Step, org: Org)
    ensures var s' := Next(s, step);
            if AppliesTo(s, step, org) then
              && org in s'.accounts && s'.accounts[org].organizationId == Text(org)
              && s'.accounts[org].providerCustomerId == Text(step.event.subscription.customerId)
            else (org in s'.accounts <==> org in s.accounts) && (org in s.accounts ==> s'.accounts[org] == s.accounts[org])
  {
  }

  /** The billing account names the customer of the last event that applied. */
  lemma {:induction false} AccountNamesCustomer(steps: seq<Step>, org: Org, i: nat)
    requires i < |steps| && AppliesAt(steps, i, org) && forall j :: i < j < |steps| ==> !AppliesAt(steps, j, org)
    ensures var s := Run(EMPTY, steps);
            && org in s.accounts && s.accounts[org].organizationId == Text(org)
            && steps[i].Webhook? && s.accounts[org].providerCustomerId == Text(steps[i].event.subscription.customerId)
  {
    var n := |steps| - 1;
    var init, s := steps[..n], Run(EMPTY, steps[..n]);
    AccountWritten(s, steps[n], org);
    if i < n {
      forall j | 0 <= j < n ensures AppliesAt(init, j, org) == AppliesAt(steps, j, org) {
        assert init[..j] == steps[..j];
      }
      AccountNamesCustomer(init, org, i);
      assert !AppliesAt(steps, n, org);
    }
  }
}
