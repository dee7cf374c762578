/** What the checks of the manual billing writers are worth when other writers come between a check and its batch, and what a manual
    activation does to the order of webhooks. Each result says, for every run, exactly which steps bring a condition of the document
    about and which end it. */
module BillingRaces {
  import opened Base
  import opened Billing

  /** What a writer would want to know of a document: that a provider subscription is running, that it is a provider subscription
      other than the one asked about, or that it was last written for a later time than this. */
  datatype Condition = Running | Other(asked: Value) | Later(time: int)

  predicate Meets(d: Doc, c: Condition) {
    match c
    case Running => HeldByProvider(d)
    case Other(asked) => d.source == Text("dodo") && d.providerSubscriptionId != asked
    case Later(time) => Stale(d, time)
  }

  predicate RunningStatus(status: string) {
    status in {"pending", "active", "on_hold", "paused"}
  }

  /** A webhook of the organization that is not a repeat. */
  predicate Arrives(s: State, step: Step, org: Org) {
    step.Webhook? && step.event.tenant.org == org && org in s.names && step.event.webhookId !in s.seen
  }

  predicate AppliesTo(s: State, step: Step, org: Org) {
    step.Webhook? && step.event.tenant.org == org && Applies(s, step.event, step.now)
  }

  predicate Manual(step: Step, org: Org) {
    step.ManualBatch? && step.activation.org == org
  }

  /** A running subscription is started by an event, or by a pause or resumption of what the provider once sold. A time is reached
      by any event that arrives, since one that does not apply finds an even later one. */
  predicate Starts(s: State, step: Step, org: Org, c: Condition) {
    match c
    case Running =>
      || (AppliesTo(s, step, org) && RunningStatus(step.event.subscription.status))
      || (step.StatusBatch? && step.org == org && !step.action.Cancel? && DocOf(s.global, org).source == Text("dodo"))
    case Other(asked) => AppliesTo(s, step, org) && Text(step.event.subscription.id) != asked
    case Later(time) => Arrives(s, step, org) && EventAt(step.event, step.now) > time
  }

  predicate Ends(s: State, step: Step, org: Org, c: Condition) {
    || Manual(step, org)
    || match c
       case Running =>
         || (AppliesTo(s, step, org) && !RunningStatus(step.event.subscription.status))
         || (step.StatusBatch? && step.org == org && step.action.Cancel?)
       case Other(asked) => AppliesTo(s, step, org) && Text(step.event.subscription.id) == asked
       case Later(_) => false
  }

  lemma RunningAfterStep(s: State, step: Step, org: Org)
    ensures HeldByProvider(DocOf(Next(s, step).global, org)) <==>
            Starts(s, step, org, Running) || (HeldByProvider(DocOf(s.global, org)) && !Ends(s, step, org, Running))
  {
  }

  lemma MeetsAfterStep(s: State, step: Step, org: Org, c: Condition)
    ensures Meets(DocOf(Next(s, step).global, org), c) <==>
            Starts(s, step, org, c) || (Meets(DocOf(s.global, org), c) && !Ends(s, step, org, c))
  {
    match c
    case Running => RunningAfterStep(s, step, org);
    case Other(_) =>
    case Later(_) =>
  }

  predicate StartsAt(s: State, steps: seq<Step>, i: nat, org: Org, c: Condition)
    requires i < |steps|
  {
    Starts(Run(s, steps[..i]), steps[i], org, c)
  }

  predicate EndsAt(s: State, steps: seq<Step>, i: nat, org: Org, c: Condition)
    requires i < |steps|
  {
    Ends(Run(s, steps[..i]), steps[i], org, c)
  }

  predicate LastsFrom(s: State, steps: seq<Step>, i: nat, org: Org, c: Condition)
    requires i < |steps|
  {
    StartsAt(s, steps, i, org, c) && NoEndAfter(s, steps, i, org, c)
  }

  predicate NoEndAfter(s: State, steps: seq<Step>, i: nat, org: Org, c: Condition) {
    forall j :: i < j < |steps| ==> !EndsAt(s, steps, j, org, c)
  }

  /** Some step brings the condition about and no later one ends it. */
  predicate Lasting(s: State, steps: seq<Step>, org: Org, c: Condition) {
    exists i :: 0 <= i < |steps| && LastsFrom(s, steps, i, org, c)
  }

  lemma PrefixAlike(s: State, steps: seq<Step>, n: nat, i: nat, org: Org, c: Condition)
    requires i < n <= |steps|
    ensures StartsAt(s, steps[..n], i, org, c) == StartsAt(s, steps, i, org, c)
    ensures EndsAt(s, steps[..n], i, org, c) == EndsAt(s, steps, i, org, c)
  {
    assert steps[..n][..i] == steps[..i];
  }

  lemma NoEndAppended(s: State, steps: seq<Step>, i: nat, org: Org, c: Condition)
    requires i < |steps| - 1
    ensures NoEndAfter(s, steps, i, org, c) <==>
            NoEndAfter(s, steps[..|steps| - 1], i, org, c) && !EndsAt(s, steps, |steps| - 1, org, c)
  {
    var init := steps[..|steps| - 1];
    if NoEndAfter(s, steps, i, org, c) {
      forall j | i < j < |init| ensures !EndsAt(s, init, j, org, c) {
        PrefixAlike(s, steps, |init|, j, org, c);
      }
    }
    if NoEndAfter(s, init, i, org, c) && !EndsAt(s, steps, |init|, org, c) {
      forall j | i < j < |steps| ensures !EndsAt(s, steps, j, org, c) {
        if j < |init| {
          PrefixAlike(s, steps, |init|, j, org, c);
        }
      }
    }
  }

  lemma LastsFromAppended(s: State, steps: seq<Step>, i: nat, org: Org, c: Condition)
    requires i < |steps| - 1
    ensures LastsFrom(s, steps, i, org, c) <==>
            LastsFrom(s, steps[..|steps| - 1], i, org, c) && !EndsAt(s, steps, |steps| - 1, org, c)
  {
    PrefixAlike(s, steps, |steps| - 1, i, org, c);
    NoEndAppended(s, steps, i, org, c);
  }

  lemma LastingAppended(s: State, steps: seq<Step>, org: Org, c: Condition)
    requires steps != []
    ensures var n := |steps| - 1;
            Lasting(s, steps, org, c) <==> StartsAt(s, steps, n, org, c) || (Lasting(s, steps[..n], org, c) && !EndsAt(s, steps, n, org, c))
  {
    var n := |steps| - 1;
    forall i | 0 <= i < n
      ensures LastsFrom(s, steps, i, org, c) <==> LastsFrom(s, steps[..n], i, org, c) && !EndsAt(s, steps, n, org, c)
    {
      LastsFromAppended(s, steps, i, org, c);
    }
    assert LastsFrom(s, steps, n, org, c) == StartsAt(s, steps, n, org, c);
  }

  /** After any steps a document that did not meet the condition meets it exactly if some step brought it about and no later one ended
      it. */
  lemma {:induction false} MeetsExactly(s: State, steps: seq<Step>, org: Org, c: Condition)
    requires !Meets(DocOf(s.global, org), c)
    ensures Meets(DocOf(Run(s, steps).global, org), c) <==> Lasting(s, steps, org, c)
  {
    if steps != [] {
      var n := |steps| - 1;
      MeetsExactly(s, steps[..n], org, c);
      MeetsAfterStep(Run(s, steps[..n]), steps[n], org, c);
      LastingAppended(s, steps, org, c);
    }
  }

  // ----- Manual activation -----

  /** The batch puts a manual term in the place of a provider subscription that is running. */
  predicate ReplacesRunning(s: State, a: Activation, now: int, between: seq<Step>) {
    HeldByProvider(DocOf(Run(s, between).global, a.org)) && DocOf(AfterActivation(s, a, now, between).global, a.org).source == Text("manual")
  }

  /** The check of an activation forbids to replace a running provider subscription. Its batch does so nevertheless exactly if one was
      started after the check and not ended before the batch. */
  lemma ReplacesRunningExactly(s: State, a: Activation, now: int, between: seq<Step>)
    requires CanActivate(s, a, now)
    ensures ReplacesRunning(s, a, now, between) <==> Lasting(s, between, a.org, Running)
  {
    MeetsExactly(s, between, a.org, Running);
  }

  lemma OneStep(s: State, step: Step, org: Org, c: Condition)
    ensures Lasting(s, [step], org, c) <==> Starts(s, step, org, c)
  {
    assert [step][..0] == [];
    assert Run(s, [step][..0]) == s;
    if Starts(s, step, org, c) {
      assert LastsFrom(s, [step], 0, org, c);
    }
  }

  /** In particular, one event between check and batch has this effect exactly if it applies and the subscription it reports is
      running. */
  lemma ActivationOverRunning(s: State, a: Activation, e: Event, now: int, later: int)
    requires CanActivate(s, a, now) && e.tenant.org == a.org
    ensures ReplacesRunning(s, a, now, [Webhook(e, later)]) <==> Applies(s, e, later) && RunningStatus(e.subscription.status)
  {
    ReplacesRunningExactly(s, a, now, [Webhook(e, later)]);
    OneStep(s, Webhook(e, later), a.org, Running);
  }

  /** And one status change exactly if it pauses or resumes a provider subscription, which no longer ran. */
  lemma ActivationOverResumed(s: State, a: Activation, now: int, action: Action, reason: string, actor: string, later: int)
    requires CanActivate(s, a, now)
    ensures ReplacesRunning(s, a, now, [StatusBatch(a.org, action, reason, actor, later)]) <==>
            !action.Cancel? && DocOf(s.global, a.org).source == Text("dodo")
  {
    var step := StatusBatch(a.org, action, reason, actor, later);
    ReplacesRunningExactly(s, a, now, [step]);
    OneStep(s, step, a.org, Running);
  }

  // ----- Status changes -----

  /** The subscription that the provider was asked about at the check, if any. */
  function Asked(d: Doc): Value {
    if d.source == Text("dodo") then d.providerSubscriptionId else Absent
  }

  /** The batch sets the status of a provider subscription that the provider was not asked about. */
  predicate SetsUnasked(s: State, org: Org, between: seq<Step>) {
    Meets(DocOf(Run(s, between).global, org), Other(Asked(DocOf(s.global, org))))
  }

  /** A status change asks the provider about the subscription it finds. Its batch sets the status of another one exactly if one was
      applied after the check and neither the one asked about nor a manual term took its place. */
  lemma SetsUnaskedExactly(s: State, org: Org, between: seq<Step>)
    ensures SetsUnasked(s, org, between) <==> Lasting(s, between, org, Other(Asked(DocOf(s.global, org))))
  {
    MeetsExactly(s, between, org, Other(Asked(DocOf(s.global, org))));
  }

  // ----- Events after a manual activation -----

  /** A later event of the organization arrived, and no manual activation came after it. */
  ghost predicate LaterArrived(steps: seq<Step>, org: Org, time: int) {
    exists i :: 0 <= i < |steps| && Arrives(Run(EMPTY, steps[..i]), steps[i], org) && EventAt(steps[i].event, steps[i].now) > time &&
      forall j :: i < j < |steps| ==> !Manual(steps[j], org)
  }

  lemma LaterArrivedLasts(steps: seq<Step>, org: Org, time: int)
    ensures LaterArrived(steps, org, time) <==> Lasting(EMPTY, steps, org, Later(time))
  {
    if LaterArrived(steps, org, time) {
      var i :| 0 <= i < |steps| && Arrives(Run(EMPTY, steps[..i]), steps[i], org) && EventAt(steps[i].event, steps[i].now) > time &&
        forall j :: i < j < |steps| ==> !Manual(steps[j], org);
      assert LastsFrom(EMPTY, steps, i, org, Later(time));
    }
    if Lasting(EMPTY, steps, org, Later(time)) {
      var i :| 0 <= i < |steps| && LastsFrom(EMPTY, steps, i, org, Later(time));
      forall j | i < j < |steps| ensures !Manual(steps[j], org) {
        assert !EndsAt(EMPTY, steps, j, org, Later(time));
      }
    }
  }

  /** Over every run, an event that was not delivered before applies exactly if no later event has arrived since the organization's
      last manual activation. */
  lemma UnseenAppliesExactly(steps: seq<Step>, e: Event, now: int)
    requires var s := Run(EMPTY, steps); e.tenant.org in s.names && e.webhookId !in s.seen
    ensures Applies(Run(EMPTY, steps), e, now) <==> !LaterArrived(steps, e.tenant.org, EventAt(e, now))
  {
    MeetsExactly(EMPTY, steps, e.tenant.org, Later(EventAt(e, now)));
    LaterArrivedLasts(steps, e.tenant.org, EventAt(e, now));
  }

  /** So after a manual activation any event not yet seen, however old, applies and takes the place of the manual term. */
  lemma ActivationForgetsEventTime(steps: seq<Step>, a: Activation, name: string, e: Event, now: int, later: int)
    requires var s := Run(EMPTY, steps); a.org in s.names && e.tenant.org == a.org && e.webhookId !in s.seen
    ensures var s' := AfterWebhook(Run(EMPTY, steps + [ManualBatch(a, name, now)]), e, later);
            a.org in s'.global && s'.global[a.org].source == Text("dodo") && s'.global[a.org].billingStatus == Text(e.subscription.status)
  {
    var more := steps + [ManualBatch(a, name, now)];
    assert more[..|steps|] == steps;
    assert !LaterArrived(more, a.org, EventAt(e, later)) by {
      assert Manual(more[|steps|], a.org);
      assert !more[|steps|].Webhook?;
    }
    UnseenAppliesExactly(more, e, later);
  }

  // ----- A reachable input -----

  const PLAN := Plan("p", "P", 10)

  /** A subscription of organization "o" with this status, and the event that reports it. */
  function Reported(webhookId: string, status: string): Event {
    Event(webhookId, "subscription.updated", Some(0), Tenant("o", PLAN, "monthly", 100),
          Subscription("sub", "prod", "cust", status, "LKR", 100, None, None, None, None, None, None, false, 0))
  }

  const TERM := Activation("o", PLAN, "monthly", 100, None, None, "admin")

  const CREATED := Next(EMPTY, CreateOrganization("o", "O"))

  /** A new organization: its first subscription starts between the check of an activation and its batch. */
  lemma FirstSubscriptionReplaced()
    ensures CanActivate(CREATED, TERM, 0) && ReplacesRunning(CREATED, TERM, 0, [Webhook(Reported("w", "active"), 0)])
  {
    ActivationOverRunning(CREATED, TERM, Reported("w", "active"), 0, 0);
  }

  /** A cancelled subscription is resumed between the check and the batch; no event comes. */
  lemma ResumedSubscriptionReplaced()
    ensures var s := Next(CREATED, Webhook(Reported("w", "cancelled"), 0));
            CanActivate(s, TERM, 0) && ReplacesRunning(s, TERM, 0, [StatusBatch("o", Resume, "paid", "admin", 0)])
  {
    var s := Next(CREATED, Webhook(Reported("w", "cancelled"), 0));
    assert DocOf(s.global, "o").billingStatus == Text("cancelled");
    ActivationOverResumed(s, TERM, 0, Resume, "paid", "admin", 0);
  }

  /** A status change judged on a manual term reaches the provider subscription that takes its place. */
  lemma UnaskedSubscriptionSet()
    ensures var s := Next(CREATED, ManualBatch(TERM, "O", 0));
            CanSetStatus(s, "o", false) && SetsUnasked(s, "o", [Webhook(Reported("w", "active"), 0)])
  {
    var s := Next(CREATED, ManualBatch(TERM, "O", 0));
    SetsUnaskedExactly(s, "o", [Webhook(Reported("w", "active"), 0)]);
    OneStep(s, Webhook(Reported("w", "active"), 0), "o", Other(Asked(DocOf(s.global, "o"))));
  }
}
