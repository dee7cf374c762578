/** Subscription documents and their three writers: provider webhooks, status changes and manual activation. A document is a map
    from field names; a merging write replaces the fields it names. Instants are milliseconds. */
module Billing {
  import opened Base

  /** A field of a document: not there, null, or a value. */
  datatype Value = Absent | Null | Text(text: string) | Instant(at: int) | Number(n: int) | Flag(b: bool)

  /** A subscription document; a merging write leaves the fields it does not name. */
  datatype Doc = Doc(
    organizationId: Value, organizationName: Value, planId: Value, planName: Value, billingCycle: Value, billingStatus: Value,
    accessStatus: Value, source: Value, currency: Value, priceLkr: Value, providerPriceMinor: Value, limits: Value,
    startsAt: Value, endsAt: Value, currentPeriodStart: Value, currentPeriodEnd: Value, pausedAt: Value, cancelledAt: Value,
    cancelAtPeriodEnd: Value, providerCustomerId: Value, providerSubscriptionId: Value, providerProductId: Value,
    trialPeriodDays: Value, providerEventType: Value, providerEventAt: Value, statusReason: Value, updatedAt: Value, updatedBy: Value)

  const NO_DOC := Doc(Absent, Absent, Absent, Absent, Absent, Absent, Absent, Absent, Absent, Absent, Absent, Absent, Absent, Absent,
                      Absent, Absent, Absent, Absent, Absent, Absent, Absent, Absent, Absent, Absent, Absent, Absent, Absent, Absent)

  datatype Account = Account(organizationId: Value, providerCustomerId: Value, trialConsumedAt: Value, updatedAt: Value)

  const NO_ACCOUNT := Account(Absent, Absent, Absent, Absent)

  type Org = string

  datatype Plan = Plan(id: string, name: string, limits: int)

  /** The organization, plan and cycle the webhook was resolved to, and the plan's price for the cycle. */
  datatype Tenant = Tenant(org: Org, plan: Plan, cycle: string, price: int)

  datatype Subscription = Subscription(
    id: string,
    productId: string,
    customerId: string,
    status: string,
    currency: string,
    amount: int,
    createdAt: Option<int>,
    expiresAt: Option<int>,
    previousBilling: Option<int>,
    nextBilling: Option<int>,
    pausedAt: Option<int>,
    cancelledAt: Option<int>,
    cancelAtPeriodEnd: bool,
    trialDays: int)

  datatype Event = Event(webhookId: string, kind: string, at: Option<int>, tenant: Tenant, subscription: Subscription)

  datatype Activation = Activation(org: Org, plan: Plan, cycle: string, price: int, startsAt: Option<int>, endsAt: Option<int>, actor: string)

  datatype Action = Pause | Resume | Cancel

  /** `names` are the existing organizations. The subscription documents exist in two copies. */
  datatype State = State(
    names: map<Org, string>,
    global: map<Org, Doc>,
    tenant: map<Org, Doc>,
    accounts: map<Org, Account>,
    seen: set<string>)

  function Optional(t: Option<int>): Value {
    if t.Some? then Instant(t.value) else Null
  }

  function DocOf(docs: map<Org, Doc>, org: Org): Doc {
    if org in docs then docs[org] else NO_DOC
  }

  function AccountOf(accounts: map<Org, Account>, org: Org): Account {
    if org in accounts then accounts[org] else NO_ACCOUNT
  }

  function EventAt(e: Event, now: int): int {
    if e.at.Some? then e.at.value else now
  }

  /** Merging the webhook's projection, all but the organization's name. Every field is always present; a missing instant is
      written as null. */
  function ProviderWrite(d: Doc, e: Event, now: int): Doc {
    var sub := e.subscription;
    d.(organizationId := Text(e.tenant.org),
       planId := Text(e.tenant.plan.id),
       planName := Text(e.tenant.plan.name),
       billingCycle := Text(e.tenant.cycle),
       billingStatus := Text(sub.status),
       accessStatus := Text(if sub.status == "active" then "active" else "restricted"),
       source := Text("dodo"),
       currency := Text(sub.currency),
       priceLkr := Number(e.tenant.price),
       providerPriceMinor := Number(sub.amount),
       limits := Number(e.tenant.plan.limits),
       startsAt := Optional(sub.createdAt),
       endsAt := Optional(sub.expiresAt),
       currentPeriodStart := Optional(sub.previousBilling),
       currentPeriodEnd := Optional(sub.nextBilling),
       pausedAt := Optional(sub.pausedAt),
       cancelledAt := Optional(sub.cancelledAt),
       cancelAtPeriodEnd := Flag(sub.cancelAtPeriodEnd),
       providerCustomerId := Text(sub.customerId),
       providerSubscriptionId := Text(sub.id),
       providerProductId := Text(sub.productId),
       trialPeriodDays := Number(sub.trialDays),
       providerEventType := Text(e.kind),
       providerEventAt := Instant(EventAt(e, now)),
       updatedAt := Instant(now))
  }

  function AccountWrite(account: Account, e: Event, now: int): Account {
    account.(organizationId := Text(e.tenant.org),
             providerCustomerId := Text(e.subscription.customerId),
             trialConsumedAt := if e.subscription.trialDays > 0 && e.subscription.status == "active" then Instant(now) else account.trialConsumedAt,
             updatedAt := Instant(now))
  }

  /** The manual projection, which replaces the document. */
  function ManualDoc(a: Activation, now: int): Doc {
    NO_DOC.(organizationId := Text(a.org),
            planId := Text(a.plan.id),
            planName := Text(a.plan.name),
            billingCycle := Text(a.cycle),
            billingStatus := Text("active"),
            accessStatus := Text("active"),
            source := Text("manual"),
            currency := Text("LKR"),
            priceLkr := Number(a.price),
            limits := Number(a.plan.limits),
            startsAt := Instant(if a.startsAt.Some? then a.startsAt.value else now),
            endsAt := Optional(a.endsAt),
            providerCustomerId := Null,
            providerSubscriptionId := Null,
            cancelAtPeriodEnd := Flag(false),
            updatedAt := Instant(now),
            updatedBy := Text(a.actor))
  }

  function ProviderStatusOf(action: Action): string {
    match action case Pause => "paused" case Resume => "active" case Cancel => "cancelled"
  }

  function StatusWrite(d: Doc, action: Action, reason: string, actor: string, now: int): Doc {
    d.(billingStatus := Text(ProviderStatusOf(action)),
       accessStatus := Text(if action.Resume? then "active" else "restricted"),
       statusReason := Text(reason),
       updatedAt := Instant(now),
       updatedBy := Text(actor))
  }

  // ----- The writers -----

  /** An earlier event, by the provider's clock, than the one the document was last written for. */
  predicate Stale(global: Doc, eventAt: int) {
    global.providerEventAt.Instant? && global.providerEventAt.at > eventAt
  }

  predicate Applies(s: State, e: Event, now: int) {
    e.tenant.org in s.names && e.webhookId !in s.seen && !Stale(DocOf(s.global, e.tenant.org), EventAt(e, now))
  }

  function AfterWebhook(s: State, e: Event, now: int): State {
    var org := e.tenant.org;
    if org !in s.names || e.webhookId in s.seen then s
    else if !Applies(s, e, now) then s.(seen := s.seen + {e.webhookId})
    else
      s.(seen := s.seen + {e.webhookId},
         global := s.global[org := ProviderWrite(DocOf(s.global, org), e, now).(organizationName := Text(s.names[org]))],
         tenant := s.tenant[org := ProviderWrite(DocOf(s.tenant, org), e, now)],
         accounts := s.accounts[org := AccountWrite(AccountOf(s.accounts, org), e, now)])
  }

  /** A provider subscription that is still running must be cancelled first. */
  predicate HeldByProvider(d: Doc) {
    d.source == Text("dodo") && d.billingStatus in {Text("pending"), Text("active"), Text("on_hold"), Text("paused")}
  }

  predicate CanActivate(s: State, a: Activation, now: int) {
    a.org in s.names && !HeldByProvider(DocOf(s.global, a.org)) && (a.endsAt.Some? ==> a.endsAt.value > now)
  }

  /** The batch of a manual activation, with the organization's name as it was read. */
  function ManualWritten(s: State, a: Activation, name: string, now: int): State {
    s.(tenant := s.tenant[a.org := ManualDoc(a, now)],
       global := s.global[a.org := ManualDoc(a, now).(organizationName := Text(name))])
  }

  /** The provider is asked first, for its own subscriptions; if it refuses, nothing is written. */
  predicate CanSetStatus(s: State, org: Org, providerAgrees: bool) {
    org in s.global && (s.global[org].source == Text("dodo") ==> s.global[org].providerSubscriptionId.Text? && providerAgrees)
  }

  /** The batch of a status change. */
  function StatusWritten(s: State, org: Org, action: Action, reason: string, actor: string, now: int): State {
    s.(global := s.global[org := StatusWrite(DocOf(s.global, org), action, reason, actor, now)],
       tenant := s.tenant[org := StatusWrite(DocOf(s.tenant, org), action, reason, actor, now)])
  }

  // ----- The mirror -----

  /** The organization's own copy is the platform's copy without the organization's name. */
  ghost predicate Mirrored(s: State) {
    s.global.Keys == s.tenant.Keys && forall org :: org in s.global ==> s.tenant[org] == s.global[org].(organizationName := Absent)
  }

  /** The manual writers check before their batch, not in it: a batch is a step of its own, whatever was read before. */
  datatype Step =
    | Webhook(event: Event, now: int)
    | ManualBatch(activation: Activation, name: string, now: int)
    | StatusBatch(org: Org, action: Action, reason: string, actor: string, now: int)
    | CreateOrganization(org: Org, name: string)

  function Next(s: State, step: Step): State {
    match step
    case Webhook(event, now) => AfterWebhook(s, event, now)
    case ManualBatch(activation, name, now) => ManualWritten(s, activation, name, now)
    case StatusBatch(org, action, reason, actor, now) => StatusWritten(s, org, action, reason, actor, now)
    case CreateOrganization(org, name) => s.(names := s.names[org := name])
  }

  const EMPTY := State(map[], map[], map[], map[], {})

  function Run(s: State, steps: seq<Step>): State {
    if steps == [] then s else Next(Run(s, steps[..|steps| - 1]), steps[|steps| - 1])
  }

  /** Writing both copies of one organization so that they agree leaves all copies in agreement. */
  lemma BothWritten(s: State, s': State, org: Org, doc: Doc)
    requires Mirrored(s) && s'.global == s.global[org := doc] && s'.tenant == s.tenant[org := doc.(organizationName := Absent)]
    ensures Mirrored(s')
  {
  }

  lemma WebhookMirrors(s: State, e: Event, now: int)
    requires Mirrored(s)
    ensures Mirrored(AfterWebhook(s, e, now))
  {
    if Applies(s, e, now) {
      var s' := AfterWebhook(s, e, now);
      assert DocOf(s.tenant, e.tenant.org) == DocOf(s.global, e.tenant.org).(organizationName := Absent);
      BothWritten(s, s', e.tenant.org, s'.global[e.tenant.org]);
    }
  }

  lemma ManualMirrors(s: State, a: Activation, name: string, now: int)
    requires Mirrored(s)
    ensures Mirrored(ManualWritten(s, a, name, now))
  {
    var s' := ManualWritten(s, a, name, now);
    BothWritten(s, s', a.org, s'.global[a.org]);
  }

  lemma StatusMirrors(s: State, org: Org, action: Action, reason: string, actor: string, now: int)
    requires Mirrored(s)
    ensures Mirrored(StatusWritten(s, org, action, reason, actor, now))
  {
    var s' := StatusWritten(s, org, action, reason, actor, now);
    assert DocOf(s.tenant, org) == DocOf(s.global, org).(organizationName := Absent);
    BothWritten(s, s', org, s'.global[org]);
  }

  lemma MirrorStep(s: State, step: Step)
    requires Mirrored(s)
    ensures Mirrored(Next(s, step))
  {
    match step
    case Webhook(e, now) => WebhookMirrors(s, e, now);
    case ManualBatch(a, name, now) => ManualMirrors(s, a, name, now);
    case StatusBatch(org, action, reason, actor, now) => StatusMirrors(s, org, action, reason, actor, now);
    case CreateOrganization(_, _) =>
  }

  /** Over any run of the three writers, with anything between a check and its batch, the two copies never differ in more than the
      name. */
  lemma {:induction false} RunMirrored(steps: seq<Step>)
    ensures Mirrored(Run(EMPTY, steps))
  {
    if steps != [] {
      RunMirrored(steps[..|steps| - 1]);
      MirrorStep(Run(EMPTY, steps[..|steps| - 1]), steps[|steps| - 1]);
    }
  }

  /** What a manual activation comes to, with the steps taken between its check and its batch. */
  function AfterActivation(s: State, a: Activation, now: int, between: seq<Step>): State {
    if CanActivate(s, a, now) then ManualWritten(Run(s, between), a, s.names[a.org], now) else s
  }

  /** Likewise a status change. */
  function AfterStatus(s: State, org: Org, action: Action, reason: string, actor: string, now: int, providerAgrees: bool, between: seq<Step>): State {
    if CanSetStatus(s, org, providerAgrees) then StatusWritten(Run(s, between), org, action, reason, actor, now) else s
  }

  // ----- The writers as they run -----

  class Subscriptions {
    var names: map<Org, string>
    var global: map<Org, Doc>
    var tenant: map<Org, Doc>
    var accounts: map<Org, Account>
    var seen: set<string>

    function Current(): State
      reads this
    {
      State(names, global, tenant, accounts, seen)
    }

    /** The webhook transaction. */
    method ReceiveWebhook(e: Event, now: int) returns (applied: bool)
      modifies this
      ensures applied <==> Applies(old(Current()), e, now)
      ensures Current() == AfterWebhook(old(Current()), e, now)
    {
      var org := e.tenant.org;
      if org !in names {
        return false;
      }
      var eventAt := if e.at.Some? then e.at.value else now;
      if e.webhookId in seen {
        return false;
      }
      var previousEventAt := DocOf(global, org).providerEventAt;
      var stale := previousEventAt.Instant? && previousEventAt.at > eventAt;
      seen := seen + {e.webhookId};
      if stale {
        return false;
      }
      global := global[org := ProviderWrite(DocOf(global, org), e, now).(organizationName := Text(names[org]))];
      tenant := tenant[org := ProviderWrite(DocOf(tenant, org), e, now)];
      accounts := accounts[org := AccountWrite(AccountOf(accounts, org), e, now)];
      applied := true;
    }

    /** What other calls do while one waits for its batch. */
    method Meanwhile(between: seq<Step>)
      modifies this
      ensures Current() == Run(old(Current()), between)
    {
      var s := Run(Current(), between);
      names, global, tenant, accounts, seen := s.names, s.global, s.tenant, s.accounts, s.seen;
    }

    /** `activateManualSubscription`: it reads and checks, then writes its batch. */
    method ActivateManual(a: Activation, now: int, between: seq<Step>) returns (ok: bool)
      modifies this
      ensures ok <==> CanActivate(old(Current()), a, now)
      ensures Current() == AfterActivation(old(Current()), a, now, between)
    {
      if a.org !in names {
        return false;
      }
      if HeldByProvider(DocOf(global, a.org)) {
        return false;
      }
      if a.endsAt.Some? && a.endsAt.value <= now {
        return false;
      }
      var name := names[a.org];
      Meanwhile(between);
      tenant := tenant[a.org := ManualDoc(a, now)];
      global := global[a.org := ManualDoc(a, now).(organizationName := Text(name))];
      ok := true;
    }

    /** `setSubscriptionStatus`: it reads, asks the provider, then writes its batch. */
    method ChangeStatus(org: Org, action: Action, reason: string, actor: string, now: int, providerAgrees: bool, between: seq<Step>)
      returns (ok: bool)
      modifies this
      ensures ok <==> CanSetStatus(old(Current()), org, providerAgrees)
      ensures Current() == AfterStatus(old(Current()), org, action, reason, actor, now, providerAgrees, between)
    {
      if org !in global {
        return false;
      }
      var snapshot := global[org];
      if snapshot.source == Text("dodo") {
        if !snapshot.providerSubscriptionId.Text? || !providerAgrees {
          return false;
        }
      }
      Meanwhile(between);
      global := global[org := StatusWrite(DocOf(global, org), action, reason, actor, now)];
      tenant := tenant[org := StatusWrite(DocOf(tenant, org), action, reason, actor, now)];
      ok := true;
    }
  }
}
