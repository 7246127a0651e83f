/**
 * Support-access grants, from request over independent review, activation and recertification to
 * their end, and the review campaigns that sweep them up.
 */
module SupportAccess {
  import opened Basics

  // ---------------------------------------------------------------------------------------------
  // Data: grants and campaigns are numbered in the order they were created
  // ---------------------------------------------------------------------------------------------

  datatype GrantStatus = PendingReview | Active | RecertificationRequired | Rejected | Revoked | Expired

  datatype ReviewKind = Initial | Recertification

  datatype Review = Review(reviewer: string, kind: ReviewKind, approved: bool, at: int)

  datatype Grant = Grant(
    issuer: string, organization: string, expiresAt: int, status: GrantStatus,
    lastReviewedAt: Option<int>, reviewExpiresAt: Option<int>, reviews: seq<Review>)

  datatype Activation = Activation(grant: nat, actor: string, at: int)

  datatype ItemStatus = ItemPending | ItemRecertified | ItemRevoked

  datatype Item = Item(grant: nat, status: ItemStatus)

  datatype Campaign = Campaign(organization: string, completed: bool, items: seq<Item>)

  datatype State = State(clock: int, grants: seq<Grant>, activations: seq<Activation>, campaigns: seq<Campaign>)

  const EMPTY := State(0, [], [], [])

  /** An operator allowed to mutate; owners and admins may also review. */
  datatype Actor = Actor(user: string, organization: string, mayReview: bool)

  /** How long a review carries an activation, and how far ahead campaigns look, in milliseconds. */
  datatype Config = Config(reviewTtl: int, lookahead: int)

  predicate Terminal(status: GrantStatus) {
    status == Rejected || status == Revoked || status == Expired
  }

  // ---------------------------------------------------------------------------------------------
  // Operations on one grant
  // ---------------------------------------------------------------------------------------------

  /** Every operation first lets time act on the grant. */
  function MarkExpired(g: Grant, now: int): Grant {
    if !Terminal(g.status) && g.expiresAt <= now then g.(status := Expired)
    else if g.status == Active && g.reviewExpiresAt.Some? && g.reviewExpiresAt.value <= now then
      g.(status := RecertificationRequired)
    else g
  }

  function ReviewExpiry(config: Config, expiresAt: int, now: int): int {
    Min(expiresAt, now + config.reviewTtl)
  }

  /** `modeFits` tells whether the environment activates grants of the provider mode recorded at issue. */
  datatype Operation = Decide(approve: bool) | Recertify | Activate(modeFits: bool) | Revoke

  /** Checked before the grant is even looked at: only owners and admins decide and recertify. */
  predicate RoleAllows(operation: Operation, actor: Actor) {
    operation.Decide? || operation.Recertify? ==> actor.mayReview
  }

  /** The grant after an operation by an actor in the right role, or None when it is refused. */
  function Operate(config: Config, g: Grant, operation: Operation, actor: Actor, now: int): Option<Grant> {
    match operation
    case Decide(approve) =>
      if g.organization != actor.organization || g.issuer == actor.user || g.status != PendingReview then None
      else Some(g.(status := if approve then Active else Rejected,
                   lastReviewedAt := Some(now),
                   reviewExpiresAt := if approve then Some(ReviewExpiry(config, g.expiresAt, now)) else None,
                   reviews := g.reviews + [Review(actor.user, Initial, approve, now)]))
    case Recertify =>
      if g.organization != actor.organization || g.issuer == actor.user
         || (g.status != Active && g.status != RecertificationRequired) then None
      else Some(g.(status := Active,
                   lastReviewedAt := Some(now),
                   reviewExpiresAt := Some(ReviewExpiry(config, g.expiresAt, now)),
                   reviews := g.reviews + [Review(actor.user, Recertification, true, now)]))
    case Activate(modeFits) =>
      if g.organization != actor.organization || g.issuer != actor.user || !modeFits || g.status != Active then None
      else Some(g)
    case Revoke =>
      if g.organization != actor.organization || Terminal(g.status) then None
      else Some(g.(status := Revoked))
  }

  // ---------------------------------------------------------------------------------------------
  // Operations on the tables
  // ---------------------------------------------------------------------------------------------

  datatype Event =
    | Issue(after: Tick, actor: Actor, targetFound: bool, expiresAt: int)
    | OnGrant(after: Tick, actor: Actor, grant: nat, operation: Operation)
    | Inspect(after: Tick, grant: nat)
    | CreateCampaign(after: Tick, actor: Actor)
    | ResolveItem(after: Tick, actor: Actor, campaign: nat, item: nat, recertify: bool)

  predicate IsCandidate(config: Config, g: Grant, organization: string, now: int) {
    && g.organization == organization && now < g.expiresAt
    && (g.status == RecertificationRequired
        || (g.status == Active && g.reviewExpiresAt.Some? && g.reviewExpiresAt.value <= now + config.lookahead))
  }

  ghost predicate DistinctGrants(items: seq<Item>) {
    forall i, j :: 0 <= i < j < |items| ==> items[i].grant != items[j].grant
  }

  /** Items for the candidates among the first `count` grants. */
  function CandidateItems(config: Config, grants: seq<Grant>, count: nat, organization: string, now: int): (items: seq<Item>)
    requires count <= |grants|
    ensures forall i :: 0 <= i < |items| ==>
              && items[i].status == ItemPending && items[i].grant < count
              && IsCandidate(config, grants[items[i].grant], organization, now)
    ensures forall k :: 0 <= k < count && IsCandidate(config, grants[k], organization, now) ==> Item(k, ItemPending) in items
    ensures DistinctGrants(items)
  {
    if count == 0 then []
    else
      var before := CandidateItems(config, grants, count - 1, organization, now);
      if IsCandidate(config, grants[count - 1], organization, now) then before + [Item(count - 1, ItemPending)] else before
  }

  predicate NoPending(items: seq<Item>) {
    forall i :: 0 <= i < |items| ==> items[i].status != ItemPending
  }

  function CampaignOperation(recertify: bool): Operation {
    if recertify then Recertify else Revoke
  }

  predicate ResolutionAllowed(config: Config, s: State, actor: Actor, campaign: nat, item: nat, recertify: bool) {
    && actor.mayReview
    && campaign < |s.campaigns| && item < |s.campaigns[campaign].items|
    && s.campaigns[campaign].organization == actor.organization
    && !s.campaigns[campaign].completed
    && s.campaigns[campaign].items[item].status == ItemPending
    && s.campaigns[campaign].items[item].grant < |s.grants|
    && Operate(config, MarkExpired(s.grants[s.campaigns[campaign].items[item].grant], s.clock),
               CampaignOperation(recertify), actor, s.clock).Some?
  }

  /** A campaign with one more item resolved, completed when that was the last pending one. */
  function WithResolved(c: Campaign, item: nat, recertify: bool): Campaign
    requires item < |c.items|
  {
    var items := c.items[item := c.items[item].(status := if recertify then ItemRecertified else ItemRevoked)];
    c.(items := items, completed := c.completed || NoPending(items))
  }

  /** The tables after an operation on one grant; an accepted activation is logged. */
  function OperateOn(config: Config, s: State, grant: nat, operation: Operation, actor: Actor): State
    requires grant < |s.grants|
  {
    var marked := MarkExpired(s.grants[grant], s.clock);
    var result := Operate(config, marked, operation, actor, s.clock);
    s.(grants := s.grants[grant := result.GetOr(marked)],
       activations := if operation.Activate? && result.Some? then s.activations + [Activation(grant, actor.user, s.clock)]
                      else s.activations)
  }

  /**
   * One operation as an atomic step.  An operation refused after the role check still leaves the
   * grant marked as expired; a refused campaign resolution rolls everything back.
   */
  function Exec(config: Config, state: State, e: Event): State {
    Apply(config, state.(clock := state.clock + e.after), e)
  }

  function Apply(config: Config, s: State, e: Event): State {
    match e
    case Issue(_, actor, targetFound, expiresAt) =>
      if expiresAt <= s.clock || !targetFound then s
      else s.(grants := s.grants + [Grant(actor.user, actor.organization, expiresAt, PendingReview, None, None, [])])
    case OnGrant(_, actor, grant, operation) =>
      if grant >= |s.grants| || !RoleAllows(operation, actor) then s else OperateOn(config, s, grant, operation, actor)
    case Inspect(_, grant) =>
      if grant >= |s.grants| then s else s.(grants := s.grants[grant := MarkExpired(s.grants[grant], s.clock)])
    case CreateCampaign(_, actor) =>
      var items := CandidateItems(config, s.grants, |s.grants|, actor.organization, s.clock);
      if !actor.mayReview || items == [] then s
      else s.(campaigns := s.campaigns + [Campaign(actor.organization, false, items)])
    case ResolveItem(_, actor, campaign, item, recertify) =>
      if !ResolutionAllowed(config, s, actor, campaign, item, recertify) then s
      else
        var grant := s.campaigns[campaign].items[item].grant;
        var result := Operate(config, MarkExpired(s.grants[grant], s.clock), CampaignOperation(recertify), actor, s.clock);
        s.(grants := s.grants[grant := result.value],
           campaigns := s.campaigns[campaign := WithResolved(s.campaigns[campaign], item, recertify)])
  }

  function Run(config: Config, s: State, events: seq<Event>): State {
    if events == [] then s
    else Exec(config, Run(config, s, events[..|events| - 1]), events[|events| - 1])
  }

  // ---------------------------------------------------------------------------------------------
  // One grant over time
  // ---------------------------------------------------------------------------------------------

  /** An approval by somebody else that is still fresh at `at`. */
  predicate Covers(config: Config, g: Grant, r: Review, at: int) {
    r.approved && r.reviewer != g.issuer && r.at <= at < r.at + config.reviewTtl
  }

  ghost predicate GrantInv(config: Config, g: Grant, now: int) {
    && (g.status == Active ==>
          && g.lastReviewedAt.Some?
          && g.reviewExpiresAt == Some(Min(g.expiresAt, g.lastReviewedAt.value + config.reviewTtl))
          && exists r :: r in g.reviews && r.approved && r.reviewer != g.issuer && r.at == g.lastReviewedAt.value)
    && (forall r :: r in g.reviews ==> r.reviewer != g.issuer && r.at <= now)
  }

  /** What time and operations may do to a grant: never revive it, never rewrite its past. */
  ghost predicate GrantContinues(g: Grant, h: Grant) {
    && h.issuer == g.issuer && h.organization == g.organization && h.expiresAt == g.expiresAt
    && g.reviews <= h.reviews
    && (Terminal(g.status) ==> h.status == g.status)
  }

  lemma MarkKeepsGrant(config: Config, g: Grant, now: int)
    requires GrantInv(config, g, now)
    ensures GrantInv(config, MarkExpired(g, now), now) && GrantContinues(g, MarkExpired(g, now))
  {
  }

  lemma OperateKeepsGrant(config: Config, g: Grant, operation: Operation, actor: Actor, now: int)
    requires GrantInv(config, g, now) && Operate(config, g, operation, actor, now).Some?
    ensures var h := Operate(config, g, operation, actor, now).value;
            GrantInv(config, h, now) && GrantContinues(g, h)
  {
    var h := Operate(config, g, operation, actor, now).value;
    if |h.reviews| > |g.reviews| {
      assert h.reviews[|g.reviews|] in h.reviews;
      assert forall r :: r in h.reviews ==> r in g.reviews || r == h.reviews[|g.reviews|];
    }
  }

  /** A grant that can be activated now is unexpired and freshly approved by somebody else. */
  lemma ActivatableGrantIsCovered(config: Config, g: Grant, actor: Actor, modeFits: bool, now: int)
    requires GrantInv(config, g, now)
    requires Operate(config, MarkExpired(g, now), Activate(modeFits), actor, now).Some?
    ensures modeFits && actor.user == g.issuer && now < g.expiresAt
    ensures exists r :: r in g.reviews && Covers(config, g, r, now)
  {
    var r :| r in g.reviews && r.approved && r.reviewer != g.issuer && r.at == g.lastReviewedAt.value;
    assert Covers(config, g, r, now);
  }

  // ---------------------------------------------------------------------------------------------
  // The invariant of all runs
  // ---------------------------------------------------------------------------------------------

  /** The activation was made by the issuer, before expiry, under a fresh independent approval. */
  ghost predicate Justified(config: Config, grants: seq<Grant>, a: Activation) {
    && a.grant < |grants|
    && a.actor == grants[a.grant].issuer
    && a.at < grants[a.grant].expiresAt
    && exists r :: r in grants[a.grant].reviews && Covers(config, grants[a.grant], r, a.at)
  }

  ghost predicate ItemInv(grants: seq<Grant>, item: Item) {
    && item.grant < |grants|
    && (item.status == ItemRevoked ==> grants[item.grant].status == Revoked)
    && (item.status == ItemRecertified ==> exists r :: r in grants[item.grant].reviews && r.kind == Recertification)
  }

  ghost predicate CampaignInv(grants: seq<Grant>, c: Campaign) {
    && c.items != []
    && (c.completed <==> NoPending(c.items))
    && DistinctGrants(c.items)
    && forall i :: 0 <= i < |c.items| ==>
         ItemInv(grants, c.items[i]) && grants[c.items[i].grant].organization == c.organization
  }

  ghost predicate Inv(config: Config, s: State) {
    && (forall i :: 0 <= i < |s.grants| ==> GrantInv(config, s.grants[i], s.clock))
    && (forall a :: a in s.activations ==> Justified(config, s.grants, a))
    && (forall i :: 0 <= i < |s.campaigns| ==> CampaignInv(s.grants, s.campaigns[i]))
  }

  ghost predicate GrantsContinue(grants: seq<Grant>, later: seq<Grant>) {
    && |grants| <= |later|
    && forall i :: 0 <= i < |grants| ==> GrantContinues(grants[i], later[i])
  }

  lemma ReviewsRemain(g: Grant, h: Grant, r: Review)
    requires GrantContinues(g, h) && r in g.reviews
    ensures r in h.reviews
  {
    var i :| 0 <= i < |g.reviews| && g.reviews[i] == r;
    assert h.reviews[i] == r;
  }

  lemma {:induction false} ActivationsStayJustified(config: Config, grants: seq<Grant>, later: seq<Grant>, a: Activation)
    requires GrantsContinue(grants, later) && Justified(config, grants, a)
    ensures Justified(config, later, a)
  {
    var r :| r in grants[a.grant].reviews && Covers(config, grants[a.grant], r, a.at);
    ReviewsRemain(grants[a.grant], later[a.grant], r);
    assert Covers(config, later[a.grant], r, a.at);
  }

  lemma {:induction false} ItemsStayTrue(grants: seq<Grant>, later: seq<Grant>, item: Item)
    requires GrantsContinue(grants, later) && ItemInv(grants, item)
    ensures ItemInv(later, item)
  {
    assert GrantContinues(grants[item.grant], later[item.grant]);
    if item.status == ItemRecertified {
      var r :| r in grants[item.grant].reviews && r.kind == Recertification;
      ReviewsRemain(grants[item.grant], later[item.grant], r);
    }
  }

  /** Changing grants along their own histories keeps everything said about them true. */
  lemma {:induction false} GrantsMayContinue(config: Config, s: State, later: seq<Grant>)
    requires Inv(config, s) && GrantsContinue(s.grants, later)
    requires forall i :: 0 <= i < |later| ==> GrantInv(config, later[i], s.clock)
    ensures Inv(config, s.(grants := later))
  {
    forall a | a in s.activations ensures Justified(config, later, a) {
      ActivationsStayJustified(config, s.grants, later, a);
    }
    forall i | 0 <= i < |s.campaigns| ensures CampaignInv(later, s.campaigns[i]) {
      assert CampaignInv(s.grants, s.campaigns[i]);
      var c := s.campaigns[i];
      forall k | 0 <= k < |c.items|
        ensures ItemInv(later, c.items[k]) && later[c.items[k].grant].organization == c.organization
      {
        ItemsStayTrue(s.grants, later, c.items[k]);
        assert GrantContinues(s.grants[c.items[k].grant], later[c.items[k].grant]);
      }
    }
  }

  lemma OneGrantMayContinue(config: Config, s: State, grant: nat, h: Grant)
    requires Inv(config, s) && grant < |s.grants|
    requires GrantContinues(s.grants[grant], h) && GrantInv(config, h, s.clock)
    ensures Inv(config, s.(grants := s.grants[grant := h]))
    ensures GrantsContinue(s.grants, s.grants[grant := h])
  {
    GrantsMayContinue(config, s, s.grants[grant := h]);
  }

  lemma TimePasses(config: Config, s: State, after: Tick)
    requires Inv(config, s)
    ensures Inv(config, s.(clock := s.clock + after))
  {
    var t := s.(clock := s.clock + after);
    forall i | 0 <= i < |t.grants| ensures GrantInv(config, t.grants[i], t.clock) {
      assert GrantInv(config, s.grants[i], s.clock);
    }
  }

  lemma GrantOperationKeepsInv(config: Config, s: State, grant: nat, operation: Operation, actor: Actor)
    requires Inv(config, s) && grant < |s.grants|
    ensures var marked := MarkExpired(s.grants[grant], s.clock);
            var h := Operate(config, marked, operation, actor, s.clock).GetOr(marked);
            && Inv(config, s.(grants := s.grants[grant := h]))
            && GrantsContinue(s.grants, s.grants[grant := h])
  {
    var marked := MarkExpired(s.grants[grant], s.clock);
    MarkKeepsGrant(config, s.grants[grant], s.clock);
    var result := Operate(config, marked, operation, actor, s.clock);
    if result.Some? {
      OperateKeepsGrant(config, marked, operation, actor, s.clock);
    }
    OneGrantMayContinue(config, s, grant, result.GetOr(marked));
  }

  lemma ResolvingKeepsInv(config: Config, s: State, actor: Actor, campaign: nat, item: nat, recertify: bool)
    requires Inv(config, s) && ResolutionAllowed(config, s, actor, campaign, item, recertify)
    ensures var grant := s.campaigns[campaign].items[item].grant;
            var h := Operate(config, MarkExpired(s.grants[grant], s.clock), CampaignOperation(recertify), actor, s.clock).value;
            && Inv(config, s.(grants := s.grants[grant := h],
                              campaigns := s.campaigns[campaign := WithResolved(s.campaigns[campaign], item, recertify)]))
            && GrantsContinue(s.grants, s.grants[grant := h])
  {
    var grant := s.campaigns[campaign].items[item].grant;
    var h := Operate(config, MarkExpired(s.grants[grant], s.clock), CampaignOperation(recertify), actor, s.clock).value;
    GrantOperationKeepsInv(config, s, grant, CampaignOperation(recertify), actor);
    var t := s.(grants := s.grants[grant := h]);
    var c := WithResolved(s.campaigns[campaign], item, recertify);
    assert CampaignInv(t.grants, t.campaigns[campaign]);
    if recertify {
      assert h.reviews[|h.reviews| - 1].kind == Recertification && h.reviews[|h.reviews| - 1] in h.reviews;
    }
    assert ItemInv(t.grants, c.items[item]);
    forall i | 0 <= i < |c.items|
      ensures ItemInv(t.grants, c.items[i]) && t.grants[c.items[i].grant].organization == c.organization
    {
      assert c.items[i].grant == t.campaigns[campaign].items[i].grant;
      if i != item {
        assert c.items[i] == t.campaigns[campaign].items[i];
      }
    }
  }

  lemma ExecKeepsInv(config: Config, state: State, e: Event)
    requires Inv(config, state)
    ensures Inv(config, Exec(config, state, e))
    ensures GrantsContinue(state.grants, Exec(config, state, e).grants)
  {
    var s := state.(clock := state.clock + e.after);
    assert Exec(config, state, e) == Apply(config, s, e);
    TimePasses(config, state, e.after);
    ApplyKeepsInv(config, s, e);
  }

  lemma ApplyKeepsInv(config: Config, s: State, e: Event)
    requires Inv(config, s)
    ensures Inv(config, Apply(config, s, e))
    ensures GrantsContinue(s.grants, Apply(config, s, e).grants)
  {
    match e
    case Issue(_, actor, _, expiresAt) =>
      GrantsMayContinue(config, s, Apply(config, s, e).grants);
    case OnGrant(_, actor, grant, operation) =>
      if grant < |s.grants| {
        OperateOnKeepsInv(config, s, grant, operation, actor);
      }
    case Inspect(_, grant) =>
      if grant < |s.grants| {
        MarkKeepsGrant(config, s.grants[grant], s.clock);
        OneGrantMayContinue(config, s, grant, MarkExpired(s.grants[grant], s.clock));
      }
    case CreateCampaign(_, actor) =>
      NewCampaignKeepsInv(config, s, actor.organization);
    case ResolveItem(_, actor, campaign, item, recertify) =>
      if ResolutionAllowed(config, s, actor, campaign, item, recertify) {
        ResolvingKeepsInv(config, s, actor, campaign, item, recertify);
      }
  }

  lemma OperateOnKeepsInv(config: Config, s: State, grant: nat, operation: Operation, actor: Actor)
    requires Inv(config, s) && grant < |s.grants|
    ensures Inv(config, OperateOn(config, s, grant, operation, actor))
    ensures GrantsContinue(s.grants, OperateOn(config, s, grant, operation, actor).grants)
  {
    GrantOperationKeepsInv(config, s, grant, operation, actor);
    var marked := MarkExpired(s.grants[grant], s.clock);
    var result := Operate(config, marked, operation, actor, s.clock);
    if operation.Activate? && result.Some? {
      var t := s.(grants := s.grants[grant := result.value]);
      ActivationIsCovered(config, s, t.grants, grant, actor, operation.modeFits);
      LogActivation(config, t, Activation(grant, actor.user, s.clock));
    }
  }

  lemma {:induction false} ActivationIsCovered(config: Config, s: State, later: seq<Grant>, grant: nat, actor: Actor, modeFits: bool)
    requires grant < |s.grants| && GrantInv(config, s.grants[grant], s.clock) && GrantsContinue(s.grants, later)
    requires Operate(config, MarkExpired(s.grants[grant], s.clock), Activate(modeFits), actor, s.clock).Some?
    ensures Justified(config, later, Activation(grant, actor.user, s.clock))
  {
    ActivatableGrantIsCovered(config, s.grants[grant], actor, modeFits, s.clock);
    ActivationsStayJustified(config, s.grants, later, Activation(grant, actor.user, s.clock));
  }

  lemma LogActivation(config: Config, t: State, a: Activation)
    requires Inv(config, t) && Justified(config, t.grants, a)
    ensures Inv(config, t.(activations := t.activations + [a]))
  {
  }

  lemma NewCampaignKeepsInv(config: Config, s: State, organization: string)
    requires Inv(config, s)
    ensures var items := CandidateItems(config, s.grants, |s.grants|, organization, s.clock);
            items != [] ==> Inv(config, s.(campaigns := s.campaigns + [Campaign(organization, false, items)]))
  {
    var items := CandidateItems(config, s.grants, |s.grants|, organization, s.clock);
    if items != [] {
      assert items[0].status == ItemPending;
      assert CampaignInv(s.grants, Campaign(organization, false, items));
    }
  }

  lemma {:induction false} RunsKeepInv(config: Config, s: State, events: seq<Event>)
    requires Inv(config, s)
    ensures Inv(config, Run(config, s, events))
    ensures GrantsContinue(s.grants, Run(config, s, events).grants)
  {
    if events != [] {
      var front := events[..|events| - 1];
      RunsKeepInv(config, s, front);
      ExecKeepsInv(config, Run(config, s, front), events[|events| - 1]);
    }
  }

  // ---------------------------------------------------------------------------------------------
  // What each operation does, in full
  // ---------------------------------------------------------------------------------------------

  /** The grant as it is before the operation can be carried out on it at this time by this actor. */
  ghost predicate Feasible(g: Grant, operation: Operation, actor: Actor, now: int) {
    && g.organization == actor.organization && now < g.expiresAt
    && match operation
       case Decide(_) => g.issuer != actor.user && g.status == PendingReview
       case Recertify => g.issuer != actor.user && g.status in {Active, RecertificationRequired}
       case Activate(modeFits) =>
         g.issuer == actor.user && modeFits && g.status == Active && (g.reviewExpiresAt.Some? ==> now < g.reviewExpiresAt.value)
       case Revoke => g.status in {PendingReview, Active, RecertificationRequired}
  }

  /** What the operation makes of it. */
  ghost predicate Outcome(config: Config, g: Grant, operation: Operation, actor: Actor, now: int, h: Grant) {
    && h.issuer == g.issuer && h.organization == g.organization && h.expiresAt == g.expiresAt
    && match operation
       case Decide(approve) =>
         && h.status == (if approve then Active else Rejected)
         && h.lastReviewedAt == Some(now) && h.reviews == g.reviews + [Review(actor.user, Initial, approve, now)]
         && (if approve then Lapses(config, g.expiresAt, now, h.reviewExpiresAt) else h.reviewExpiresAt == None)
       case Recertify =>
         && h.status == Active
         && h.lastReviewedAt == Some(now) && h.reviews == g.reviews + [Review(actor.user, Recertification, true, now)]
         && Lapses(config, g.expiresAt, now, h.reviewExpiresAt)
       case Activate(_) => h == g
       case Revoke => h.status == Revoked && h.lastReviewedAt == g.lastReviewedAt && h.reviewExpiresAt == g.reviewExpiresAt && h.reviews == g.reviews
  }

  /** A review lapses with its lifetime, or with the grant if that is earlier. */
  ghost predicate Lapses(config: Config, expiresAt: int, now: int, at: Option<int>) {
    at == Some(if expiresAt <= now + config.reviewTtl then expiresAt else now + config.reviewTtl)
  }

  /** What time alone does: an unfinished grant past its expiry ends, an active one past its review waits for another. */
  lemma TimeActsExactly(g: Grant, now: int)
    ensures var h := MarkExpired(g, now);
            && h == g.(status := h.status)
            && (h.status == Expired <==> g.status == Expired || (g.expiresAt <= now && g.status in {PendingReview, Active, RecertificationRequired}))
            && (h.status == RecertificationRequired <==>
                  && now < g.expiresAt
                  && (g.status == RecertificationRequired
                      || (g.status == Active && g.reviewExpiresAt.Some? && g.reviewExpiresAt.value <= now)))
            && (h.status == Active <==> g.status == Active && now < g.expiresAt && (g.reviewExpiresAt.Some? ==> now < g.reviewExpiresAt.value))
            && (h.status == PendingReview <==> g.status == PendingReview && now < g.expiresAt)
            && (h.status == Rejected <==> g.status == Rejected) && (h.status == Revoked <==> g.status == Revoked)
  {
    match g.status
    case PendingReview =>
    case Active =>
    case RecertificationRequired =>
    case Rejected =>
    case Revoked =>
    case Expired =>
  }

  /** An operation on a grant is carried out exactly when it is feasible, with exactly its outcome. */
  lemma OperatesExactly(config: Config, g: Grant, operation: Operation, actor: Actor, now: int)
    ensures var result := Operate(config, MarkExpired(g, now), operation, actor, now);
            && (result.Some? <==> Feasible(g, operation, actor, now))
            && (result.Some? ==> Outcome(config, g, operation, actor, now, result.value))
  {
    TimeActsExactly(g, now);
    match operation
    case Decide(_) =>
    case Recertify =>
    case Activate(_) =>
    case Revoke =>
  }

  ghost predicate OthersUnchanged(grants: seq<Grant>, later: seq<Grant>, grant: nat) {
    |later| == |grants| && forall i :: 0 <= i < |grants| && i != grant ==> later[i] == grants[i]
  }

  /**
   * A step on one grant: operators who may not review neither decide nor recertify; a feasible
   * operation has its outcome, any other leaves what time made of the grant; only activations are logged.
   */
  lemma GrantStepIsExactly(config: Config, s: State, e: Event)
    requires e.OnGrant? && e.grant < |s.grants|
    ensures var t, now, g := Exec(config, s, e), s.clock + e.after, s.grants[e.grant];
            var barred := !e.actor.mayReview && match e.operation case Decide(_) => true case Recertify => true case _ => false;
            var done := !barred && Feasible(g, e.operation, e.actor, now);
            && t.clock == now && t.campaigns == s.campaigns && OthersUnchanged(s.grants, t.grants, e.grant)
            && (barred ==> t.grants == s.grants)
            && (done ==> Outcome(config, g, e.operation, e.actor, now, t.grants[e.grant]))
            && (!barred && !done ==> t.grants[e.grant] == MarkExpired(g, now))
            && t.activations == (if done && e.operation.Activate? then s.activations + [Activation(e.grant, e.actor.user, now)] else s.activations)
  {
    OperatesExactly(config, s.grants[e.grant], e.operation, e.actor, s.clock + e.after);
  }

  /** A grant is issued exactly for a found target and an expiry in the future, and waits for its review. */
  lemma IssueIsExactly(config: Config, s: State, e: Event)
    requires e.Issue?
    ensures var t, now := Exec(config, s, e), s.clock + e.after;
            && t.clock == now && t.campaigns == s.campaigns && t.activations == s.activations
            && t.grants == s.grants + if e.targetFound && now < e.expiresAt
                                      then [Grant(e.actor.user, e.actor.organization, e.expiresAt, PendingReview, None, None, [])]
                                      else []
  {
  }

  /** A grant a campaign of this organization must look at. */
  ghost predicate Due(config: Config, g: Grant, organization: string, now: int) {
    && g.organization == organization && now < g.expiresAt
    && match g.status
       case RecertificationRequired => true
       case Active => g.reviewExpiresAt.Some? && g.reviewExpiresAt.value <= now + config.lookahead
       case _ => false
  }

  /** An owner or admin creates a campaign exactly when some grant is due; it holds exactly those, each once. */
  lemma CampaignHoldsExactly(config: Config, s: State, e: Event)
    requires e.CreateCampaign?
    ensures var t, now := Exec(config, s, e), s.clock + e.after;
            var created := e.actor.mayReview && exists k :: 0 <= k < |s.grants| && Due(config, s.grants[k], e.actor.organization, now);
            && t.clock == now && t.grants == s.grants && t.activations == s.activations
            && |t.campaigns| == |s.campaigns| + (if created then 1 else 0) && t.campaigns[..|s.campaigns|] == s.campaigns
            && (created ==>
                  var c := t.campaigns[|s.campaigns|];
                  && c.organization == e.actor.organization && !c.completed && DistinctGrants(c.items)
                  && (forall i :: 0 <= i < |c.items| ==> c.items[i].status == ItemPending)
                  && forall k: nat :: (exists i :: 0 <= i < |c.items| && c.items[i].grant == k) <==>
                       k < |s.grants| && Due(config, s.grants[k], e.actor.organization, now))
  {
    var now := s.clock + e.after;
    var items := CandidateItems(config, s.grants, |s.grants|, e.actor.organization, now);
    forall k | 0 <= k < |s.grants|
      ensures IsCandidate(config, s.grants[k], e.actor.organization, now) <==> Due(config, s.grants[k], e.actor.organization, now)
    {
      match s.grants[k].status
      case PendingReview =>
      case Active =>
      case RecertificationRequired =>
      case Rejected =>
      case Revoked =>
      case Expired =>
    }
    forall k: nat
      ensures (exists i :: 0 <= i < |items| && items[i].grant == k) <==>
                k < |s.grants| && Due(config, s.grants[k], e.actor.organization, now)
    {
      if k < |s.grants| && Due(config, s.grants[k], e.actor.organization, now) {
        var i :| 0 <= i < |items| && items[i] == Item(k, ItemPending);
      }
    }
    if items != [] {
      assert items[0].grant < |s.grants|;
    }
  }

  /** When a campaign item is resolved, and what changes then. */
  lemma ResolutionIsExactly(config: Config, s: State, e: Event)
    requires e.ResolveItem? && Inv(config, s)
    requires e.campaign < |s.campaigns| && e.item < |s.campaigns[e.campaign].items|
    ensures var t, now, c := Exec(config, s, e), s.clock + e.after, s.campaigns[e.campaign];
            var grant := c.items[e.item].grant;
            var operation := if e.recertify then Recertify else Revoke;
            && t.clock == now && t.activations == s.activations && |t.campaigns| == |s.campaigns| && grant < |s.grants|
            && if e.actor.mayReview && c.organization == e.actor.organization
                  && c.items[e.item].status == ItemPending && Feasible(s.grants[grant], operation, e.actor, now) then
                 && OthersUnchanged(s.grants, t.grants, grant)
                 && Outcome(config, s.grants[grant], operation, e.actor, now, t.grants[grant])
                 && (forall i :: 0 <= i < |s.campaigns| && i != e.campaign ==> t.campaigns[i] == s.campaigns[i])
                 && t.campaigns[e.campaign].organization == c.organization
                 && t.campaigns[e.campaign].items == c.items[e.item := Item(grant, if e.recertify then ItemRecertified else ItemRevoked)]
                 && (t.campaigns[e.campaign].completed <==>
                       forall i :: 0 <= i < |c.items| && i != e.item ==> c.items[i].status != ItemPending)
               else t.grants == s.grants && t.campaigns == s.campaigns
  {
    var c := s.campaigns[e.campaign];
    assert CampaignInv(s.grants, c) && ItemInv(s.grants, c.items[e.item]);
    OperatesExactly(config, s.grants[c.items[e.item].grant], if e.recertify then Recertify else Revoke, e.actor, s.clock + e.after);
    var resolved := WithResolved(c, e.item, e.recertify).items;
    assert forall i :: 0 <= i < |c.items| && i != e.item ==> resolved[i] == c.items[i];
    assert c.items[e.item].status == ItemPending ==> !c.completed;
  }

  // ---------------------------------------------------------------------------------------------
  // Theorems over all runs
  // ---------------------------------------------------------------------------------------------

  /**
   * On every run each activation was made by the issuer, before the grant's expiry, and less than
   * the review lifetime after an approval by a different user.
   */
  lemma {:induction false} ActivationsAreJustified(config: Config, events: seq<Event>, a: Activation)
    requires a in Run(config, EMPTY, events).activations
    ensures a.grant < |Run(config, EMPTY, events).grants|
    ensures var g := Run(config, EMPTY, events).grants[a.grant];
            && a.actor == g.issuer && a.at < g.expiresAt
            && exists r :: r in g.reviews && r.approved && r.reviewer != g.issuer && r.at <= a.at < r.at + config.reviewTtl
  {
    RunsKeepInv(config, EMPTY, events);
    var g := Run(config, EMPTY, events).grants[a.grant];
    var r :| r in g.reviews && Covers(config, g, r, a.at);
  }

  /** In every reachable active state the review lapses no later than the grant itself. */
  lemma {:induction false} ReviewsLapseBeforeGrants(config: Config, events: seq<Event>, grant: nat)
    requires grant < |Run(config, EMPTY, events).grants|
    requires Run(config, EMPTY, events).grants[grant].status == Active
    ensures var g := Run(config, EMPTY, events).grants[grant];
            && g.reviewExpiresAt.Some? && g.reviewExpiresAt.value <= g.expiresAt
            && g.lastReviewedAt.Some? && g.reviewExpiresAt.value <= g.lastReviewedAt.value + config.reviewTtl
  {
    RunsKeepInv(config, EMPTY, events);
    assert GrantInv(config, Run(config, EMPTY, events).grants[grant], Run(config, EMPTY, events).clock);
  }

  /** Rejected, revoked and expired grants stay as they are through every continuation. */
  lemma {:induction false} TerminalGrantsStay(config: Config, events: seq<Event>, later: seq<Event>, grant: nat)
    requires grant < |Run(config, EMPTY, events).grants|
    requires Run(config, EMPTY, events).grants[grant].status in {Rejected, Revoked, Expired}
    ensures grant < |Run(config, Run(config, EMPTY, events), later).grants|
    ensures Run(config, Run(config, EMPTY, events), later).grants[grant].status == Run(config, EMPTY, events).grants[grant].status
  {
    RunsKeepInv(config, EMPTY, events);
    RunsKeepInv(config, Run(config, EMPTY, events), later);
  }

  /**
   * On every run a campaign is completed exactly when no item is pending; the grant of a revoked
   * item is revoked, in this state and so in every later one, and the grant of a recertified item
   * carries a recertification.
   */
  lemma {:induction false} CampaignsTellTheTruth(config: Config, events: seq<Event>, campaign: nat, item: nat)
    requires campaign < |Run(config, EMPTY, events).campaigns|
    requires item < |Run(config, EMPTY, events).campaigns[campaign].items|
    ensures var s := Run(config, EMPTY, events);
            var c := s.campaigns[campaign];
            && (c.completed <==> NoPending(c.items))
            && c.items[item].grant < |s.grants|
            && (c.items[item].status == ItemRevoked ==> s.grants[c.items[item].grant].status == Revoked)
            && (c.items[item].status == ItemRecertified ==>
                  exists r :: r in s.grants[c.items[item].grant].reviews && r.kind == Recertification)
  {
    RunsKeepInv(config, EMPTY, events);
    var s := Run(config, EMPTY, events);
    assert CampaignInv(s.grants, s.campaigns[campaign]);
    assert ItemInv(s.grants, s.campaigns[campaign].items[item]);
  }

  function PendingCount(items: seq<Item>): (count: nat)
    ensures count == 0 <==> NoPending(items)
    ensures count <= |items|
  {
    if items == [] then 0
    else
      assert forall i :: 0 <= i < |items| - 1 ==> items[..|items| - 1][i] == items[i];
      PendingCount(items[..|items| - 1]) + if items[|items| - 1].status == ItemPending then 1 else 0
  }

  lemma {:induction false} ResolvingOneItem(items: seq<Item>, item: nat, status: ItemStatus)
    requires item < |items| && items[item].status == ItemPending && status != ItemPending
    ensures PendingCount(items[item := items[item].(status := status)]) == PendingCount(items) - 1
  {
    var after := items[item := items[item].(status := status)];
    var front := items[..|items| - 1];
    if item == |items| - 1 {
      assert after[..|items| - 1] == front;
    } else {
      ResolvingOneItem(front, item, status);
      assert after[..|items| - 1] == front[item := front[item].(status := status)];
    }
  }

  /** The event is an accepted resolution of an item of this campaign. */
  predicate Resolves(config: Config, s: State, e: Event, campaign: nat) {
    && e.ResolveItem? && e.campaign == campaign
    && ResolutionAllowed(config, s.(clock := s.clock + e.after), e.actor, e.campaign, e.item, e.recertify)
  }

  /** How many resolutions of this campaign a run accepts. */
  function Resolutions(config: Config, s: State, events: seq<Event>, campaign: nat): nat {
    if events == [] then 0
    else
      var front, e := events[..|events| - 1], events[|events| - 1];
      Resolutions(config, s, front, campaign) + if Resolves(config, Run(config, s, front), e, campaign) then 1 else 0
  }

  lemma OneStepCountsDown(config: Config, s: State, e: Event, campaign: nat)
    requires campaign < |s.campaigns|
    ensures var t := Exec(config, s, e);
            && campaign < |t.campaigns|
            && |t.campaigns[campaign].items| == |s.campaigns[campaign].items|
            && PendingCount(t.campaigns[campaign].items) + (if Resolves(config, s, e, campaign) then 1 else 0)
            == PendingCount(s.campaigns[campaign].items)
  {
    if Resolves(config, s, e, campaign) {
      ResolvingOneItem(s.campaigns[campaign].items, e.item, if e.recertify then ItemRecertified else ItemRevoked);
    }
  }

  lemma {:induction false} ResolutionsCountDown(config: Config, s: State, events: seq<Event>, campaign: nat)
    requires campaign < |s.campaigns|
    ensures campaign < |Run(config, s, events).campaigns|
    ensures |Run(config, s, events).campaigns[campaign].items| == |s.campaigns[campaign].items|
    ensures PendingCount(Run(config, s, events).campaigns[campaign].items) + Resolutions(config, s, events, campaign)
         == PendingCount(s.campaigns[campaign].items)
  {
    if events != [] {
      var front, e := events[..|events| - 1], events[|events| - 1];
      ResolutionsCountDown(config, s, front, campaign);
      OneStepCountsDown(config, Run(config, s, front), e, campaign);
    }
  }

  lemma {:induction false} FreshItemsArePending(items: seq<Item>)
    requires forall i :: 0 <= i < |items| ==> items[i].status == ItemPending
    ensures PendingCount(items) == |items|
  {
    if items != [] {
      FreshItemsArePending(items[..|items| - 1]);
    }
  }

  /** A campaign is completed after exactly as many accepted resolutions as it has items. */
  lemma {:induction false} CompletedAfterAllItems(config: Config, before: seq<Event>, create: Event, events: seq<Event>)
    requires create.CreateCampaign?
    requires |Exec(config, Run(config, EMPTY, before), create).campaigns| > |Run(config, EMPTY, before).campaigns|
    ensures CompletedByCount(config, Exec(config, Run(config, EMPTY, before), create), events, |Run(config, EMPTY, before).campaigns|)
  {
    var s := Run(config, EMPTY, before);
    var created := Exec(config, s, create);
    assert Inv(config, created) by {
      RunsKeepInv(config, EMPTY, before);
      ExecKeepsInv(config, s, create);
    }
    NewCampaignIsPending(config, s, create);
    CompletedWhenCountedDown(config, created, events, |s.campaigns|);
  }

  /** After `events` the campaign is completed exactly when as many resolutions were accepted as it has items. */
  ghost predicate CompletedByCount(config: Config, created: State, events: seq<Event>, campaign: nat) {
    var s := Run(config, created, events);
    && campaign < |s.campaigns|
    && (s.campaigns[campaign].completed <==> Resolutions(config, created, events, campaign) == |s.campaigns[campaign].items|)
  }

  lemma NewCampaignIsPending(config: Config, s: State, create: Event)
    requires create.CreateCampaign? && |Exec(config, s, create).campaigns| > |s.campaigns|
    ensures var created := Exec(config, s, create);
            && |created.campaigns| == |s.campaigns| + 1
            && PendingCount(created.campaigns[|s.campaigns|].items) == |created.campaigns[|s.campaigns|].items|
  {
    FreshItemsArePending(Exec(config, s, create).campaigns[|s.campaigns|].items);
  }

  lemma {:induction false} CompletedWhenCountedDown(config: Config, created: State, events: seq<Event>, campaign: nat)
    requires Inv(config, created) && campaign < |created.campaigns|
    requires PendingCount(created.campaigns[campaign].items) == |created.campaigns[campaign].items|
    ensures CompletedByCount(config, created, events, campaign)
  {
    ResolutionsCountDown(config, created, events, campaign);
    RunsKeepInv(config, created, events);
    var s := Run(config, created, events);
    assert CampaignInv(s.grants, s.campaigns[campaign]);
  }

  /** A pending item whose grant has ended can no longer be resolved either way. */
  ghost predicate Stuck(s: State, campaign: nat, item: nat) {
    && campaign < |s.campaigns| && item < |s.campaigns[campaign].items|
    && s.campaigns[campaign].items[item].status == ItemPending
    && s.campaigns[campaign].items[item].grant < |s.grants|
    && Terminal(s.grants[s.campaigns[campaign].items[item].grant].status)
  }

  lemma ExecKeepsStuck(config: Config, s: State, e: Event, campaign: nat, item: nat)
    requires Inv(config, s) && Stuck(s, campaign, item)
    ensures Stuck(Exec(config, s, e), campaign, item)
  {
    ExecKeepsInv(config, s, e);
    var grant := s.campaigns[campaign].items[item].grant;
    assert GrantContinues(s.grants[grant], Exec(config, s, e).grants[grant]);
    if e.ResolveItem? && e.campaign == campaign && e.item == item {
      var now := s.clock + e.after;
      assert MarkExpired(s.grants[grant], now) == s.grants[grant];
      assert Operate(config, s.grants[grant], CampaignOperation(e.recertify), e.actor, now).None?;
    }
  }

  /**
   * A campaign one of whose pending items lost its grant to expiry, rejection or revocation
   * elsewhere can never be completed, whatever operators do.
   */
  lemma {:induction false} StuckCampaignsNeverComplete(config: Config, events: seq<Event>, later: seq<Event>, campaign: nat, item: nat)
    requires Stuck(Run(config, EMPTY, events), campaign, item)
    ensures var s := Run(config, Run(config, EMPTY, events), later);
            campaign < |s.campaigns| && !s.campaigns[campaign].completed
  {
    RunsKeepInv(config, EMPTY, events);
    StuckItemsStayPending(config, Run(config, EMPTY, events), later, campaign, item);
  }

  lemma {:induction false} StuckItemsStayPending(config: Config, s: State, later: seq<Event>, campaign: nat, item: nat)
    requires Inv(config, s) && Stuck(s, campaign, item)
    ensures Stuck(Run(config, s, later), campaign, item)
    ensures !Run(config, s, later).campaigns[campaign].completed
  {
    RunsKeepInv(config, s, later);
    if later != [] {
      var front := later[..|later| - 1];
      StuckItemsStayPending(config, s, front, campaign, item);
      RunsKeepInv(config, s, front);
      ExecKeepsStuck(config, Run(config, s, front), later[|later| - 1], campaign, item);
    }
    var t := Run(config, s, later);
    assert CampaignInv(t.grants, t.campaigns[campaign]);
  }

  const REQUESTER := Actor("requester", "operators", false)
  const REVIEWER := Actor("reviewer", "operators", true)

  /** Such campaigns occur: a grant is issued, approved and put into a campaign, and then expires. */
  lemma CampaignsCanGetStuck(config: Config)
    requires 1 < config.reviewTtl && 100 <= config.lookahead
    ensures var issued := Exec(config, EMPTY, Issue(1, REQUESTER, true, 100));
            var approved := Exec(config, issued, OnGrant(1, REVIEWER, 0, Decide(true)));
            var campaigned := Exec(config, approved, CreateCampaign(1, REVIEWER));
            Stuck(Exec(config, campaigned, Inspect(200, 0)), 0, 0)
  {
    var issued := Exec(config, EMPTY, Issue(1, REQUESTER, true, 100));
    var approved := Exec(config, issued, OnGrant(1, REVIEWER, 0, Decide(true)));
    assert approved.grants[0].status == Active;
    assert IsCandidate(config, approved.grants[0], "operators", 3);
    assert Item(0, ItemPending) in CandidateItems(config, approved.grants, 1, "operators", 3);
  }

  /** On every run an owner or admin of the organization can revoke away a pending item exactly as long as its grant has not ended. */
  lemma {:induction false} PendingItemsResolvableUnlessEnded(config: Config, events: seq<Event>, actor: Actor, campaign: nat, item: nat)
    requires var s := Run(config, EMPTY, events);
             && campaign < |s.campaigns| && item < |s.campaigns[campaign].items|
             && s.campaigns[campaign].items[item].status == ItemPending
             && actor.mayReview && actor.organization == s.campaigns[campaign].organization
    ensures var s := Run(config, EMPTY, events);
            var grant := s.campaigns[campaign].items[item].grant;
            && grant < |s.grants|
            && (ResolutionAllowed(config, s, actor, campaign, item, false) <==>
                  !Terminal(s.grants[grant].status) && s.clock < s.grants[grant].expiresAt)
  {
    RunsKeepInv(config, EMPTY, events);
    var s := Run(config, EMPTY, events);
    assert CampaignInv(s.grants, s.campaigns[campaign]);
    assert ItemInv(s.grants, s.campaigns[campaign].items[item]);
  }

  // ---------------------------------------------------------------------------------------------
  // Exactly which campaigns can still be completed
  // ---------------------------------------------------------------------------------------------

  predicate LivesPast(s: State, grant: nat, time: int) {
    grant < |s.grants| && !Terminal(s.grants[grant].status) && time < s.grants[grant].expiresAt
  }

  /**
   * The pending items of a campaign, each once, in an order in which they can be resolved one per
   * instant: the grant of the k-th has not ended and expires later than k instants from now.
   */
  ghost predicate Schedule(s: State, campaign: nat, order: seq<nat>) {
    && campaign < |s.campaigns|
    && var items := s.campaigns[campaign].items;
    && (forall i: nat :: i < |items| && items[i].status == ItemPending ==> i in order)
    && (forall k :: 0 <= k < |order| ==>
          && order[k] < |items| && items[order[k]].status == ItemPending
          && LivesPast(s, items[order[k]].grant, s.clock + k + 1))
    && (forall j, k :: 0 <= j < k < |order| ==> order[j] != order[k])
  }

  predicate CompletedBy(config: Config, s: State, later: seq<Event>, campaign: nat) {
    var t := Run(config, s, later);
    campaign < |t.campaigns| && t.campaigns[campaign].completed
  }

  /** All events are revocations of items of the campaign by one actor. */
  ghost predicate OnlyRevokes(later: seq<Event>, actor: Actor, campaign: nat) {
    forall i :: 0 <= i < |later| ==>
      later[i].ResolveItem? && later[i].actor == actor && later[i].campaign == campaign && !later[i].recertify
  }

  lemma {:induction false} RunFromFirst(config: Config, s: State, e: Event, rest: seq<Event>)
    ensures Run(config, s, [e] + rest) == Run(config, Exec(config, s, e), rest)
  {
    var events := [e] + rest;
    if rest == [] {
      assert events == [e] && events[..0] == [];
    } else {
      var front := rest[..|rest| - 1];
      assert events[..|events| - 1] == [e] + front;
      RunFromFirst(config, s, e, front);
    }
  }

  /** A pending item whose grant lives on is revoked away, and nothing else changes. */
  lemma RevokingOneItem(config: Config, s: State, campaign: nat, item: nat, actor: Actor)
    requires Inv(config, s) && campaign < |s.campaigns| && item < |s.campaigns[campaign].items|
    requires s.campaigns[campaign].items[item].status == ItemPending
    requires LivesPast(s, s.campaigns[campaign].items[item].grant, s.clock + 1)
    requires actor.mayReview && actor.organization == s.campaigns[campaign].organization
    ensures var t := Exec(config, s, ResolveItem(1, actor, campaign, item, false));
            var items := s.campaigns[campaign].items;
            && t.clock == s.clock + 1
            && |t.grants| == |s.grants|
            && (forall g :: 0 <= g < |s.grants| && g != items[item].grant ==> t.grants[g] == s.grants[g])
            && campaign < |t.campaigns| && t.campaigns[campaign].organization == s.campaigns[campaign].organization
            && t.campaigns[campaign].items == items[item := items[item].(status := ItemRevoked)]
  {
    assert CampaignInv(s.grants, s.campaigns[campaign]);
    assert ResolutionAllowed(config, s.(clock := s.clock + 1), actor, campaign, item, false);
  }

  /** Revoking the first item of a schedule leaves the rest of it as a schedule. */
  lemma RevokingKeepsSchedule(s: State, t: State, campaign: nat, order: seq<nat>)
    requires Schedule(s, campaign, order) && order != []
    requires DistinctGrants(s.campaigns[campaign].items)
    requires var items := s.campaigns[campaign].items;
             && t.clock == s.clock + 1
             && |t.grants| == |s.grants|
             && (forall g :: 0 <= g < |s.grants| && g != items[order[0]].grant ==> t.grants[g] == s.grants[g])
             && campaign < |t.campaigns|
             && t.campaigns[campaign].items == items[order[0] := items[order[0]].(status := ItemRevoked)]
    ensures Schedule(t, campaign, order[1..])
  {
    var items, later, rest := s.campaigns[campaign].items, t.campaigns[campaign].items, order[1..];
    forall i: nat | i < |later| && later[i].status == ItemPending ensures i in rest {
      assert i in order && order == [order[0]] + rest;
    }
    forall k | 0 <= k < |rest|
      ensures rest[k] < |later| && later[rest[k]].status == ItemPending && LivesPast(t, later[rest[k]].grant, t.clock + k + 1)
    {
      assert rest[k] == order[k + 1] != order[0];
      assert LivesPast(s, items[order[k + 1]].grant, s.clock + (k + 1) + 1);
      assert items[order[k + 1]].grant != items[order[0]].grant;
    }
  }

  lemma RevokingTheFirst(config: Config, s: State, campaign: nat, order: seq<nat>, actor: Actor)
    requires Inv(config, s) && Schedule(s, campaign, order) && order != []
    requires actor.mayReview && actor.organization == s.campaigns[campaign].organization
    ensures var t := Exec(config, s, ResolveItem(1, actor, campaign, order[0], false));
            Inv(config, t) && Schedule(t, campaign, order[1..]) && t.campaigns[campaign].organization == actor.organization
  {
    var t := Exec(config, s, ResolveItem(1, actor, campaign, order[0], false));
    assert CampaignInv(s.grants, s.campaigns[campaign]);
    assert LivesPast(s, s.campaigns[campaign].items[order[0]].grant, s.clock + 0 + 1);
    RevokingOneItem(config, s, campaign, order[0], actor);
    RevokingKeepsSchedule(s, t, campaign, order);
    ExecKeepsInv(config, s, ResolveItem(1, actor, campaign, order[0], false));
  }

  /** One owner or admin can complete a scheduled campaign by revocations alone. */
  lemma {:induction false} ScheduleCompletes(config: Config, s: State, campaign: nat, order: seq<nat>, actor: Actor) returns (later: seq<Event>)
    requires Inv(config, s) && Schedule(s, campaign, order)
    requires actor.mayReview && actor.organization == s.campaigns[campaign].organization
    ensures CompletedBy(config, s, later, campaign) && OnlyRevokes(later, actor, campaign)
    decreases |order|
  {
    if order == [] {
      later := [];
      assert CampaignInv(s.grants, s.campaigns[campaign]);
    } else {
      var e := ResolveItem(1, actor, campaign, order[0], false);
      RevokingTheFirst(config, s, campaign, order, actor);
      var rest := ScheduleCompletes(config, Exec(config, s, e), campaign, order[1..], actor);
      RunFromFirst(config, s, e, rest);
      later := [e] + rest;
    }
  }

  /** What a step resolves comes first in a schedule that starts before it. */
  lemma ScheduleFromBefore(config: Config, s: State, e: Event, campaign: nat, after: seq<nat>) returns (order: seq<nat>)
    requires Inv(config, s) && campaign < |s.campaigns| && Schedule(Exec(config, s, e), campaign, after)
    ensures Schedule(s, campaign, order)
  {
    LivingGrantsLivedBefore(config, s, e, campaign);
    if Resolves(config, s, e, campaign) {
      order := [e.item] + after;
      ResolvedFirst(config, s, e, campaign, after);
    } else {
      order := after;
      OtherStepsKeepCampaign(config, s, e, campaign);
      var t, items := Exec(config, s, e), s.campaigns[campaign].items;
      hide Exec;
      forall k | 0 <= k < |order| ensures LivesPast(s, items[order[k]].grant, s.clock + k + 1) {
        assert LivesPast(t, items[order[k]].grant, t.clock + k + 1);
      }
    }
  }

  lemma LivingGrantsLivedBefore(config: Config, s: State, e: Event, campaign: nat)
    requires Inv(config, s) && campaign < |s.campaigns|
    ensures var items := s.campaigns[campaign].items;
            forall i: nat, time :: i < |items| && LivesPast(Exec(config, s, e), items[i].grant, time) ==> LivesPast(s, items[i].grant, time)
  {
    var t := Exec(config, s, e);
    ExecKeepsInv(config, s, e);
    hide Exec;
    assert CampaignInv(s.grants, s.campaigns[campaign]);
    var items := s.campaigns[campaign].items;
    forall i: nat, time | i < |items| && LivesPast(t, items[i].grant, time) ensures LivesPast(s, items[i].grant, time) {
      assert ItemInv(s.grants, items[i]);
      assert GrantContinues(s.grants[items[i].grant], t.grants[items[i].grant]);
    }
  }

  lemma OtherStepsKeepCampaign(config: Config, s: State, e: Event, campaign: nat)
    requires campaign < |s.campaigns| && !Resolves(config, s, e, campaign)
    ensures campaign < |Exec(config, s, e).campaigns|
    ensures Exec(config, s, e).campaigns[campaign] == s.campaigns[campaign] && s.clock < Exec(config, s, e).clock
  {
  }

  lemma ResolvedFirst(config: Config, s: State, e: Event, campaign: nat, after: seq<nat>)
    requires campaign < |s.campaigns| && Resolves(config, s, e, campaign)
    requires Schedule(Exec(config, s, e), campaign, after)
    requires var items := s.campaigns[campaign].items;
             forall i: nat, time :: i < |items| && LivesPast(Exec(config, s, e), items[i].grant, time) ==> LivesPast(s, items[i].grant, time)
    ensures Schedule(s, campaign, [e.item] + after)
  {
    var t, order := Exec(config, s, e), [e.item] + after;
    var items, later := s.campaigns[campaign].items, t.campaigns[campaign].items;
    assert later == items[e.item := later[e.item]] && later[e.item].status != ItemPending;
    forall i: nat | i < |items| && items[i].status == ItemPending ensures i in order {
      assert i != e.item ==> later[i] == items[i] && i in after;
    }
    forall k | 0 <= k < |order|
      ensures order[k] < |items| && items[order[k]].status == ItemPending && LivesPast(s, items[order[k]].grant, s.clock + k + 1)
    {
      if k > 0 {
        assert order[k] == after[k - 1];
        assert LivesPast(t, later[after[k - 1]].grant, t.clock + (k - 1) + 1);
        assert LivesPast(s, items[order[k]].grant, t.clock + (k - 1) + 1);
      }
    }
  }

  /** However a campaign gets completed, its pending items could have been scheduled. */
  lemma {:induction false} CompletionIsScheduled(config: Config, s: State, later: seq<Event>, campaign: nat) returns (order: seq<nat>)
    requires Inv(config, s) && campaign < |s.campaigns| && CompletedBy(config, s, later, campaign)
    ensures Schedule(s, campaign, order)
    decreases |later|
  {
    if later == [] {
      order := [];
      assert CampaignInv(s.grants, s.campaigns[campaign]);
    } else {
      var e, rest := later[0], later[1..];
      assert later == [e] + rest;
      RunFromFirst(config, s, e, rest);
      ExecKeepsInv(config, s, e);
      OneStepCountsDown(config, s, e, campaign);
      var after := CompletionIsScheduled(config, Exec(config, s, e), rest, campaign);
      order := ScheduleFromBefore(config, s, e, campaign, after);
    }
  }

  /**
   * After every run, a campaign can still be completed, by whatever operators may do, if and only
   * if its pending items can be put in an order in which the k-th grant has not ended and expires
   * later than k instants from now; and then any one owner or admin of the organization can do it.
   */
  lemma {:induction false} CampaignsCompleteExactlyWhen(config: Config, events: seq<Event>, campaign: nat, actor: Actor)
    requires campaign < |Run(config, EMPTY, events).campaigns|
    requires actor.mayReview && actor.organization == Run(config, EMPTY, events).campaigns[campaign].organization
    ensures var s := Run(config, EMPTY, events);
            && ((exists later :: CompletedBy(config, s, later, campaign)) <==> (exists order :: Schedule(s, campaign, order)))
            && ((exists order :: Schedule(s, campaign, order)) ==>
                  exists later :: CompletedBy(config, s, later, campaign) && OnlyRevokes(later, actor, campaign))
  {
    var s := Run(config, EMPTY, events);
    RunsKeepInv(config, EMPTY, events);
    if later :| CompletedBy(config, s, later, campaign) {
      var order := CompletionIsScheduled(config, s, later, campaign);
    }
    if order :| Schedule(s, campaign, order) {
      var later := ScheduleCompletes(config, s, campaign, order, actor);
    }
  }

  // ---------------------------------------------------------------------------------------------
  // The tables, updated in place
  // ---------------------------------------------------------------------------------------------

  class SupportDesk {
    const config: Config
    var clock: int
    var grants: seq<Grant>
    var activations: seq<Activation>
    var campaigns: seq<Campaign>

    ghost function Now(): State
      reads this
    {
      State(clock, grants, activations, campaigns)
    }

    constructor (config: Config)
      ensures this.config == config && Now() == EMPTY
    {
      this.config := config;
      clock, grants, activations, campaigns := 0, [], [], [];
    }

    method IssueGrant(after: Tick, actor: Actor, targetFound: bool, expiresAt: int) returns (id: Option<nat>)
      modifies this
      ensures Now() == Exec(config, old(Now()), Issue(after, actor, targetFound, expiresAt))
      ensures id.Some? <==> targetFound && clock < expiresAt
    {
      clock := clock + after;
      if expiresAt <= clock {
        return None;
      }
      if !targetFound {
        return None;
      }
      grants := grants + [Grant(actor.user, actor.organization, expiresAt, PendingReview, None, None, [])];
      return Some(|grants| - 1);
    }

    /** Let time act on one grant. */
    method MarkExpiredGrantIfNeeded(id: nat)
      requires id < |grants|
      modifies this`grants
      ensures grants == old(grants)[id := MarkExpired(old(grants)[id], clock)]
    {
      if !Terminal(grants[id].status) && grants[id].expiresAt <= clock {
        grants := grants[id := grants[id].(status := Expired)];
      } else if grants[id].status == Active && grants[id].reviewExpiresAt.Some? && grants[id].reviewExpiresAt.value <= clock {
        grants := grants[id := grants[id].(status := RecertificationRequired)];
      }
    }

    method InspectGrant(after: Tick, id: nat)
      modifies this
      ensures Now() == Exec(config, old(Now()), Inspect(after, id))
    {
      clock := clock + after;
      if id < |grants| {
        MarkExpiredGrantIfNeeded(id);
      }
    }

    /** Review, recertify, activate or revoke a grant. */
    method PerformOnGrant(after: Tick, actor: Actor, id: nat, operation: Operation) returns (done: bool)
      modifies this
      ensures Now() == Exec(config, old(Now()), OnGrant(after, actor, id, operation))
      ensures done && operation.Activate? ==> activations == old(activations) + [Activation(id, actor.user, clock)]
      ensures !(done && operation.Activate?) ==> activations == old(activations)
    {
      clock := clock + after;
      if id >= |grants| || !RoleAllows(operation, actor) {
        return false;
      }
      MarkExpiredGrantIfNeeded(id);
      var result := Operate(config, grants[id], operation, actor, clock);
      if result.None? {
        return false;
      }
      grants := grants[id := result.value];
      if operation.Activate? {
        activations := activations + [Activation(id, actor.user, clock)];
      }
      return true;
    }

    method CreateReviewCampaign(after: Tick, actor: Actor) returns (id: Option<nat>)
      modifies this
      ensures Now() == Exec(config, old(Now()), CreateCampaign(after, actor))
      ensures id.Some? ==> id.value < |campaigns| && campaigns[id.value].items != []
    {
      clock := clock + after;
      var items := CandidateItems(config, grants, |grants|, actor.organization, clock);
      if !actor.mayReview || items == [] {
        return None;
      }
      campaigns := campaigns + [Campaign(actor.organization, false, items)];
      return Some(|campaigns| - 1);
    }

    method ResolveCampaignItem(after: Tick, actor: Actor, campaign: nat, item: nat, recertify: bool) returns (done: bool)
      modifies this
      ensures Now() == Exec(config, old(Now()), ResolveItem(after, actor, campaign, item, recertify))
      ensures !done ==> grants == old(grants) && campaigns == old(campaigns)
    {
      clock := clock + after;
      if !actor.mayReview || campaign >= |campaigns| || item >= |campaigns[campaign].items|
         || campaigns[campaign].organization != actor.organization || campaigns[campaign].completed
         || campaigns[campaign].items[item].status != ItemPending || campaigns[campaign].items[item].grant >= |grants|
      {
        return false;
      }
      var grant := campaigns[campaign].items[item].grant;
      var result := Operate(config, MarkExpired(grants[grant], clock), CampaignOperation(recertify), actor, clock);
      if result.None? {
        return false;
      }
      grants := grants[grant := result.value];
      var c := campaigns[campaign];
      var items := c.items[item := c.items[item].(status := if recertify then ItemRecertified else ItemRevoked)];
      var pending := CountPending(items);
      campaigns := campaigns[campaign := c.(items := items, completed := pending == 0)];
      return true;
    }
  }

  method CountPending(items: seq<Item>) returns (count: nat)
    ensures count == PendingCount(items)
  {
    count := 0;
    for i := 0 to |items|
      invariant count == PendingCount(items[..i])
    {
      assert items[..i + 1][..i] == items[..i];
      if items[i].status == ItemPending {
        count := count + 1;
      }
    }
    assert items[..|items|] == items;
  }
}
