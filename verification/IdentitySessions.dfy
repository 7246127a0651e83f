/**
 * Sessions issued to external identities, and the identity links and provisioned assignments whose
 * suspension or revocation must end them for good.
 */
module IdentitySessions {
  import opened Basics
  import opened Texts

  // ---------------------------------------------------------------------------------------------
  // Data: rows are known by their unique columns
  // ---------------------------------------------------------------------------------------------

  datatype Membership = Membership(email: string, organization: string, role: string)

  datatype LinkKey = LinkKey(provider: string, subject: string)

  datatype Standing = Active | Suspended | Revoked

  datatype Link = Link(userEmail: string, standing: Standing)

  datatype AssignmentKey = AssignmentKey(provider: string, externalEmail: string, membership: Membership)

  datatype Mode = IdentityBridge | ExternalOidc

  datatype Session = Session(
    membership: Membership, mode: Mode, provider: string, subject: string, expiresAt: int, revokedAt: Option<int>)
  {
    function Key(): LinkKey {
      LinkKey(provider, subject)
    }

    /** The assignment a session of the external mode is checked against when loaded. */
    function Assignment(): AssignmentKey {
      AssignmentKey(provider, Lower(membership.email), membership)
    }

    /** Revoked or expired: no check can bring such a session back. */
    predicate Dead(now: int) {
      revokedAt.Some? || expiresAt <= now
    }
  }

  /** Sessions are numbered in the order they were issued; the tenants are the buyer and seller organizations. */
  datatype State = State(
    clock: int, tenants: set<string>, memberships: set<Membership>, links: map<LinkKey, Link>,
    assignments: map<AssignmentKey, Standing>, sessions: seq<Session>)

  // ---------------------------------------------------------------------------------------------
  // Operations
  // ---------------------------------------------------------------------------------------------

  datatype Action = Suspend | Reactivate | Revoke

  predicate ActionAllowed(standing: Standing, action: Action) {
    match action
    case Suspend => standing == Active
    case Reactivate => standing == Suspended
    case Revoke => standing != Revoked
  }

  function NextStanding(action: Action): Standing {
    match action
    case Suspend => Suspended
    case Reactivate => Active
    case Revoke => Revoked
  }

  datatype Event =
    | Exchange(after: Tick, membership: Membership, externalEmail: Option<string>, mode: Mode,
               provider: string, subject: string, issuedAt: int, expiresAt: int)
    | ChangeLink(after: Tick, key: LinkKey, action: Action)
    | ChangeAssignment(after: Tick, assignment: AssignmentKey, action: Action)
    | Provision(after: Tick, provider: string, email: string, organization: string, role: string)
    | RevokeSession(after: Tick, id: nat)

  /** A session loads only if it is alive, its link is active, and so is its assignment if it needs one. */
  function Load(s: State, id: nat): Option<Session> {
    if id >= |s.sessions| then None
    else
      var session := s.sessions[id];
      if session.revokedAt.Some? || session.expiresAt <= s.clock then None
      else if session.Key() !in s.links || s.links[session.Key()].standing != Active then None
      else if session.mode.ExternalOidc?
           && (session.Assignment() !in s.assignments || s.assignments[session.Assignment()] != Active) then None
      else Some(session)
  }

  predicate ExchangeAllowed(s: State, e: Event)
    requires e.Exchange?
  {
    && e.subject != "" && e.provider != ""
    && e.issuedAt < e.expiresAt && s.clock < e.expiresAt
    && e.membership in s.memberships
    && (e.mode.ExternalOidc? ==>
          var key := AssignmentKey(e.provider, Lower(e.externalEmail.GetOr(e.membership.email)), e.membership);
          key in s.assignments && s.assignments[key] == Active)
    && var key := LinkKey(e.provider, e.subject);
       key in s.links ==> s.links[key] == Link(e.membership.email, Active)
  }

  /** Links are governed only while their user belongs to some tenant. */
  predicate TenantUser(s: State, email: string) {
    exists m :: m in s.memberships && m.email == email && m.organization in s.tenants
  }

  predicate LinkChangeAllowed(s: State, key: LinkKey, action: Action) {
    key in s.links && TenantUser(s, s.links[key].userEmail) && ActionAllowed(s.links[key].standing, action)
  }

  predicate AssignmentChangeAllowed(s: State, key: AssignmentKey, action: Action) {
    key in s.assignments && key.membership.organization in s.tenants && ActionAllowed(s.assignments[key], action)
  }

  /** Revoke the sessions in `ids` that are still alive. */
  function Kill(s: State, ids: set<nat>): seq<Session> {
    seq(|s.sessions|, i requires 0 <= i < |s.sessions| =>
      if i in ids && !s.sessions[i].Dead(s.clock) then s.sessions[i].(revokedAt := Some(s.clock)) else s.sessions[i])
  }

  function OfLink(s: State, key: LinkKey): set<nat> {
    set i: nat | i < |s.sessions| && s.sessions[i].Key() == key
  }

  /** Suspending an assignment ends every session of its provider and membership, however obtained. */
  function OfAssignment(s: State, key: AssignmentKey): set<nat> {
    set i: nat | i < |s.sessions| && s.sessions[i].provider == key.provider && s.sessions[i].membership == key.membership
  }

  /** One operation as an atomic step; a refused one changes nothing but the time. */
  function Exec(state: State, e: Event): State {
    var s := state.(clock := state.clock + e.after);
    match e
    case Exchange(_, membership, _, mode, provider, subject, _, expiresAt) =>
      if !ExchangeAllowed(s, e) then s
      else s.(links := s.links[LinkKey(provider, subject) := Link(membership.email, Active)],
              sessions := s.sessions + [Session(membership, mode, provider, subject, expiresAt, None)])
    case ChangeLink(_, key, action) =>
      if !LinkChangeAllowed(s, key, action) then s
      else s.(links := s.links[key := s.links[key].(standing := NextStanding(action))],
              sessions := if action.Reactivate? then s.sessions else Kill(s, OfLink(s, key)))
    case ChangeAssignment(_, key, action) =>
      if !AssignmentChangeAllowed(s, key, action) then s
      else s.(assignments := s.assignments[key := NextStanding(action)],
              sessions := if action.Reactivate? then s.sessions else Kill(s, OfAssignment(s, key)))
    case Provision(_, provider, email, organization, role) =>
      var membership := Membership(Lower(email), organization, role);
      var key := AssignmentKey(provider, Lower(email), membership);
      if organization !in s.tenants || (key in s.assignments && s.assignments[key] == Active) then s
      else s.(memberships := s.memberships + {membership}, assignments := s.assignments[key := Active])
    case RevokeSession(_, id) =>
      if Load(s, id).None? || s.sessions[id].membership.organization !in s.tenants then s
      else s.(sessions := Kill(s, {id}))
  }

  function Run(s: State, events: seq<Event>): State {
    if events == [] then s else Exec(Run(s, events[..|events| - 1]), events[|events| - 1])
  }

  function Initial(tenants: set<string>, memberships: set<Membership>): State {
    State(0, tenants, memberships, map[], map[], [])
  }

  // ---------------------------------------------------------------------------------------------
  // What each operation does, in full
  // ---------------------------------------------------------------------------------------------

  /** Exactly the chosen sessions that were alive end now; no other session changes. */
  ghost predicate EndedNow(sessions: seq<Session>, chosen: set<nat>, now: int, later: seq<Session>) {
    && |later| == |sessions|
    && forall i: nat :: i < |sessions| ==>
         if i in chosen && sessions[i].revokedAt == None && now < sessions[i].expiresAt
         then later[i].revokedAt == Some(now) && later[i].(revokedAt := None) == sessions[i]
         else later[i] == sessions[i]
  }

  /** From which standing an action leads to which: suspensions are lifted, revocations are for good. */
  ghost predicate Leads(from: Standing, action: Action, to: Standing) {
    match action
    case Suspend => from == Active && to == Suspended
    case Reactivate => from == Suspended && to == Active
    case Revoke => from in {Active, Suspended} && to == Revoked
  }

  /** A link action takes effect exactly for a tenant's user and a standing it leads from; losing the link ends its sessions. */
  lemma LinkChangesExactly(s: State, e: Event)
    requires e.ChangeLink?
    ensures var t, now := Exec(s, e), s.clock + e.after;
            var effective :=
              && e.key in s.links
              && (exists to :: Leads(s.links[e.key].standing, e.action, to))
              && exists m :: m in s.memberships && m.email == s.links[e.key].userEmail && m.organization in s.tenants;
            && t.clock == now && t.tenants == s.tenants && t.memberships == s.memberships && t.assignments == s.assignments
            && t.links.Keys == s.links.Keys && (forall key :: key in s.links && key != e.key ==> t.links[key] == s.links[key])
            && (!effective ==> t.links == s.links && t.sessions == s.sessions)
            && (effective ==>
                  && t.links[e.key].userEmail == s.links[e.key].userEmail
                  && Leads(s.links[e.key].standing, e.action, t.links[e.key].standing)
                  && EndedNow(s.sessions,
                              if e.action == Reactivate then {}
                              else (set i: nat | i < |s.sessions| && s.sessions[i].provider == e.key.provider
                                                 && s.sessions[i].subject == e.key.subject),
                              now, t.sessions))
  {
    if e.key in s.links {
      LeadsExactly(s.links[e.key].standing, e.action);
    }
  }

  lemma LeadsExactly(from: Standing, action: Action)
    ensures ActionAllowed(from, action) <==> exists to :: Leads(from, action, to)
    ensures ActionAllowed(from, action) ==> Leads(from, action, NextStanding(action))
  {
    forall to | Leads(from, action, to) ensures ActionAllowed(from, action) && to == NextStanding(action) {
      match action
      case Suspend =>
      case Reactivate =>
      case Revoke =>
    }
    assert from == Active || from == Suspended || from == Revoked;
    assert ActionAllowed(from, action) ==> Leads(from, action, NextStanding(action));
  }

  /** The same for assignments, whose loss ends every session of their provider and membership. */
  lemma AssignmentChangesExactly(s: State, e: Event)
    requires e.ChangeAssignment?
    ensures var t, now, key := Exec(s, e), s.clock + e.after, e.assignment;
            var effective :=
              && key in s.assignments && key.membership.organization in s.tenants
              && exists to :: Leads(s.assignments[key], e.action, to);
            && t.clock == now && t.tenants == s.tenants && t.memberships == s.memberships && t.links == s.links
            && t.assignments.Keys == s.assignments.Keys
            && (forall other :: other in s.assignments && other != key ==> t.assignments[other] == s.assignments[other])
            && (!effective ==> t.assignments == s.assignments && t.sessions == s.sessions)
            && (effective ==>
                  && Leads(s.assignments[key], e.action, t.assignments[key])
                  && EndedNow(s.sessions,
                              if e.action == Reactivate then {}
                              else (set i: nat | i < |s.sessions| && s.sessions[i].provider == key.provider
                                                 && s.sessions[i].membership == key.membership),
                              now, t.sessions))
  {
    if e.assignment in s.assignments {
      LeadsExactly(s.assignments[e.assignment], e.action);
    }
  }

  /**
   * A session is issued exactly for a named subject and provider, a live token, a known membership,
   * an active assignment where one is needed, and a free or own active link.
   */
  lemma ExchangeIssuesExactly(s: State, e: Event)
    requires e.Exchange?
    ensures var t, now, link := Exec(s, e), s.clock + e.after, LinkKey(e.provider, e.subject);
            var address := Lower(if e.externalEmail.Some? then e.externalEmail.value else e.membership.email);
            var assignment := AssignmentKey(e.provider, address, e.membership);
            var issued :=
              && e.subject != "" && e.provider != "" && now < e.expiresAt && e.issuedAt < e.expiresAt && e.membership in s.memberships
              && (e.mode == ExternalOidc ==> assignment in s.assignments && s.assignments[assignment] == Active)
              && (link !in s.links || (s.links[link].userEmail == e.membership.email && s.links[link].standing == Active));
            && t.clock == now && t.tenants == s.tenants && t.memberships == s.memberships && t.assignments == s.assignments
            && (!issued ==> t.links == s.links && t.sessions == s.sessions)
            && (issued ==>
                  && t.links == s.links[link := Link(e.membership.email, Active)]
                  && t.sessions == s.sessions + [Session(e.membership, e.mode, e.provider, e.subject, e.expiresAt, None)])
  {
  }

  /** Provisioning, for a tenant, activates an assignment that is not active and makes its user a member. */
  lemma ProvisioningIsExactly(s: State, e: Event)
    requires e.Provision?
    ensures var t, member := Exec(s, e), Membership(Lower(e.email), e.organization, e.role);
            var key := AssignmentKey(e.provider, Lower(e.email), member);
            && t.clock == s.clock + e.after && t.tenants == s.tenants && t.links == s.links && t.sessions == s.sessions
            && if e.organization in s.tenants && (key in s.assignments ==> s.assignments[key] in {Suspended, Revoked}) then
                 t.memberships == s.memberships + {member} && t.assignments == s.assignments[key := Active]
               else t.memberships == s.memberships && t.assignments == s.assignments
  {
  }

  /** Ending one session takes one of a tenant that would load. */
  lemma RevocationIsExactly(s: State, e: Event)
    requires e.RevokeSession?
    ensures var t, now := Exec(s, e), s.clock + e.after;
            var effective :=
              e.id < |s.sessions| && s.sessions[e.id].membership.organization in s.tenants && Load(s.(clock := now), e.id).Some?;
            && t.clock == now && t.tenants == s.tenants && t.memberships == s.memberships
            && t.links == s.links && t.assignments == s.assignments
            && EndedNow(s.sessions, if effective then {e.id} else {}, now, t.sessions)
  {
  }

  // ---------------------------------------------------------------------------------------------
  // Ended sessions stay ended
  // ---------------------------------------------------------------------------------------------

  /** Later states keep every session's identity and never revive a dead one. */
  ghost predicate Continues(s: State, t: State) {
    && s.clock <= t.clock
    && |s.sessions| <= |t.sessions|
    && (forall i :: 0 <= i < |s.sessions| ==>
          && t.sessions[i].(revokedAt := None) == s.sessions[i].(revokedAt := None)
          && (s.sessions[i].Dead(s.clock) ==> t.sessions[i].Dead(t.clock)))
    && (forall key :: key in s.links ==> key in t.links && t.links[key].userEmail == s.links[key].userEmail)
    && (forall key :: key in s.links && s.links[key].standing == Revoked ==> t.links[key].standing == Revoked)
  }

  lemma ExecContinues(s: State, e: Event)
    ensures Continues(s, Exec(s, e))
  {
  }

  lemma {:induction false} RunContinues(s: State, events: seq<Event>)
    ensures Continues(s, Run(s, events))
  {
    if events != [] {
      RunContinues(s, events[..|events| - 1]);
      ExecContinues(Run(s, events[..|events| - 1]), events[|events| - 1]);
    }
  }

  /**
   * Once a link is suspended or revoked, no session issued for it before loads in any later state,
   * whatever happens then: not even after the link is reactivated.
   */
  lemma {:induction false} LinkLossIsFinalForSessions(s: State, e: Event, later: seq<Event>, id: nat)
    requires e.ChangeLink? && !e.action.Reactivate?
    requires LinkChangeAllowed(s, e.key, e.action)
    requires id < |s.sessions| && s.sessions[id].Key() == e.key
    ensures Load(Run(Exec(s, e), later), id) == None
  {
    var ended := Exec(s, e);
    assert ended.sessions[id].Dead(ended.clock);
    RunContinues(ended, later);
  }

  /**
   * Once an assignment is suspended or revoked, no session issued before for its provider and
   * membership loads in any later state, not even after the assignment is provisioned again.
   */
  lemma {:induction false} AssignmentLossIsFinalForSessions(s: State, e: Event, later: seq<Event>, id: nat)
    requires e.ChangeAssignment? && !e.action.Reactivate?
    requires AssignmentChangeAllowed(s, e.assignment, e.action)
    requires id < |s.sessions| && s.sessions[id].provider == e.assignment.provider
    requires s.sessions[id].membership == e.assignment.membership
    ensures Load(Run(Exec(s, e), later), id) == None
  {
    var ended := Exec(s, e);
    assert ended.sessions[id].Dead(ended.clock);
    RunContinues(ended, later);
  }

  /** Once a link is revoked no session of its provider and subject, old or new, ever loads again. */
  lemma {:induction false} RevokedLinksStayClosed(s: State, key: LinkKey, later: seq<Event>, id: nat)
    requires key in s.links && s.links[key].standing == Revoked
    requires id < |Run(s, later).sessions| && Run(s, later).sessions[id].Key() == key
    ensures Load(Run(s, later), id) == None
  {
    RunContinues(s, later);
  }

  // ---------------------------------------------------------------------------------------------
  // The invariant of all runs
  // ---------------------------------------------------------------------------------------------

  /** The session belongs to its link's user, and is dead as soon as link or assignment is not active. */
  ghost predicate SessionInv(s: State, session: Session) {
    && session.Key() in s.links
    && s.links[session.Key()].userEmail == session.membership.email
    && (s.links[session.Key()].standing != Active ==> session.Dead(s.clock))
    && (session.mode.ExternalOidc? ==>
          && session.Assignment() in s.assignments
          && (s.assignments[session.Assignment()] != Active ==> session.Dead(s.clock)))
  }

  /** Provisioned assignments are always for the address of the membership's own user. */
  ghost predicate OwnAddress(key: AssignmentKey) {
    key.externalEmail == key.membership.email == Lower(key.membership.email)
  }

  ghost predicate Inv(s: State) {
    && (forall i :: 0 <= i < |s.sessions| ==> SessionInv(s, s.sessions[i]))
    && (forall key :: key in s.assignments ==> OwnAddress(key))
  }

  lemma ExchangeKeepsInv(state: State, e: Event)
    requires Inv(state) && e.Exchange?
    ensures Inv(Exec(state, e))
  {
    var s := state.(clock := state.clock + e.after);
    var t := Exec(state, e);
    if ExchangeAllowed(s, e) {
      LowerTwice(e.externalEmail.GetOr(e.membership.email));
      forall i | 0 <= i < |t.sessions| ensures SessionInv(t, t.sessions[i]) {
        if i < |s.sessions| {
          assert SessionInv(state, state.sessions[i]);
        } else if e.mode.ExternalOidc? {
          var key := AssignmentKey(e.provider, Lower(e.externalEmail.GetOr(e.membership.email)), e.membership);
          assert OwnAddress(key);
        }
      }
    } else {
      forall i | 0 <= i < |t.sessions| ensures SessionInv(t, t.sessions[i]) {
        assert SessionInv(state, state.sessions[i]);
      }
    }
  }

  lemma ExecKeepsInv(state: State, e: Event)
    requires Inv(state)
    ensures Inv(Exec(state, e))
  {
    if e.Exchange? {
      ExchangeKeepsInv(state, e);
    } else if e.Provision? {
      ProvisionKeepsInv(state, e);
    } else {
      var t := Exec(state, e);
      forall i | 0 <= i < |t.sessions| ensures SessionInv(t, t.sessions[i]) {
        assert SessionInv(state, state.sessions[i]);
      }
    }
  }

  lemma ProvisionKeepsInv(state: State, e: Event)
    requires Inv(state) && e.Provision?
    ensures Inv(Exec(state, e))
  {
    var t := Exec(state, e);
    LowerTwice(e.email);
    forall i | 0 <= i < |t.sessions| ensures SessionInv(t, t.sessions[i]) {
      assert SessionInv(state, state.sessions[i]);
    }
  }

  lemma {:induction false} RunsKeepInv(tenants: set<string>, memberships: set<Membership>, events: seq<Event>)
    ensures Inv(Run(Initial(tenants, memberships), events))
  {
    if events != [] {
      RunsKeepInv(tenants, memberships, events[..|events| - 1]);
      ExecKeepsInv(Run(Initial(tenants, memberships), events[..|events| - 1]), events[|events| - 1]);
    }
  }

  /** On every run a session's user is its link's user. */
  lemma {:induction false} SessionsBelongToTheirLink(tenants: set<string>, memberships: set<Membership>, events: seq<Event>, id: nat)
    requires id < |Run(Initial(tenants, memberships), events).sessions|
    ensures var s := Run(Initial(tenants, memberships), events);
            s.sessions[id].Key() in s.links && s.links[s.sessions[id].Key()].userEmail == s.sessions[id].membership.email
  {
    RunsKeepInv(tenants, memberships, events);
  }

  /**
   * On every run the link and assignment checks of loading only repeat what the revocations already
   * did: a session loads exactly when it is neither revoked nor expired.
   */
  lemma {:induction false} LoadsExactlyWhenAlive(tenants: set<string>, memberships: set<Membership>, events: seq<Event>, id: nat)
    ensures var s := Run(Initial(tenants, memberships), events);
            Load(s, id).Some? <==> id < |s.sessions| && !s.sessions[id].Dead(s.clock)
  {
    RunsKeepInv(tenants, memberships, events);
    var s := Run(Initial(tenants, memberships), events);
    if id < |s.sessions| {
      assert SessionInv(s, s.sessions[id]);
    }
  }

  // ---------------------------------------------------------------------------------------------
  // The tables, updated in place
  // ---------------------------------------------------------------------------------------------

  class IdentityStore {
    const tenants: set<string>
    var clock: int
    var memberships: set<Membership>
    var links: map<LinkKey, Link>
    var assignments: map<AssignmentKey, Standing>
    var sessions: seq<Session>

    ghost function Now(): State
      reads this
    {
      State(clock, tenants, memberships, links, assignments, sessions)
    }

    constructor (tenants: set<string>, memberships: set<Membership>)
      ensures Now() == Initial(tenants, memberships)
    {
      this.tenants := tenants;
      clock, this.memberships, links, assignments, sessions := 0, memberships, map[], map[], [];
    }

    /** Revoke the chosen sessions one by one, skipping those already ended, and count them. */
    method RevokeSessions(chosen: set<nat>) returns (count: nat)
      modifies this`sessions
      ensures sessions == Kill(old(Now()), chosen)
      ensures count == |set i: nat | i < |old(sessions)| && i in chosen && !old(sessions)[i].Dead(clock)|
    {
      ghost var before := Now();
      ghost var ended: set<nat> := {};
      count := 0;
      for i := 0 to |sessions|
        invariant |sessions| == |before.sessions|
        invariant forall k :: 0 <= k < i ==> sessions[k] == Kill(before, chosen)[k]
        invariant forall k :: i <= k < |sessions| ==> sessions[k] == before.sessions[k]
        invariant ended == set k: nat | k < i && k in chosen && !before.sessions[k].Dead(clock)
        invariant count == |ended|
      {
        if i in chosen && sessions[i].revokedAt.None? && clock < sessions[i].expiresAt {
          sessions := sessions[i := sessions[i].(revokedAt := Some(clock))];
          ended := ended + {i};
          count := count + 1;
        }
      }
      assert sessions == Kill(before, chosen);
    }

    method ExchangeSession(after: Tick, membership: Membership, externalEmail: Option<string>, mode: Mode,
                           provider: string, subject: string, issuedAt: int, expiresAt: int) returns (id: Option<nat>)
      modifies this
      ensures Now() == Exec(old(Now()), Exchange(after, membership, externalEmail, mode, provider, subject, issuedAt, expiresAt))
      ensures id.Some? ==> id.value == |old(sessions)| < |sessions| && !sessions[id.value].Dead(clock)
      ensures id.None? ==> sessions == old(sessions) && links == old(links)
    {
      clock := clock + after;
      if subject == "" || provider == "" || expiresAt <= issuedAt || expiresAt <= clock || membership !in memberships {
        return None;
      }
      if mode.ExternalOidc? {
        var assignment := AssignmentKey(provider, Lower(externalEmail.GetOr(membership.email)), membership);
        if assignment !in assignments || assignments[assignment] != Active {
          return None;
        }
      }
      var key := LinkKey(provider, subject);
      if key in links && (links[key].userEmail != membership.email || links[key].standing != Active) {
        return None;
      }
      links := links[key := Link(membership.email, Active)];
      sessions := sessions + [Session(membership, mode, provider, subject, expiresAt, None)];
      return Some(|sessions| - 1);
    }

    method UpdateLinkLifecycle(after: Tick, key: LinkKey, action: Action) returns (done: bool)
      modifies this
      ensures Now() == Exec(old(Now()), ChangeLink(after, key, action))
      ensures done <==> LinkChangeAllowed(old(Now()), key, action)
    {
      clock := clock + after;
      if key !in links {
        return false;
      }
      var tenantMemberships := set m | m in memberships && m.email == links[key].userEmail && m.organization in tenants;
      assert forall m :: m in memberships && m.email == links[key].userEmail && m.organization in tenants ==> m in tenantMemberships;
      assert TenantUser(Now(), links[key].userEmail) <==> tenantMemberships != {};
      if tenantMemberships == {} || !ActionAllowed(links[key].standing, action) {
        return false;
      }
      links := links[key := links[key].(standing := NextStanding(action))];
      if !action.Reactivate? {
        var chosen := set i: nat | i < |sessions| && sessions[i].Key() == key;
        var _ := RevokeSessions(chosen);
      }
      return true;
    }

    method UpdateAssignmentLifecycle(after: Tick, key: AssignmentKey, action: Action) returns (done: bool)
      modifies this
      ensures Now() == Exec(old(Now()), ChangeAssignment(after, key, action))
      ensures done <==> AssignmentChangeAllowed(old(Now()), key, action)
    {
      clock := clock + after;
      if key !in assignments || key.membership.organization !in tenants || !ActionAllowed(assignments[key], action) {
        return false;
      }
      assignments := assignments[key := NextStanding(action)];
      if !action.Reactivate? {
        var chosen := set i: nat | i < |sessions| && sessions[i].provider == key.provider && sessions[i].membership == key.membership;
        var _ := RevokeSessions(chosen);
      }
      return true;
    }

    method ProvisionAssignment(after: Tick, provider: string, email: string, organization: string, role: string) returns (done: bool)
      modifies this
      ensures Now() == Exec(old(Now()), Provision(after, provider, email, organization, role))
      ensures done ==> organization in tenants
    {
      clock := clock + after;
      if organization !in tenants {
        return false;
      }
      var membership := Membership(Lower(email), organization, role);
      var key := AssignmentKey(provider, Lower(email), membership);
      if key in assignments && assignments[key] == Active {
        return false;
      }
      memberships := memberships + {membership};
      assignments := assignments[key := Active];
      return true;
    }

    method RevokeOneSession(after: Tick, id: nat) returns (done: bool)
      modifies this
      ensures Now() == Exec(old(Now()), RevokeSession(after, id))
    {
      clock := clock + after;
      var loaded := Load(State(clock, tenants, memberships, links, assignments, sessions), id);
      if loaded.None? || loaded.value.membership.organization !in tenants {
        return false;
      }
      var _ := RevokeSessions({id});
      return true;
    }
  }
}
