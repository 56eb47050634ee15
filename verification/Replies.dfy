// The status of every administrative answer, by its cause, and that a refusal
// changes nothing.
module Replies {
  import opened Text
  import opened ControlPlane
  import Lifecycle
  import Policy

  // ---- blueprints ----

  ghost predicate InRange(slug: string, name: string, maxTtl: int) {
    1 <= |slug| <= 128 && 1 <= |name| <= 256 && 60 <= maxTtl <= 86400
  }

  // A request within its ranges is in conflict exactly if its slug is taken;
  // otherwise there is one blueprint more.
  lemma BlueprintCreation(s: State, id: Uuid, slug: string, name: string, environments: seq<string>,
                          maxScopes: seq<string>, maxTtl: int)
    requires id !in s.ids && id !in s.db.blueprints
    ensures
      var reply := CreateBlueprint(s, id, slug, name, environments, maxScopes, maxTtl);
      var taken := exists other :: other in s.db.blueprints && s.db.blueprints[other].slug == slug;
      && (reply.status == 422 <==> !InRange(slug, name, maxTtl))
      && (reply.status == 409 <==> InRange(slug, name, maxTtl) && taken)
      && (reply.status == 201 <==> InRange(slug, name, maxTtl) && !taken)
      && (reply.status != 201 ==> reply.state == s)
      && (reply.status == 201 ==>
            && reply.state.db.blueprints.Keys == s.db.blueprints.Keys + {id}
            && forall other :: other in s.db.blueprints ==>
                 reply.state.db.blueprints[other] == s.db.blueprints[other])
  {
  }

  // An update answers 404 exactly for an unknown blueprint.  It stores what it
  // can: nothing if a value cannot be stored, and then, or if a list is null
  // afterwards, it answers 500.
  lemma BlueprintUpdate(s: State, id: Uuid, changes: seq<Change>)
    ensures
      var reply := UpdateBlueprint(s, id, changes);
      var storable := forall c :: c in changes ==> Storable(c);
      && (reply.status == 404 <==> id !in s.db.blueprints)
      && (reply.status == 200 <==>
            && id in s.db.blueprints && storable
            && reply.state.db.blueprints[id].maxScopes.Items?
            && reply.state.db.blueprints[id].approvedEnvironments.Items?)
      && (reply.status == 500 <==> reply.status != 404 && reply.status != 200)
      && (id !in s.db.blueprints || !storable ==> reply.state == s)
      && (id in s.db.blueprints && storable ==>
            && reply.state.db.blueprints.Keys == s.db.blueprints.Keys
            && reply.state.db.blueprints[id].version == s.db.blueprints[id].version + 1)
  {
    if id in s.db.blueprints {
      Lifecycle.UpdateIsExact(s.db.blueprints[id], changes);
      Lifecycle.ChangesKeepSlug(s.db.blueprints[id], changes);
    }
    hide ApplyChanges, Storable;
  }

  // Nulls are refused for name and lifetime, and stored for the lists; a list
  // that is absent is no change.
  lemma StorableMeaning(c: Change)
    ensures Storable(c) <==>
      c != SetName(None) && c != SetMaxTtl(None) && c != SetEnvironments(Policy.Absent) && c != SetMaxScopes(Policy.Absent)
  {
  }

  lemma BlueprintStatus(s: State, id: Uuid, status: BlueprintStatus)
    ensures
      var reply := SetBlueprintStatus(s, id, status);
      && (reply.status == 404 <==> id !in s.db.blueprints)
      && (reply.status == 200 <==> id in s.db.blueprints)
      && (reply.status == 404 ==> reply.state == s)
  {
  }

  // ---- agents ----

  lemma AgentCreation(s: State, id: Uuid, blueprintId: Uuid, key: Option<string>)
    requires id !in s.ids
    ensures
      var reply := CreateAgent(s, id, blueprintId, key);
      && (reply.status == 404 <==> blueprintId !in s.db.blueprints)
      && (reply.status == 400 <==>
            blueprintId in s.db.blueprints && !s.db.blueprints[blueprintId].status.BlueprintActive?)
      && (reply.status == 201 <==>
            blueprintId in s.db.blueprints && s.db.blueprints[blueprintId].status.BlueprintActive?)
      && (reply.status != 201 ==> reply.state == s)
      && (reply.status == 201 ==> id in reply.state.db.agents)
  {
    hide BuildPrincipalUri;
  }

  // An agent is activated from any status but active, revoked and
  // decommissioned, suspended when active, and revoked in any.
  lemma AgentCommands(s: State, id: Uuid, key: string)
    ensures
      var activated, suspended := ActivateAgent(s, id), SuspendAgent(s, id);
      var revoked, rotated := RevokeAgent(s, id), RotateKey(s, id, key);
      if id in s.db.agents then
        var status := s.db.agents[id].status;
        && activated.status == (if status in {Active, Revoked, Decommissioned} then 400 else 200)
        && suspended.status == (if status == Active then 200 else 400)
        && revoked.status == rotated.status == 200
        && (activated.status == 400 ==> activated.state == s) && (suspended.status == 400 ==> suspended.state == s)
      else
        activated == suspended == revoked == rotated == Reply(s, 404)
  {
  }

  // ---- delegations and sessions ----

  lemma DelegationCreation(s: State, id: Uuid, agentId: Uuid, ttl: int)
    requires id !in s.ids
    ensures
      var reply := CreateDelegation(s, id, agentId, ttl);
      && (reply.status == 422 <==> !(1 <= ttl <= 86400))
      && (reply.status == 500 <==> 1 <= ttl <= 86400 && agentId !in s.db.agents)
      && (reply.status == 201 <==> 1 <= ttl <= 86400 && agentId in s.db.agents)
      && (reply.status != 201 ==> reply.state == s)
      && (reply.status == 201 ==> id in reply.state.db.delegations)
  {
  }

  // A delegation or a session is revoked once; the second time is an error.
  lemma Revocations(s: State, id: Uuid)
    ensures
      var d, session := RevokeDelegation(s, id), RevokeSession(s, id);
      && (d.status == 404 <==> id !in s.db.delegations)
      && (d.status == 400 <==> id in s.db.delegations && s.db.delegations[id].revokedAt.Some?)
      && (d.status == 200 <==> id in s.db.delegations && s.db.delegations[id].revokedAt.None?)
      && (session.status == 400 <==> id !in s.db.sessions || s.db.sessions[id].revokedAt.Some?)
      && (session.status == 200 <==> id in s.db.sessions && s.db.sessions[id].revokedAt.None?)
      && (d.status != 200 ==> d.state == s) && (session.status != 200 ==> session.state == s)
      && (d.status == 200 ==> d.state.db.delegations[id].revokedAt == Some(s.now))
      && (session.status == 200 ==> session.state.db.sessions[id].revokedAt == Some(s.now))
  {
  }
}
