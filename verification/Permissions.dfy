/** Permissions name their user directly or through a User resource. */
module Permissions {
  import opened Types
  import opened Admission

  datatype PermissionSpec = PermissionSpec(
    user: string, userReference: Option<string>, vhost: string, cluster: ClusterRef,
    configure: string, write: string, read: string)

  /** The name a User resource reports for itself in its status; resources are never nameless. */
  datatype UserObject = UserObject(name: string, username: string)

  predicate OneUser(p: PermissionSpec) {
    (p.user == "") <==> p.userReference.Some?
  }

  predicate CreateAllowed(p: PermissionSpec) {
    !(p.user == "" && p.userReference.None?) && !(p.user != "" && p.userReference.Some?) && ReferenceValid(p.cluster)
  }

  predicate UserReferenceUpdated(next: Option<string>, prev: Option<string>) {
    if next.None? && prev.None? then false
    else if (next.None? && prev.Some?) || (next.Some? && prev.None?) then true
    else next.value != prev.value
  }

  predicate PermissionUpdateAllowed(prev: PermissionSpec, next: PermissionSpec) {
    && !(next.user == "" && next.userReference.None?) && !(next.user != "" && next.userReference.Some?)
    && next.user == prev.user && !UserReferenceUpdated(next.userReference, prev.userReference)
    && next.vhost == prev.vhost && Matches(prev.cluster, next.cluster)
  }

  /** What the webhooks let in: a user named in one way and a valid reference at creation, and later
      updates that keep user, vhost and cluster. */
  lemma PermissionRulesMean(prev: PermissionSpec, next: PermissionSpec)
    ensures CreateAllowed(next) <==>
              && (next.user == "" <==> next.userReference.Some?)
              && (next.cluster.name != "" <==> next.cluster.connectionSecret.None?)
    ensures PermissionUpdateAllowed(prev, next) <==>
              && (next.user == "" <==> next.userReference.Some?)
              && next.user == prev.user && next.userReference == prev.userReference
              && next.vhost == prev.vhost && next.cluster == prev.cluster
  {
  }

  /** What looking up the referenced User gives. */
  datatype Lookup = Missing | Unreadable | Exists(user: UserObject)

  /** DeclareFunc up to its first write. `NilDereference` is the field access on a User that is not
      there. */
  datatype Outcome = LookupFailed | MissingUser | NilDereference | Grant(username: string, owner: Option<string>)

  function DeclareOutcome(p: PermissionSpec, lookup: Lookup): Outcome {
    if p.userReference.None? then
      if p.user == "" then MissingUser else Grant(p.user, None)
    else match lookup
      case Unreadable => LookupFailed
      case Missing => if p.user == "" then MissingUser else NilDereference
      case Exists(u) => if u.username == "" then MissingUser else Grant(u.username, if u.name != "" then Some(u.name) else None)
  }

  /** DeclareFunc reads a User that is not there exactly when both ways of naming the user are used
      and the referenced User is missing. */
  lemma NilDereferenceExactly(p: PermissionSpec, lookup: Lookup)
    ensures DeclareOutcome(p, lookup).NilDereference? <==> p.user != "" && p.userReference.Some? && lookup.Missing?
  {
  }

  /** It grants exactly when it knows a username: that of the referenced User if there is a reference
      and a User behind it, which then owns the Permission, and the one in the spec otherwise. */
  lemma GrantExactly(p: PermissionSpec, lookup: Lookup, username: string, owner: Option<string>)
    ensures DeclareOutcome(p, lookup) == Grant(username, owner) <==>
              && username != ""
              && if p.userReference.None? then username == p.user && owner.None?
                 else lookup.Exists? && username == lookup.user.username
                      && owner == (if lookup.user.name == "" then None else Some(lookup.user.name))
  {
  }

  /** Every Permission reached through an accepted create and accepted updates names its user in
      exactly one way, always the same, so DeclareFunc never reads a User that is not there; and it
      grants exactly when the named user or the referenced User's own username is known, to that. */
  lemma {:induction false} AdmittedPermissionsNameOneUser(versions: seq<PermissionSpec>, k: nat, lookup: Lookup)
    requires k < |versions| && CreateAllowed(versions[0])
    requires forall i :: 0 < i < |versions| ==> PermissionUpdateAllowed(versions[i-1], versions[i])
    ensures OneUser(versions[k]) && versions[k].user == versions[0].user
            && versions[k].userReference == versions[0].userReference
    ensures !DeclareOutcome(versions[k], lookup).NilDereference?
    ensures var o := DeclareOutcome(versions[k], lookup);
            var known := if versions[0].user != "" then versions[0].user
                         else if lookup.Exists? then lookup.user.username else "";
            (o.Grant? <==> known != "") && (o.Grant? ==> o.username == known)
  {
    if k > 0 {
      AdmittedPermissionsNameOneUser(versions, k - 1, lookup);
      assert PermissionUpdateAllowed(versions[k-1], versions[k]);
    }
  }
}
