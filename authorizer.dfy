/**
  The Authorizer: route-to-policy lookup, the process-local grant registry it
  owns, and the decision Authorize renders (net/http/authz/authorizer.go).
 */
module Authz {
  import opened Wrappers
  import opened X509Match
  import opened Guards
  import opened Registry

  /** The outcomes of Authorize: nil, the "missing policy" error, a wrapped store error, ErrNotAuthorized. */
  datatype Verdict = Permitted | MissingPolicy | StoreFailure(cause: string) | NotAuthorized

  /** strings.TrimRight(s, "/"): the longest prefix of `s` that does not end in '/'. */
  function TrimTrailingSlashes(s: string): (r: string)
    ensures r <= s
    ensures r == "" || r[|r| - 1] != '/'
    ensures forall k :: |r| <= k < |s| ==> s[k] == '/'
    decreases |s|
  {
    if s != "" && s[|s| - 1] == '/' then TrimTrailingSlashes(s[..|s| - 1]) else s
  }

  /** The policies configured for a request URI; a missing route reads as the empty (nil) list. */
  function RoutePolicies(routes: map<string, seq<string>>, uri: string): seq<string>
  {
    var key := TrimTrailingSlashes(uri);
    if key in routes then routes[key] else []
  }

  /** The decision Authorize renders for a request, given the grant sources at the time of the call. */
  function Decide(routes: map<string, seq<string>>, src: Sources, uri: string, ctx: Credentials): Verdict
  {
    var policies := RoutePolicies(routes, uri);
    if |policies| == 0 then MissingPolicy
    else
      match GrantsFor(src, policies)
      case Err(e) => StoreFailure(e)
      case Ok(grants) => if Admits(ctx, grants, src.lib) then Permitted else NotAuthorized
  }

  class Authorizer {
    const prefix: string
    const policyByRoute: map<string, seq<string>>
    var extraGrants: LocalGrants

    /** Local grants are filed by policy, and `public` holds exactly the builtin `any` grant. */
    ghost predicate Valid()
      reads this
    {
      Filed(extraGrants) && Local(extraGrants, PublicPolicy) == [BuiltinAny]
    }

    /** The grant sources a call sees: this process's local grants and the given store snapshot. */
    function SourcesAt(store: Store, lib: Foreign): Sources
      reads this
    {
      Sources(extraGrants, prefix, store, lib)
    }

    /** NewAuthorizer: an empty local map, then every builtin grant appended under its policy. */
    constructor (prefix: string, policyMap: map<string, seq<string>>)
      ensures Valid()
      ensures this.prefix == prefix && policyByRoute == policyMap
      ensures extraGrants == map[PublicPolicy := [BuiltinAny]]
    {
      this.prefix := prefix;
      policyByRoute := policyMap;
      extraGrants := map[];
      new;
      for i := 0 to |BuiltinGrants|
        invariant extraGrants == Seed(map[], BuiltinGrants[..i])
      {
        assert BuiltinGrants[..i + 1][..i] == BuiltinGrants[..i];
        extraGrants := AppendGrant(extraGrants, BuiltinGrants[i]);
      }
      assert BuiltinGrants[..|BuiltinGrants|] == BuiltinGrants;
      SeedBuiltins();
      BuiltinsFiled();
    }

    /**
      GrantInternal: format the subject and append an x509 grant under `internal`.
      `now` stands for the creation time. The source panics when formatting
      fails; here that is `ok == false` with nothing changed.
     */
    method GrantInternal(subj: Name, lib: Foreign, now: string) returns (ok: bool)
      requires Valid()
      modifies this
      ensures Valid()
      ensures ok == lib.formatName(subj).Some?
      ensures ok ==> extraGrants == AppendGrant(old(extraGrants), InternalGrant(lib.formatName(subj).value, now))
      ensures !ok ==> extraGrants == old(extraGrants)
    {
      var data := lib.formatName(subj);
      if data.None? {
        return false;
      }
      var g := Grant(TypeX509, data.value, InternalPolicy, now);
      AppendKeepsFiled(extraGrants, g);
      extraGrants := extraGrants[InternalPolicy := Local(extraGrants, InternalPolicy) + [g]];
      return true;
    }

    /** grantsByPolicies: a loop over the policies with an early return on the first decoding error. */
    method GrantsByPolicies(policies: seq<string>, store: Store, lib: Foreign) returns (r: Result<seq<Grant>, string>)
      ensures r == GrantsFor(SourcesAt(store, lib), policies)
    {
      ghost var src := SourcesAt(store, lib);
      var grants: seq<Grant> := [];
      for i := 0 to |policies|
        invariant GrantsFor(src, policies[..i]) == Ok(grants)
      {
        var p := policies[i];
        assert policies[..i + 1][..i] == policies[..i] && policies[..i + 1][i] == p;
        ghost var front := grants;
        grants := grants + Local(extraGrants, p);
        var key := prefix + p;
        if key in store {
          var decoded := lib.unmarshalGrants(store[key]);
          if decoded.Err? {
            GrantsForFirstError(src, policies, i + 1);
            return Err(decoded.error);
          }
          grants := grants + decoded.value;
          assert grants == front + (Local(extraGrants, p) + decoded.value);
        } else {
          assert grants == front + (Local(extraGrants, p) + []);
        }
      }
      assert policies[..|policies|] == policies;
      return Ok(grants);
    }

    /** Authorize: route lookup, the grant join, then the guard scan. */
    method Authorize(requestURI: string, ctx: Credentials, store: Store, lib: Foreign) returns (v: Verdict)
      ensures v == Decide(policyByRoute, SourcesAt(store, lib), requestURI, ctx)
    {
      var key := TrimTrailingSlashes(requestURI);
      var policies := if key in policyByRoute then policyByRoute[key] else [];
      if |policies| == 0 {
        return MissingPolicy;
      }
      var grants := GrantsByPolicies(policies, store, lib);
      if grants.Err? {
        return StoreFailure(grants.error);
      }
      var ok := Authorized(ctx, grants.value, lib);
      if !ok {
        return NotAuthorized;
      }
      return Permitted;
    }
  }

  /** A trailing '/' never changes which route a request URI selects. */
  lemma TrailingSlashIgnored(s: string)
    ensures TrimTrailingSlashes(s + "/") == TrimTrailingSlashes(s)
  {
  }

  /** Trimming is idempotent. */
  lemma TrimIdempotent(s: string)
    ensures TrimTrailingSlashes(TrimTrailingSlashes(s)) == TrimTrailingSlashes(s)
  {
  }

  /**
    "Missing policy" is returned exactly when the route has no (or an empty)
    policy list, and it is a different outcome from a denial.
   */
  lemma MissingPolicyIffNoPolicies(routes: map<string, seq<string>>, src: Sources, uri: string, ctx: Credentials)
    ensures Decide(routes, src, uri, ctx) == MissingPolicy <==> RoutePolicies(routes, uri) == []
    ensures MissingPolicy != NotAuthorized
  {
  }

  /** Whether a route is missing its policy does not depend on the grants, the store or the credentials. */
  lemma MissingPolicyIgnoresRequest(routes: map<string, seq<string>>, src1: Sources, src2: Sources,
                                    uri: string, ctx1: Credentials, ctx2: Credentials)
    ensures Decide(routes, src1, uri, ctx1) == MissingPolicy <==> Decide(routes, src2, uri, ctx2) == MissingPolicy
  {
  }

  /** A store error is returned exactly when the route has policies and one of their stored lists fails to decode. */
  lemma StoreFailureIff(routes: map<string, seq<string>>, src: Sources, uri: string, ctx: Credentials)
    ensures Decide(routes, src, uri, ctx).StoreFailure? <==>
            var ps := RoutePolicies(routes, uri);
            ps != [] && exists i :: 0 <= i < |ps| && StoredGrants(src, src.prefix + ps[i]).Err?
  {
    GrantsForFails(src, RoutePolicies(routes, uri));
  }

  /**
    A request is permitted exactly when the route has policies, every stored
    list decodes, and the grants of some one policy of the route admit it.
   */
  lemma {:induction false} PermittedIff(routes: map<string, seq<string>>, src: Sources, uri: string, ctx: Credentials)
    ensures Decide(routes, src, uri, ctx) == Permitted <==>
            var ps := RoutePolicies(routes, uri);
            && ps != []
            && GrantsFor(src, ps).Ok?
            && exists i :: 0 <= i < |ps| && PolicyGrants(src, ps[i]).Ok? && Admits(ctx, PolicyGrants(src, ps[i]).value, src.lib)
  {
    var ps := RoutePolicies(routes, uri);
    if ps != [] && GrantsFor(src, ps).Ok? {
      GrantsForAdmits(src, ps, ctx);
    }
  }

  /** A request is denied exactly when the grants of the route's policies load and none of them admits it. */
  lemma NotAuthorizedIff(routes: map<string, seq<string>>, src: Sources, uri: string, ctx: Credentials)
    ensures Decide(routes, src, uri, ctx) == NotAuthorized <==>
            var ps := RoutePolicies(routes, uri);
            && ps != []
            && GrantsFor(src, ps).Ok?
            && forall g :: g in GrantsFor(src, ps).value ==> !GuardHolds(g, ctx, src.lib)
  {
  }

  /** A route whose policies include `public` admits every request once the store reads succeed. */
  lemma {:induction false} PublicRoutePermitsEveryone(routes: map<string, seq<string>>, src: Sources, uri: string, ctx: Credentials)
    requires PublicPolicy in RoutePolicies(routes, uri)
    requires Local(src.local, PublicPolicy) == [BuiltinAny]
    requires GrantsFor(src, RoutePolicies(routes, uri)).Ok?
    ensures Decide(routes, src, uri, ctx) == Permitted
  {
    var ps := RoutePolicies(routes, uri);
    var i :| 0 <= i < |ps| && ps[i] == PublicPolicy;
    GrantsForHasLocal(src, ps, i, BuiltinAny);
    AdmitsMember(ctx, GrantsFor(src, ps).value, src.lib);
  }

  /**
    A grant registered by GrantInternal is seen by the next decision of the same
    process: if its formatted subject parses back to a pattern that one of the
    request's certificates matches, every route listing `internal` permits the
    request once the store reads succeed.
   */
  lemma {:induction false} InternalGrantVisible(routes: map<string, seq<string>>, src: Sources, uri: string,
                                                ctx: Credentials, data: seq<byte>, now: string, pat: Name, cert: Name)
    requires InternalPolicy in RoutePolicies(routes, uri)
    requires src.lib.parseName(data) == Some(pat)
    requires cert in ctx.certs && MatchesX509(pat, cert)
    requires GrantsFor(src, RoutePolicies(routes, uri)).Ok?
    ensures Decide(routes, src.(local := AppendGrant(src.local, InternalGrant(data, now))), uri, ctx) == Permitted
  {
    var g := InternalGrant(data, now);
    var src' := src.(local := AppendGrant(src.local, g));
    var ps := RoutePolicies(routes, uri);
    GrantsForOkIgnoresLocal(src, src'.local, ps);
    var i :| 0 <= i < |ps| && ps[i] == InternalPolicy;
    assert g in Local(src'.local, InternalPolicy);
    GrantsForHasLocal(src', ps, i, g);
    X509AdmitsMatchingCert(g, ctx, src.lib, pat);
    AdmitsMember(ctx, GrantsFor(src', ps).value, src.lib);
  }
}
