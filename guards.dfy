/**
  Grants, the credential context of a request, and the guard matcher
  (authorized and accessTokenGuardData in net/http/authz/authorizer.go).
 */
module Guards {
  import opened Wrappers
  import opened X509Match

  newtype byte = b: int | 0 <= b < 256

  /** A grant as decoded from the store: a guard (type tag and payload) conferring a policy. */
  datatype Grant = Grant(guardType: string, guardData: seq<byte>, policy: string, createdAt: string)

  /** What the authentication layer extracted from a request. */
  datatype Credentials = Credentials(token: string, certs: seq<Name>, localhost: bool)

  /**
    The foreign decoders and encoders the authorizer calls, whose bodies are not
    part of this model; each is an arbitrary total function.
      parseName       name.Parse of the guard data read as a string
      formatName      name.Format of a subject, as bytes; None when it fails
      tokenID         json.Unmarshal of the guard data into a record with an ID; None when it fails
      unmarshalGrants proto.Unmarshal of a stored grant list, or its error message
   */
  datatype Foreign = Foreign(
    parseName: seq<byte> -> Option<Name>,
    formatName: Name -> Option<seq<byte>>,
    tokenID: seq<byte> -> Option<string>,
    unmarshalGrants: seq<byte> -> Result<seq<Grant>, string>)

  const TypeAccessToken := "access_token"
  const TypeX509 := "x509"
  const TypeLocalhost := "localhost"
  const TypeAny := "any"

  /** accessTokenGuardData: the decoded ID, or "" when decoding fails (the error is ignored). */
  function AccessTokenGuardData(g: Grant, lib: Foreign): string
  {
    match lib.tokenID(g.guardData)
    case Some(id) => id
    case None => ""
  }

  /** Some presented certificate subject satisfies the pattern. */
  predicate SomeCertMatches(pat: Name, certs: seq<Name>)
  {
    exists j :: 0 <= j < |certs| && MatchesX509(pat, certs[j])
  }

  /** One arm of the switch in authorized: does grant `g` admit the request? */
  predicate GuardHolds(g: Grant, ctx: Credentials, lib: Foreign)
  {
    if g.guardType == TypeAccessToken then
      AccessTokenGuardData(g, lib) == ctx.token
    else if g.guardType == TypeX509 then
      match lib.parseName(g.guardData)
      case None => false
      case Some(pat) => SomeCertMatches(pat, ctx.certs)
    else if g.guardType == TypeLocalhost then
      ctx.localhost
    else
      g.guardType == TypeAny
  }

  /** The reference meaning of authorized: some grant in the list admits the request. */
  predicate Admits(ctx: Credentials, grants: seq<Grant>, lib: Foreign)
  {
    exists k :: 0 <= k < |grants| && GuardHolds(grants[k], ctx, lib)
  }

  /**
    authorized: scan the grants in order and stop at the first one whose guard
    holds. An unknown guard type or an unparsable x509 pattern only ends that
    grant's case; the scan goes on with the next grant.
   */
  method Authorized(ctx: Credentials, grants: seq<Grant>, lib: Foreign) returns (ok: bool)
    ensures ok <==> Admits(ctx, grants, lib)
  {
    for i := 0 to |grants|
      invariant forall k :: 0 <= k < i ==> !GuardHolds(grants[k], ctx, lib)
    {
      var g := grants[i];
      if g.guardType == TypeAccessToken {
        if AccessTokenGuardData(g, lib) == ctx.token {
          return true;
        }
      } else if g.guardType == TypeX509 {
        var pattern := lib.parseName(g.guardData);
        if pattern.Some? {
          for j := 0 to |ctx.certs|
            invariant forall k :: 0 <= k < j ==> !MatchesX509(pattern.value, ctx.certs[k])
          {
            if MatchesX509(pattern.value, ctx.certs[j]) {
              return true;
            }
          }
        }
      } else if g.guardType == TypeLocalhost {
        if ctx.localhost {
          return true;
        }
      } else if g.guardType == TypeAny {
        return true;
      }
    }
    return false;
  }

  /** Joining two grant lists admits a request iff one of them does. */
  lemma {:induction false} AdmitsAppend(ctx: Credentials, a: seq<Grant>, b: seq<Grant>, lib: Foreign)
    ensures Admits(ctx, a + b, lib) <==> Admits(ctx, a, lib) || Admits(ctx, b, lib)
  {
    if Admits(ctx, a + b, lib) {
      var k :| 0 <= k < |a + b| && GuardHolds((a + b)[k], ctx, lib);
      if k < |a| {
        assert (a + b)[k] == a[k];
      } else {
        assert (a + b)[k] == b[k - |a|];
      }
    }
    if Admits(ctx, a, lib) {
      var k :| 0 <= k < |a| && GuardHolds(a[k], ctx, lib);
      assert (a + b)[k] == a[k];
    }
    if Admits(ctx, b, lib) {
      var k :| 0 <= k < |b| && GuardHolds(b[k], ctx, lib);
      assert (a + b)[|a| + k] == b[k];
    }
  }

  /** Adding grants never turns an admitted request into a denied one. */
  lemma AdmitsMonotone(ctx: Credentials, a: seq<Grant>, b: seq<Grant>, lib: Foreign)
    requires Admits(ctx, a, lib)
    ensures Admits(ctx, a + b, lib) && Admits(ctx, b + a, lib)
  {
    AdmitsAppend(ctx, a, b, lib);
    AdmitsAppend(ctx, b, a, lib);
  }

  /** A list admits a request iff one of its members does (whatever its position). */
  lemma AdmitsMember(ctx: Credentials, grants: seq<Grant>, lib: Foreign)
    ensures Admits(ctx, grants, lib) <==> exists g :: g in grants && GuardHolds(g, ctx, lib)
  {
  }

  /** An `any` grant admits every request, including one with no credentials at all. */
  lemma AnyAdmitsEveryone(g: Grant, ctx: Credentials, lib: Foreign)
    requires g.guardType == TypeAny
    ensures GuardHolds(g, ctx, lib)
  {
  }

  /** A `localhost` grant admits exactly the loopback requests, whatever else they present. */
  lemma LocalhostAdmitsLoopbackOnly(g: Grant, ctx: Credentials, lib: Foreign)
    requires g.guardType == TypeLocalhost
    ensures GuardHolds(g, ctx, lib) <==> ctx.localhost
  {
  }

  /** An access-token grant compares its decoded ID with the presented token exactly. */
  lemma AccessTokenAdmitsExactToken(g: Grant, ctx: Credentials, lib: Foreign, id: string)
    requires g.guardType == TypeAccessToken
    requires lib.tokenID(g.guardData) == Some(id)
    ensures GuardHolds(g, ctx, lib) <==> ctx.token == id
  {
  }

  /**
    A malformed access-token payload raises no error: its ID reads as "", so the
    grant admits exactly the requests whose token is "" (there is no emptiness check).
   */
  lemma MalformedTokenGrantAdmitsEmptyToken(g: Grant, ctx: Credentials, lib: Foreign)
    requires g.guardType == TypeAccessToken
    requires lib.tokenID(g.guardData) == None
    ensures GuardHolds(g, ctx, lib) <==> ctx.token == ""
  {
  }

  /** An x509 grant whose pattern does not parse fails closed: it admits nothing. */
  lemma UnparsableX509NeverAdmits(g: Grant, ctx: Credentials, lib: Foreign)
    requires g.guardType == TypeX509
    requires lib.parseName(g.guardData) == None
    ensures !GuardHolds(g, ctx, lib)
  {
  }

  /** A parsed x509 pattern admits a request iff one of its certificate subjects matches it. */
  lemma X509AdmitsMatchingCert(g: Grant, ctx: Credentials, lib: Foreign, pat: Name)
    requires g.guardType == TypeX509
    requires lib.parseName(g.guardData) == Some(pat)
    ensures GuardHolds(g, ctx, lib) <==> exists c :: c in ctx.certs && MatchesX509(pat, c)
  {
  }

  /** A grant of any other guard type admits nothing. */
  lemma UnknownGuardNeverAdmits(g: Grant, ctx: Credentials, lib: Foreign)
    requires g.guardType !in {TypeAccessToken, TypeX509, TypeLocalhost, TypeAny}
    ensures !GuardHolds(g, ctx, lib)
  {
  }

  /** A grant that admits nothing may sit anywhere in the list without changing the outcome. */
  lemma DeadGrantIsSkipped(ctx: Credentials, a: seq<Grant>, g: Grant, b: seq<Grant>, lib: Foreign)
    requires !GuardHolds(g, ctx, lib)
    ensures Admits(ctx, a + [g] + b, lib) <==> Admits(ctx, a + b, lib)
  {
    AdmitsAppend(ctx, a + [g], b, lib);
    AdmitsAppend(ctx, a, [g], lib);
    AdmitsAppend(ctx, a, b, lib);
  }
}
