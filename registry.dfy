/**
  The grant registry: builtin and process-local grants kept by policy, and the
  per-policy join with the grant lists decoded from the replicated store
  (builtinGrants, NewAuthorizer's seeding loop, GrantInternal's append and
  grantsByPolicies in net/http/authz/authorizer.go).
 */
module Registry {
  import opened Wrappers
  import opened X509Match
  import opened Guards

  /** A snapshot of the replicated store; a missing key is a read that returned nil. */
  type Store = map<string, seq<byte>>

  /** Process-local grants by policy (the extraGrants field). */
  type LocalGrants = map<string, seq<Grant>>

  const PublicPolicy := "public"
  const InternalPolicy := "internal"

  /** The unconditional public grant compiled into every process. */
  const BuiltinAny := Grant(TypeAny, [], PublicPolicy, "")
  const BuiltinGrants: seq<Grant> := [BuiltinAny]

  /** Everything grantsByPolicies reads: local grants, the key prefix, a store snapshot, the decoders. */
  datatype Sources = Sources(local: LocalGrants, prefix: string, store: Store, lib: Foreign)

  /** The local list of a policy; a missing key reads as the empty (nil) slice. */
  function Local(m: LocalGrants, p: string): seq<Grant>
  {
    if p in m then m[p] else []
  }

  /** `m[g.Policy] = append(m[g.Policy], g)`. */
  function AppendGrant(m: LocalGrants, g: Grant): (r: LocalGrants)
    ensures r.Keys == m.Keys + {g.policy}
    ensures Local(r, g.policy) == Local(m, g.policy) + [g]
    ensures forall p :: p != g.policy ==> Local(r, p) == Local(m, p)
  {
    m[g.policy := Local(m, g.policy) + [g]]
  }

  /** Appending each of `gs` in order, as NewAuthorizer's loop does. */
  function Seed(m: LocalGrants, gs: seq<Grant>): LocalGrants
    decreases |gs|
  {
    if gs == [] then m else AppendGrant(Seed(m, gs[..|gs| - 1]), gs[|gs| - 1])
  }

  /** The members of `gs` whose policy is `p`, in order. */
  function WithPolicy(gs: seq<Grant>, p: string): (r: seq<Grant>)
    ensures forall g :: g in r ==> g in gs && g.policy == p
    decreases |gs|
  {
    if gs == [] then []
    else WithPolicy(gs[..|gs| - 1], p) + (if gs[|gs| - 1].policy == p then [gs[|gs| - 1]] else [])
  }

  /** Every local grant is filed under its own policy. */
  ghost predicate Filed(m: LocalGrants)
  {
    forall p, g :: p in m && g in m[p] ==> g.policy == p
  }

  /** The grant GrantInternal registers for a formatted subject. */
  function InternalGrant(data: seq<byte>, createdAt: string): Grant
  {
    Grant(TypeX509, data, InternalPolicy, createdAt)
  }

  /** Seeding files each grant under its policy, after what was there, in order. */
  lemma {:induction false} SeedByPolicy(m: LocalGrants, gs: seq<Grant>, p: string)
    ensures Local(Seed(m, gs), p) == Local(m, p) + WithPolicy(gs, p)
    decreases |gs|
  {
    if gs != [] {
      SeedByPolicy(m, gs[..|gs| - 1], p);
    }
  }

  /** After seeding from an empty map with the builtin grants, only `public` is present, with the `any` grant. */
  lemma SeedBuiltins()
    ensures Seed(map[], BuiltinGrants) == map[PublicPolicy := [BuiltinAny]]
  {
    assert BuiltinGrants[..0] == [];
    assert Seed(map[], BuiltinGrants) == AppendGrant(map[], BuiltinAny);
    assert AppendGrant(map[], BuiltinAny) == map[PublicPolicy := [] + [BuiltinAny]];
    assert [] + [BuiltinAny] == [BuiltinAny];
  }

  /** Appending a grant under its own policy keeps every grant filed. */
  lemma AppendKeepsFiled(m: LocalGrants, g: Grant)
    requires Filed(m)
    ensures Filed(AppendGrant(m, g))
  {
  }

  /** In a filed map, every grant listed for a policy carries that policy. */
  lemma FiledLocal(m: LocalGrants, p: string)
    requires Filed(m)
    ensures forall g :: g in Local(m, p) ==> g.policy == p
  {
  }

  /** The map NewAuthorizer starts from is filed. */
  lemma BuiltinsFiled()
    ensures Filed(map[PublicPolicy := [BuiltinAny]])
  {
  }

  /** The decoded store list under `key`: empty when the key is absent, the decoder's verdict otherwise. */
  function StoredGrants(src: Sources, key: string): Result<seq<Grant>, string>
  {
    if key in src.store then src.lib.unmarshalGrants(src.store[key]) else Ok([])
  }

  /** One iteration of grantsByPolicies: the local list of `p` followed by its stored list. */
  function PolicyGrants(src: Sources, p: string): Result<seq<Grant>, string>
  {
    match StoredGrants(src, src.prefix + p)
    case Err(e) => Err(e)
    case Ok(stored) => Ok(Local(src.local, p) + stored)
  }

  /**
    The value of grantsByPolicies: the per-policy lists joined in policy order,
    or the error of the first policy whose stored list fails to decode.
   */
  function GrantsFor(src: Sources, policies: seq<string>): Result<seq<Grant>, string>
    decreases |policies|
  {
    if policies == [] then Ok([])
    else
      var n := |policies| - 1;
      match GrantsFor(src, policies[..n])
      case Err(e) => Err(e)
      case Ok(front) =>
        match PolicyGrants(src, policies[n])
        case Err(e) => Err(e)
        case Ok(last) => Ok(front + last)
  }

  /** The join fails iff the stored list of some listed policy fails to decode. */
  lemma {:induction false} GrantsForFails(src: Sources, policies: seq<string>)
    ensures GrantsFor(src, policies).Err? <==>
            exists i :: 0 <= i < |policies| && StoredGrants(src, src.prefix + policies[i]).Err?
    decreases |policies|
  {
    if policies != [] {
      var n := |policies| - 1;
      GrantsForFails(src, policies[..n]);
      assert forall i :: 0 <= i < n ==> policies[..n][i] == policies[i];
    }
  }

  /** On success, the joined list admits a request iff the list of some listed policy does. */
  lemma {:induction false} GrantsForAdmits(src: Sources, policies: seq<string>, ctx: Credentials)
    requires GrantsFor(src, policies).Ok?
    ensures forall i :: 0 <= i < |policies| ==> PolicyGrants(src, policies[i]).Ok?
    ensures Admits(ctx, GrantsFor(src, policies).value, src.lib) <==>
            exists i :: 0 <= i < |policies| && Admits(ctx, PolicyGrants(src, policies[i]).value, src.lib)
    decreases |policies|
  {
    if policies != [] {
      var n := |policies| - 1;
      GrantsForAdmits(src, policies[..n], ctx);
      assert forall i :: 0 <= i < n ==> policies[..n][i] == policies[i];
      AdmitsAppend(ctx, GrantsFor(src, policies[..n]).value, PolicyGrants(src, policies[n]).value, src.lib);
    }
  }

  /** The joined list contains every local grant of every listed policy. */
  lemma {:induction false} GrantsForHasLocal(src: Sources, policies: seq<string>, i: nat, g: Grant)
    requires GrantsFor(src, policies).Ok?
    requires i < |policies| && g in Local(src.local, policies[i])
    ensures g in GrantsFor(src, policies).value
    decreases |policies|
  {
    var n := |policies| - 1;
    if i < n {
      GrantsForHasLocal(src, policies[..n], i, g);
    }
  }

  /** Local grants never decide whether the join fails. */
  lemma {:induction false} GrantsForOkIgnoresLocal(src: Sources, local: LocalGrants, policies: seq<string>)
    ensures GrantsFor(src, policies).Ok? <==> GrantsFor(src.(local := local), policies).Ok?
    decreases |policies|
  {
    if policies != [] {
      GrantsForOkIgnoresLocal(src, local, policies[..|policies| - 1]);
    }
  }

  /** Once a prefix of the policies fails, the whole join fails with that error. */
  lemma {:induction false} GrantsForFirstError(src: Sources, policies: seq<string>, j: nat)
    requires j <= |policies| && GrantsFor(src, policies[..j]).Err?
    ensures GrantsFor(src, policies) == GrantsFor(src, policies[..j])
    decreases |policies|
  {
    if j < |policies| {
      var n := |policies| - 1;
      assert policies[..n][..j] == policies[..j];
      GrantsForFirstError(src, policies[..n], j);
    } else {
      assert policies[..j] == policies;
    }
  }
}
