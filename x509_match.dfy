/**
  Matching of X.509 subject names against partial patterns
  (matchesX509, matchesStrings and matchesString in net/http/authz/authorizer.go).
  A pattern is itself a subject name: an empty single-valued field is a wildcard,
  and a multi-valued field matches when it is an ordered prefix of the subject's.
 */
module X509Match {

  /** The fields of a subject name (crypto/x509/pkix.Name) that matching reads. */
  datatype Name = Name(
    commonName: string,
    serialNumber: string,
    country: seq<string>,
    organization: seq<string>,
    organizationalUnit: seq<string>,
    locality: seq<string>,
    province: seq<string>,
    streetAddress: seq<string>,
    postalCode: seq<string>)

  /** The pattern with every field empty. */
  const EmptyPattern := Name("", "", [], [], [], [], [], [], [])

  /** matchesString: an empty pattern admits every value, any other only itself. */
  predicate MatchesString(pat: string, x: string)
  {
    pat == "" || pat == x
  }

  /**
    matchesStrings: the length test followed by the element-wise loop.
    It decides whether `pat` is an ordered prefix of `x`, Dafny's `pat <= x`.
   */
  method MatchesStrings(pat: seq<string>, x: seq<string>) returns (r: bool)
    ensures r <==> pat <= x
    ensures r <==> |pat| <= |x| && x[..|pat|] == pat
  {
    if |x| < |pat| {
      return false;
    }
    for i := 0 to |pat|
      invariant forall k :: 0 <= k < i ==> pat[k] == x[k]
    {
      if pat[i] != x[i] {
        assert x[..|pat|][i] != pat[i];
        return false;
      }
    }
    assert x[..|pat|] == pat;
    return true;
  }

  /** matchesX509: all nine field checks hold of one subject name. */
  predicate MatchesX509(pat: Name, x: Name)
  {
    && MatchesString(pat.commonName, x.commonName)
    && pat.country <= x.country
    && pat.organization <= x.organization
    && pat.organizationalUnit <= x.organizationalUnit
    && pat.locality <= x.locality
    && pat.province <= x.province
    && pat.streetAddress <= x.streetAddress
    && pat.postalCode <= x.postalCode
    && MatchesString(pat.serialNumber, x.serialNumber)
  }

  /** An empty pattern admits every value; a non-empty one exactly itself. */
  lemma MatchesStringExactly(pat: string, x: string)
    ensures pat == "" ==> MatchesString(pat, x)
    ensures pat != "" ==> (MatchesString(pat, x) <==> x == pat)
  {
  }

  /** The ordered-prefix test spelled out by length and leading elements. */
  lemma PrefixByLength(pat: seq<string>, x: seq<string>)
    ensures pat <= x <==> |pat| <= |x| && forall k :: 0 <= k < |pat| ==> pat[k] == x[k]
  {
  }

  /** An empty multi-valued pattern admits every sequence. */
  lemma EmptyPrefixMatchesAll(x: seq<string>)
    ensures [] <= x
  {
  }

  /** Prefix, not set, matching: ["Acme"] admits ["Acme", "Eng"] and neither [] nor ["Other"]. */
  lemma PrefixExamples()
    ensures ["Acme"] <= ["Acme", "Eng"]
    ensures !(["Acme"] <= [])
    ensures !(["Acme"] <= ["Other"])
  {
    assert ["Other"][0] != "Acme";
  }

  /** Order matters: a list never matches a different list of the same length with the same values. */
  lemma PrefixIsOrdered(pat: seq<string>, x: seq<string>)
    requires |pat| == |x| && multiset(pat) == multiset(x) && pat != x
    ensures !(pat <= x)
  {
  }

  /** For instance, ["Acme", "Eng"] does not match ["Eng", "Acme"]. */
  lemma ReorderedExample()
    ensures multiset(["Acme", "Eng"]) == multiset(["Eng", "Acme"])
    ensures !(["Acme", "Eng"] <= ["Eng", "Acme"])
  {
    assert ["Eng", "Acme"][0] != "Acme";
  }

  /** A pattern whose every field is empty matches every subject name. */
  lemma EmptyPatternMatchesAll(x: Name)
    ensures MatchesX509(EmptyPattern, x)
  {
  }

  /**
    A pattern whose only non-empty field is `organization` matches exactly
    the names whose organization list starts with it.
   */
  lemma OrganizationPatternMatches(org: seq<string>, x: Name)
    ensures MatchesX509(EmptyPattern.(organization := org), x) <==> org <= x.organization
  {
  }

  /** Every subject name, taken as a pattern, matches itself. */
  lemma MatchesX509Reflexive(x: Name)
    ensures MatchesX509(x, x)
  {
  }

  /** A name that matches a pattern is itself a pattern for less specific matching. */
  lemma MatchesX509Transitive(p: Name, q: Name, x: Name)
    requires MatchesX509(p, q) && MatchesX509(q, x)
    ensures MatchesX509(p, x)
  {
  }

  /**
    Adding a value to the end of the organizational-unit pattern narrows it:
    every name the longer pattern matches, the shorter one matches too.
   */
  lemma LongerPatternNarrows(p: Name, unit: string, x: Name)
    requires MatchesX509(p.(organizationalUnit := p.organizationalUnit + [unit]), x)
    ensures MatchesX509(p, x)
  {
  }
}
