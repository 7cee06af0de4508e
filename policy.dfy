/**
 * Policy matching: an access-policy entry is a required subset of the
 * claims, compared key by key and recursively through nested objects; an
 * access list grants when at least one of its entries matches.
 */
module Policy {
  import opened Wrappers
  import opened ClaimTree

  /**
   * `pattern` is a sub-tree of `actual`: every key of a pattern object is
   * present in the actual object with a matching value, a leaf matches only
   * an equal leaf, and keys the pattern does not mention are ignored.
   */
  predicate Matches(pattern: Value, actual: Value)
    // a match never pairs an object with a leaf
    ensures Matches(pattern, actual) ==> (pattern.Obj? <==> actual.Obj?)
    // no partial credit: every key the pattern names is present
    ensures Matches(pattern, actual) && pattern.Obj? ==> pattern.fields.Keys <= actual.fields.Keys
    // a leaf is matched only by the very same leaf
    ensures Matches(pattern, actual) && !pattern.Obj? ==> actual == pattern
    decreases pattern
  {
    match pattern
    case Obj(pm) =>
      && actual.Obj?
      && forall k :: k in pm ==> k in actual.fields && Matches(pm[k], actual.fields[k])
    case _ => actual == pattern
  }

  /**
   * One access-policy entry against the decoded claims: the entry's keys are
   * all claim keys, and a keyless entry matches any claims.
   */
  predicate EntryMatches(entry: Claims, claims: Claims)
    ensures EntryMatches(entry, claims) ==> entry.Keys <= claims.Keys
    ensures entry == map[] ==> EntryMatches(entry, claims)
  {
    Matches(Obj(entry), Obj(claims))
  }

  /** The entries are tried in list order; the first one that matches grants. */
  function AnyEntryMatches(accessList: seq<Claims>, claims: Claims): (r: bool)
    ensures r <==> exists i :: 0 <= i < |accessList| && EntryMatches(accessList[i], claims)
    decreases |accessList|
  {
    if accessList == [] then false
    else EntryMatches(accessList[0], claims) || AnyEntryMatches(accessList[1..], claims)
  }

  // ---------------------------------------------------------------------
  // Matching is the sub-tree preorder

  lemma {:induction false} MatchesReflexive(v: Value)
    ensures Matches(v, v)
    decreases v
  {
    match v
    case Obj(m) =>
      forall k | k in m
        ensures Matches(m[k], m[k])
      {
        MatchesReflexive(m[k]);
      }
    case _ =>
  }

  lemma {:induction false} MatchesTransitive(a: Value, b: Value, c: Value)
    requires Matches(a, b) && Matches(b, c)
    ensures Matches(a, c)
    decreases a
  {
    match a
    case Obj(am) =>
      forall k | k in am
        ensures k in c.fields && Matches(am[k], c.fields[k])
      {
        MatchesTransitive(am[k], b.fields[k], c.fields[k]);
      }
    case _ =>
  }

  // ---------------------------------------------------------------------
  // The same relation, stated key path by key path

  /** What a pattern node at some path demands of whatever the claims hold at that path. */
  predicate Agrees(node: Value, found: Option<Value>)
  {
    if node.Obj? then found.Some? && found.value.Obj? else found == Some(node)
  }

  /**
   * Every key path of `pattern` exists in `actual`; where the pattern holds
   * a leaf the actual tree holds the same leaf, and where it holds an object
   * the actual tree holds an object.
   */
  ghost predicate PathwiseSubset(pattern: Value, actual: Value)
  {
    forall path :: Lookup(pattern, path).Some? ==> Agrees(Lookup(pattern, path).value, Lookup(actual, path))
  }

  lemma {:induction false} MatchesAgreesAlongPath(pattern: Value, actual: Value, path: seq<string>)
    requires Matches(pattern, actual)
    requires Lookup(pattern, path).Some?
    ensures Agrees(Lookup(pattern, path).value, Lookup(actual, path))
    decreases |path|
  {
    if path != [] {
      var k := path[0];
      MatchesAgreesAlongPath(pattern.fields[k], actual.fields[k], path[1..]);
    }
  }

  lemma {:induction false} PathwiseSubsetMatches(pattern: Value, actual: Value)
    requires PathwiseSubset(pattern, actual)
    ensures Matches(pattern, actual)
    decreases pattern
  {
    assert Lookup(pattern, []) == Some(pattern);
    match pattern
    case Obj(pm) =>
      forall k | k in pm
        ensures k in actual.fields && Matches(pm[k], actual.fields[k])
      {
        assert Lookup(pattern, [k]) == Some(pm[k]);
        forall path | Lookup(pm[k], path).Some?
          ensures Agrees(Lookup(pm[k], path).value, Lookup(actual.fields[k], path))
        {
          assert ([k] + path)[0] == k && ([k] + path)[1..] == path;
          assert Lookup(pattern, [k] + path) == Lookup(pm[k], path);
          assert Lookup(actual, [k] + path) == Lookup(actual.fields[k], path);
        }
        PathwiseSubsetMatches(pm[k], actual.fields[k]);
      }
    case _ =>
  }

  /**
   * Matching is exactly the key-path reading: a path the pattern requires but
   * the claims lack, at any depth, defeats the match; nothing else does.
   */
  lemma MatchesIffPathwiseSubset(pattern: Value, actual: Value)
    ensures Matches(pattern, actual) <==> PathwiseSubset(pattern, actual)
  {
    if Matches(pattern, actual) {
      forall path | Lookup(pattern, path).Some?
        ensures Agrees(Lookup(pattern, path).value, Lookup(actual, path))
      {
        MatchesAgreesAlongPath(pattern, actual, path);
      }
    }
    if PathwiseSubset(pattern, actual) {
      PathwiseSubsetMatches(pattern, actual);
    }
  }

  // ---------------------------------------------------------------------
  // Properties of entries and access lists

  /** Claims extended by more keys (at any depth) keep every match they had. */
  lemma ExtendedClaimsKeepMatch(entry: Claims, claims: Claims, extended: Claims)
    requires EntryMatches(entry, claims)
    requires EntryMatches(claims, extended)
    ensures EntryMatches(entry, extended)
  {
    MatchesTransitive(Obj(entry), Obj(claims), Obj(extended));
  }

  /** Adding a claim key the claims did not have never breaks a match. */
  lemma ExtraClaimKeepsMatch(entry: Claims, claims: Claims, key: string, v: Value)
    requires key !in claims
    requires EntryMatches(entry, claims)
    ensures EntryMatches(entry, claims[key := v])
  {
  }

  /**
   * A claim key that no entry of the access list mentions (such as the
   * issued-at time a signer adds) changes no decision, grant or denial.
   */
  lemma UnmentionedClaimKeepsDecision(accessList: seq<Claims>, claims: Claims, key: string, v: Value)
    requires key !in claims
    requires forall e :: e in accessList ==> key !in e
    ensures AnyEntryMatches(accessList, claims[key := v]) == AnyEntryMatches(accessList, claims)
  {
    forall i | 0 <= i < |accessList|
      ensures EntryMatches(accessList[i], claims[key := v]) == EntryMatches(accessList[i], claims)
    {
      if EntryMatches(accessList[i], claims) {
        ExtraClaimKeepsMatch(accessList[i], claims, key, v);
      }
    }
  }

  /** An access list that grants some claims grants every extension of them. */
  lemma ExtendedClaimsKeepAccess(accessList: seq<Claims>, claims: Claims, extended: Claims)
    requires AnyEntryMatches(accessList, claims)
    requires EntryMatches(claims, extended)
    ensures AnyEntryMatches(accessList, extended)
  {
    var i :| 0 <= i < |accessList| && EntryMatches(accessList[i], claims);
    ExtendedClaimsKeepMatch(accessList[i], claims, extended);
  }

  /** An access list that holds a keyless entry grants all claims. */
  lemma WildcardEntryGrants(accessList: seq<Claims>, claims: Claims)
    requires map[] in accessList
    ensures AnyEntryMatches(accessList, claims)
  {
  }

  /** The empty access list grants nothing. */
  lemma EmptyAccessListDenies(claims: Claims)
    ensures !AnyEntryMatches([], claims)
  {
  }

  /**
   * No entry has a veto: joining two access lists grants exactly what
   * either one grants.
   */
  lemma {:induction false} JoinedAccessListsGrantEither(first: seq<Claims>, second: seq<Claims>, claims: Claims)
    ensures AnyEntryMatches(first + second, claims) == (AnyEntryMatches(first, claims) || AnyEntryMatches(second, claims))
    decreases |first|
  {
    if first == [] {
      assert first + second == second;
    } else {
      assert (first + second)[0] == first[0];
      assert (first + second)[1..] == first[1..] + second;
      JoinedAccessListsGrantEither(first[1..], second, claims);
    }
  }

  /** The order of the entries does not change the decision. */
  lemma ReorderedAccessListSameDecision(accessList: seq<Claims>, reordered: seq<Claims>, claims: Claims)
    requires multiset(accessList) == multiset(reordered)
    ensures AnyEntryMatches(accessList, claims) == AnyEntryMatches(reordered, claims)
  {
    forall xs: seq<Claims>, ys: seq<Claims> | multiset(xs) == multiset(ys) && AnyEntryMatches(xs, claims)
      ensures AnyEntryMatches(ys, claims)
    {
      var i :| 0 <= i < |xs| && EntryMatches(xs[i], claims);
      assert xs[i] in multiset(ys);
      var j :| 0 <= j < |ys| && ys[j] == xs[i];
    }
  }
}
