/**
  engine/capability/validate.go: the claims of a declaration must be the closed set of capabilities, each once and in
  its order.
 */
module ClaimSet {
  const ORDER := [
    "installation", "projection", "dispatch", "cancellation", "persistence", "restart", "authentication",
    "memory-enforcement", "skills"
  ]

  datatype Verdict =
    | Accepted
    | UnknownAt(i: nat)
    | RepeatedAt(i: nat)
    | MissingCapability(name: string)
    | OutOfOrderAt(i: nat)

  predicate Known(claims: seq<string>) {
    forall i :: 0 <= i < |claims| ==> claims[i] in ORDER
  }

  predicate Unique(claims: seq<string>) {
    forall i, j :: 0 <= i < j < |claims| ==> claims[i] != claims[j]
  }

  function Elements(s: seq<string>): set<string> {
    set x | x in s
  }

  lemma {:induction false} AtMostLength(s: seq<string>)
    ensures |Elements(s)| <= |s|
  {
    if s == [] {
      assert Elements(s) == {};
    } else {
      var n := |s| - 1;
      AtMostLength(s[..n]);
      assert s == s[..n] + [s[n]];
      assert Elements(s) == Elements(s[..n]) + {s[n]};
    }
  }

  lemma {:induction false} UniqueSize(s: seq<string>)
    requires Unique(s)
    ensures |Elements(s)| == |s|
  {
    if s == [] {
      assert Elements(s) == {};
    } else {
      var n := |s| - 1;
      UniqueSize(s[..n]);
      assert s == s[..n] + [s[n]];
      assert Elements(s) == Elements(s[..n]) + {s[n]} && s[n] !in Elements(s[..n]);
    }
  }

  lemma SubsetSize(a: set<string>, b: set<string>)
    requires a <= b
    ensures |a| <= |b|
  {
    assert b == a + (b - a);
  }

  /** Claims that are known and unique are no more than the closed set has, so a place in them is a place in its
      order. */
  lemma NoMoreThanOrder(claims: seq<string>)
    requires Known(claims) && Unique(claims)
    ensures |claims| <= |ORDER|
  {
    UniqueSize(claims);
    AtMostLength(ORDER);
    hide ORDER;
    SubsetSize(Elements(claims), Elements(ORDER));
  }

  lemma OrderIsUnique()
    ensures Unique(ORDER)
  {
    var o := ORDER;
    assert |o[0]| == 12 && |o[1]| == 10 && |o[2]| == 8 && |o[3]| == 12 && |o[4]| == 11 && |o[5]| == 7 && |o[6]| == 14;
    assert |o[7]| == 18 && |o[8]| == 6;
    assert o[0][0] == 'i' && o[3][0] == 'c';
  }

  ghost predicate FirstMissing(claims: seq<string>, name: string) {
    exists k :: 0 <= k < |ORDER| && ORDER[k] == name && name !in claims && forall j :: 0 <= j < k ==> ORDER[j] in claims
  }

  method ValidateClaimSet(claims: seq<string>) returns (v: Verdict)
    ensures v.Accepted? <==> claims == ORDER
    ensures v.UnknownAt? ==> v.i < |claims| && claims[v.i] !in ORDER && Known(claims[..v.i]) && Unique(claims[..v.i])
    ensures v.RepeatedAt? ==>
              v.i < |claims| && claims[v.i] in claims[..v.i] && Known(claims[..v.i]) && Unique(claims[..v.i])
    ensures v.MissingCapability? ==> FirstMissing(claims, v.name) && Known(claims) && Unique(claims)
    ensures v.OutOfOrderAt? ==> v.i < |claims| <= |ORDER| && claims[v.i] != ORDER[v.i] && claims[..v.i] == ORDER[..v.i]
                                && Known(claims) && Unique(claims) && Elements(claims) == Elements(ORDER)
  {
    OrderIsUnique();
    hide ORDER;
    var seen;
    v, seen := CheckEach(claims);
    if !v.Accepted? { return; }
    hide Known, Unique;
    for i := 0 to |ORDER|
      invariant forall j :: 0 <= j < i ==> ORDER[j] in seen
    {
      if ORDER[i] !in seen { return MissingCapability(ORDER[i]); }
    }
    SameElements(claims);
    for i := 0 to |claims|
      invariant claims[..i] == ORDER[..i]
    {
      if claims[i] != ORDER[i] { return OutOfOrderAt(i); }
    }
    assert claims[..|claims|] == claims && ORDER[..|ORDER|] == ORDER;
    return Accepted;
  }

  // The first loop: each claim is known, and not there already.
  method CheckEach(claims: seq<string>) returns (v: Verdict, seen: set<string>)
    ensures v.Accepted? ==> Known(claims) && Unique(claims) && seen == Elements(claims)
    ensures v.UnknownAt? ==> v.i < |claims| && claims[v.i] !in ORDER && Known(claims[..v.i]) && Unique(claims[..v.i])
    ensures v.RepeatedAt? ==>
              v.i < |claims| && claims[v.i] in claims[..v.i] && Known(claims[..v.i]) && Unique(claims[..v.i])
    ensures !v.Accepted? ==> claims != ORDER && (v.UnknownAt? || v.RepeatedAt?)
  {
    OrderIsUnique();
    hide ORDER;
    seen := {};
    for i := 0 to |claims|
      invariant Known(claims[..i]) && Unique(claims[..i]) && seen == Elements(claims[..i])
    {
      if claims[i] !in ORDER {
        RefusedAt(claims, i);
        return UnknownAt(i), seen;
      }
      if claims[i] in seen {
        RefusedAt(claims, i);
        return RepeatedAt(i), seen;
      }
      assert claims[..i + 1] == claims[..i] + [claims[i]];
      seen := seen + {claims[i]};
    }
    assert claims[..|claims|] == claims;
    return Accepted, seen;
  }

  lemma SameElements(claims: seq<string>)
    requires Known(claims) && Unique(claims) && forall j :: 0 <= j < |ORDER| ==> ORDER[j] in claims
    ensures Elements(claims) == Elements(ORDER) && |claims| == |ORDER|
  {
    OrderIsUnique();
    NoMoreThanOrder(claims);
    hide ORDER;
    UniqueSize(ORDER);
    AtMostLength(claims);
  }

  // A claim that is not known, or is there already, is not in its place.
  lemma RefusedAt(claims: seq<string>, i: nat)
    requires i < |claims| && Unique(ORDER)
    requires claims[i] !in ORDER || claims[i] in Elements(claims[..i])
    ensures claims != ORDER
  {
  }
}
