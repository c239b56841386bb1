/** The response contract of protocol/operation.go: which identifiers continue an
    operation and which complete it. */
module Protocol {
  import opened BerTypes

  datatype Classification = Invalid | Continue | Complete

  datatype FramingPattern = FramingPattern(
    continueIds: seq<Identifier>,
    completeIds: seq<Identifier>,
    noResponse: bool,
    valid: bool)
  {
    function Classify(id: Identifier): Classification
    {
      if !valid || noResponse then Invalid
      else if id in continueIds then Continue
      else if id in completeIds then Complete
      else Invalid
    }
  }

  const NO_RESPONSE := FramingPattern([], [], true, true)

  // What a specification must satisfy to become a pattern.
  ghost predicate Distinct(ids: seq<Identifier>)
  {
    forall i, j :: 0 <= i < j < |ids| ==> ids[i] != ids[j]
  }

  ghost predicate AllApplication(ids: seq<Identifier>)
  {
    forall i :: 0 <= i < |ids| ==> ids[i].Valid() && ids[i].cls == APPLICATION
  }

  method ValidateIds(seen: set<Identifier>, ids: seq<Identifier>) returns (ok: bool, grown: set<Identifier>)
    ensures ok <==> AllApplication(ids) && Distinct(ids) && forall i :: 0 <= i < |ids| ==> ids[i] !in seen
    ensures ok ==> grown == seen + set i | 0 <= i < |ids| :: ids[i]
  {
    grown := seen;
    for i := 0 to |ids|
      invariant grown == seen + set k | 0 <= k < i :: ids[k]
      invariant AllApplication(ids[..i]) && Distinct(ids[..i])
      invariant forall k :: 0 <= k < i ==> ids[k] !in seen
    {
      if !ids[i].Valid() || ids[i].cls != APPLICATION {
        return false, grown;
      }
      if ids[i] in grown {
        return false, grown;
      }
      grown := grown + {ids[i]};
    }
    assert ids[..|ids|] == ids;
    return true, grown;
  }

  /** newFramingPattern succeeds exactly on specifications in which every
      identifier is an application identifier with one meaning, and the pattern
      then classifies by membership in the two lists. */
  method NewFramingPattern(continueIds: seq<Identifier>, completeIds: seq<Identifier>, noResponse: bool)
    returns (r: Option<FramingPattern>)
    ensures r.Some? <==> if noResponse then continueIds == [] && completeIds == []
                         else completeIds != [] && AllApplication(continueIds + completeIds) && Distinct(continueIds + completeIds)
    ensures r.Some? ==> forall id :: && (r.value.Classify(id) == Continue <==> id in continueIds)
                                     && (r.value.Classify(id) == Complete <==> id in completeIds)
  {
    if noResponse {
      if |continueIds| != 0 || |completeIds| != 0 { return None; }
      return Some(NO_RESPONSE);
    }
    if |completeIds| == 0 { return None; }
    ghost var all := continueIds + completeIds;
    var ok, seen := ValidateIds({}, continueIds);
    if !ok {
      assert AllApplication(all) && Distinct(all) ==> AllApplication(all[..|continueIds|]) && Distinct(all[..|continueIds|]);
      assert all[..|continueIds|] == continueIds;
      return None;
    }
    ok, seen := ValidateIds(seen, completeIds);
    if !ok {
      SecondListRefused(continueIds, completeIds);
      return None;
    }
    forall i, j | 0 <= i < j < |all| ensures all[i] != all[j] {
      if i < |continueIds| <= j { assert all[j] == completeIds[j - |continueIds|]; }
      else if i >= |continueIds| {
        assert all[i] == completeIds[i - |continueIds|] && all[j] == completeIds[j - |continueIds|];
      }
    }
    return Some(FramingPattern(continueIds, completeIds, false, true));
  }

  lemma SecondListRefused(a: seq<Identifier>, b: seq<Identifier>)
    ensures AllApplication(a + b) && Distinct(a + b) ==>
              AllApplication(b) && Distinct(b) && forall i :: 0 <= i < |b| ==> b[i] !in a
  {
    var all := a + b;
    if AllApplication(all) && Distinct(all) {
      forall i | 0 <= i < |b| ensures b[i].Valid() && b[i].cls == APPLICATION && b[i] !in a {
        assert all[|a| + i] == b[i];
        forall k | 0 <= k < |a| ensures a[k] != b[i] { assert all[k] == a[k]; }
      }
      forall i, j | 0 <= i < j < |b| ensures b[i] != b[j] {
        assert all[|a| + i] == b[i] && all[|a| + j] == b[j];
      }
    }
  }
}
