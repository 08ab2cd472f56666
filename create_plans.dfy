/**
 * The `IsUniqueLevelId` validator of the plan DTO: the level ids of a plan's
 * billing items must not repeat, items without a level id are ignored, and
 * a value that is not an array is left to the array validator.
 */
module CreatePlans {
  import opened Wrappers

  /** The validated value: not an array, or the items' `levelId`s, `None` for null or undefined. */
  datatype BillingValue = NotArray | Items(levelIds: seq<Option<string>>)

  /** `map(item => item.levelId).filter(id => id !== undefined && id !== null)`. */
  function Defined(ids: seq<Option<string>>): (r: seq<string>)
    ensures |r| <= |ids|
  {
    if ids == [] then []
    else (if ids[0].Some? then [ids[0].value] else []) + Defined(ids[1..])
  }

  function Elements(s: seq<string>): set<string> {
    set x | x in s
  }

  /** `levelIds.length === new Set(levelIds).size`, after the array check. */
  predicate IsUniqueLevelId(value: BillingValue) {
    match value
    case NotArray => true
    case Items(ids) => |Defined(ids)| == |Elements(Defined(ids))|
  }

  /** Every defined id occurs at most once. */
  ghost predicate NoRepeats(ids: seq<Option<string>>) {
    forall x :: multiset(ids)[Some(x)] <= 1
  }

  /** No two positions hold the same defined id. */
  predicate PairwiseDistinct(ids: seq<Option<string>>) {
    forall i, j :: 0 <= i < j < |ids| && ids[i].Some? ==> ids[i] != ids[j]
  }

  lemma {:induction false} ElementsBound(s: seq<string>)
    ensures |Elements(s)| <= |s|
  {
    if s != [] {
      ElementsBound(s[1..]);
      assert Elements(s) == {s[0]} + Elements(s[1..]);
    }
  }

  /** A list has as many distinct elements as entries exactly when none repeats. */
  lemma {:induction false} ElementsSize(s: seq<string>)
    ensures |Elements(s)| == |s| <==> forall x :: multiset(s)[x] <= 1
  {
    if s != [] {
      var t := s[1..];
      assert s == [s[0]] + t;
      assert Elements(s) == {s[0]} + Elements(t);
      assert forall x :: multiset(s)[x] == (if x == s[0] then 1 else 0) + multiset(t)[x];
      ElementsSize(t);
      if s[0] in t {
        ElementsBound(t);
        assert multiset(s)[s[0]] >= 2;
      } else {
        assert s[0] !in Elements(t);
      }
    }
  }

  /** Filtering keeps each defined id as often as it occurs. */
  lemma {:induction false} DefinedCount(ids: seq<Option<string>>, x: string)
    ensures multiset(Defined(ids))[x] == multiset(ids)[Some(x)]
  {
    if ids != [] {
      DefinedCount(ids[1..], x);
      assert ids == [ids[0]] + ids[1..];
    }
  }

  /** The validator accepts an array exactly when no defined id repeats. */
  lemma UniqueLevelIdMeaning(ids: seq<Option<string>>)
    ensures IsUniqueLevelId(Items(ids)) <==> NoRepeats(ids)
  {
    ElementsSize(Defined(ids));
    forall x ensures multiset(Defined(ids))[x] == multiset(ids)[Some(x)] {
      DefinedCount(ids, x);
    }
  }

  lemma {:induction false} NoRepeatsIsPairwise(ids: seq<Option<string>>)
    ensures NoRepeats(ids) <==> PairwiseDistinct(ids)
  {
    if ids != [] {
      var t := ids[1..];
      assert ids == [ids[0]] + t;
      assert forall x :: multiset(ids)[x] == (if x == ids[0] then 1 else 0) + multiset(t)[x];
      NoRepeatsIsPairwise(t);
      assert PairwiseDistinct(ids) ==> PairwiseDistinct(t) by {
        if PairwiseDistinct(ids) {
          forall i, j | 0 <= i < j < |t| && t[i].Some? ensures t[i] != t[j] {
            assert ids[i + 1] != ids[j + 1];
          }
        }
      }
      assert PairwiseDistinct(t) && (ids[0].Some? ==> ids[0] !in t) ==> PairwiseDistinct(ids) by {
        if PairwiseDistinct(t) && (ids[0].Some? ==> ids[0] !in t) {
          forall i, j | 0 <= i < j < |ids| && ids[i].Some? ensures ids[i] != ids[j] {
            if i == 0 {
              assert ids[j] in t;
            } else {
              assert t[i - 1] != t[j - 1];
            }
          }
        }
      }
      if ids[0].Some? && ids[0] in t {
        var k :| 0 <= k < |t| && t[k] == ids[0];
        assert ids[k + 1] == ids[0];
        assert multiset(ids)[ids[0]] >= 2;
      }
    }
  }

  /** The validator accepts an array exactly when no two items share a defined level id. */
  lemma UniqueLevelIdPairwise(ids: seq<Option<string>>)
    ensures IsUniqueLevelId(Items(ids)) <==> PairwiseDistinct(ids)
  {
    UniqueLevelIdMeaning(ids);
    NoRepeatsIsPairwise(ids);
  }

  /** Reordering the items does not change the verdict. */
  lemma UniqueLevelIdPermutation(a: seq<Option<string>>, b: seq<Option<string>>)
    requires multiset(a) == multiset(b)
    ensures IsUniqueLevelId(Items(a)) == IsUniqueLevelId(Items(b))
  {
    UniqueLevelIdMeaning(a);
    UniqueLevelIdMeaning(b);
  }

  /** The empty array, an array of items without level ids and a non-array are accepted. */
  lemma UniqueLevelIdTrivial(n: nat)
    ensures IsUniqueLevelId(Items([])) && IsUniqueLevelId(NotArray)
    ensures IsUniqueLevelId(Items(seq(n, _ => None)))
  {
    UniqueLevelIdPairwise(seq(n, _ => None));
  }

  /** Two items with the same level id are refused, wherever they stand. */
  lemma RepeatedLevelIdRefused(ids: seq<Option<string>>, i: nat, j: nat)
    requires i < j < |ids| && ids[i].Some? && ids[i] == ids[j]
    ensures !IsUniqueLevelId(Items(ids))
  {
    UniqueLevelIdPairwise(ids);
  }
}
