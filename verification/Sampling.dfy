/** `random.sample`: which pods of a list are drawn. */
module Sampling {

  /** `random.sample`: `k` of the population, in any order, each no more often than it occurs. */
  ghost predicate IsSample(population: seq<string>, k: int, drawn: seq<string>) {
    |drawn| == k && multiset(drawn) <= multiset(population)
  }

  ghost predicate Distinct(names: seq<string>) {
    forall i, j :: 0 <= i < j < |names| ==> names[i] != names[j]
  }

  /** A sample of distinct names is distinct, and all its names are from the population. */
  lemma SampleIsDistinct(population: seq<string>, k: int, drawn: seq<string>)
    requires IsSample(population, k, drawn)
    ensures forall name :: name in drawn ==> name in population
    ensures Distinct(population) ==> Distinct(drawn)
  {
    forall name | name in drawn ensures name in population {
      assert name in multiset(drawn) && name in multiset(population);
    }
    if Distinct(population) {
      forall i, j | 0 <= i < j < |drawn| ensures drawn[i] != drawn[j] {
        CountsOnce(population, drawn[i]);
        if drawn[i] == drawn[j] {
          CountsTwice(drawn, i, j);
        }
      }
    }
  }

  lemma {:induction false} CountsOnce(names: seq<string>, name: string)
    requires Distinct(names)
    ensures multiset(names)[name] <= 1
  {
    if |names| > 0 {
      var n := |names| - 1;
      assert names == names[..n] + [names[n]];
      CountsOnce(names[..n], name);
      if names[n] == name {
        assert name !in names[..n];
        assert multiset(names[..n])[name] == 0;
      }
    }
  }

  lemma CountsTwice(names: seq<string>, i: nat, j: nat)
    requires i < j < |names| && names[i] == names[j]
    ensures 2 <= multiset(names)[names[i]]
  {
    assert names == names[..j] + names[j..];
    assert names[i] in names[..j] && names[i] == names[j..][0];
  }
}
