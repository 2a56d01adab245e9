/** What every part of the model shares. */
module Basics {

  const PAGE: nat := 4096

  datatype Option<+T> = None | Some(value: T)

  ghost predicate Distinct<T>(s: seq<T>) {
    forall i, j :: 0 <= i < j < |s| ==> s[i] != s[j]
  }

  /** A sequence in which nothing occurs twice. */
  lemma {:induction false} OnceIsDistinct<T>(ids: seq<T>)
    requires forall id :: id in ids ==> multiset(ids)[id] == 1
    ensures Distinct(ids)
  {
    if |ids| > 0 {
      var first, rest := ids[0], ids[1..];
      assert ids == [first] + rest;
      assert multiset(ids) == multiset{first} + multiset(rest);
      forall id | id in rest ensures multiset(rest)[id] == 1 {
        assert id in ids && multiset(rest)[id] > 0;
      }
      OnceIsDistinct(rest);
      assert first in ids && multiset(ids)[first] == 1 + multiset(rest)[first];
      assert first !in rest;
      forall i, j | 0 <= i < j < |ids| ensures ids[i] != ids[j] {
        assert ids[j] == rest[j - 1] && rest[j - 1] in rest;
        assert i > 0 ==> ids[i] == rest[i - 1];
      }
    }
  }
}
