/** `keys.reduce((acc, k) => { acc[k] = items.filter(x => key(x) === k); return acc; }, {})`:
    the department grouping the faculty and subject pages build. */
module Grouping {
  import Seqs

  function KeyIs<T>(key: T -> string, k: string): T -> bool {
    (x: T) => key(x) == k
  }

  function KeyIn<T>(key: T -> string, keys: seq<string>): T -> bool {
    (x: T) => key(x) in keys
  }

  /** The reduce, writing one key of the accumulator per step. */
  method GroupBy<T>(keys: seq<string>, items: seq<T>, key: T -> string) returns (groups: map<string, seq<T>>)
    ensures forall k :: k in groups <==> k in keys
    ensures forall k :: k in groups ==> groups[k] == Seqs.Filter(items, KeyIs(key, k))
  {
    groups := map[];
    var i := 0;
    while i < |keys|
      invariant 0 <= i <= |keys|
      invariant forall k :: k in groups <==> k in keys[..i]
      invariant forall k :: k in groups ==> groups[k] == Seqs.Filter(items, KeyIs(key, k))
    {
      groups := groups[keys[i] := Seqs.Filter(items, KeyIs(key, keys[i]))];
      assert keys[..i + 1] == keys[..i] + [keys[i]];
      i := i + 1;
    }
    assert keys[..i] == keys;
  }

  /** Every grouped item carries its group's key, so an item whose key is
      not listed is in no group. */
  lemma GroupMembers<T>(items: seq<T>, key: T -> string, k: string)
    ensures forall x :: x in Seqs.Filter(items, KeyIs(key, k)) ==> x in items && key(x) == k
  {
  }

  predicate Distinct(keys: seq<string>) {
    forall i, j :: 0 <= i < j < |keys| ==> keys[i] != keys[j]
  }

  function GroupSize<T>(items: seq<T>, key: T -> string): string -> int {
    (k: string) => Seqs.Count(items, KeyIs(key, k))
  }

  /** With distinct keys the group sizes add up to the number of items whose
      key is listed, hence to at most the number of items. */
  lemma {:induction false} GroupSizesAddUp<T>(keys: seq<string>, items: seq<T>, key: T -> string)
    requires Distinct(keys)
    ensures Seqs.Sum(keys, GroupSize(items, key)) == Seqs.Count(items, KeyIn(key, keys))
    ensures Seqs.Sum(keys, GroupSize(items, key)) <= |items|
  {
    if keys == [] {
      Seqs.CountNone(items, KeyIn(key, keys));
    } else {
      var rest := keys[1..];
      GroupSizesAddUp(rest, items, key);
      assert forall x :: KeyIn(key, keys)(x) == (KeyIs(key, keys[0])(x) || KeyIn(key, rest)(x)) by {
        assert keys == [keys[0]] + rest;
      }
      assert keys[0] !in rest by {
        forall j | 0 <= j < |rest| ensures rest[j] != keys[0] {
          assert rest[j] == keys[j + 1];
        }
      }
      Seqs.CountDisjoint(items, KeyIs(key, keys[0]), KeyIn(key, rest), KeyIn(key, keys));
    }
  }
}
