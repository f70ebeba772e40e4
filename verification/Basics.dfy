/** Vocabulary shared by every component: optional values and a few facts about sequences. */
module Basics {

  datatype Option<+T> = None | Some(value: T)

  /** A key with its value, as handed over to libav. */
  datatype DictionaryItem = DictionaryItem(key: string, value: string)

  /** An input or an output: its URL and the options given for it. */
  datatype Resource = Resource(url: string, customOptions: seq<DictionaryItem>)

  predicate HasPrefix(s: string, prefix: string) {
    |prefix| <= |s| && s[..|prefix|] == prefix
  }

  /** `f` applied to a start value and each element in turn, the first element first. */
  function FoldLeft<A, B>(f: (A, B) -> A, start: A, xs: seq<B>): A {
    if xs == [] then start else f(FoldLeft(f, start, xs[..|xs| - 1]), xs[|xs| - 1])
  }

  function Flatten<T>(parts: seq<seq<T>>): seq<T> {
    if parts == [] then [] else parts[0] + Flatten(parts[1..])
  }

  lemma {:induction false} FlattenConcat<T>(a: seq<seq<T>>, b: seq<seq<T>>)
    ensures Flatten(a + b) == Flatten(a) + Flatten(b)
  {
    if a == [] {
      assert a + b == b;
    } else {
      assert (a + b)[1..] == a[1..] + b;
      FlattenConcat(a[1..], b);
    }
  }

  /** The last element of a permutation of `b` is somewhere in `b`, and the rest is a permutation of the rest. */
  lemma TakeOut<T>(a: seq<T>, b: seq<T>) returns (k: nat)
    requires a != [] && multiset(a) == multiset(b)
    ensures k < |b| && b[k] == a[|a| - 1]
    ensures multiset(a[..|a| - 1]) == multiset(b[..k] + b[k + 1..])
  {
    var n := |a| - 1;
    assert a == a[..n] + [a[n]];
    assert a[n] in multiset(b);
    k :| 0 <= k < |b| && b[k] == a[n];
    assert b == b[..k] + [b[k]] + b[k + 1..];
    calc {
      multiset(a[..n]);
      multiset(a) - multiset{a[n]};
      multiset(b) - multiset{b[k]};
      multiset(b[..k]) + multiset(b[k + 1..]);
      multiset(b[..k] + b[k + 1..]);
    }
  }
}
