/** Sequence functions the registries and the log are specified with. */
module Sequences {
  import opened Wrappers

  /** The key of every element, in order. */
  function Names<T>(s: seq<T>, key: T -> string): (r: seq<string>)
    ensures |r| == |s|
    ensures forall i :: 0 <= i < |s| ==> r[i] == key(s[i])
  {
    seq(|s|, i requires 0 <= i < |s| => key(s[i]))
  }

  /** Appending one element appends its key. */
  lemma NamesAppend<T>(s: seq<T>, key: T -> string, x: T)
    ensures Names(s + [x], key) == Names(s, key) + [key(x)]
  {
  }

  /** The first element whose key is `name`, as `Array.prototype.find` returns it. */
  function Find<T>(s: seq<T>, key: T -> string, name: string): (r: Option<T>)
    ensures r.None? <==> name !in Names(s, key)
    ensures r.Some? ==> exists i :: 0 <= i < |s| && s[i] == r.value && key(s[i]) == name &&
                                    forall j :: 0 <= j < i ==> key(s[j]) != name
  {
    if s == [] then None
    else if key(s[0]) == name then Some(s[0])
    else
      var r := Find(s[1..], key, name);
      assert r.Some? ==> exists i :: 0 <= i < |s| && s[i] == r.value && key(s[i]) == name &&
                                     forall j :: 0 <= j < i ==> key(s[j]) != name by {
        if r.Some? {
          var i :| 0 <= i < |s[1..]| && s[1..][i] == r.value && key(s[1..][i]) == name &&
                   forall j :: 0 <= j < i ==> key(s[1..][j]) != name;
          assert s[i + 1] == r.value && key(s[i + 1]) == name;
          forall j | 0 <= j < i + 1 ensures key(s[j]) != name {
            if j > 0 { assert s[j] == s[1..][j - 1]; }
          }
        }
      }
      r
  }

  /** No two elements are equal. */
  predicate Distinct(s: seq<string>) {
    forall i, j :: 0 <= i < j < |s| ==> s[i] != s[j]
  }

  /** Appending a name keeps the names distinct exactly when the name is fresh. */
  lemma DistinctAppend(s: seq<string>, x: string)
    ensures Distinct(s + [x]) <==> Distinct(s) && x !in s
  {
    var t := s + [x];
    assert forall k :: 0 <= k < |s| ==> t[k] == s[k];
    assert t[|s|] == x;
    if Distinct(t) {
      forall k | 0 <= k < |s| ensures s[k] != x {
        assert t[k] != t[|s|];
      }
    }
  }

  /** Extending a prefix of `s` by the next element: if that element's key is already among
      the prefix's keys, the keys of the whole of `s` are not distinct. */
  lemma DistinctNamesStep<T>(s: seq<T>, key: T -> string, n: nat)
    requires n < |s|
    ensures s[..n + 1] == s[..n] + [s[n]]
    ensures key(s[n]) in Names(s[..n], key) ==> !Distinct(Names(s, key))
  {
  }

  /** In a sequence of distinct names, a name occurs once if at all. */
  lemma {:induction false} OccursOnce(s: seq<string>, x: string)
    requires Distinct(s)
    ensures multiset(s)[x] == if x in s then 1 else 0
  {
    if s != [] {
      assert s == [s[0]] + s[1..];
      assert Distinct(s[1..]) by {
        forall i, j | 0 <= i < j < |s[1..]| ensures s[1..][i] != s[1..][j] {
          assert s[1..][i] == s[i + 1] && s[1..][j] == s[j + 1];
        }
      }
      OccursOnce(s[1..], x);
      assert s[0] !in s[1..] by {
        forall k | 0 <= k < |s[1..]| ensures s[1..][k] != s[0] {
          assert s[1..][k] == s[k + 1];
        }
      }
      assert multiset(s) == multiset{s[0]} + multiset(s[1..]);
    }
  }

  /** The elements `f` maps to `Some`, mapped, in order. Defined from the last element,
      since the traces it is applied to grow at the end. */
  function FilterMap<T, U>(s: seq<T>, f: T -> Option<U>): (r: seq<U>)
    ensures |r| <= |s|
  {
    if s == [] then []
    else
      var last := s[|s| - 1];
      FilterMap(s[..|s| - 1], f) + (if f(last).Some? then [f(last).value] else [])
  }

  /** `s` in reverse order. */
  function Reverse<T>(s: seq<T>): (r: seq<T>)
    ensures |r| == |s|
  {
    if s == [] then [] else Reverse(s[1..]) + [s[0]]
  }

  /** Appending at the end of `s` puts the new element at the front of its reverse. */
  lemma {:induction false} ReverseAppend<T>(s: seq<T>, x: T)
    ensures Reverse(s + [x]) == [x] + Reverse(s)
  {
    if s == [] {
      assert s + [x] == [x];
    } else {
      assert (s + [x])[1..] == s[1..] + [x];
      ReverseAppend(s[1..], x);
    }
  }

  /** The k-th element of the reverse is the k-th from the end. */
  lemma {:induction false} ReverseAt<T>(s: seq<T>, k: nat)
    requires k < |s|
    ensures Reverse(s)[k] == s[|s| - 1 - k]
  {
    if k < |s| - 1 {
      ReverseAt(s[1..], k);
    }
  }
}
