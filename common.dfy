/** Option values and the Python list operations the network object relies on:
    `list.remove` (drops the first equal element), comprehension filtering and
    the "no element twice" property of the role lists. */
module Common {

  datatype Option<T> = None | Some(value: T)

  /** True iff no element occurs twice in `s`. */
  ghost predicate NoDups<T>(s: seq<T>) {
    forall i, j :: 0 <= i < j < |s| ==> s[i] != s[j]
  }

  /** Appending an element not yet in a list without repeats keeps it so. */
  lemma NoDupsAppend<T>(s: seq<T>, x: T)
    requires NoDups(s) && x !in s
    ensures NoDups(s + [x])
  {
    var r := s + [x];
    forall i, j | 0 <= i < j < |r| ensures r[i] != r[j] {
      if j == |s| { assert r[i] == s[i]; }
    }
  }

  /** Position of the first occurrence of `x` in `s`. */
  function IndexOf<T(==)>(s: seq<T>, x: T): (i: nat)
    requires x in s
    ensures i < |s| && s[i] == x && x !in s[..i]
  {
    if s[0] == x then 0
    else
      var k := IndexOf(s[1..], x);
      assert s[..k + 1] == [s[0]] + s[1..][..k];
      k + 1
  }

  /** Python's `s.remove(x)` on a list that holds `x`; a list without `x`
      is returned as it is (callers check membership first). */
  function RemoveFirst<T(==)>(s: seq<T>, x: T): (r: seq<T>)
    ensures x !in s ==> r == s
    ensures x in s ==> |r| == |s| - 1
  {
    if s == [] then []
    else
      assert s == [s[0]] + s[1..];
      if s[0] == x then s[1..]
      else [s[0]] + RemoveFirst(s[1..], x)
  }

  /** `RemoveFirst` takes away one copy of `x` and nothing else. */
  lemma {:induction false} RemoveFirstMultiset<T>(s: seq<T>, x: T)
    ensures multiset(RemoveFirst(s, x)) == multiset(s) - multiset{x}
  {
    if s != [] {
      assert s == [s[0]] + s[1..];
      if s[0] != x {
        RemoveFirstMultiset(s[1..], x);
      }
    }
  }

  /** Every survivor of `RemoveFirst` was in the list, and every element
      other than the removed one survives. */
  lemma RemoveFirstMembers<T>(s: seq<T>, x: T)
    ensures forall y :: y in RemoveFirst(s, x) ==> y in s
    ensures forall y :: y in s && y != x ==> y in RemoveFirst(s, x)
  {
    RemoveFirstMultiset(s, x);
    forall y | y in RemoveFirst(s, x) ensures y in s {
      assert y in multiset(RemoveFirst(s, x));
    }
    forall y | y in s && y != x ensures y in RemoveFirst(s, x) {
      assert y in multiset(s);
    }
  }

  /** Decimal digits of `n`, as `'%d' % n` writes them. */
  function Decimal(n: nat): (r: string)
    ensures |r| >= 1
    ensures forall i :: 0 <= i < |r| ==> '0' <= r[i] <= '9'
  {
    var d := ['0' + (n % 10) as char];
    if n < 10 then d else Decimal(n / 10) + d
  }

  /** `RemoveFirst` cuts out exactly the element at the first occurrence. */
  lemma {:induction false} RemoveFirstAt<T>(s: seq<T>, x: T)
    requires x in s
    ensures RemoveFirst(s, x) == s[..IndexOf(s, x)] + s[IndexOf(s, x) + 1..]
  {
    if s[0] != x {
      RemoveFirstAt(s[1..], x);
      var k := IndexOf(s[1..], x);
      assert s[1..][..k] == s[1..k + 1];
      assert s[..k + 1] == [s[0]] + s[1..k + 1];
    }
  }

  /** The sublist of `s` whose elements satisfy `p`, in their original order
      (a Python list comprehension with an `if`). */
  function Filter<T>(s: seq<T>, p: T -> bool): (r: seq<T>)
    ensures |r| <= |s|
    ensures forall i :: 0 <= i < |r| ==> r[i] in s && p(r[i])
    ensures forall i :: 0 <= i < |s| && p(s[i]) ==> s[i] in r
  {
    if s == [] then []
    else
      var last := s[|s| - 1];
      assert s == s[..|s| - 1] + [last];
      Filter(s[..|s| - 1], p) + (if p(last) then [last] else [])
  }

  /** Removing an element that was just appended to a list not holding it
      gives the list back. */
  lemma {:induction false} RemoveAppended<T>(s: seq<T>, x: T)
    requires x !in s
    ensures RemoveFirst(s + [x], x) == s
  {
    var i := IndexOf(s + [x], x);
    assert i == |s| by {
      assert (s + [x])[..|s|] == s;
    }
    RemoveFirstAt(s + [x], x);
    assert (s + [x])[..|s|] == s;
  }

  /** Removing the first occurrence keeps every other element and their
      relative order: the survivors before the removed position stay put and
      the ones after it move one place down. */
  lemma {:induction false} RemoveFirstKeepsOrder<T>(s: seq<T>, x: T, i: nat)
    requires x in s && i < |s| && i != IndexOf(s, x)
    ensures var r := RemoveFirst(s, x);
      (i < IndexOf(s, x) ==> r[i] == s[i]) && (i > IndexOf(s, x) ==> r[i - 1] == s[i])
  {
    RemoveFirstAt(s, x);
  }

  /** Dropping one position from a list without repeats leaves a list without
      repeats, holding every other element. */
  lemma {:induction false} DropAtNoDups<T>(s: seq<T>, k: nat)
    requires NoDups(s) && k < |s|
    ensures NoDups(s[..k] + s[k + 1..])
    ensures s[k] !in s[..k] + s[k + 1..]
  {
    var r := s[..k] + s[k + 1..];
    assert forall j :: 0 <= j < |r| ==> r[j] == s[if j < k then j else j + 1];
  }

  /** Under `NoDups`, `RemoveFirst` keeps the list free of repeats and drops
      the removed element entirely. */
  lemma {:induction false} RemoveFirstNoDups<T>(s: seq<T>, x: T)
    requires NoDups(s)
    ensures NoDups(RemoveFirst(s, x))
    ensures x !in RemoveFirst(s, x)
  {
    if x in s {
      RemoveFirstAt(s, x);
      DropAtNoDups(s, IndexOf(s, x));
    }
  }

  /** Removing an element that sits right after a prefix not holding it. */
  lemma {:induction false} RemoveAfterPrefix<T>(a: seq<T>, x: T, b: seq<T>)
    requires x !in a
    ensures RemoveFirst(a + [x] + b, x) == a + b
  {
    var s := a + [x] + b;
    if a == [] {
      assert s[0] == x && s[1..] == b;
    } else {
      assert s[0] == a[0] && a[0] != x;
      assert s[1..] == a[1..] + [x] + b;
      RemoveAfterPrefix(a[1..], x, b);
      assert RemoveFirst(s, x) == [a[0]] + RemoveFirst(s[1..], x);
      calc {
        a + b;
        ([a[0]] + a[1..]) + b;
        [a[0]] + (a[1..] + b);
      }
    }
  }

  /** Two predicates that agree on every element of `s` select the same sublist. */
  lemma {:induction false} FilterAgree<T>(s: seq<T>, p: T -> bool, q: T -> bool)
    requires forall x :: x in s ==> p(x) == q(x)
    ensures Filter(s, p) == Filter(s, q)
  {
    if s != [] {
      FilterAgree(s[..|s| - 1], p, q);
    }
  }

  /** Filtering twice is filtering once by the conjunction. */
  lemma {:induction false} FilterFilter<T>(s: seq<T>, p: T -> bool, q: T -> bool)
    ensures Filter(Filter(s, p), q) == Filter(s, x => p(x) && q(x))
  {
    if s != [] {
      var init, last := s[..|s| - 1], s[|s| - 1];
      FilterFilter(init, p, q);
      var fp := Filter(init, p);
      if p(last) {
        assert Filter(s, p) == fp + [last];
        assert (fp + [last])[..|fp + [last]| - 1] == fp;
      } else {
        assert Filter(s, p) == fp;
      }
    }
  }

  /** A filtered list of distinct elements has distinct elements. */
  lemma {:induction false} FilterNoDups<T>(s: seq<T>, p: T -> bool)
    requires NoDups(s)
    ensures NoDups(Filter(s, p))
  {
    if s != [] {
      var init, last := s[..|s| - 1], s[|s| - 1];
      assert NoDups(init) by {
        forall i, j | 0 <= i < j < |init| ensures init[i] != init[j] {
          assert init[i] == s[i] && init[j] == s[j];
        }
      }
      FilterNoDups(init, p);
      if p(last) {
        var f := Filter(init, p);
        assert forall i :: 0 <= i < |init| ==> init[i] == s[i] && s[i] != s[|s| - 1];
        assert last !in f;
        var r := f + [last];
        forall i, j | 0 <= i < j < |r| ensures r[i] != r[j] {
          if j == |f| { assert r[i] in f; } else { assert r[i] == f[i] && r[j] == f[j]; }
        }
      }
    }
  }
}
