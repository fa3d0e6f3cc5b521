/** Order-preserving operations on sequences: selection, used for the
    filter of zero-length segments and for the routing of segments to
    layers, and a map that stops at the first failure, used to resolve the
    segment template entry by entry. */
module Seqs {
  import opened Outcomes

  /** The elements of `s` that satisfy `p`, in the order they have in `s`. */
  function Filter<T>(p: T -> bool, s: seq<T>): (r: seq<T>)
    ensures |r| <= |s|
    decreases |s|
  {
    if s == [] then []
    else if p(s[|s| - 1]) then Filter(p, s[..|s| - 1]) + [s[|s| - 1]]
    else Filter(p, s[..|s| - 1])
  }

  /** The selected elements are exactly the elements of `s` satisfying `p`. */
  lemma {:induction false} FilterMembers<T>(p: T -> bool, s: seq<T>)
    ensures forall x :: x in Filter(p, s) <==> x in s && p(x)
    decreases |s|
  {
    if s != [] {
      var s' := s[..|s| - 1];
      FilterMembers(p, s');
      assert s == s' + [s[|s| - 1]];
    }
  }

  /** Filtering a sequence extended by one element. */
  lemma FilterSnoc<T>(p: T -> bool, s: seq<T>, x: T)
    ensures Filter(p, s + [x]) == if p(x) then Filter(p, s) + [x] else Filter(p, s)
  {
    assert (s + [x])[..|s|] == s;
  }

  /** Filtering commutes with concatenation, so the relative order of the
      kept elements is the order of the input. */
  lemma {:induction false} FilterConcat<T>(p: T -> bool, a: seq<T>, b: seq<T>)
    ensures Filter(p, a + b) == Filter(p, a) + Filter(p, b)
    decreases |b|
  {
    if b == [] {
      assert a + b == a;
    } else {
      var b' := b[..|b| - 1];
      assert (a + b)[..|a + b| - 1] == a + b';
      assert (a + b)[|a + b| - 1] == b[|b| - 1];
      FilterConcat(p, a, b');
    }
  }

  /** Splitting a sequence by a predicate and its negation loses nothing and
      duplicates nothing. */
  lemma {:induction false} FilterPartition<T>(p: T -> bool, q: T -> bool, s: seq<T>)
    requires forall x :: q(x) == !p(x)
    ensures |Filter(p, s)| + |Filter(q, s)| == |s|
    ensures multiset(Filter(p, s)) + multiset(Filter(q, s)) == multiset(s)
    decreases |s|
  {
    if s != [] {
      var s' := s[..|s| - 1];
      FilterPartition(p, q, s');
      assert s == s' + [s[|s| - 1]];
    }
  }

  /** `f` applied to each element in order; the first failure stops the
      walk and is the result. */
  function Traverse<A, B, E>(f: A -> Result<B, E>, s: seq<A>): (r: Result<seq<B>, E>)
    ensures r.Ok? ==> |r.value| == |s|
    decreases |s|
  {
    if s == [] then Ok([])
    else
      var init :- Traverse(f, s[..|s| - 1]);
      var last :- f(s[|s| - 1]);
      Ok(init + [last])
  }

  /** Traversing a sequence extended by one element. */
  lemma TraverseSnoc<A, B, E>(f: A -> Result<B, E>, s: seq<A>, x: A)
    ensures Traverse(f, s).Err? ==> Traverse(f, s + [x]) == Traverse(f, s)
    ensures Traverse(f, s).Ok? && f(x).Err? ==> Traverse(f, s + [x]) == Err(f(x).error)
    ensures Traverse(f, s).Ok? && f(x).Ok? ==>
      Traverse(f, s + [x]) == Ok(Traverse(f, s).value + [f(x).value])
  {
    assert (s + [x])[..|s|] == s;
  }

  /** The i-th result is `f` of the i-th element; a failure is the failure
      of the first element that fails, every element before it succeeding. */
  lemma {:induction false} TraverseEntrywise<A, B, E>(f: A -> Result<B, E>, s: seq<A>)
    ensures Traverse(f, s).Ok? ==> forall i :: 0 <= i < |s| ==> f(s[i]) == Ok(Traverse(f, s).value[i])
    ensures Traverse(f, s).Err? ==>
      exists i :: 0 <= i < |s| && f(s[i]) == Err(Traverse(f, s).error) &&
                  forall j :: 0 <= j < i ==> f(s[j]).Ok?
    decreases |s|
  {
    if s != [] {
      var s' := s[..|s| - 1];
      TraverseEntrywise(f, s');
      assert forall j :: 0 <= j < |s'| ==> s'[j] == s[j];
      if Traverse(f, s').Ok? && f(s[|s| - 1]).Err? {
        assert f(s[|s| - 1]) == Err(Traverse(f, s).error);
      }
    }
  }

  /** Once a prefix fails, the whole sequence fails the same way. */
  lemma {:induction false} TraverseErrorPersists<A, B, E>(f: A -> Result<B, E>, s: seq<A>, i: nat)
    requires i <= |s| && Traverse(f, s[..i]).Err?
    ensures Traverse(f, s) == Traverse(f, s[..i])
    decreases |s| - i
  {
    if i < |s| {
      assert s[..i + 1] == s[..i] + [s[i]];
      TraverseSnoc(f, s[..i], s[i]);
      TraverseErrorPersists(f, s, i + 1);
    } else {
      assert s[..i] == s;
    }
  }

  /** When every element succeeds, so does the traversal. */
  lemma {:induction false} TraverseSucceeds<A, B, E>(f: A -> Result<B, E>, s: seq<A>)
    requires forall i :: 0 <= i < |s| ==> f(s[i]).Ok?
    ensures Traverse(f, s).Ok?
    decreases |s|
  {
    if s != [] {
      var s' := s[..|s| - 1];
      assert forall j :: 0 <= j < |s'| ==> s'[j] == s[j];
      TraverseSucceeds(f, s');
    }
  }

  /** Traversing a concatenation traverses each part on its own. */
  lemma TraverseConcat<A, B, E>(f: A -> Result<B, E>, a: seq<A>, b: seq<A>)
    requires Traverse(f, a).Ok? && Traverse(f, b).Ok?
    ensures Traverse(f, a + b) == Ok(Traverse(f, a).value + Traverse(f, b).value)
  {
    var A, B := Traverse(f, a).value, Traverse(f, b).value;
    TraverseEntrywise(f, a);
    TraverseEntrywise(f, b);
    assert forall i :: 0 <= i < |a + b| ==> f((a + b)[i]) == Ok((A + B)[i]) by {
      forall i | 0 <= i < |a + b|
        ensures f((a + b)[i]) == Ok((A + B)[i])
      {
        if i < |a| {
          assert (a + b)[i] == a[i];
        } else {
          assert (a + b)[i] == b[i - |a|];
        }
      }
    }
    TraverseSucceeds(f, a + b);
    TraverseEntrywise(f, a + b);
    assert Traverse(f, a + b).value == A + B;
  }
}
