/** Values shared by every part of the model: optional values, the Python
    exception classes the core raises, Python list indexing, and the
    order-preserving list filter that `filter_by_age`, `filter_by_gender` and
    `find_similar_faces` are built from. */
module Common {

  datatype Option<+T> = None | Some(value: T)

  /** The exception classes the modelled code can raise. `get_many_faces`
      turns the first two into an empty face list; the others propagate. */
  datatype ErrorKind =
    | AttributeError
    | ValueError
    | IndexError
    | KeyError
    | TypeError
    | ZeroDivisionError
    | UnboundLocalError

  /** A value, or the exception that was raised instead of returning one. */
  datatype Result<+T> = Ok(value: T) | Err(error: ErrorKind) {
    predicate IsFailure() { Err? }

    function PropagateFailure<U>(): Result<U>
      requires Err?
    {
      Err(error)
    }

    function Extract(): T
      requires Ok?
    {
      value
    }
  }

  /** The errors `get_many_faces` catches (`except (AttributeError, ValueError)`). */
  predicate CaughtBySelection(e: ErrorKind) {
    e == AttributeError || e == ValueError
  }

  /** Python's `xs[i]` on a list of length `n`: a negative index counts from
      the end, and an index outside `-n .. n-1` raises IndexError (None). */
  function PyIndex(n: nat, i: int): (r: Option<nat>)
    ensures r.Some? <==> 0 <= i + n && i < n
    ensures r.Some? ==> r.value < n
    ensures r.Some? ==> r.value % n == i % n
  {
    if 0 <= i < n then Some(i) else if 0 <= i + n && i < 0 then Some(n + i) else None
  }

  /** The elements of `s` that satisfy `keep`, in their original order: what a
      loop that appends each kept element to an empty list produces. */
  function Filter<T>(s: seq<T>, keep: T -> bool): seq<T>
  {
    if s == [] then [] else Filter(s[..|s| - 1], keep) + (if keep(s[|s| - 1]) then [s[|s| - 1]] else [])
  }

  /** Filtering distributes over concatenation, so the filter keeps the
      relative order of the elements it retains. */
  lemma {:induction false} FilterConcat<T>(a: seq<T>, b: seq<T>, keep: T -> bool)
    ensures Filter(a + b, keep) == Filter(a, keep) + Filter(b, keep)
  {
    if b == [] {
      assert a + b == a;
    } else {
      var c := b[..|b| - 1];
      assert (a + b)[..|a + b| - 1] == a + c;
      assert (a + b)[|a + b| - 1] == b[|b| - 1];
      FilterConcat(a, c, keep);
    }
  }

  /** Filtering a one-element list. */
  lemma FilterSingleton<T>(x: T, keep: T -> bool)
    ensures Filter([x], keep) == if keep(x) then [x] else []
  {
    assert [x][..0] == [];
  }

  /** Each element occurs in the filtered list exactly as often as in the input
      when it is kept, and not at all otherwise. */
  lemma {:induction false} FilterCount<T>(s: seq<T>, keep: T -> bool, x: T)
    ensures multiset(Filter(s, keep))[x] == if keep(x) then multiset(s)[x] else 0
  {
    if s != [] {
      var t := s[..|s| - 1];
      assert s == t + [s[|s| - 1]];
      FilterCount(t, keep, x);
    }
  }

  /** Membership in the filtered list is membership in the input plus the test. */
  lemma FilterMembership<T>(s: seq<T>, keep: T -> bool, x: T)
    ensures x in Filter(s, keep) <==> x in s && keep(x)
  {
    FilterCount(s, keep, x);
    assert x in Filter(s, keep) <==> multiset(Filter(s, keep))[x] > 0;
    assert x in s <==> multiset(s)[x] > 0;
  }

  /** The filtered list is a sub-multiset of the input. */
  lemma FilterSubMultiset<T>(s: seq<T>, keep: T -> bool)
    ensures multiset(Filter(s, keep)) <= multiset(s)
  {
    forall x ensures multiset(Filter(s, keep))[x] <= multiset(s)[x] {
      FilterCount(s, keep, x);
    }
  }

  /** A filter whose test holds of nothing in the list returns the empty list. */
  lemma {:induction false} FilterNone<T>(s: seq<T>, keep: T -> bool)
    requires forall i :: 0 <= i < |s| ==> !keep(s[i])
    ensures Filter(s, keep) == []
  {
    if s != [] {
      FilterNone(s[..|s| - 1], keep);
    }
  }

  /** Filtering the extension of a prefix by one element: the step a loop over
      the input takes. */
  lemma FilterStep<T>(s: seq<T>, i: nat, keep: T -> bool)
    requires i < |s|
    ensures Filter(s[..i + 1], keep) == Filter(s[..i], keep) + if keep(s[i]) then [s[i]] else []
  {
    assert s[..i + 1][..i] == s[..i];
  }

  /** A weaker test keeps at least as many copies of every element. */
  lemma FilterMonotone<T>(s: seq<T>, p: T -> bool, q: T -> bool)
    requires forall x :: p(x) ==> q(x)
    ensures multiset(Filter(s, p)) <= multiset(Filter(s, q))
  {
    forall x ensures multiset(Filter(s, p))[x] <= multiset(Filter(s, q))[x] {
      FilterCount(s, p, x);
      FilterCount(s, q, x);
    }
  }
}
