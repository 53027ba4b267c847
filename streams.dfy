/** Shared vocabulary for the view models: nullable values, the outcome of a
    remote call, the `distinctUntilChanged` operator over an emission history, and
    Kotlin's `filter`. */
module Streams {

  /** A Kotlin/Java nullable value. */
  datatype Option<+T> = None | Some(value: T) {
    /** `this ?: default` */
    function GetOr(default: T): T {
      match this
      case Some(v) => v
      case None => default
    }
  }

  /** The two messages a JVM throwable can carry; both may be null. */
  datatype Throwable = Throwable(message: Option<string>, localizedMessage: Option<string>)

  /** A materialized remote call: it either delivered one value or failed. */
  datatype Remote<+T> = Done(value: T) | Failed(cause: Throwable)

  /** No value of the history equals the one emitted just before it. */
  ghost predicate NoConsecutiveRepeats<T>(s: seq<T>) {
    forall i :: 0 < i < |s| ==> s[i - 1] != s[i]
  }

  /** One step of `distinctUntilChanged`: a downstream that has already seen `out`
      receives `x` unless `x` equals the value it received last. */
  function AppendDistinct<T(==)>(out: seq<T>, x: T): (r: seq<T>)
    ensures r == out || r == out + [x]
    ensures r != [] && r[|r| - 1] == x
    ensures r == out <==> (out != [] && out[|out| - 1] == x)
    ensures NoConsecutiveRepeats(out) ==> NoConsecutiveRepeats(r)
  {
    if out != [] && out[|out| - 1] == x then out else out + [x]
  }

  /** `distinctUntilChanged` applied to a whole upstream history. */
  function DistinctUntilChanged<T(==)>(s: seq<T>): (r: seq<T>)
    ensures NoConsecutiveRepeats(r)
    ensures |r| <= |s|
    ensures s == [] <==> r == []
    ensures s != [] ==> r[|r| - 1] == s[|s| - 1]
    ensures forall x :: x in r ==> x in s
  {
    if s == [] then []
    else AppendDistinct(DistinctUntilChanged(s[..|s| - 1]), s[|s| - 1])
  }

  /** A history without consecutive repeats passes `distinctUntilChanged` unchanged. */
  lemma {:induction false} DistinctUntilChangedKeepsDistinct<T>(s: seq<T>)
    requires NoConsecutiveRepeats(s)
    ensures DistinctUntilChanged(s) == s
  {
    if s != [] {
      var init := s[..|s| - 1];
      assert NoConsecutiveRepeats(init) by {
        forall i | 0 < i < |init| ensures init[i - 1] != init[i] {
          assert init[i - 1] == s[i - 1] && init[i] == s[i];
        }
      }
      DistinctUntilChangedKeepsDistinct(init);
      assert init + [s[|s| - 1]] == s;
    }
  }

  /** Applying the operator twice is the same as applying it once. */
  lemma DistinctUntilChangedIdempotent<T>(s: seq<T>)
    ensures DistinctUntilChanged(DistinctUntilChanged(s)) == DistinctUntilChanged(s)
  {
    DistinctUntilChangedKeepsDistinct(DistinctUntilChanged(s));
  }

  /** Fold `AppendDistinct` over several emissions. */
  function AppendAllDistinct<T(==)>(out: seq<T>, xs: seq<T>): (r: seq<T>)
    ensures NoConsecutiveRepeats(out) ==> NoConsecutiveRepeats(r)
    ensures xs == [] ==> r == out
    ensures xs != [] ==> r != [] && r[|r| - 1] == xs[|xs| - 1]
    ensures |r| <= |out| + |xs|
    ensures forall x :: x in r ==> x in out || x in xs
    ensures |out| <= |r| && r[..|out|] == out
    decreases |xs|
  {
    if xs == [] then out else AppendAllDistinct(AppendDistinct(out, xs[0]), xs[1..])
  }

  /** Feeding two stretches of values in turn is feeding their concatenation. */
  lemma {:induction false} AppendAllDistinctAppend<T>(out: seq<T>, a: seq<T>, b: seq<T>)
    ensures AppendAllDistinct(out, a + b) == AppendAllDistinct(AppendAllDistinct(out, a), b)
    decreases |a|
  {
    if a == [] {
      assert a + b == b;
    } else {
      assert (a + b)[0] == a[0] && (a + b)[1..] == a[1..] + b;
      AppendAllDistinctAppend(AppendDistinct(out, a[0]), a[1..], b);
    }
  }

  /** `distinctUntilChanged` on a history extended by one value. */
  lemma DistinctUntilChangedSnoc<T>(s: seq<T>, x: T)
    ensures DistinctUntilChanged(s + [x]) == AppendDistinct(DistinctUntilChanged(s), x)
  {
    assert (s + [x])[..|s|] == s;
  }

  /** The last output of `distinctUntilChanged` is the last input. */
  lemma DistinctUntilChangedLast<T>(s: seq<T>)
    requires s != []
    ensures DistinctUntilChanged(s) != [] && DistinctUntilChanged(s)[|DistinctUntilChanged(s)| - 1] == s[|s| - 1]
  {
  }

  /** `distinctUntilChanged` always lets the first value through. */
  lemma {:induction false} FirstOfDistinct<T>(s: seq<T>)
    requires s != []
    ensures DistinctUntilChanged(s) != [] && DistinctUntilChanged(s)[0] == s[0]
    decreases |s|
  {
    if |s| > 1 {
      var init := s[..|s| - 1];
      FirstOfDistinct(init);
      assert init[0] == s[0];
    }
  }

  /** Kotlin's `filter`. */
  function Filter<T(!new)>(p: T -> bool, rs: seq<T>): (r: seq<T>)
    ensures |r| <= |rs|
    ensures forall x :: x in r <==> x in rs && p(x)
  {
    if rs == [] then [] else (if p(rs[0]) then [rs[0]] else []) + Filter(p, rs[1..])
  }

  /** `filter` distributes over concatenation: the elements of each part that pass
      are kept in their order and with their multiplicity. */
  lemma {:induction false} FilterAppend<T(!new)>(p: T -> bool, a: seq<T>, b: seq<T>)
    ensures Filter(p, a + b) == Filter(p, a) + Filter(p, b)
    decreases |a|
  {
    if a != [] {
      assert (a + b)[0] == a[0] && (a + b)[1..] == a[1..] + b;
      FilterAppend(p, a[1..], b);
    } else {
      assert a + b == b;
    }
  }

  /** Filtering one more element appends it exactly when it passes: together with
      `Filter(p, []) == []` this determines the filter, order and repeats included. */
  lemma FilterSnoc<T(!new)>(p: T -> bool, rs: seq<T>, x: T)
    ensures Filter(p, rs + [x]) == Filter(p, rs) + (if p(x) then [x] else [])
  {
    FilterAppend(p, rs, [x]);
    assert [x][1..] == [];
  }

  /** The head of a filtered list is the first element that passes the filter. */
  lemma {:induction false} FilterHead<T(!new)>(p: T -> bool, rs: seq<T>, i: nat)
    requires i < |rs| && p(rs[i])
    requires forall j :: 0 <= j < i ==> !p(rs[j])
    ensures Filter(p, rs) != [] && Filter(p, rs)[0] == rs[i]
    decreases i
  {
    if i > 0 {
      FilterHead(p, rs[1..], i - 1);
    }
  }

  /** Nothing passes a filter that rejects every element. */
  lemma {:induction false} FilterNone<T(!new)>(p: T -> bool, rs: seq<T>)
    requires forall j :: 0 <= j < |rs| ==> !p(rs[j])
    ensures Filter(p, rs) == []
  {
    if rs != [] {
      FilterNone(p, rs[1..]);
    }
  }

  /** Two filters that agree on every element give the same list. */
  lemma {:induction false} FilterAgrees<T(!new)>(p: T -> bool, q: T -> bool, rs: seq<T>)
    requires forall i :: 0 <= i < |rs| ==> p(rs[i]) == q(rs[i])
    ensures Filter(p, rs) == Filter(q, rs)
  {
    if rs != [] {
      FilterAgrees(p, q, rs[1..]);
    }
  }
}
