/**
 Material de-duplication: the build gathers every material of every section's
 preset into one list, appending a material only when the list does not
 already hold it, and then maps each preset slot to its position in that list
 with `List.IndexOf`.
 */
module MaterialSlots {

  predicate NoDuplicates<T(==)>(xs: seq<T>) {
    forall i, j | 0 <= i < j < |xs| :: xs[i] != xs[j]
  }

  /** The elements of `r` come in the order in which they first appear in `xs`. */
  predicate InFirstOccurrenceOrder<T(==)>(r: seq<T>, xs: seq<T>) {
    forall a, b | 0 <= a < b < |r| :: 0 <= IndexOf(xs, r[a]) < IndexOf(xs, r[b])
  }

  /** `List.IndexOf`: the first position holding `x`, or -1 when there is none. */
  function IndexOf<T(==)>(xs: seq<T>, x: T): (r: int)
    ensures -1 <= r < |xs|
    ensures r == -1 <==> x !in xs
    ensures r >= 0 ==> xs[r] == x && x !in xs[..r]
  {
    if |xs| == 0 then -1
    else if xs[0] == x then 0
    else
      var k := IndexOf(xs[1..], x);
      assert k >= 0 ==> xs[..k + 1] == [xs[0]] + xs[1..][..k];
      if k < 0 then -1 else k + 1
  }

  /** The scan `if (!all.Contains(m)) all.Add(m)` applied to each element of `xs`
      in turn, starting from `acc`. */
  function AddMissing<T(==)>(acc: seq<T>, xs: seq<T>): seq<T>
    decreases |xs|
  {
    if |xs| == 0 then acc
    else AddMissing(if xs[0] in acc then acc else acc + [xs[0]], xs[1..])
  }

  /** Reference definition: the elements of `xs` kept exactly where they occur
      for the first time. */
  function FirstOccurrences<T(==)>(xs: seq<T>): seq<T> {
    if |xs| == 0 then []
    else
      var init := xs[..|xs| - 1];
      FirstOccurrences(init) + (if xs[|xs| - 1] in init then [] else [xs[|xs| - 1]])
  }

  lemma {:induction false} IndexOfAppend<T>(a: seq<T>, b: seq<T>, y: T)
    requires y in a
    ensures IndexOf(a + b, y) == IndexOf(a, y)
    decreases |a|
  {
    if a[0] != y {
      assert (a + b)[1..] == a[1..] + b;
      IndexOfAppend(a[1..], b, y);
    }
  }

  lemma {:induction false} IndexOfLast<T>(a: seq<T>, y: T)
    requires y !in a
    ensures IndexOf(a + [y], y) == |a|
    decreases |a|
  {
    if |a| > 0 {
      assert (a + [y])[1..] == a[1..] + [y];
      IndexOfLast(a[1..], y);
    }
  }

  /** Appending one element to the input appends it to the first-occurrence
      list exactly when it is new. */
  lemma FirstOccurrencesSnoc<T>(p: seq<T>, x: T)
    ensures FirstOccurrences(p + [x]) ==
      FirstOccurrences(p) + (if x in p then [] else [x])
  {
    assert (p + [x])[..|p + [x]| - 1] == p;
  }

  /** Appending `x` keeps the first-occurrence list free of duplicates. */
  lemma FirstOccurrencesSnocNoDuplicates<T>(p: seq<T>, x: T)
    requires NoDuplicates(FirstOccurrences(p))
    requires forall k | 0 <= k < |FirstOccurrences(p)| :: FirstOccurrences(p)[k] in p
    ensures NoDuplicates(FirstOccurrences(p + [x]))
  {
    var f := FirstOccurrences(p);
    FirstOccurrencesSnoc(p, x);
    if x !in p {
      var r := f + [x];
      forall a, b | 0 <= a < b < |r| ensures r[a] != r[b] {
        assert r[a] == f[a] && f[a] in p;
        if b < |f| {
          assert r[b] == f[b];
        }
      }
    }
  }

  /** Appending `x` keeps every listed element an element of the input. */
  lemma FirstOccurrencesSnocFrom<T>(p: seq<T>, x: T)
    requires forall k | 0 <= k < |FirstOccurrences(p)| :: FirstOccurrences(p)[k] in p
    ensures forall k | 0 <= k < |FirstOccurrences(p + [x])| :: FirstOccurrences(p + [x])[k] in p + [x]
  {
    var f := FirstOccurrences(p);
    var r := FirstOccurrences(p + [x]);
    FirstOccurrencesSnoc(p, x);
    forall k | 0 <= k < |r| ensures r[k] in p + [x] {
      if k < |f| {
        assert r[k] == f[k] && f[k] in p;
      } else {
        assert r[k] == x;
      }
    }
  }

  /** Appending `x` keeps every input element listed. */
  lemma FirstOccurrencesSnocCovers<T>(p: seq<T>, x: T)
    requires forall k | 0 <= k < |p| :: p[k] in FirstOccurrences(p)
    ensures forall k | 0 <= k < |p + [x]| :: (p + [x])[k] in FirstOccurrences(p + [x])
  {
    var f := FirstOccurrences(p);
    var r := FirstOccurrences(p + [x]);
    FirstOccurrencesSnoc(p, x);
    forall k | 0 <= k < |p + [x]| ensures (p + [x])[k] in r {
      if k < |p| {
        assert (p + [x])[k] == p[k] && p[k] in f;
      } else if x in p {
        var i :| 0 <= i < |p| && p[i] == x;
        assert p[i] in f;
      }
    }
  }

  /** Appending `x` keeps the list in first-appearance order. */
  lemma FirstOccurrencesSnocOrder<T>(p: seq<T>, x: T)
    requires forall k | 0 <= k < |FirstOccurrences(p)| :: FirstOccurrences(p)[k] in p
    requires InFirstOccurrenceOrder(FirstOccurrences(p), p)
    ensures InFirstOccurrenceOrder(FirstOccurrences(p + [x]), p + [x])
  {
    var xs := p + [x];
    var f := FirstOccurrences(p);
    var r := FirstOccurrences(xs);
    FirstOccurrencesSnoc(p, x);
    forall y | y in p ensures IndexOf(xs, y) == IndexOf(p, y) {
      IndexOfAppend(p, [x], y);
    }
    if x !in p {
      assert r == f + [x];
      IndexOfLast(p, x);
      forall a, b | 0 <= a < b < |r|
        ensures 0 <= IndexOf(xs, r[a]) < IndexOf(xs, r[b])
      {
        assert r[a] == f[a];
        assert f[a] in p;
        if b < |f| {
          assert r[b] == f[b] && f[b] in f && f[b] in p;
        } else {
          assert r[b] == x;
        }
      }
    } else {
      assert r == f;
      forall a, b | 0 <= a < b < |r|
        ensures 0 <= IndexOf(xs, r[a]) < IndexOf(xs, r[b])
      {
        assert r[a] in f && r[a] in p;
        assert r[b] in f && r[b] in p;
      }
    }
  }

  /** The first-occurrence list holds each element of `xs` exactly once, and in
      the order of the elements' first appearance in `xs`. */
  lemma {:induction false} FirstOccurrencesFacts<T>(xs: seq<T>)
    ensures NoDuplicates(FirstOccurrences(xs))
    ensures forall k | 0 <= k < |FirstOccurrences(xs)| :: FirstOccurrences(xs)[k] in xs
    ensures forall k | 0 <= k < |xs| :: xs[k] in FirstOccurrences(xs)
    ensures InFirstOccurrenceOrder(FirstOccurrences(xs), xs)
    decreases |xs|
  {
    if |xs| > 0 {
      var init := xs[..|xs| - 1];
      assert xs == init + [xs[|xs| - 1]];
      var x := xs[|xs| - 1];
      FirstOccurrencesFacts(init);
      FirstOccurrencesSnocNoDuplicates(init, x);
      FirstOccurrencesSnocFrom(init, x);
      FirstOccurrencesSnocCovers(init, x);
      FirstOccurrencesSnocOrder(init, x);
    }
  }

  lemma FirstOccurrencesMember<T>(p: seq<T>, x: T)
    ensures x in FirstOccurrences(p) <==> x in p
  {
    FirstOccurrencesFacts(p);
  }

  /** One step of the scan extends the first-occurrence list by one element. */
  lemma AddMissingStep<T>(p: seq<T>, x: T)
    ensures (if x in FirstOccurrences(p) then FirstOccurrences(p) else FirstOccurrences(p) + [x])
      == FirstOccurrences(p + [x])
  {
    FirstOccurrencesMember(p, x);
    FirstOccurrencesSnoc(p, x);
  }

  /** The scan the build performs computes the first-occurrence list. */
  lemma {:induction false} AddMissingIsFirstOccurrences<T>(p: seq<T>, s: seq<T>)
    ensures AddMissing(FirstOccurrences(p), s) == FirstOccurrences(p + s)
    decreases |s|
  {
    if |s| == 0 {
      assert p + s == p;
    } else {
      var x, rest := s[0], s[1..];
      var q := p + [x];
      assert q + rest == p + s;
      var acc := FirstOccurrences(p);
      var next := if x in acc then acc else acc + [x];
      AddMissingStep(p, x);
      assert next == FirstOccurrences(q);
      assert AddMissing(acc, s) == AddMissing(next, rest);
      AddMissingIsFirstOccurrences(q, rest);
    }
  }

  /** Collecting materials from scratch: duplicate-free, exactly the materials
      that occur, in first-occurrence order. */
  function Distinct<T(==)>(xs: seq<T>): (r: seq<T>)
    ensures NoDuplicates(r)
    ensures forall k | 0 <= k < |xs| :: xs[k] in r
    ensures forall k | 0 <= k < |r| :: r[k] in xs
    ensures InFirstOccurrenceOrder(r, xs)
  {
    AddMissingIsFirstOccurrences([], xs);
    assert [] + xs == xs;
    FirstOccurrencesFacts(xs);
    var r := AddMissing([], xs);
    assert r == FirstOccurrences(xs);
    r
  }

  /** A slot id found by `IndexOf` in a list that holds the material is a valid
      submesh index naming that material. */
  lemma SlotIdInRange<T>(all: seq<T>, m: T)
    requires m in all
    ensures 0 <= IndexOf(all, m) < |all| && all[IndexOf(all, m)] == m
  {
  }

  /** In a duplicate-free list, `IndexOf` finds the unique position of an element. */
  lemma IndexOfNoDuplicates<T>(all: seq<T>, k: int)
    requires NoDuplicates(all) && 0 <= k < |all|
    ensures IndexOf(all, all[k]) == k
  {
    var r := IndexOf(all, all[k]);
    assert all[r] == all[k];
  }
}
