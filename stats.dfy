/**
  Conversion statistics: the per-file tuple (original size, converted size,
  files converted), its field-wise sum, and the mutable stats dictionary
  the Python scripts update in place.
 */
module Stats {
  import opened Wrappers

  /** `(original_size, converted_size, files_converted)` or a running total of such tuples. */
  datatype Tally = Tally(original: int, converted: int, count: int)

  const Zero := Tally(0, 0, 0)

  /** Field-wise addition: each field of `b` is added to its own field of `a`. */
  function Add(a: Tally, b: Tally): Tally
  {
    Tally(a.original + b.original, a.converted + b.converted, a.count + b.count)
  }

  lemma AddAssociative(a: Tally, b: Tally, c: Tally)
    ensures Add(Add(a, b), c) == Add(a, Add(b, c))
  {
  }

  /** The totals a left-to-right loop reaches after adding every tuple of `ts` to `Zero`. */
  function Sum(ts: seq<Tally>): Tally
  {
    if ts == [] then Zero else Add(Sum(ts[..|ts| - 1]), ts[|ts| - 1])
  }

  /** Summing a concatenation is adding the sums of its parts. */
  lemma {:induction false} SumAppend(a: seq<Tally>, b: seq<Tally>)
    ensures Sum(a + b) == Add(Sum(a), Sum(b))
    decreases |b|
  {
    if b == [] {
      assert a + b == a;
    } else {
      var last := b[|b| - 1];
      assert (a + b)[..|a + b| - 1] == a + b[..|b| - 1];
      SumAppend(a, b[..|b| - 1]);
    }
  }

  /**
    The totals do not depend on the order in which the tuples arrive: any
    rearrangement of the same tuples sums to the same totals.
   */
  lemma {:induction false} SumPermutation(a: seq<Tally>, b: seq<Tally>)
    requires multiset(a) == multiset(b)
    ensures Sum(a) == Sum(b)
    decreases |a|
  {
    if a == [] {
      assert |b| == |multiset(b)| == 0;
    } else {
      var x := a[|a| - 1];
      var rest := a[..|a| - 1];
      MultisetRemove(a, |a| - 1);
      assert a[..|a| - 1] + a[|a|..] == rest;
      assert x in multiset(b);
      var j :| 0 <= j < |b| && b[j] == x;
      var others := b[..j] + b[j + 1..];
      MultisetRemove(b, j);
      SumPermutation(rest, others);
      SumRemove(b, j);
    }
  }

  /** A sequence is what comes before position `j`, the element there, and what follows. */
  lemma SplitAt<T>(b: seq<T>, j: nat)
    requires j < |b|
    ensures b == b[..j] + [b[j]] + b[j + 1..]
  {
  }

  /** Removing the element at `j` removes one occurrence of it from the multiset. */
  lemma MultisetRemove<T>(b: seq<T>, j: nat)
    requires j < |b|
    ensures multiset(b[..j] + b[j + 1..]) == multiset(b) - multiset{b[j]}
  {
    assert b == b[..j] + [b[j]] + b[j + 1..];
  }

  /** The sum of a sequence is the sum without its `j`-th tuple plus that tuple. */
  lemma SumRemove(b: seq<Tally>, j: nat)
    requires j < |b|
    ensures Sum(b) == Add(Sum(b[..j] + b[j + 1..]), b[j])
  {
    var front, x, back := b[..j], b[j], b[j + 1..];
    SplitAt(b, j);
    SumAppend(front + [x], back);
    SumAppend(front, [x]);
    SumSingle(x);
    SumAppend(front, back);
  }

  lemma SumSingle(x: Tally)
    ensures Sum([x]) == x
  {
    assert [x][..0] == [];
  }

  /** A tuple with no successful conversion adds nothing to any total. */
  lemma {:induction false} SumOfZeros(ts: seq<Tally>)
    requires forall i :: 0 <= i < |ts| ==> ts[i] == Zero
    ensures Sum(ts) == Zero
  {
    if ts != [] {
      var init := ts[..|ts| - 1];
      assert forall i :: 0 <= i < |init| ==> init[i] == ts[i];
      SumOfZeros(init);
      assert ts[|ts| - 1] == Zero;
    }
  }

  /** A well-formed per-file tuple: (0,0,0) for a failure, (orig, conv, 1) for a success. */
  predicate IsFileTally(t: Tally)
  {
    t.original >= 0 && t.converted >= 0 && (t.count == 1 || t == Zero)
  }

  /** The success count of a sum of per-file tuples counts the successful files, so it never exceeds the number of files. */
  lemma {:induction false} SumCountBounded(ts: seq<Tally>)
    requires forall i :: 0 <= i < |ts| ==> IsFileTally(ts[i])
    ensures 0 <= Sum(ts).count <= |ts|
    ensures Sum(ts).original >= 0 && Sum(ts).converted >= 0
  {
    if ts != [] {
      PrefixFileTallies(ts, ts[..|ts| - 1]);
      SumCountBounded(ts[..|ts| - 1]);
    }
  }

  /** Every file counted: the count reaches the number of files exactly when every tuple is a success. */
  lemma {:induction false} SumCountAll(ts: seq<Tally>)
    requires forall i :: 0 <= i < |ts| ==> IsFileTally(ts[i])
    ensures Sum(ts).count == |ts| <==> forall i :: 0 <= i < |ts| ==> ts[i].count == 1
  {
    if ts != [] {
      var init := ts[..|ts| - 1];
      PrefixFileTallies(ts, init);
      SumCountBounded(init);
      SumCountAll(init);
      assert forall i :: 0 <= i < |init| ==> init[i] == ts[i];
    }
  }

  /** No file counted: then the sizes add up to zero too. */
  lemma {:induction false} SumCountZero(ts: seq<Tally>)
    requires forall i :: 0 <= i < |ts| ==> IsFileTally(ts[i])
    requires Sum(ts).count == 0
    ensures Sum(ts) == Zero
  {
    if ts != [] {
      var init := ts[..|ts| - 1];
      PrefixFileTallies(ts, init);
      SumCountBounded(init);
      SumCountZero(init);
    }
  }

  lemma PrefixFileTallies(ts: seq<Tally>, init: seq<Tally>)
    requires ts != [] && init == ts[..|ts| - 1] && forall i :: 0 <= i < |ts| ==> IsFileTally(ts[i])
    ensures forall i :: 0 <= i < |init| ==> IsFileTally(init[i])
    ensures IsFileTally(ts[|ts| - 1])
  {
  }

  /**
    The stats dictionary `{'total_original_size', 'total_converted_size',
    'conversion_count', 'total_time'}`, updated in place. A missing
    `total_time` key is `None`.
   */
  class ConversionStats {
    var totalOriginalSize: int
    var totalConvertedSize: int
    var conversionCount: int
    var totalTime: Option<real>

    /** A dictionary whose three counters start at zero. */
    constructor (initialTime: Option<real>)
      ensures Totals() == Zero && totalTime == initialTime
    {
      totalOriginalSize, totalConvertedSize, conversionCount := 0, 0, 0;
      totalTime := initialTime;
    }

    /** The three counters as one tuple. */
    function Totals(): Tally
      reads this
    {
      Tally(totalOriginalSize, totalConvertedSize, conversionCount)
    }
  }
}
