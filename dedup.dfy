/** Duplicate-free accumulation: `if (_.contains(files, m) === false)
    files.push(m)` over a stream of matches, keeping first-seen order. */
module Dedup {

  predicate NoDuplicates<T(==)>(s: seq<T>)
  {
    forall i, j :: 0 <= i < j < |s| ==> s[i] != s[j]
  }

  /** The list after pushing each element of `s` that is not yet present. */
  function Accumulate<T(==)>(s: seq<T>): seq<T>
  {
    if s == [] then []
    else
      var d := Accumulate(s[..|s| - 1]);
      if s[|s| - 1] in d then d else d + [s[|s| - 1]]
  }

  /** One more match: pushed only when absent. */
  lemma AccumulateSnoc<T>(s: seq<T>, x: T)
    ensures Accumulate(s + [x]) == if x in Accumulate(s) then Accumulate(s) else Accumulate(s) + [x]
  {
    assert (s + [x])[..|s|] == s;
  }

  /** The accumulated list holds every match once and nothing else. */
  lemma {:induction false} AccumulateElements<T>(s: seq<T>)
    ensures NoDuplicates(Accumulate(s))
    ensures forall x :: x in Accumulate(s) <==> x in s
  {
    if s != [] {
      var init := s[..|s| - 1];
      AccumulateElements(init);
      assert s == init + [s[|s| - 1]];
    }
  }

  lemma AccumulateMember<T>(s: seq<T>, x: T)
    requires x in Accumulate(s)
    ensures x in s
  {
    AccumulateElements(s);
  }

  /** Index of the first occurrence of `x` in `s`. */
  function FirstIndex<T(==)>(s: seq<T>, x: T): (k: nat)
    requires x in s
    ensures k < |s| && s[k] == x && x !in s[..k]
  {
    if s[0] == x then 0
    else
      var k := 1 + FirstIndex(s[1..], x);
      assert s[..k] == [s[0]] + s[1..][..k - 1];
      k
  }

  /** The first occurrence is the one with no earlier copy. */
  lemma FirstIndexUnique<T>(s: seq<T>, x: T, k: nat)
    requires k < |s| && s[k] == x && x !in s[..k]
    ensures FirstIndex(s, x) == k
  {
    var k' := FirstIndex(s, x);
    assert forall i :: 0 <= i < k ==> s[i] == s[..k][i];
    assert forall i :: 0 <= i < k' ==> s[i] == s[..k'][i];
  }

  lemma FirstIndexPrefix<T>(s: seq<T>, x: T, y: T)
    requires x in s
    ensures FirstIndex(s + [y], x) == FirstIndex(s, x)
  {
    var k := FirstIndex(s, x);
    var t := s + [y];
    assert t[k] == x && t[..k] == s[..k];
    FirstIndexUnique(t, x, k);
  }

  /** The elements of `d` appear in the order of their first occurrence in
      `s`. */
  ghost predicate FirstSeenOrder<T>(s: seq<T>, d: seq<T>)
  {
    forall i, j :: 0 <= i < j < |d| ==> d[i] in s && d[j] in s && FirstIndex(s, d[i]) < FirstIndex(s, d[j])
  }

  /** First-seen order: an element comes before another in the list exactly
      when it was first matched before it. */
  lemma {:induction false} AccumulateOrder<T>(s: seq<T>)
    ensures FirstSeenOrder(s, Accumulate(s))
  {
    if s != [] {
      var init := s[..|s| - 1];
      var x := s[|s| - 1];
      assert s == init + [x];
      AccumulateOrder(init);
      AccumulateElements(init);
      var d := Accumulate(init);
      AccumulateSnoc(init, x);
      var r := Accumulate(s);
      forall i, j | 0 <= i < j < |r|
        ensures r[i] in s && r[j] in s && FirstIndex(s, r[i]) < FirstIndex(s, r[j])
      {
        var a, b := r[i], r[j];
        assert a == d[i];
        AccumulateMember(init, a);
        FirstIndexPrefix(init, a, x);
        assert FirstIndex(s, a) == FirstIndex(init, a) < |init|;
        if j < |d| {
          assert b == d[j];
          AccumulateMember(init, b);
          FirstIndexPrefix(init, b, x);
          assert FirstIndex(s, b) == FirstIndex(init, b);
          assert FirstIndex(init, a) < FirstIndex(init, b);
        } else {
          assert b == x && x !in init;
          FirstIndexUnique(s, x, |init|);
        }
      }
      assert FirstSeenOrder(s, r);
    } else {
      assert Accumulate(s) == [];
    }
  }

  /** Matches that are already unique are kept as they are. */
  lemma {:induction false} AccumulateUnique<T>(s: seq<T>)
    requires NoDuplicates(s)
    ensures Accumulate(s) == s
  {
    if s != [] {
      var init := s[..|s| - 1];
      AccumulateUnique(init);
      assert s[|s| - 1] !in init;
      assert s == init + [s[|s| - 1]];
    }
  }

  /** Accumulating twice changes nothing more. */
  lemma AccumulateIdempotent<T>(s: seq<T>)
    ensures Accumulate(Accumulate(s)) == Accumulate(s)
  {
    AccumulateElements(s);
    AccumulateUnique(Accumulate(s));
  }
}
