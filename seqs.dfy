/** Sequence utilities shared by several components: JavaScript `new Set(xs)`
    iteration order (duplicates removed, first occurrence kept) and flattening. */
module Seqs {

  predicate NoDup<T(==)>(s: seq<T>) {
    forall i, j :: 0 <= i < j < |s| ==> s[i] != s[j]
  }

  /** Index of the first occurrence of `x` in `s`, or |s| when there is none
      (`indexOf`, with |s| standing for -1). */
  function FirstPos<T(==)>(s: seq<T>, x: T): (i: nat)
    ensures i <= |s|
    ensures i < |s| <==> x in s
    ensures i < |s| ==> s[i] == x
    ensures forall j :: 0 <= j < i ==> s[j] != x
  {
    if |s| == 0 then 0 else if s[0] == x then 0 else 1 + FirstPos(s[1..], x)
  }

  /** The elements of `s` in the order a JavaScript Set built from `s` yields them. */
  function Dedupe<T(==)>(s: seq<T>): (r: seq<T>)
    decreases |s|
  {
    if |s| == 0 then []
    else
      var d := Dedupe(s[..|s| - 1]);
      if s[|s| - 1] in d then d else d + [s[|s| - 1]]
  }

  lemma DedupeSnoc<T>(s: seq<T>, x: T)
    ensures Dedupe(s + [x]) == if x in Dedupe(s) then Dedupe(s) else Dedupe(s) + [x]
  {
    assert (s + [x])[..|s|] == s;
  }

  /** Dedupe keeps exactly the elements of its input and repeats none of them. */
  lemma {:induction false} DedupeElements<T>(s: seq<T>)
    ensures forall x :: x in Dedupe(s) <==> x in s
    ensures forall i :: 0 <= i < |Dedupe(s)| ==> Dedupe(s)[i] in s
    ensures NoDup(Dedupe(s))
    decreases |s|
  {
    if |s| > 0 {
      var init := s[..|s| - 1];
      DedupeElements(init);
      assert s == init + [s[|s| - 1]];
    }
  }

  /** Dedupe lists the distinct elements in order of their first occurrence in the input. */
  lemma {:induction false} DedupeFirstOccurrenceOrder<T>(s: seq<T>)
    ensures forall i, j :: 0 <= i < j < |Dedupe(s)| ==> FirstPos(s, Dedupe(s)[i]) < FirstPos(s, Dedupe(s)[j])
    decreases |s|
  {
    if |s| > 0 {
      var init := s[..|s| - 1];
      var last := s[|s| - 1];
      DedupeElements(init);
      DedupeFirstOccurrenceOrder(init);
      var d := Dedupe(init);
      assert s == init + [last];
      forall y | y in init ensures FirstPos(s, y) == FirstPos(init, y) {
        FirstPosPrefix(init, [last], y);
      }
      if last !in d {
        assert last !in init;
        assert FirstPos(s, last) == |s| - 1;
        forall i | 0 <= i < |d| ensures FirstPos(s, d[i]) < |s| - 1 {
          assert d[i] in init;
          assert FirstPos(s, d[i]) == FirstPos(init, d[i]);
        }
      }
    }
  }

  lemma FirstPosPrefix<T>(a: seq<T>, b: seq<T>, x: T)
    requires x in a
    ensures FirstPos(a + b, x) == FirstPos(a, x)
  {
    var i := FirstPos(a, x);
    assert (a + b)[i] == x;
    forall j | 0 <= j < i ensures (a + b)[j] != x { assert (a + b)[j] == a[j]; }
  }

  /** A list that already has no duplicates is returned unchanged. */
  lemma {:induction false} DedupeOfDistinct<T>(s: seq<T>)
    requires NoDup(s)
    ensures Dedupe(s) == s
    decreases |s|
  {
    if |s| > 0 {
      var init := s[..|s| - 1];
      assert NoDup(init);
      DedupeOfDistinct(init);
      assert s[|s| - 1] !in init;
      assert s == init + [s[|s| - 1]];
    }
  }

  lemma ConcatAssoc<T>(a: seq<T>, b: seq<T>, c: seq<T>)
    ensures a + b + c == a + (b + c)
  {
  }

  lemma ConcatEmpty<T>(a: seq<T>)
    ensures [] + a == a && a + [] == a
  {
  }

  lemma InitLast<T>(a: seq<T>)
    requires |a| > 0
    ensures a[..|a| - 1] + [a[|a| - 1]] == a
  {
  }

  lemma HeadTail<T>(a: seq<T>)
    requires |a| > 0
    ensures [a[0]] + a[1..] == a
  {
  }

  /** Concatenation of a list of lists, built back to front like a `push` loop. */
  function Flatten<T>(ss: seq<seq<T>>): seq<T>
    decreases |ss|
  {
    if |ss| == 0 then [] else Flatten(ss[..|ss| - 1]) + ss[|ss| - 1]
  }

  lemma {:induction false} FlattenAppend<T>(a: seq<seq<T>>, b: seq<seq<T>>)
    ensures Flatten(a + b) == Flatten(a) + Flatten(b)
    decreases |b|
  {
    if |b| > 0 {
      var b' := b[..|b| - 1];
      assert (a + b)[..|a + b| - 1] == a + b';
      FlattenAppend(a, b');
    } else {
      assert a + b == a;
    }
  }

  lemma FlattenCons<T>(x: seq<T>, ss: seq<seq<T>>)
    ensures Flatten([x] + ss) == x + Flatten(ss)
  {
    FlattenAppend([x], ss);
    assert Flatten([x]) == Flatten([]) + x;
  }

  lemma FlattenSnoc<T>(ss: seq<seq<T>>, x: seq<T>)
    ensures Flatten(ss + [x]) == Flatten(ss) + x
  {
    assert (ss + [x])[..|ss|] == ss;
  }

  /** Cutting a list at `n` and putting the pieces after a prefix gives the prefix and the list. */
  lemma SplitAt<T>(done: seq<T>, items: seq<T>, n: nat)
    requires n <= |items|
    ensures done + items[..n] + items[n..] == done + items
  {
    assert items[..n] + items[n..] == items;
  }
}
