/** src/helpers/generic.ts: chunkArray and lowercaseObject. src/helpers.ts
    carries identical copies of both; they are modelled once, here. */
module Generic {
  import opened Wrappers
  import opened Strings
  import opened Seqs

  // ---------------------------------------------------------------------------
  // chunkArray

  /** The chunks that start at index `i` and later: `array.slice(i, i + n)`
      (clamped at the end), then every n-th index after it. */
  function ChunksFrom<T>(a: seq<T>, n: nat, i: nat): seq<seq<T>>
    requires n > 0
    decreases |a| - i
  {
    if i >= |a| then [] else [a[i..if i + n <= |a| then i + n else |a|]] + ChunksFrom(a, n, i + n)
  }

  /** What `chunkArray(a, n)` returns. */
  function Chunks<T>(a: seq<T>, n: nat): seq<seq<T>>
    requires n > 0
  {
    ChunksFrom(a, n, 0)
  }

  /** `chunkArray`: the index loop pushing one slice per step. A size of zero or
      less never ends the loop in the source, so callers must pass a positive size. */
  method ChunkArray<T>(a: seq<T>, n: nat) returns (chunks: seq<seq<T>>)
    requires n > 0
    ensures chunks == Chunks(a, n)
    ensures Flatten(chunks) == a
    ensures |chunks| == (|a| + n - 1) / n
  {
    chunks := [];
    var i := 0;
    while i < |a|
      invariant chunks + ChunksFrom(a, n, i) == Chunks(a, n)
      decreases |a| - i
    {
      var end := if i + n <= |a| then i + n else |a|;
      chunks := chunks + [a[i..end]];
      i := i + n;
    }
    ChunksConcat(a, n);
    ChunksCount(a, n);
  }

  lemma {:induction false} ChunksFromConcat<T>(a: seq<T>, n: nat, i: nat)
    requires n > 0 && i <= |a|
    ensures Flatten(ChunksFrom(a, n, i)) == a[i..]
    decreases |a| - i
  {
    if i < |a| {
      var end := if i + n <= |a| then i + n else |a|;
      FlattenCons(a[i..end], ChunksFrom(a, n, i + n));
      if i + n <= |a| {
        ChunksFromConcat(a, n, i + n);
        assert a[i..] == a[i..end] + a[i + n..];
      } else {
        assert ChunksFrom(a, n, i + n) == [];
      }
    }
  }

  /** The chunks concatenated give back the input, in order. */
  lemma ChunksConcat<T>(a: seq<T>, n: nat)
    requires n > 0
    ensures Flatten(Chunks(a, n)) == a
  {
    ChunksFromConcat(a, n, 0);
  }

  lemma MulAtLeast(k: int, n: int)
    requires k >= 1 && n > 0
    ensures k * n >= n
  {
  }

  lemma DivUnique(a: int, n: int, q: int, r: int)
    requires n > 0 && 0 <= r < n && a == q * n + r
    ensures a / n == q
  {
    var q', r' := a / n, a % n;
    assert (q' - q) * n == r - r';
    if q' > q {
      MulAtLeast(q' - q, n);
    } else if q' < q {
      MulAtLeast(q - q', n);
    }
  }

  lemma DivStep(x: nat, n: nat)
    requires n > 0
    ensures (x + n) / n == x / n + 1
  {
    var q, r := x / n, x % n;
    assert x + n == (q + 1) * n + r;
    DivUnique(x + n, n, q + 1, r);
  }

  lemma DivOne(m: nat, n: nat)
    requires 1 <= m <= n
    ensures (m + n - 1) / n == 1
  {
  }

  lemma {:induction false} ChunksFromCount<T>(a: seq<T>, n: nat, i: nat)
    requires n > 0 && i <= |a|
    ensures |ChunksFrom(a, n, i)| == (|a| - i + n - 1) / n
    decreases |a| - i
  {
    if i < |a| {
      if i + n <= |a| {
        ChunksFromCount(a, n, i + n);
        DivStep(|a| - (i + n) + n - 1, n);
      } else {
        assert ChunksFrom(a, n, i + n) == [];
        DivOne(|a| - i, n);
      }
    }
  }

  lemma {:induction false} ChunksFromSizes<T>(a: seq<T>, n: nat, i: nat)
    requires n > 0 && i <= |a|
    ensures forall k :: 0 <= k < |ChunksFrom(a, n, i)| ==> 1 <= |ChunksFrom(a, n, i)[k]| <= n
    ensures forall k :: 0 <= k < |ChunksFrom(a, n, i)| - 1 ==> |ChunksFrom(a, n, i)[k]| == n
    decreases |a| - i
  {
    if i < |a| {
      var cs := ChunksFrom(a, n, i);
      if i + n <= |a| {
        var rest := ChunksFrom(a, n, i + n);
        ChunksFromSizes(a, n, i + n);
        assert cs == [a[i..i + n]] + rest;
        forall k | 0 <= k < |cs| ensures 1 <= |cs[k]| <= n && (k < |cs| - 1 ==> |cs[k]| == n) {
          if k > 0 { assert cs[k] == rest[k - 1]; }
        }
      } else {
        assert ChunksFrom(a, n, i + n) == [];
        assert cs == [a[i..|a|]];
      }
    }
  }

  /** ceil(|a| / n) chunks, none empty, every one but the last exactly n long. */
  lemma ChunksCount<T>(a: seq<T>, n: nat)
    requires n > 0
    ensures |Chunks(a, n)| == (|a| + n - 1) / n
    ensures forall k :: 0 <= k < |Chunks(a, n)| ==> 1 <= |Chunks(a, n)[k]| <= n
    ensures forall k :: 0 <= k < |Chunks(a, n)| - 1 ==> |Chunks(a, n)[k]| == n
  {
    ChunksFromCount(a, n, 0);
    ChunksFromSizes(a, n, 0);
  }

  /** The empty array has no chunks. */
  lemma ChunksOfEmpty<T>(n: nat)
    requires n > 0
    ensures Chunks<T>([], n) == []
  {
  }

  // ---------------------------------------------------------------------------
  // lowercaseObject

  /** A JSON-like value. An object is its own enumerable keys, in iteration
      order, with no key twice; `JDate` stands for a Date instance. */
  datatype Json =
    | JNull
    | JBool(b: bool)
    | JNum(n: int)
    | JStr(s: string)
    | JDate(time: int)
    | JArr(items: seq<Json>)
    | JObj(fields: seq<(string, Json)>)

  function Keys(fs: seq<(string, Json)>): (ks: seq<string>)
    ensures |ks| == |fs|
    ensures forall i :: 0 <= i < |fs| ==> ks[i] == fs[i].0
  {
    seq(|fs|, i requires 0 <= i < |fs| => fs[i].0)
  }

  /** `obj[k] = v` on a plain object: an existing key keeps its position and
      takes the new value; a new key goes at the end. */
  function Put(fs: seq<(string, Json)>, k: string, v: Json): (r: seq<(string, Json)>)
    ensures k in Keys(fs) ==> Keys(r) == Keys(fs)
    ensures k !in Keys(fs) ==> Keys(r) == Keys(fs) + [k]
  {
    var i := FirstPos(Keys(fs), k);
    if i < |fs| then fs[i := (k, v)] else fs + [(k, v)]
  }

  /** The object the loop builds from `pairs`, assigned one after another. */
  function Assign(pairs: seq<(string, Json)>): seq<(string, Json)>
    decreases |pairs|
  {
    if |pairs| == 0 then [] else Put(Assign(pairs[..|pairs| - 1]), pairs[|pairs| - 1].0, pairs[|pairs| - 1].1)
  }

  /** The value stored under `k`. */
  function Lookup(fs: seq<(string, Json)>, k: string): Option<Json> {
    var i := FirstPos(Keys(fs), k);
    if i < |fs| then Some(fs[i].1) else None
  }

  /** Reference definition of "the later assignment wins": the value of the last pair carrying `k`. */
  function LastValue(pairs: seq<(string, Json)>, k: string): Option<Json>
    decreases |pairs|
  {
    if |pairs| == 0 then None
    else if pairs[|pairs| - 1].0 == k then Some(pairs[|pairs| - 1].1)
    else LastValue(pairs[..|pairs| - 1], k)
  }

  /** `lowercaseObject`: strings lowercased at every depth, arrays mapped element
      by element, object keys and values lowercased, everything else unchanged. */
  function Lowercase(j: Json): (r: Json)
    ensures j.JArr? ==> r.JArr? && |r.items| == |j.items|
                        && forall i :: 0 <= i < |j.items| ==> r.items[i] == Lowercase(j.items[i])
    ensures j.JObj? ==> r.JObj?
    ensures j.JStr? ==> r == JStr(Lower(j.s))
    ensures j.JNull? || j.JBool? || j.JNum? || j.JDate? ==> r == j
    decreases j
  {
    match j
    case JArr(a) => JArr(seq(|a|, i requires 0 <= i < |a| => Lowercase(a[i])))
    case JObj(fs) => JObj(Assign(seq(|fs|, i requires 0 <= i < |fs| => (Lower(fs[i].0), Lowercase(fs[i].1)))))
    case JStr(s) => JStr(Lower(s))
    case _ => j
  }

  /** Each field with its key and its value lowercased, before the assignments merge colliding keys. */
  function LoweredPairs(fs: seq<(string, Json)>): (ps: seq<(string, Json)>)
    ensures |ps| == |fs|
    ensures Lowercase(JObj(fs)) == JObj(Assign(ps))
  {
    seq(|fs|, i requires 0 <= i < |fs| => (Lower(fs[i].0), Lowercase(fs[i].1)))
  }

  /** The imperative shape of the source: arrays are mapped element by element,
      plain objects are rebuilt key by key, and each value is lowercased recursively. */
  method LowercaseObject(input: Json) returns (r: Json)
    ensures r == Lowercase(input)
    decreases input, 1
  {
    match input {
      case JArr(a) =>
        r := LowercaseItems(input);
      case JObj(fs) =>
        r := LowercaseFields(input);
      case JStr(s) =>
        r := JStr(Lower(s));
      case _ =>
        r := input;
    }
  }

  /** `input.map((item) => lowercaseObject(item))`. */
  method LowercaseItems(input: Json) returns (r: Json)
    requires input.JArr?
    ensures r == Lowercase(input)
    decreases input, 0
  {
    var a := input.items;
    var out: seq<Json> := [];
    for i := 0 to |a|
      invariant out == seq(i, k requires 0 <= k < i => Lowercase(a[k]))
    {
      var item := LowercaseObject(a[i]);
      out := out + [item];
    }
    r := JArr(out);
  }

  /** The `for-in` loop: each own key is lowercased and assigned into a fresh
      object, string values lowercased directly and other values recursively. */
  method LowercaseFields(input: Json) returns (r: Json)
    requires input.JObj?
    ensures r == Lowercase(input)
    decreases input, 0
  {
    var fs := input.fields;
    ghost var ps := LoweredPairs(fs);
    var obj: seq<(string, Json)> := [];
    for i := 0 to |fs|
      invariant obj == Assign(ps[..i])
    {
      var lowerKey := Lower(fs[i].0);
      var value: Json;
      if fs[i].1.JStr? {
        value := JStr(Lower(fs[i].1.s));
      } else {
        value := LowercaseObject(fs[i].1);
      }
      assert ps[i] == (lowerKey, value);
      assert ps[..i + 1][..i] == ps[..i];
      obj := Put(obj, lowerKey, value);
    }
    assert ps[..|fs|] == ps;
    r := JObj(obj);
  }

  /** The keys of the merged object are the distinct keys of the pairs, in order of first assignment. */
  lemma {:induction false} AssignKeys(pairs: seq<(string, Json)>)
    ensures Keys(Assign(pairs)) == Dedupe(Keys(pairs))
    decreases |pairs|
  {
    if |pairs| > 0 {
      var init := pairs[..|pairs| - 1];
      AssignKeys(init);
      assert Keys(init) == Keys(pairs)[..|pairs| - 1];
    }
  }

  /** Every key of the merged object holds the value of its last assignment. */
  lemma {:induction false} AssignLookup(pairs: seq<(string, Json)>, k: string)
    ensures Lookup(Assign(pairs), k) == LastValue(pairs, k)
    decreases |pairs|
  {
    if |pairs| > 0 {
      var init := pairs[..|pairs| - 1];
      var (lk, lv) := pairs[|pairs| - 1];
      AssignLookup(init, k);
      PutLookup(Assign(init), lk, lv, k);
    }
  }

  /** After `obj[lk] = lv`, key lk holds lv and every other key what it held. */
  lemma PutLookup(fs: seq<(string, Json)>, lk: string, lv: Json, k: string)
    ensures Lookup(Put(fs, lk, lv), k) == if lk == k then Some(lv) else Lookup(fs, k)
  {
    var ks := Keys(fs);
    var i := FirstPos(ks, lk);
    var r := Put(fs, lk, lv);
    var j := FirstPos(ks, k);
    if i < |fs| {
      assert r == fs[i := (lk, lv)];
      assert Keys(r) == ks;
      if lk != k && j < |fs| {
        assert r[j] == fs[j];
      }
    } else {
      assert r == fs + [(lk, lv)];
      assert Keys(r) == ks + [lk];
      if j < |fs| {
        FirstPosPrefix(ks, [lk], k);
        assert r[j] == fs[j];
      } else if lk == k {
        assert (ks + [lk])[|ks|] == k;
      } else {
        assert k !in Keys(r);
      }
    }
  }


  /** No object key is assigned twice. */
  lemma AssignDistinct(pairs: seq<(string, Json)>)
    ensures NoDup(Keys(Assign(pairs)))
  {
    AssignKeys(pairs);
    DedupeElements(Keys(pairs));
  }

  /** Already-distinct keys are assigned one after another with nothing merged. */
  lemma {:induction false} AssignDistinctIdentity(pairs: seq<(string, Json)>)
    requires NoDup(Keys(pairs))
    ensures Assign(pairs) == pairs
    decreases |pairs|
  {
    if |pairs| > 0 {
      var init := pairs[..|pairs| - 1];
      assert Keys(init) == Keys(pairs)[..|pairs| - 1];
      assert NoDup(Keys(init));
      AssignDistinctIdentity(init);
      assert pairs[|pairs| - 1].0 !in Keys(init);
      InitLast(pairs);
    }
  }

  /** Every value of the merged object is the value of one of the pairs. */
  lemma {:induction false} AssignValuesFrom(pairs: seq<(string, Json)>)
    ensures forall i :: 0 <= i < |Assign(pairs)| ==> Assign(pairs)[i] in pairs
    decreases |pairs|
  {
    if |pairs| > 0 {
      var init := pairs[..|pairs| - 1];
      AssignValuesFrom(init);
      var fs := Assign(init);
      forall i | 0 <= i < |Assign(pairs)| ensures Assign(pairs)[i] in pairs {
        if i < |fs| && Assign(pairs)[i] == fs[i] {
          assert fs[i] in init;
        } else {
          assert Assign(pairs)[i] == pairs[|pairs| - 1];
        }
      }
    }
  }

  /** The values `lowercaseObject` produces: every string and every key lowercase, no key twice. */
  predicate Lowered(j: Json)
    decreases j
  {
    match j
    case JStr(s) => IsLower(s)
    case JArr(a) => forall i :: 0 <= i < |a| ==> Lowered(a[i])
    case JObj(fs) => NoDup(Keys(fs)) && forall i :: 0 <= i < |fs| ==> IsLower(fs[i].0) && Lowered(fs[i].1)
    case _ => true
  }

  /** Every value `lowercaseObject` returns is fully lowercased. */
  lemma {:induction false} LowercaseIsLowered(j: Json)
    ensures Lowered(Lowercase(j))
    decreases j
  {
    match j {
      case JStr(s) =>
        LowerIsLower(s);
      case JArr(a) =>
        forall i | 0 <= i < |a| { LowercaseIsLowered(a[i]); }
      case JObj(fs) =>
        var ps := LoweredPairs(fs);
        forall i | 0 <= i < |fs| ensures Lowered(Lowercase(fs[i].1)) && IsLower(Lower(fs[i].0)) {
          LowercaseIsLowered(fs[i].1);
          LowerIsLower(fs[i].0);
        }
        var m := Assign(ps);
        AssignDistinct(ps);
        AssignValuesFrom(ps);
        forall i | 0 <= i < |m| ensures IsLower(m[i].0) && Lowered(m[i].1) {
          var k :| 0 <= k < |ps| && ps[k] == m[i];
        }
      case _ =>
    }
  }

  /** Lowercasing twice is lowercasing once, and the values left unchanged are
      exactly the fully lowercased ones. */
  lemma LowercaseIdempotent(j: Json)
    ensures Lowercase(Lowercase(j)) == Lowercase(j)
    ensures Lowercase(j) == j <==> Lowered(j)
  {
    LowercaseIsLowered(j);
    LowercaseOfLowered(Lowercase(j));
    if Lowered(j) {
      LowercaseOfLowered(j);
    }
  }

  /** A fully lowercased value is left as it is. */
  lemma {:induction false} LowercaseOfLowered(j: Json)
    requires Lowered(j)
    ensures Lowercase(j) == j
    decreases j
  {
    match j {
      case JStr(s) =>
        LowerIsLower(s);
      case JArr(a) =>
        forall i | 0 <= i < |a| { LowercaseOfLowered(a[i]); }
        assert Lowercase(j).items == a;
      case JObj(fs) =>
        forall i | 0 <= i < |fs| ensures LoweredPairs(fs)[i] == fs[i] {
          LowercaseOfLowered(fs[i].1);
          LowerIsLower(fs[i].0);
        }
        assert LoweredPairs(fs) == fs;
        AssignDistinctIdentity(fs);
      case _ =>
    }
  }

  /** Object keys after lowercasing: the lowered keys in order of first appearance,
      each holding the lowercased value of the LAST input key that lowers to it. */
  lemma LowercaseObjectKeys(fs: seq<(string, Json)>, k: string)
    ensures Lowercase(JObj(fs)).JObj?
    ensures Keys(Lowercase(JObj(fs)).fields) == Dedupe(Keys(LoweredPairs(fs)))
    ensures Lookup(Lowercase(JObj(fs)).fields, k) == LastValue(LoweredPairs(fs), k)
    ensures forall i :: 0 <= i < |fs| ==> Keys(LoweredPairs(fs))[i] == Lower(fs[i].0)
  {
    AssignKeys(LoweredPairs(fs));
    AssignLookup(LoweredPairs(fs), k);
  }
}
