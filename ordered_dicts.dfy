/** Python dictionaries: a finite map together with the order in which keys were first inserted. */
module OrderedDicts {
  import opened Outcomes

  datatype Dict<V> = Dict(keys: seq<string>, vals: map<string, V>) {

    /** Keys are listed once each, and exactly the keys of the map are listed. */
    ghost predicate Valid() {
      && (forall i, j :: 0 <= i < j < |keys| ==> keys[i] != keys[j])
      && (forall k :: k in vals <==> k in keys)
    }

    /** `d[k] = v`: overwrites in place when `k` is present, appends `k` otherwise. */
    function Put(k: string, v: V): (d: Dict<V>)
      ensures d.vals == vals[k := v]
      ensures k in vals ==> d.keys == keys
      ensures k !in vals ==> d.keys == keys + [k]
      ensures Valid() ==> d.Valid()
    {
      if k in vals then Dict(keys, vals[k := v]) else Dict(keys + [k], vals[k := v])
    }

    /** `del d[k]`: the key leaves the map and the order, the other keys keep their relative order. */
    function Remove(k: string): (d: Dict<V>)
      ensures d.vals == vals - {k}
      ensures d.keys == Without(keys, k)
      ensures Valid() ==> d.Valid()
    {
      var d := Dict(Without(keys, k), vals - {k});
      assert Valid() ==> d.Valid() by {
        WithoutMembers(keys, k);
        if Valid() {
          WithoutDistinct(keys, k);
        }
      }
      d
    }

    /** The values in key order, as `d.values()` iterates them. */
    function Values(): (vs: seq<V>)
      requires Valid()
      ensures |vs| == |keys|
      ensures forall k :: k in vals ==> vals[k] in vs
    {
      var vs := seq(|keys|, i requires 0 <= i < |keys| => vals[keys[i]]);
      assert forall k :: k in vals ==> vals[k] in vs by {
        forall k | k in vals ensures vals[k] in vs {
          var i :| 0 <= i < |keys| && keys[i] == k;
          assert vs[i] == vals[k];
        }
      }
      vs
    }
  }

  type ODict<V> = d: Dict<V> | d.Valid() witness Dict([], map[])

  function Empty<V>(): (d: ODict<V>)
    ensures d.keys == [] && d.vals == map[]
  {
    Dict([], map[])
  }

  /** `s` with every occurrence of `k` taken out, the rest in order. */
  function Without(s: seq<string>, k: string): seq<string>
  {
    if s == [] then []
    else if s[0] == k then Without(s[1..], k)
    else [s[0]] + Without(s[1..], k)
  }

  lemma WithoutMembers(s: seq<string>, k: string)
    ensures forall x :: x in Without(s, k) <==> x in s && x != k
  {
  }

  lemma WithoutConcat(a: seq<string>, b: seq<string>, k: string)
    ensures Without(a + b, k) == Without(a, k) + Without(b, k)
  {
    if a != [] {
      assert (a + b)[1..] == a[1..] + b;
    } else {
      assert a + b == b;
    }
  }

  lemma WithoutAbsent(s: seq<string>, k: string)
    requires k !in s
    ensures Without(s, k) == s
  {
  }

  lemma WithoutDistinct(s: seq<string>, k: string)
    requires forall i, j :: 0 <= i < j < |s| ==> s[i] != s[j]
    ensures forall i, j :: 0 <= i < j < |Without(s, k)| ==> Without(s, k)[i] != Without(s, k)[j]
  {
    if s != [] {
      WithoutDistinct(s[1..], k);
      WithoutMembers(s[1..], k);
      assert s[0] !in s[1..] by {
        forall j | 0 <= j < |s[1..]| ensures s[1..][j] != s[0] {
          assert s[1..][j] == s[j + 1];
        }
      }
    }
  }

  /** Removing a key commutes with inserting a different, new one. */
  lemma RemovePutOther<V>(d: ODict<V>, r: string, k: string, v: V)
    requires k != r && k !in d.vals
    ensures d.Put(k, v).Remove(r) == d.Remove(r).Put(k, v)
  {
    var a, b := d.Put(k, v).Remove(r), d.Remove(r).Put(k, v);
    WithoutConcat(d.keys, [k], r);
    assert Without([k], r) == [k];
    assert k !in d.Remove(r).vals;
    assert a.keys == b.keys;
    forall j ensures (j in a.vals <==> j in b.vals) && (j in a.vals ==> a.vals[j] == b.vals[j]) {
    }
    assert a.vals == b.vals;
  }

  /** Removing a key just inserted undoes the insertion. */
  lemma RemovePutSame<V>(d: ODict<V>, k: string, v: V)
    requires k !in d.vals
    ensures d.Put(k, v).Remove(k) == d
  {
    WithoutConcat(d.keys, [k], k);
    WithoutAbsent(d.keys, k);
    assert Without([k], k) == [];
    assert d.vals[k := v] - {k} == d.vals;
  }

  /** Removing a key the dictionary does not hold changes nothing. */
  lemma RemoveAbsent<V>(d: ODict<V>, k: string)
    requires k !in d.vals
    ensures d.Remove(k) == d
  {
    WithoutAbsent(d.keys, k);
    assert d.vals - {k} == d.vals;
  }

  /** Inserting the same key twice with the same value is inserting it once. */
  lemma PutIdempotent<V>(d: Dict<V>, k: string, v: V)
    ensures d.Put(k, v).Put(k, v) == d.Put(k, v)
  {
  }

  /** The first `n` entries of a dictionary, in order. */
  function Take<V>(d: ODict<V>, n: nat): (t: ODict<V>)
    requires n <= |d.keys|
    ensures t.keys == d.keys[..n]
    ensures forall k :: k in t.vals ==> k in d.vals && t.vals[k] == d.vals[k]
  {
    var t := Dict(d.keys[..n], map k | k in d.keys[..n] :: d.vals[k]);
    assert t.Valid() by {
      forall i, j | 0 <= i < j < n ensures t.keys[i] != t.keys[j] {
        assert t.keys[i] == d.keys[i] && t.keys[j] == d.keys[j];
      }
    }
    t
  }

  /** Taking one more entry is putting that entry last. */
  lemma {:induction false} TakeNext<V>(d: ODict<V>, n: nat)
    requires n < |d.keys|
    ensures Take(d, n + 1) == Take(d, n).Put(d.keys[n], d.vals[d.keys[n]])
  {
    var k := d.keys[n];
    assert k !in d.keys[..n];
    assert d.keys[..n + 1] == d.keys[..n] + [k];
  }

  lemma TakeAll<V>(d: ODict<V>)
    ensures Take(d, |d.keys|) == d
  {
    assert d.keys[..|d.keys|] == d.keys;
  }

  /** Taking out three distinct leading keys that occur nowhere else leaves the rest. */
  lemma WithoutLeading(a: string, b: string, c: string, ks: seq<string>)
    requires a != b && a != c && b != c
    requires a !in ks && b !in ks && c !in ks
    ensures Without(Without(Without([a, b, c] + ks, a), b), c) == ks
  {
    var r3 := [c] + ks;
    var r2 := [b] + r3;
    assert [a, b, c] + ks == [a] + r2;
    WithoutHead(a, r2);
    WithoutAbsent(r2, a);
    WithoutHead(b, r3);
    WithoutAbsent(r3, b);
    WithoutHead(c, ks);
    WithoutAbsent(ks, c);
  }

  lemma WithoutHead(k: string, s: seq<string>)
    ensures Without([k] + s, k) == Without(s, k)
  {
    assert ([k] + s)[1..] == s;
  }

  /** Setting `c` before three other assignments that end by setting `c` again changes nothing. */
  lemma OverwrittenFirst<V>(m: map<string, V>, a: string, b: string, d: string, c: string, x: V, p: V, q: V, r: V)
    ensures m[c := x][a := p][b := q][d := r][c := x] == m[a := p][b := q][d := r][c := x]
  {
  }

  /** Three assignments followed by one to a fourth key: each of the three reads back its value. */
  lemma AssignedThree<V>(m: map<string, V>, a: string, b: string, d: string, c: string, x: V, p: V, q: V, r: V)
    requires a != b && a != d && b != d && c != a && c != b && c != d
    ensures m[a := p][b := q][d := r][c := x][a] == p
    ensures m[a := p][b := q][d := r][c := x][b] == q
    ensures m[a := p][b := q][d := r][c := x][d] == r
  {
  }

  /** Assigning three keys and then deleting them leaves only the other assignment. */
  lemma AssignThenDelete<V>(m: map<string, V>, a: string, b: string, d: string, c: string, x: V, p: V, q: V, r: V)
    requires a !in m && b !in m && d !in m
    requires c != a && c != b && c != d
    ensures m[a := p][b := q][d := r][c := x] - {a} - {b} - {d} == m[c := x]
  {
  }

  /** Putting the items one after another, each under its key: `{key(x): val(x) for x in xs}`. */
  function PutAll<T, V>(xs: seq<T>, key: T -> string, val: T -> V): (d: ODict<V>)
    ensures forall i :: 0 <= i < |xs| ==> key(xs[i]) in d.vals
  {
    if xs == [] then Empty()
    else
      var init := xs[..|xs| - 1];
      assert forall i :: 0 <= i < |init| ==> init[i] == xs[i];
      PutAll(init, key, val).Put(key(xs[|xs| - 1]), val(xs[|xs| - 1]))
  }

  /** Every entry comes from an item with that key; a later item with the same key wins. */
  lemma {:induction false} PutAllEntries<T, V>(xs: seq<T>, key: T -> string, val: T -> V, k: string)
    requires k in PutAll(xs, key, val).vals
    ensures exists i :: 0 <= i < |xs| && key(xs[i]) == k && PutAll(xs, key, val).vals[k] == val(xs[i])
  {
    var n := |xs| - 1;
    if key(xs[n]) != k {
      var init := xs[..n];
      PutAllEntries(init, key, val, k);
      var i :| 0 <= i < |init| && key(init[i]) == k && PutAll(init, key, val).vals[k] == val(init[i]);
      assert init[i] == xs[i];
    }
  }

  /** With pairwise different keys, the items appear in order, each under its own key. */
  lemma {:induction false} PutAllDistinct<T, V>(xs: seq<T>, key: T -> string, val: T -> V)
    requires forall i, j :: 0 <= i < j < |xs| ==> key(xs[i]) != key(xs[j])
    ensures |PutAll(xs, key, val).keys| == |xs|
    ensures forall i :: 0 <= i < |xs| ==> PutAll(xs, key, val).keys[i] == key(xs[i])
    ensures forall i :: 0 <= i < |xs| ==> PutAll(xs, key, val).vals[key(xs[i])] == val(xs[i])
  {
    if xs != [] {
      var n := |xs| - 1;
      var init := xs[..n];
      PutAllDistinct(init, key, val);
      var d := PutAll(init, key, val);
      assert key(xs[n]) !in d.vals by {
        forall i | 0 <= i < n ensures d.keys[i] != key(xs[n]) {
          assert init[i] == xs[i];
        }
      }
      var d' := PutAll(xs, key, val);
      assert d' == d.Put(key(xs[n]), val(xs[n]));
      assert d'.keys == d.keys + [key(xs[n])];
      forall i | 0 <= i < n ensures d'.keys[i] == key(xs[i]) && d'.vals[key(xs[i])] == val(xs[i]) {
        assert init[i] == xs[i];
        assert d.keys[i] == key(xs[i]);
      }
    }
  }

  /** The outcome of a merge loop: the dictionary reached and the failure that stopped it, if any. */
  datatype Merged<W> = Merged(dict: ODict<W>, error: Option<PyError>)

  /**
   * `for k, v in src.items(): dst[k] = f(v)` over the first `n` entries, where `f` also sees the
   * entry's position; the first failing call stops the loop and keeps what was merged before it.
   */
  function MergeAll<V, W>(dst: ODict<W>, src: ODict<V>, n: nat, f: (V, nat) -> Result<W>): (m: Merged<W>)
    requires n <= |src.keys|
  {
    if n == 0 then Merged(dst, None)
    else MergeStep(MergeAll(dst, src, n - 1, f), src.keys[n - 1], f(src.vals[src.keys[n - 1]], n - 1))
  }

  /** One turn of the merge loop: nothing more happens after a failure. */
  function MergeStep<W>(m: Merged<W>, k: string, r: Result<W>): Merged<W>
  {
    if m.error.Some? then m
    else
      match r
      case Err(x) => Merged(m.dict, Some(x))
      case Ok(w) => Merged(m.dict.Put(k, w), None)
  }

  /** The loop runs to the end exactly when every call succeeds. */
  lemma {:induction false} MergeAllSucceeds<V, W>(dst: ODict<W>, src: ODict<V>, n: nat, f: (V, nat) -> Result<W>)
    requires n <= |src.keys|
    ensures MergeAll(dst, src, n, f).error.None? <==> forall i :: 0 <= i < n ==> f(src.vals[src.keys[i]], i).Ok?
  {
    if n > 0 {
      MergeAllSucceeds(dst, src, n - 1, f);
      var r := f(src.vals[src.keys[n - 1]], n - 1);
      var m := MergeAll(dst, src, n - 1, f);
      var m' := MergeAll(dst, src, n, f);
      assert m' == MergeStep(m, src.keys[n - 1], r);
      if m'.error.None? {
        assert m.error.None? && r.Ok?;
        forall i | 0 <= i < n ensures f(src.vals[src.keys[i]], i).Ok? {
          if i < n - 1 {
            assert f(src.vals[src.keys[i]], i).Ok?;
          }
        }
      } else if m.error.Some? {
        var i :| 0 <= i < n - 1 && !f(src.vals[src.keys[i]], i).Ok?;
      } else {
        assert !r.Ok?;
      }
    }
  }

  /** A merge, not a replacement: keys `src` lacks keep their values; no key comes from elsewhere. */
  lemma {:induction false} MergeAllKeeps<V, W>(dst: ODict<W>, src: ODict<V>, n: nat, f: (V, nat) -> Result<W>, k: string)
    requires n <= |src.keys|
    ensures k in dst.vals && k !in src.vals ==> k in MergeAll(dst, src, n, f).dict.vals && MergeAll(dst, src, n, f).dict.vals[k] == dst.vals[k]
    ensures k in MergeAll(dst, src, n, f).dict.vals ==> k in dst.vals || k in src.vals
  {
    if n > 0 {
      MergeAllKeeps(dst, src, n - 1, f, k);
    }
  }

  /** Without a failure, every merged key holds what `f` made of its entry. */
  lemma {:induction false} MergeAllInserts<V, W>(dst: ODict<W>, src: ODict<V>, n: nat, f: (V, nat) -> Result<W>, i: nat)
    requires i < n <= |src.keys|
    requires MergeAll(dst, src, n, f).error.None?
    ensures src.keys[i] in MergeAll(dst, src, n, f).dict.vals
    ensures f(src.vals[src.keys[i]], i) == Ok(MergeAll(dst, src, n, f).dict.vals[src.keys[i]])
  {
    if i < n - 1 {
      MergeAllInserts(dst, src, n - 1, f, i);
      assert src.keys[i] != src.keys[n - 1];
    }
  }

  /** A successful call puts its result under the entry's key. */
  lemma MergeAllNext<V, W>(dst: ODict<W>, src: ODict<V>, i: nat, f: (V, nat) -> Result<W>, w: W)
    requires i < |src.keys|
    requires MergeAll(dst, src, i, f).error.None?
    requires f(src.vals[src.keys[i]], i) == Ok(w)
    ensures MergeAll(dst, src, i + 1, f) == Merged(MergeAll(dst, src, i, f).dict.Put(src.keys[i], w), None)
  {
  }

  /** A failing call stops the merge with its error and keeps the dictionary reached. */
  lemma MergeAllFail<V, W>(dst: ODict<W>, src: ODict<V>, i: nat, f: (V, nat) -> Result<W>, x: PyError)
    requires i < |src.keys|
    requires MergeAll(dst, src, i, f).error.None?
    requires f(src.vals[src.keys[i]], i) == Err(x)
    ensures MergeAll(dst, src, i + 1, f) == Merged(MergeAll(dst, src, i, f).dict, Some(x))
  {
  }

  /** After the first failure a merge changes nothing more. */
  lemma {:induction false} MergeAllStops<V, W>(dst: ODict<W>, src: ODict<V>, n: nat, m: nat, f: (V, nat) -> Result<W>)
    requires n <= m <= |src.keys|
    requires MergeAll(dst, src, n, f).error.Some?
    ensures MergeAll(dst, src, m, f) == MergeAll(dst, src, n, f)
    decreases m
  {
    if m > n {
      MergeAllStops(dst, src, n, m - 1, f);
    }
  }

  /** One more step of a merge that has not failed adds one entry to the merge before it. */
  lemma MergeAllStep<V, W>(dst: ODict<W>, src: ODict<V>, n: nat, f: (V, nat) -> Result<W>)
    requires 0 < n <= |src.keys|
    requires MergeAll(dst, src, n, f).error.None?
    ensures MergeAll(dst, src, n - 1, f).error.None?
    ensures f(src.vals[src.keys[n - 1]], n - 1).Ok?
    ensures MergeAll(dst, src, n, f).dict
         == MergeAll(dst, src, n - 1, f).dict.Put(src.keys[n - 1], f(src.vals[src.keys[n - 1]], n - 1).value)
  {
  }

  /** Merging into an empty dictionary without a failure lists the keys of `src` in order. */
  lemma {:induction false} MergeAllFromEmpty<V, W>(src: ODict<V>, n: nat, f: (V, nat) -> Result<W>)
    requires n <= |src.keys|
    requires MergeAll(Empty(), src, n, f).error.None?
    ensures MergeAll(Empty(), src, n, f).dict.keys == src.keys[..n]
  {
    if n > 0 {
      MergeAllStep(Empty(), src, n, f);
      MergeAllFromEmpty(src, n - 1, f);
      LaterKeyNotBefore(src, n - 1);
      PrefixSnoc(src.keys, n);
      PutFresh(MergeAll(Empty(), src, n - 1, f).dict, src.keys[..n - 1], src.keys[n - 1], f(src.vals[src.keys[n - 1]], n - 1).value);
    }
  }

  /** A key of a dictionary does not occur among the keys inserted before it. */
  lemma LaterKeyNotBefore<V>(d: ODict<V>, i: nat)
    requires i < |d.keys|
    ensures d.keys[i] !in d.keys[..i]
  {
    forall j | 0 <= j < i
      ensures d.keys[..i][j] != d.keys[i]
    {
      assert d.keys[j] != d.keys[i];
    }
  }

  lemma PrefixSnoc(s: seq<string>, n: nat)
    requires 0 < n <= |s|
    ensures s[..n] == s[..n - 1] + [s[n - 1]]
  {
  }

  lemma WholePrefix(s: seq<string>)
    ensures s[..|s|] == s
  {
  }

  /** Putting a key the order does not hold appends it. */
  lemma PutFresh<W>(d: ODict<W>, ks: seq<string>, k: string, w: W)
    requires d.keys == ks && k !in ks
    ensures d.Put(k, w).keys == ks + [k]
  {
  }
}
