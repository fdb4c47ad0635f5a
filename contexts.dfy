/** Evaluation contexts: the insertion-ordered mappings (Python dicts) that a
    triggered condition hands to the alert's templates. Assignment `d[k] = v`
    keeps the position of an existing key and appends a new one, and
    `d.update(e)` assigns the entries of `e` in their order, so later entries
    win. */
module Contexts {
  import opened Wrappers
  import opened Sequences

  /** A value held in a context: the text of a date or a numeric reading. */
  datatype Value = Text(text: string) | Number(number: real)

  /** The entries of a dict, in insertion order. */
  type Context = seq<(string, Value)>

  function Keys(c: Context): (r: seq<string>)
    ensures |r| == |c|
  {
    if |c| == 0 then [] else Keys(c[..|c| - 1]) + [c[|c| - 1].0]
  }

  predicate DistinctKeys(c: Context)
  {
    NoDuplicates(Keys(c))
  }

  /** The value of a key, `None` when the key is absent. */
  function Lookup(c: Context, k: string): Option<Value>
  {
    if |c| == 0 then None
    else if c[|c| - 1].0 == k then Some(c[|c| - 1].1)
    else Lookup(c[..|c| - 1], k)
  }

  lemma {:induction false} LookupSomeIffKey(c: Context, k: string)
    ensures Lookup(c, k).Some? <==> k in Keys(c)
  {
    if |c| > 0 {
      LookupSomeIffKey(c[..|c| - 1], k);
    }
  }

  /** Assignment of a value to a key: in place when the key is present,
      appended at the end otherwise. */
  function Put(c: Context, k: string, v: Value): (r: Context)
    ensures Lookup(r, k) == Some(v)
    ensures forall k' :: k' != k ==> Lookup(r, k') == Lookup(c, k')
  {
    if Lookup(c, k).None? then
      assert (c + [(k, v)])[..|c|] == c;
      c + [(k, v)]
    else
      LookupOverwrite(c, k, v);
      Overwrite(c, k, v)
  }

  /** The entries of `c` with the value of key `k` replaced by `v`. */
  function Overwrite(c: Context, k: string, v: Value): (r: Context)
    ensures |r| == |c|
  {
    if |c| == 0 then []
    else
      var (k', v') := c[|c| - 1];
      Overwrite(c[..|c| - 1], k, v) + [if k' == k then (k, v) else (k', v')]
  }

  lemma {:induction false} LookupOverwrite(c: Context, k: string, v: Value)
    ensures Lookup(c, k).Some? ==> Lookup(Overwrite(c, k, v), k) == Some(v)
    ensures forall k' :: k' != k ==> Lookup(Overwrite(c, k, v), k') == Lookup(c, k')
  {
    if |c| > 0 {
      var init := c[..|c| - 1];
      LookupOverwrite(init, k, v);
      var r := Overwrite(c, k, v);
      assert r[..|r| - 1] == Overwrite(init, k, v);
    }
  }

  lemma {:induction false} KeysOverwrite(c: Context, k: string, v: Value)
    ensures Keys(Overwrite(c, k, v)) == Keys(c)
  {
    if |c| > 0 {
      var init := c[..|c| - 1];
      KeysOverwrite(init, k, v);
      var r := Overwrite(c, k, v);
      assert r[..|r| - 1] == Overwrite(init, k, v);
    }
  }

  /** Assignment keeps the position of an existing key and appends a new one. */
  lemma PutKeys(c: Context, k: string, v: Value)
    ensures Keys(Put(c, k, v)) == if k in Keys(c) then Keys(c) else Keys(c) + [k]
  {
    LookupSomeIffKey(c, k);
    if k in Keys(c) {
      KeysOverwrite(c, k, v);
    } else {
      assert (c + [(k, v)])[..|c|] == c;
    }
  }

  /** Put keeps the keys distinct. */
  lemma PutDistinct(c: Context, k: string, v: Value)
    requires DistinctKeys(c)
    ensures DistinctKeys(Put(c, k, v))
  {
    PutKeys(c, k, v);
  }

  /** `c.update(d)`: assign every entry of `d`, in order. */
  function Update(c: Context, d: Context): Context
  {
    if |d| == 0 then c else Put(Update(c, d[..|d| - 1]), d[|d| - 1].0, d[|d| - 1].1)
  }

  /** After an update, a key of `d` has its value in `d`; every other key
      keeps its value in `c`. */
  lemma {:induction false} UpdateLookup(c: Context, d: Context, k: string)
    ensures Lookup(Update(c, d), k) == if Lookup(d, k).Some? then Lookup(d, k) else Lookup(c, k)
  {
    if |d| > 0 {
      UpdateLookup(c, d[..|d| - 1], k);
    }
  }

  /** After an update the keys are those of `c`, then the new keys of `d` in
      their order in `d`. */
  lemma {:induction false} UpdateKeys(c: Context, d: Context)
    requires DistinctKeys(c)
    ensures Keys(Update(c, d)) == Dedup(Keys(c) + Keys(d))
  {
    if |d| == 0 {
      assert Keys(c) + Keys(d) == Keys(c);
      DedupDistinct(Keys(c));
    } else {
      var init := d[..|d| - 1];
      UpdateKeys(c, init);
      PutDistinct(Update(c, init), d[|d| - 1].0, d[|d| - 1].1);
      PutKeys(Update(c, init), d[|d| - 1].0, d[|d| - 1].1);
      assert Keys(d) == Keys(init) + [d[|d| - 1].0];
      assert Keys(c) + Keys(d) == (Keys(c) + Keys(init)) + [d[|d| - 1].0];
      assert (Keys(c) + Keys(d))[..|Keys(c) + Keys(d)| - 1] == Keys(c) + Keys(init);
    }
  }

  /** A list without duplicates is its own first-seen list. */
  lemma {:induction false} DedupDistinct(xs: seq<string>)
    requires NoDuplicates(xs)
    ensures Dedup(xs) == xs
  {
    if |xs| > 0 {
      var init := xs[..|xs| - 1];
      DedupDistinct(init);
      assert xs == init + [xs[|xs| - 1]];
      assert xs[|xs| - 1] !in init;
    }
  }

  /** An empty dict updated with every context of the list, in order. */
  function Merge(cs: seq<Context>): Context
  {
    if |cs| == 0 then [] else Update(Merge(cs[..|cs| - 1]), cs[|cs| - 1])
  }

  /** Context `i` is the last one of the list that has key `k`. */
  predicate LastHolder(cs: seq<Context>, k: string, i: int)
  {
    && 0 <= i < |cs|
    && Lookup(cs[i], k).Some?
    && forall j :: i < j < |cs| ==> Lookup(cs[j], k).None?
  }

  /** Last write wins: a key of the merged context holds the value it has in
      the last context that has it. */
  lemma {:induction false} MergeLookupLast(cs: seq<Context>, k: string, i: int)
    requires LastHolder(cs, k, i)
    ensures Lookup(Merge(cs), k) == Lookup(cs[i], k)
  {
    var n := |cs| - 1;
    var init := cs[..n];
    assert Merge(cs) == Update(Merge(init), cs[n]);
    UpdateLookup(Merge(init), cs[n], k);
    if i < n {
      assert Lookup(cs[n], k).None?;
      assert LastHolder(init, k, i) by {
        forall j | i < j < n ensures Lookup(init[j], k).None? {
          assert init[j] == cs[j];
        }
      }
      MergeLookupLast(init, k, i);
      assert init[i] == cs[i];
    }
  }

  /** A key that no context has is absent from the merged context, and a
      key that some context has is present. */
  lemma {:induction false} MergeLookupNone(cs: seq<Context>, k: string)
    ensures Lookup(Merge(cs), k).None? <==> forall i :: 0 <= i < |cs| ==> Lookup(cs[i], k).None?
  {
    if |cs| > 0 {
      var n := |cs| - 1;
      var init := cs[..n];
      assert Merge(cs) == Update(Merge(init), cs[n]);
      MergeLookupNone(init, k);
      UpdateLookup(Merge(init), cs[n], k);
      assert forall i :: 0 <= i < n ==> cs[i] == init[i];
      assert (forall i :: 0 <= i < |cs| ==> Lookup(cs[i], k).None?) <==>
        (forall i :: 0 <= i < n ==> Lookup(init[i], k).None?) && Lookup(cs[n], k).None?;
    }
  }

  /** The merged keys are the keys of all contexts, each in the place of its
      first appearance. */
  lemma {:induction false} MergeKeys(cs: seq<Context>)
    ensures DistinctKeys(Merge(cs))
    ensures Keys(Merge(cs)) == Dedup(Flatten(seq(|cs|, i requires 0 <= i < |cs| => Keys(cs[i]))))
  {
    var ks := seq(|cs|, i requires 0 <= i < |cs| => Keys(cs[i]));
    if |cs| > 0 {
      var init := cs[..|cs| - 1];
      var ksInit := seq(|init|, i requires 0 <= i < |init| => Keys(init[i]));
      MergeKeys(init);
      assert ks[..|ks| - 1] == ksInit;
      UpdateKeys(Merge(init), cs[|cs| - 1]);
      DedupAppend(Flatten(ksInit), Keys(cs[|cs| - 1]));
    }
  }

  /** Deduplicating a list whose front is already deduplicated. */
  lemma {:induction false} DedupAppend(xs: seq<string>, ys: seq<string>)
    ensures Dedup(Dedup(xs) + ys) == Dedup(xs + ys)
  {
    if |ys| == 0 {
      assert Dedup(xs) + ys == Dedup(xs) && xs + ys == xs;
      DedupDistinct(Dedup(xs));
    } else {
      var init := ys[..|ys| - 1];
      var y := ys[|ys| - 1];
      DedupAppend(xs, init);
      assert Dedup(xs) + ys == (Dedup(xs) + init) + [y];
      assert xs + ys == (xs + init) + [y];
      DedupSnoc(Dedup(xs) + init, y);
      DedupSnoc(xs + init, y);
    }
  }

  lemma DedupSnoc(xs: seq<string>, y: string)
    ensures Dedup(xs + [y]) == if y in Dedup(xs) then Dedup(xs) else Dedup(xs) + [y]
  {
    assert (xs + [y])[..|xs|] == xs;
  }
}
