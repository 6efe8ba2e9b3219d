/**
 * The meaning of the three jq filters the proxy is configured with: a
 * projection onto a fixed list of keys and two bottom-up walks that delete
 * object entries whose key matches a rule.
 */
module Filters {
  import opened Wrappers
  import opened Json

  /** Which object keys a stripping walk deletes. */
  datatype KeyRule =
    | AnyOf(names: set<string>)   // `.key | IN(...)`: the key equals one of the names
    | LinkOrUrl                   // the anchored pattern `_links`, `.*[Uu]rl` or `href`

  predicate EndsWith(k: string, suffix: string)
  {
    |suffix| <= |k| && k[|k| - |suffix|..] == suffix
  }

  /**
   * Whether the walk deletes an entry with key `k`. For the anchored pattern
   * this is, character by character: the key is `_links` or `href`, or it has
   * at least three characters and ends in `u` or `U` followed by `rl`.
   */
  predicate Drops(rule: KeyRule, k: string): (d: bool)
    ensures rule.AnyOf? ==> (d <==> k in rule.names)
    ensures rule.LinkOrUrl? ==>
      (d <==> k == "_links" || k == "href" ||
              (|k| >= 3 && (k[|k| - 3] == 'u' || k[|k| - 3] == 'U') && k[|k| - 2] == 'r' && k[|k| - 1] == 'l'))
  {
    assert |k| >= 3 ==> k[|k| - 3..] == [k[|k| - 3], k[|k| - 2], k[|k| - 1]];
    match rule
    case AnyOf(names) => k in names
    case LinkOrUrl => k == "_links" || k == "href" || EndsWith(k, "url") || EndsWith(k, "Url")
  }

  /** A compiled program: what a jq source configured in the table means. */
  datatype Filter =
    | Projection(keys: seq<string>)   // `{"a", "b", ...}`, each key standing for `"a": .a`
    | Walk(rule: KeyRule)             // `walk(if type == "object" then with_entries(select(.key | rule | not)) else . end)`

  /**
   * What running a program on one input gives: the outputs it emits, in
   * order, and whether it then raised an error instead of finishing.
   */
  datatype Emission = Emission(outputs: seq<Json>, raised: bool)

  // ---------------------------------------------------------------------
  // The stripping walk

  /** `walk` with the entry filter of `rule`: children first, then the node itself. */
  function Strip(rule: KeyRule, j: Json): (r: Json)
    decreases j
    ensures r.Arr? <==> j.Arr?
    ensures r.Obj? <==> j.Obj?
    ensures j.Arr? ==> |r.items| == |j.items|
    ensures !j.Arr? && !j.Obj? ==> r == j
  {
    match j
    case Arr(xs) => Arr(StripAll(rule, xs))
    case Obj(fs) => Obj(StripFields(rule, fs))
    case _ => j
  }

  function StripAll(rule: KeyRule, xs: seq<Json>): (r: seq<Json>)
    decreases xs
    ensures |r| == |xs|
    ensures forall i :: 0 <= i < |xs| ==> r[i] == Strip(rule, xs[i])
  {
    if xs == [] then [] else [Strip(rule, xs[0])] + StripAll(rule, xs[1..])
  }

  function StripFields(rule: KeyRule, fs: seq<(string, Json)>): (r: seq<(string, Json)>)
    decreases fs
    ensures |r| <= |fs|
  {
    if fs == [] then []
    else
      var (k, v) := fs[0];
      assert v < fs[0];
      if Drops(rule, k) then StripFields(rule, fs[1..])
      else [(k, Strip(rule, v))] + StripFields(rule, fs[1..])
  }

  /** No object at any depth of `j` has a key that `rule` drops. */
  predicate Clean(rule: KeyRule, j: Json)
    decreases j
  {
    match j
    case Arr(xs) => forall i :: 0 <= i < |xs| ==> Clean(rule, xs[i])
    case Obj(fs) => forall i :: 0 <= i < |fs| ==> !Drops(rule, fs[i].0) && Clean(rule, fs[i].1)
    case _ => true
  }

  /** The keys of `ks` that `rule` keeps, in their order. */
  function Kept(rule: KeyRule, ks: seq<string>): (r: seq<string>)
  {
    if ks == [] then []
    else if Drops(rule, ks[0]) then Kept(rule, ks[1..])
    else [ks[0]] + Kept(rule, ks[1..])
  }

  /** After the walk, no object at any depth carries a key the rule drops. */
  lemma {:induction false} StripIsClean(rule: KeyRule, j: Json)
    decreases j
    ensures Clean(rule, Strip(rule, j))
  {
    match j
    case Arr(xs) =>
      forall i | 0 <= i < |xs| ensures Clean(rule, StripAll(rule, xs)[i]) {
        StripIsClean(rule, xs[i]);
      }
    case Obj(fs) => StripFieldsClean(rule, fs);
    case _ =>
  }

  lemma {:induction false} StripFieldsClean(rule: KeyRule, fs: seq<(string, Json)>)
    decreases fs
    ensures forall i :: 0 <= i < |StripFields(rule, fs)| ==>
      !Drops(rule, StripFields(rule, fs)[i].0) && Clean(rule, StripFields(rule, fs)[i].1)
  {
    if fs != [] {
      var (k, v) := fs[0];
      assert v < fs[0];
      StripFieldsClean(rule, fs[1..]);
      if !Drops(rule, k) {
        StripIsClean(rule, v);
      }
    }
  }

  /** A value with no dropped key anywhere passes through the walk unchanged. */
  lemma {:induction false} CleanIsFixpoint(rule: KeyRule, j: Json)
    requires Clean(rule, j)
    decreases j
    ensures Strip(rule, j) == j
  {
    match j
    case Arr(xs) =>
      forall i | 0 <= i < |xs| ensures StripAll(rule, xs)[i] == xs[i] {
        CleanIsFixpoint(rule, xs[i]);
      }
    case Obj(fs) => CleanFieldsFixpoint(rule, fs);
    case _ =>
  }

  lemma {:induction false} CleanFieldsFixpoint(rule: KeyRule, fs: seq<(string, Json)>)
    requires forall i :: 0 <= i < |fs| ==> !Drops(rule, fs[i].0) && Clean(rule, fs[i].1)
    decreases fs
    ensures StripFields(rule, fs) == fs
  {
    if fs != [] {
      var (k, v) := fs[0];
      assert v < fs[0];
      assert !Drops(rule, k) && Clean(rule, v);
      CleanIsFixpoint(rule, v);
      CleanFieldsFixpoint(rule, fs[1..]);
    }
  }

  /** The walk leaves a value untouched exactly when nothing in it is to be dropped. */
  lemma StripFixpointIff(rule: KeyRule, j: Json)
    ensures Strip(rule, j) == j <==> Clean(rule, j)
  {
    StripIsClean(rule, j);
    if Clean(rule, j) {
      CleanIsFixpoint(rule, j);
    }
  }

  /** Running the walk twice is the same as running it once. */
  lemma StripIdempotent(rule: KeyRule, j: Json)
    ensures Strip(rule, Strip(rule, j)) == Strip(rule, j)
  {
    StripIsClean(rule, j);
    CleanIsFixpoint(rule, Strip(rule, j));
  }

  /** The surviving keys of an object are its kept keys, in their original order. */
  lemma {:induction false} StripKeepsOrder(rule: KeyRule, fs: seq<(string, Json)>)
    decreases fs
    ensures Keys(StripFields(rule, fs)) == Kept(rule, Keys(fs))
  {
    if fs != [] {
      StripKeepsOrder(rule, fs[1..]);
      assert Keys(fs)[1..] == Keys(fs[1..]);
    }
  }

  /**
   * Looking a key up after the walk: a dropped key is gone, any other key
   * still holds its original value, itself walked.
   */
  lemma {:induction false} StripLookup(rule: KeyRule, fs: seq<(string, Json)>, k: string)
    decreases fs
    ensures Get(StripFields(rule, fs), k) ==
      if Drops(rule, k) then None
      else match Get(fs, k) case None => None case Some(v) => Some(Strip(rule, v))
  {
    if fs != [] {
      StripLookup(rule, fs[1..], k);
    }
  }

  /** A rule that drops no more than another one can no longer change what the other leaves. */
  lemma {:induction false} CleanWeaken(a: KeyRule, b: KeyRule, j: Json)
    requires forall k :: Drops(a, k) ==> Drops(b, k)
    requires Clean(b, j)
    decreases j
    ensures Clean(a, j)
  {
    match j
    case Arr(xs) =>
      forall i | 0 <= i < |xs| ensures Clean(a, xs[i]) {
        CleanWeaken(a, b, xs[i]);
      }
    case Obj(fs) =>
      forall i | 0 <= i < |fs| ensures !Drops(a, fs[i].0) && Clean(a, fs[i].1) {
        assert fs[i].1 < fs[i];
        CleanWeaken(a, b, fs[i].1);
      }
    case _ =>
  }

  /**
   * Walking with a narrower rule before or after a wider one gives the
   * result of the wider one alone.
   */
  lemma {:induction false} StripAbsorbs(a: KeyRule, b: KeyRule, j: Json)
    requires forall k :: Drops(a, k) ==> Drops(b, k)
    decreases j
    ensures Strip(b, Strip(a, j)) == Strip(b, j)
    ensures Strip(a, Strip(b, j)) == Strip(b, j)
  {
    StripIsClean(b, j);
    CleanWeaken(a, b, Strip(b, j));
    CleanIsFixpoint(a, Strip(b, j));
    match j
    case Arr(xs) =>
      forall i | 0 <= i < |xs| ensures StripAll(b, StripAll(a, xs))[i] == StripAll(b, xs)[i] {
        StripAbsorbs(a, b, xs[i]);
      }
    case Obj(fs) => StripFieldsAbsorb(a, b, fs);
    case _ =>
  }

  lemma {:induction false} StripFieldsAbsorb(a: KeyRule, b: KeyRule, fs: seq<(string, Json)>)
    requires forall k :: Drops(a, k) ==> Drops(b, k)
    decreases fs
    ensures StripFields(b, StripFields(a, fs)) == StripFields(b, fs)
  {
    if fs != [] {
      var (k, v) := fs[0];
      assert v < fs[0];
      StripFieldsAbsorb(a, b, fs[1..]);
      if !Drops(a, k) && !Drops(b, k) {
        StripAbsorbs(a, b, v);
      }
    }
  }

  // ---------------------------------------------------------------------
  // The projection

  /** The entries `"k": .k` for each key, in the order the keys are listed. */
  function ProjectFields(keys: seq<string>, j: Json): (r: seq<(string, Json)>)
    requires j.Obj? || j.Null?
    ensures Keys(r) == keys
    ensures forall i :: 0 <= i < |keys| ==> Index(j, keys[i]) == Some(r[i].1)
  {
    if keys == [] then []
    else [(keys[0], Index(j, keys[0]).value)] + ProjectFields(keys[1..], j)
  }

  /**
   * On an object, the projection keeps exactly the listed keys, each with
   * the input's value for it or null when the input lacks it; every other
   * key is gone.
   */
  lemma ProjectObject(keys: seq<string>, fs: seq<(string, Json)>, k: string)
    requires Distinct(keys)
    ensures Keys(ProjectFields(keys, Obj(fs))) == keys
    ensures k in keys && k in Keys(fs) ==> Get(ProjectFields(keys, Obj(fs)), k) == Get(fs, k)
    ensures k in keys && k !in Keys(fs) ==> Get(ProjectFields(keys, Obj(fs)), k) == Some(Null)
    ensures k !in keys ==> Get(ProjectFields(keys, Obj(fs)), k) == None
  {
    var out := ProjectFields(keys, Obj(fs));
    if k in keys {
      var i :| 0 <= i < |keys| && keys[i] == k;
      GetUnique(out, i);
    }
  }

  // ---------------------------------------------------------------------
  // Running a program

  /** What a compiled program emits on one input. */
  function Execute(f: Filter, j: Json): (e: Emission)
    ensures |e.outputs| <= 1
    ensures e.raised <==> e.outputs == []
    ensures f.Walk? ==> e.outputs == [Strip(f.rule, j)] && Clean(f.rule, e.outputs[0])
    ensures f.Projection? ==> (e.outputs != [] <==> j.Obj? || j.Null?)
    ensures f.Projection? && e.outputs != [] ==>
      e.outputs[0].Obj? && Keys(e.outputs[0].fields) == f.keys &&
      forall i :: 0 <= i < |f.keys| ==> Index(j, f.keys[i]) == Some(e.outputs[0].fields[i].1)
  {
    match f
    case Walk(rule) => StripIsClean(rule, j); Emission([Strip(rule, j)], false)
    case Projection(keys) =>
      if j.Obj? || j.Null? then Emission([Obj(ProjectFields(keys, j))], false)
      else Emission([], true)
  }
}
