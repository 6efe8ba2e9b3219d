/**
 * JSON values as the proxy sees them once a text part has been parsed.
 * An object is its list of entries in insertion order, the order a Python
 * dict and a jq object both keep. Numbers are integers only.
 */
module Json {
  import opened Wrappers

  datatype Json =
    | Null
    | Bool(b: bool)
    | Num(n: int)
    | Str(s: string)
    | Arr(items: seq<Json>)
    | Obj(fields: seq<(string, Json)>)

  /** The keys of an entry list, in order. */
  function Keys(fs: seq<(string, Json)>): (ks: seq<string>)
    ensures |ks| == |fs|
    ensures forall i :: 0 <= i < |fs| ==> ks[i] == fs[i].0
  {
    if fs == [] then [] else [fs[0].0] + Keys(fs[1..])
  }

  /**
   * The value stored under key `k`. When a key occurs more than once the
   * last entry wins, as it does in the dict that json.loads builds.
   */
  function Get(fs: seq<(string, Json)>, k: string): (r: Option<Json>)
    ensures r.None? <==> k !in Keys(fs)
    ensures r.Some? ==> (k, r.value) in fs
  {
    if fs == [] then None
    else match Get(fs[1..], k)
      case Some(v) => Some(v)
      case None => if fs[0].0 == k then Some(fs[0].1) else None
  }

  /** The value found is that of the last entry with the key: no later entry has it. */
  lemma {:induction false} GetIsLast(fs: seq<(string, Json)>, k: string)
    requires k in Keys(fs)
    ensures exists i :: 0 <= i < |fs| && fs[i] == (k, Get(fs, k).value) && k !in Keys(fs[i + 1..])
  {
    var rest := fs[1..];
    if k in Keys(rest) {
      GetIsLast(rest, k);
      var i :| 0 <= i < |rest| && rest[i] == (k, Get(rest, k).value) && k !in Keys(rest[i + 1..]);
      assert fs[i + 1] == rest[i] && fs[i + 2..] == rest[i + 1..];
    } else {
      assert fs[1..] == rest;
    }
  }

  /** jq's `.k` applied to a value: null on null, an error on anything but an object. */
  function Index(j: Json, k: string): (r: Option<Json>)
    ensures r.Some? <==> j.Obj? || j.Null?
    ensures j.Obj? && k in Keys(j.fields) ==> r == Get(j.fields, k)
    ensures j.Obj? && k !in Keys(j.fields) ==> r == Some(Null)
    ensures j.Null? ==> r == Some(Null)
  {
    match j
    case Null => Some(Null)
    case Obj(fs) => (match Get(fs, k) case Some(v) => Some(v) case None => Some(Null))
    case _ => None
  }

  /** No key occurs twice in `ks`. */
  predicate Distinct(ks: seq<string>)
  {
    forall i, j :: 0 <= i < j < |ks| ==> ks[i] != ks[j]
  }

  /** In an entry list without repeated keys, looking a key up finds its one entry. */
  lemma {:induction false} GetUnique(fs: seq<(string, Json)>, i: nat)
    requires Distinct(Keys(fs))
    requires i < |fs|
    ensures Get(fs, fs[i].0) == Some(fs[i].1)
  {
    var ks := Keys(fs);
    if i == 0 {
      assert fs[0].0 !in Keys(fs[1..]) by {
        forall m | 0 <= m < |fs[1..]| ensures Keys(fs[1..])[m] != fs[0].0 {
          assert ks[m + 1] == fs[1..][m].0;
        }
      }
    } else {
      assert Distinct(Keys(fs[1..])) by {
        forall a, b | 0 <= a < b < |fs[1..]| ensures Keys(fs[1..])[a] != Keys(fs[1..])[b] {
          assert ks[a + 1] != ks[b + 1];
        }
      }
      GetUnique(fs[1..], i - 1);
    }
  }
}
