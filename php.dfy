/**
 * The part of PHP's value model that the Asana client relies on: scalars,
 * ordered arrays (a PHP array is an insertion-ordered map from integer or
 * string keys to values), truthiness, loose comparison with "", string
 * interpolation, and the array built-ins `$a[$k] = $v`, `array_merge` and
 * `array_filter`.
 */
module Php {

  datatype Key = IntKey(i: int) | StrKey(s: string)

  datatype Value =
    | Null
    | Bool(b: bool)
    | Int(i: int)
    | Str(s: string)
    | Arr(entries: seq<(Key, Value)>)
      /** the CURLFile object that `curl_file_create($path)` returns */
    | CurlFile(path: string)

  /** A PHP array: its entries in insertion order. */
  type Entries = seq<(Key, Value)>

  /** PHP's conversion to bool, as used by `if`, `?:`, `empty` and `array_filter`. */
  predicate Truthy(v: Value) {
    match v
    case Null => false
    case Bool(b) => b
    case Int(i) => i != 0
    case Str(s) => s != "" && s != "0"
    case Arr(es) => es != []
    case CurlFile(_) => true
  }

  /** `$v ?: $fallback` */
  function Elvis(v: Value, fallback: Value): Value {
    if Truthy(v) then v else fallback
  }

  /** `$v == ""` under PHP 7's loose comparison. */
  predicate LooselyEmpty(v: Value) {
    match v
    case Null => true
    case Bool(b) => !b
    case Int(i) => i == 0
    case Str(s) => s == ""
    case _ => false
  }

  /** Every value loosely equal to "" is falsy; "0" and [] are the falsy values that are not. */
  lemma {:induction false} LooselyEmptyIsFalsy(v: Value)
    ensures LooselyEmpty(v) ==> !Truthy(v)
    ensures !Truthy(v) && !LooselyEmpty(v) <==> v == Str("0") || v == Arr([])
  {
  }

  function DigitChar(d: nat): (c: char)
    requires d < 10
    ensures '0' <= c <= '9'
  {
    "0123456789"[d]
  }

  /** The decimal digits of `n`, most significant first. */
  function NatText(n: nat): (r: string)
    ensures r != []
    ensures forall i :: 0 <= i < |r| ==> '0' <= r[i] <= '9'
    decreases n
  {
    if n < 10 then [DigitChar(n)] else NatText(n / 10) + [DigitChar(n % 10)]
  }

  function IntText(i: int): string {
    if i < 0 then "-" + NatText(-i) else NatText(i)
  }

  /** The text of a key, as `"{$key}"` and string concatenation produce it. */
  function KeyText(k: Key): string {
    match k
    case IntKey(i) => IntText(i)
    case StrKey(s) => s
  }

  /**
   * The text of a value inside a double-quoted string or after `.`.
   * An array reads "Array"; a CURLFile object, which PHP refuses to convert,
   * reads as the empty string here.
   */
  function Text(v: Value): string {
    match v
    case Null => ""
    case Bool(b) => if b then "1" else ""
    case Int(i) => IntText(i)
    case Str(s) => s
    case Arr(_) => "Array"
    case CurlFile(_) => ""
  }

  // ---------------------------------------------------------------------------
  // Ordered arrays
  // ---------------------------------------------------------------------------

  function KeysOf(a: Entries): (ks: seq<Key>)
    ensures |ks| == |a|
    ensures forall i :: 0 <= i < |a| ==> ks[i] == a[i].0
  {
    seq(|a|, i requires 0 <= i < |a| => a[i].0)
  }

  predicate HasKey(a: Entries, k: Key) {
    k in KeysOf(a)
  }

  predicate DistinctKeys(a: Entries) {
    forall i, j :: 0 <= i < j < |a| ==> a[i].0 != a[j].0
  }

  predicate AllStrKeys(a: Entries) {
    forall i :: 0 <= i < |a| ==> a[i].0.StrKey?
  }

  /** `$a[$k]`: the value stored under `k`, or null (with a notice) when there is none. */
  function Get(a: Entries, k: Key): Value {
    if a == [] then Null
    else if a[0].0 == k then a[0].1
    else Get(a[1..], k)
  }

  /** `isset($a[$k])`: the key is present and its value is not null. */
  predicate IsSet(a: Entries, k: Key) {
    HasKey(a, k) && Get(a, k) != Null
  }

  /** `$a[$k] = $v`: overwrite the entry for `k` where it stands, or append a new one. */
  function Put(a: Entries, k: Key, v: Value): Entries {
    if a == [] then [(k, v)]
    else if a[0].0 == k then [(k, v)] + a[1..]
    else [a[0]] + Put(a[1..], k, v)
  }

  /** The position of the first entry for `k`. */
  function IndexOf(a: Entries, k: Key): (r: nat)
    requires HasKey(a, k)
    ensures r < |a| && a[r].0 == k
    ensures forall j :: 0 <= j < r ==> a[j].0 != k
  {
    if a[0].0 == k then 0
    else
      KeysOfCons(a);
      1 + IndexOf(a[1..], k)
  }

  /** Number of entries with an integer key. */
  function IntCount(a: Entries): nat {
    if a == [] then 0 else (if a[0].0.IntKey? then 1 else 0) + IntCount(a[1..])
  }

  /**
   * One step of `array_merge`: a string key is written with `Put`, so that a
   * later value replaces an earlier one in place; an integer key is
   * renumbered to the next free index and appended.
   */
  function MergeStep(acc: Entries, e: (Key, Value)): Entries {
    match e.0
    case StrKey(_) => Put(acc, e.0, e.1)
    case IntKey(_) => acc + [(IntKey(IntCount(acc)), e.1)]
  }

  function MergeFrom(acc: Entries, es: Entries): Entries
    decreases |es|
  {
    if es == [] then acc
    else MergeStep(MergeFrom(acc, es[..|es| - 1]), es[|es| - 1])
  }

  /** `array_merge($a, $b)` */
  function Merge(a: Entries, b: Entries): Entries {
    MergeFrom(MergeFrom([], a), b)
  }

  /** `array_filter($a)`: the entries whose value is truthy, keys kept. */
  function FilterTruthy(a: Entries): Entries {
    if a == [] then []
    else (if Truthy(a[0].1) then [a[0]] else []) + FilterTruthy(a[1..])
  }

  // ---------------------------------------------------------------------------
  // Reference definitions for array_merge over string keys
  // ---------------------------------------------------------------------------

  /** The entries of `defaults`, in their order, each replaced by the value `data` gives its key. */
  function Overlay(defaults: Entries, data: Entries): Entries {
    if defaults == [] then []
    else
      var k := defaults[0].0;
      [(k, if HasKey(data, k) then Get(data, k) else defaults[0].1)] + Overlay(defaults[1..], data)
  }

  /** The entries of `data`, in their order, whose key is not one of `ks`. */
  function Without(data: Entries, ks: seq<Key>): Entries
    decreases |data|
  {
    if data == [] then []
    else Without(data[..|data| - 1], ks) + (if data[|data| - 1].0 in ks then [] else [data[|data| - 1]])
  }

  // ---------------------------------------------------------------------------
  // Lemmas
  // ---------------------------------------------------------------------------

  lemma {:induction false} KeysOfAppend(a: Entries, b: Entries)
    ensures KeysOf(a + b) == KeysOf(a) + KeysOf(b)
  {
  }

  lemma {:induction false} KeysOfCons(a: Entries)
    requires a != []
    ensures KeysOf(a) == [a[0].0] + KeysOf(a[1..])
  {
  }

  /**
   * The effect of `$a[$k] = $v` on the array: a new key is appended, an
   * existing one is overwritten where it stands, and every other entry keeps
   * its value and its position.
   */
  lemma {:induction false} PutEffect(a: Entries, k: Key, v: Value)
    ensures !HasKey(a, k) ==> Put(a, k, v) == a + [(k, v)]
    ensures HasKey(a, k) ==> Put(a, k, v) == a[IndexOf(a, k) := (k, v)]
  {
    if HasKey(a, k) {
      PutPresent(a, k, v);
    } else {
      PutAbsent(a, k, v);
    }
  }

  lemma {:induction false} PutAbsent(a: Entries, k: Key, v: Value)
    requires !HasKey(a, k)
    ensures Put(a, k, v) == a + [(k, v)]
  {
    if a != [] {
      var t := a[1..];
      assert KeysOf(a) == [a[0].0] + KeysOf(t);
      assert !HasKey(t, k);
      PutAbsent(t, k, v);
      assert Put(a, k, v) == [a[0]] + (t + [(k, v)]);
      assert [a[0]] + (t + [(k, v)]) == ([a[0]] + t) + [(k, v)];
      assert [a[0]] + t == a;
    }
  }

  lemma {:induction false} PutPresent(a: Entries, k: Key, v: Value)
    requires HasKey(a, k)
    ensures Put(a, k, v) == a[IndexOf(a, k) := (k, v)]
  {
    var t := a[1..];
    if a[0].0 == k {
      UpdateHead(a, (k, v));
    } else {
      assert KeysOf(a) == [a[0].0] + KeysOf(t);
      assert HasKey(t, k);
      PutPresent(t, k, v);
      var j := IndexOf(t, k);
      assert IndexOf(a, k) == j + 1;
      UpdateCons(a, j, (k, v));
    }
  }

  lemma {:induction false} UpdateHead(a: Entries, e: (Key, Value))
    requires a != []
    ensures [e] + a[1..] == a[0 := e]
  {
  }

  lemma {:induction false} UpdateCons(a: Entries, j: nat, e: (Key, Value))
    requires j + 1 < |a|
    ensures [a[0]] + a[1..][j := e] == a[j + 1 := e]
  {
  }

  /** Reading back after `$a[$k] = $v`: `k` gives `v`, every other key what it gave before. */
  lemma {:induction false} PutGet(a: Entries, k: Key, v: Value, k': Key)
    ensures Get(Put(a, k, v), k') == if k' == k then v else Get(a, k')
  {
    if a != [] && a[0].0 != k {
      PutGet(a[1..], k, v, k');
    }
  }

  /** The keys after `$a[$k] = $v`: unchanged when `k` was present, `k` appended otherwise. */
  lemma {:induction false} PutKeys(a: Entries, k: Key, v: Value)
    ensures KeysOf(Put(a, k, v)) == if HasKey(a, k) then KeysOf(a) else KeysOf(a) + [k]
    ensures DistinctKeys(a) ==> DistinctKeys(Put(a, k, v))
  {
    PutEffect(a, k, v);
    if HasKey(a, k) {
      var i := IndexOf(a, k);
      assert KeysOf(a[i := (k, v)]) == KeysOf(a);
    } else {
      KeysOfAppend(a, [(k, v)]);
    }
  }

  lemma {:induction false} PutKeysStr(a: Entries, k: Key, v: Value)
    requires AllStrKeys(a) && k.StrKey?
    ensures AllStrKeys(Put(a, k, v))
  {
    PutEffect(a, k, v);
  }

  /** `$a[$k] = $v` on a concatenation touches the part where `k` already is, or the end. */
  lemma {:induction false} PutAppend(a: Entries, b: Entries, k: Key, v: Value)
    ensures Put(a + b, k, v) == if HasKey(a, k) then Put(a, k, v) + b else a + Put(b, k, v)
  {
    if a == [] {
      assert a + b == b;
    } else {
      var t := a[1..];
      HasKeyCons(a, k);
      assert (a + b)[0] == a[0] && (a + b)[1..] == t + b;
      if a[0].0 == k {
        calc {
          Put(a + b, k, v);
          [(k, v)] + (t + b);
          ([(k, v)] + t) + b;
        }
      } else {
        PutAppend(t, b, k, v);
        if HasKey(t, k) {
          calc {
            Put(a + b, k, v);
            [a[0]] + Put(t + b, k, v);
            [a[0]] + (Put(t, k, v) + b);
            ([a[0]] + Put(t, k, v)) + b;
          }
        } else {
          calc {
            Put(a + b, k, v);
            [a[0]] + Put(t + b, k, v);
            [a[0]] + (t + Put(b, k, v));
            ([a[0]] + t) + Put(b, k, v);
            { assert [a[0]] + t == a; }
            a + Put(b, k, v);
          }
        }
      }
    }
  }

  lemma {:induction false} HasKeyCons(a: Entries, k: Key)
    requires a != []
    ensures HasKey(a, k) <==> a[0].0 == k || HasKey(a[1..], k)
  {
    KeysOfCons(a);
  }

  lemma {:induction false} GetMissing(a: Entries, k: Key)
    requires !HasKey(a, k)
    ensures Get(a, k) == Null
  {
    if a != [] {
      KeysOfCons(a);
      GetMissing(a[1..], k);
    }
  }

  /** In an array with distinct keys, `$a[k]` is the value stored at k's position. */
  lemma {:induction false} GetAt(a: Entries, i: nat)
    requires DistinctKeys(a) && i < |a|
    ensures Get(a, a[i].0) == a[i].1
  {
    if i > 0 {
      assert a[0].0 != a[i].0;
      assert a[1..][i - 1] == a[i];
      GetAt(a[1..], i - 1);
    }
  }

  lemma {:induction false} GetAppend(a: Entries, b: Entries, k: Key)
    ensures Get(a + b, k) == if HasKey(a, k) then Get(a, k) else Get(b, k)
  {
    if a == [] {
      assert a + b == b;
    } else {
      KeysOfCons(a);
      assert (a + b)[0] == a[0] && (a + b)[1..] == a[1..] + b;
      if a[0].0 != k {
        GetAppend(a[1..], b, k);
      }
    }
  }

  lemma {:induction false} FilterAppend(a: Entries, b: Entries)
    ensures FilterTruthy(a + b) == FilterTruthy(a) + FilterTruthy(b)
  {
    if a == [] {
      assert a + b == b;
    } else {
      var t := a[1..];
      var head := if Truthy(a[0].1) then [a[0]] else [];
      assert (a + b)[0] == a[0] && (a + b)[1..] == t + b;
      FilterAppend(t, b);
      calc {
        FilterTruthy(a + b);
        head + FilterTruthy(t + b);
        head + (FilterTruthy(t) + FilterTruthy(b));
        (head + FilterTruthy(t)) + FilterTruthy(b);
      }
    }
  }

  /** `array_filter` keeps exactly the truthy entries, in order. */
  lemma {:induction false} FilterTruthyKeeps(a: Entries)
    ensures forall i :: 0 <= i < |FilterTruthy(a)| ==> Truthy(FilterTruthy(a)[i].1)
    ensures forall e :: e in a && Truthy(e.1) <==> e in FilterTruthy(a)
  {
    if a != [] {
      FilterTruthyKeeps(a[1..]);
      assert a == [a[0]] + a[1..];
    }
  }

  /** Two arrays that agree key by key on which values are truthy, and on those values, filter alike. */
  lemma {:induction false} FilterSame(a: Entries, b: Entries)
    requires |a| == |b|
    requires forall i :: 0 <= i < |a| ==>
      a[i].0 == b[i].0 && Truthy(a[i].1) == Truthy(b[i].1) && (Truthy(a[i].1) ==> a[i].1 == b[i].1)
    ensures FilterTruthy(a) == FilterTruthy(b)
  {
    if a != [] {
      FilterSame(a[1..], b[1..]);
    }
  }

  predicate AllFalsy(a: Entries) {
    forall i :: 0 <= i < |a| ==> !Truthy(a[i].1)
  }

  lemma {:induction false} FilterAllFalsy(a: Entries)
    requires AllFalsy(a)
    ensures FilterTruthy(a) == []
  {
    if a != [] {
      FilterAllFalsy(a[1..]);
    }
  }

  lemma {:induction false} PutFalsy(a: Entries, k: Key, v: Value)
    requires AllFalsy(a) && !Truthy(v)
    ensures AllFalsy(Put(a, k, v))
  {
    if a != [] && a[0].0 != k {
      PutFalsy(a[1..], k, v);
    }
  }

  /** `array_merge` of arrays whose values are all falsy has only falsy values. */
  lemma {:induction false} MergeFromFalsy(acc: Entries, es: Entries)
    requires AllFalsy(acc) && AllFalsy(es)
    ensures AllFalsy(MergeFrom(acc, es))
    decreases |es|
  {
    if es != [] {
      var p, e := es[..|es| - 1], es[|es| - 1];
      MergeFromFalsy(acc, p);
      if e.0.StrKey? {
        PutFalsy(MergeFrom(acc, p), e.0, e.1);
      }
    }
  }

  lemma {:induction false} OverlayKeys(defaults: Entries, data: Entries)
    ensures KeysOf(Overlay(defaults, data)) == KeysOf(defaults)
  {
    if defaults != [] {
      OverlayKeys(defaults[1..], data);
      KeysOfCons(defaults);
      KeysOfAppend([(defaults[0].0, Null)], Overlay(defaults[1..], data));
    }
  }

  /** Entry `i` of an overlay is entry `i` of the defaults, with the value the data gives its key. */
  lemma {:induction false} OverlayAt(defaults: Entries, data: Entries)
    ensures |Overlay(defaults, data)| == |defaults|
    ensures forall i :: 0 <= i < |defaults| ==>
      Overlay(defaults, data)[i]
      == (defaults[i].0, if HasKey(data, defaults[i].0) then Get(data, defaults[i].0) else defaults[i].1)
  {
    if defaults != [] {
      OverlayAt(defaults[1..], data);
      forall i | 1 <= i < |defaults|
        ensures Overlay(defaults, data)[i]
             == (defaults[i].0, if HasKey(data, defaults[i].0) then Get(data, defaults[i].0) else defaults[i].1)
      {
        assert Overlay(defaults, data)[i] == Overlay(defaults[1..], data)[i - 1];
        assert defaults[1..][i - 1] == defaults[i];
      }
    }
  }

  lemma {:induction false} OverlayEmpty(defaults: Entries)
    ensures Overlay(defaults, []) == defaults
  {
    if defaults != [] {
      OverlayEmpty(defaults[1..]);
      assert defaults == [defaults[0]] + defaults[1..];
    }
  }

  lemma {:induction false} OverlayIgnores(defaults: Entries, data: Entries)
    requires forall i :: 0 <= i < |data| ==> !HasKey(defaults, data[i].0)
    ensures Overlay(defaults, data) == defaults
  {
    if defaults != [] {
      KeysOfCons(defaults);
      OverlayIgnores(defaults[1..], data);
      assert !HasKey(data, defaults[0].0);
      assert defaults == [defaults[0]] + defaults[1..];
    }
  }

  /** Adding a new entry `(k, v)` to `data` changes the overlay only at `k`. */
  lemma {:induction false} OverlayExtend(defaults: Entries, p: Entries, k: Key, v: Value)
    requires DistinctKeys(defaults)
    requires !HasKey(p, k)
    ensures Overlay(defaults, p + [(k, v)])
         == if HasKey(defaults, k) then Put(Overlay(defaults, p), k, v) else Overlay(defaults, p)
  {
    if defaults != [] {
      var d := defaults[0].0;
      KeysOfCons(defaults);
      KeysOfAppend(p, [(k, v)]);
      GetAppend(p, [(k, v)], d);
      assert DistinctKeys(defaults[1..]);
      OverlayExtend(defaults[1..], p, k, v);
      if d == k {
        assert !HasKey(defaults[1..], k);
        OverlayIgnores(defaults[1..], [(k, v)]);
        var q := p + [(k, v)];
        assert forall i :: 0 <= i < |q| ==> KeysOf(q)[i] == q[i].0;
        // keys of defaults[1..] are neither k nor in p, so the tail is unchanged
        assert Overlay(defaults[1..], q) == Overlay(defaults[1..], p) by {
          OverlayTailSame(defaults[1..], p, k, v);
        }
      }
    }
  }

  lemma {:induction false} OverlayTailSame(defaults: Entries, p: Entries, k: Key, v: Value)
    requires !HasKey(defaults, k)
    ensures Overlay(defaults, p + [(k, v)]) == Overlay(defaults, p)
  {
    if defaults != [] {
      KeysOfCons(defaults);
      KeysOfAppend(p, [(k, v)]);
      GetAppend(p, [(k, v)], defaults[0].0);
      OverlayTailSame(defaults[1..], p, k, v);
    }
  }

  lemma {:induction false} WithoutKeys(data: Entries, ks: seq<Key>)
    ensures forall k :: HasKey(Without(data, ks), k) ==> HasKey(data, k) && k !in ks
    ensures DistinctKeys(data) ==> DistinctKeys(Without(data, ks))
    ensures AllStrKeys(data) ==> AllStrKeys(Without(data, ks))
  {
    forall k | HasKey(Without(data, ks), k)
      ensures HasKey(data, k) && k !in ks
    {
      WithoutHasKey(data, ks, k);
    }
    if DistinctKeys(data) {
      WithoutDistinct(data, ks);
    }
    if AllStrKeys(data) {
      WithoutStr(data, ks);
    }
  }

  lemma {:induction false} WithoutHasKey(data: Entries, ks: seq<Key>, k: Key)
    requires HasKey(Without(data, ks), k)
    ensures HasKey(data, k) && k !in ks
    decreases |data|
  {
    var p, e := data[..|data| - 1], data[|data| - 1];
    assert data == p + [e];
    KeysOfAppend(p, [e]);
    var w := Without(p, ks);
    var tail := if e.0 in ks then [] else [e];
    KeysOfAppend(w, tail);
    if k in KeysOf(w) {
      WithoutHasKey(p, ks, k);
    } else {
      assert k in KeysOf(tail);
    }
  }

  lemma {:induction false} WithoutDistinct(data: Entries, ks: seq<Key>)
    requires DistinctKeys(data)
    ensures DistinctKeys(Without(data, ks))
    decreases |data|
  {
    if data != [] {
      var p, e := data[..|data| - 1], data[|data| - 1];
      assert data == p + [e];
      assert DistinctKeys(p);
      WithoutDistinct(p, ks);
      if e.0 !in ks {
        var w := Without(p, ks);
        assert !HasKey(w, e.0) by {
          if HasKey(w, e.0) {
            WithoutHasKey(p, ks, e.0);
            AppendedKeyFresh(p, e);
          }
        }
        DistinctSnoc(w, e);
      }
    }
  }

  /** In an array with distinct keys, the last key does not occur earlier. */
  lemma {:induction false} AppendedKeyFresh(p: Entries, e: (Key, Value))
    requires DistinctKeys(p + [e])
    ensures !HasKey(p, e.0)
  {
    forall i | 0 <= i < |p|
      ensures KeysOf(p)[i] != e.0
    {
      assert (p + [e])[i] == p[i] && (p + [e])[|p|] == e;
    }
  }

  lemma {:induction false} DistinctSnoc(w: Entries, e: (Key, Value))
    requires DistinctKeys(w) && !HasKey(w, e.0)
    ensures DistinctKeys(w + [e])
  {
    forall i, j | 0 <= i < j < |w + [e]|
      ensures (w + [e])[i].0 != (w + [e])[j].0
    {
      if j == |w| {
        assert KeysOf(w)[i] == w[i].0;
      }
    }
  }

  lemma {:induction false} WithoutStr(data: Entries, ks: seq<Key>)
    requires AllStrKeys(data)
    ensures AllStrKeys(Without(data, ks))
    decreases |data|
  {
    if data != [] {
      var p, e := data[..|data| - 1], data[|data| - 1];
      assert data == p + [e];
      assert AllStrKeys(p);
      WithoutStr(p, ks);
    }
  }

  lemma {:induction false} WithoutNone(data: Entries, ks: seq<Key>)
    requires forall i :: 0 <= i < |data| ==> data[i].0 !in ks
    ensures Without(data, ks) == data
    decreases |data|
  {
    if data != [] {
      WithoutNone(data[..|data| - 1], ks);
      assert data == data[..|data| - 1] + [data[|data| - 1]];
    }
  }

  /** An array is the entries before position `j`, the entry at `j`, and the entries after it. */
  lemma {:induction false} Splice(a: Entries, j: nat)
    requires j < |a|
    ensures a == a[..j] + [a[j]] + a[j + 1..]
  {
  }

  lemma {:induction false} WithoutSplice(before: Entries, e: (Key, Value), after: Entries, ks: seq<Key>)
    ensures Without(before + [e] + after, ks) == Without(before, ks) + Without([e], ks) + Without(after, ks)
  {
    WithoutAppend(before + [e], after, ks);
    WithoutAppend(before, [e], ks);
  }

  lemma {:induction false} WithoutAppend(a: Entries, b: Entries, ks: seq<Key>)
    ensures Without(a + b, ks) == Without(a, ks) + Without(b, ks)
    decreases |b|
  {
    if b == [] {
      assert a + b == a;
    } else {
      var p := b[..|b| - 1];
      WithoutAppend(a, p, ks);
      assert (a + b)[..|a + b| - 1] == a + p;
      assert (a + b)[|a + b| - 1] == b[|b| - 1];
    }
  }

  /** `array_merge` of string-keyed arrays with distinct keys reproduces them unchanged. */
  lemma {:induction false} MergeFromEmpty(d: Entries)
    requires AllStrKeys(d) && DistinctKeys(d)
    ensures MergeFrom([], d) == d
    decreases |d|
  {
    if d != [] {
      var p, e := d[..|d| - 1], d[|d| - 1];
      assert d == p + [e];
      MergeFromEmpty(p);
      KeysOfAppend(p, [e]);
      assert !HasKey(p, e.0);
      PutEffect(p, e.0, e.1);
    }
  }

  lemma {:induction false} MergeFromOverlay(defaults: Entries, data: Entries)
    requires AllStrKeys(defaults) && DistinctKeys(defaults)
    requires AllStrKeys(data) && DistinctKeys(data)
    ensures MergeFrom(defaults, data) == Overlay(defaults, data) + Without(data, KeysOf(defaults))
    decreases |data|
  {
    var kd := KeysOf(defaults);
    if data == [] {
      OverlayEmpty(defaults);
    } else {
      var p, e := data[..|data| - 1], data[|data| - 1];
      var k, v := e.0, e.1;
      assert data == p + [(k, v)];
      assert DistinctKeys(p) && AllStrKeys(p);
      KeysOfAppend(p, [e]);
      assert !HasKey(p, k);
      MergeFromOverlay(defaults, p);
      var o, w := Overlay(defaults, p), Without(p, kd);
      assert MergeFrom(defaults, data) == Put(o + w, k, v);
      OverlayKeys(defaults, p);
      WithoutKeys(p, kd);
      PutAppend(o, w, k, v);
      OverlayExtend(defaults, p, k, v);
      if HasKey(defaults, k) {
        assert HasKey(o, k);
        assert Without(data, kd) == w;
      } else {
        assert !HasKey(o, k);
        assert !HasKey(w, k);
        PutEffect(w, k, v);
        assert Without(data, kd) == w + [e];
      }
    }
  }

  /**
   * `array_merge($defaults, $data)` over string keys: the defaults come first
   * in their own order, each overridden by the caller's value for its key,
   * followed by the caller's other entries in the caller's order.
   */
  lemma {:induction false} MergeOverDefaults(defaults: Entries, data: Entries)
    requires AllStrKeys(defaults) && DistinctKeys(defaults)
    requires AllStrKeys(data) && DistinctKeys(data)
    ensures Merge(defaults, data) == Overlay(defaults, data) + Without(data, KeysOf(defaults))
  {
    MergeFromEmpty(defaults);
    MergeFromOverlay(defaults, data);
  }

  /** `array_merge` of string-keyed arrays with disjoint keys is concatenation. */
  lemma {:induction false} MergeDisjoint(a: Entries, b: Entries)
    requires AllStrKeys(a) && DistinctKeys(a)
    requires AllStrKeys(b) && DistinctKeys(b)
    requires forall i :: 0 <= i < |b| ==> !HasKey(a, b[i].0)
    ensures Merge(a, b) == a + b
  {
    MergeOverDefaults(a, b);
    OverlayIgnores(a, b);
    WithoutNone(b, KeysOf(a));
  }
}
