/**
 * Query strings as the request builders write them by hand
 * (`k1=v1&k2=v2`, with no percent-encoding), and a reader for them: the
 * partner against which the builders' paths are stated.
 */
module Query {
  import opened Strings

  type Pairs = seq<(string, string)>

  /** `"{$k}={$v}"` */
  function Pair(k: string, v: string): string {
    k + "=" + v
  }

  function Rendered(pairs: Pairs): (r: seq<string>)
    ensures |r| == |pairs|
    ensures forall i :: 0 <= i < |pairs| ==> r[i] == Pair(pairs[i].0, pairs[i].1)
  {
    seq(|pairs|, i requires 0 <= i < |pairs| => Pair(pairs[i].0, pairs[i].1))
  }

  /** `join('&', ["k=v", ...])` */
  function Encode(pairs: Pairs): string {
    Join(Rendered(pairs), "&")
  }

  /** The pairs of a query string: split on '&', then each part on its first '='. */
  function Decode(q: string): Pairs {
    if q == "" then []
    else
      var parts := Split(q, '&');
      seq(|parts|, i requires 0 <= i < |parts| => SplitFirst(parts[i], '='))
  }

  /** The resource part of a path and the pairs of its query string. */
  function ParseUrl(path: string): (string, Pairs) {
    var (resource, q) := SplitFirst(path, '?');
    (resource, Decode(q))
  }

  /** A pair survives the round trip when its key has no '&' or '=' and its value no '&'. */
  predicate SafePair(p: (string, string)) {
    '&' !in p.0 && '=' !in p.0 && '&' !in p.1
  }

  predicate Safe(pairs: Pairs) {
    forall i :: 0 <= i < |pairs| ==> SafePair(pairs[i])
  }

  lemma {:induction false} DecodeEncode(pairs: Pairs)
    requires Safe(pairs)
    ensures Decode(Encode(pairs)) == pairs
  {
    if pairs != [] {
      var parts := Rendered(pairs);
      forall i | 0 <= i < |parts|
        ensures '&' !in parts[i]
      {
        assert parts[i] == pairs[i].0 + "=" + pairs[i].1;
      }
      SplitJoin(parts, '&');
      assert Encode(pairs) != "" by {
        assert |parts| >= 1;
        if |parts| == 1 {
          assert Encode(pairs) == parts[0];
        } else {
          assert Encode(pairs) == parts[0] + "&" + Join(parts[1..], "&");
        }
      }
      var d := Decode(Encode(pairs));
      assert |d| == |pairs|;
      forall i | 0 <= i < |pairs|
        ensures d[i] == pairs[i]
      {
        SplitFirstAt(pairs[i].0, pairs[i].1, '=');
        assert parts[i] == pairs[i].0 + ['='] + pairs[i].1;
      }
    }
  }

  /**
   * Reading back `resource?query`: the resource, and the pairs that were
   * encoded. `resource?` with no pairs reads as the resource with none.
   */
  lemma {:induction false} ParseRendered(resource: string, pairs: Pairs)
    requires '?' !in resource
    requires Safe(pairs)
    ensures ParseUrl(resource + "?" + Encode(pairs)) == (resource, pairs)
  {
    SplitFirstAt(resource, Encode(pairs), '?');
    DecodeEncode(pairs);
  }

  /** A path without '?' reads as a resource with no query. */
  lemma {:induction false} ParsePlain(resource: string)
    requires '?' !in resource
    ensures ParseUrl(resource) == (resource, [])
  {
    SplitFirstNone(resource, '?');
  }

  /** `resource?k=v` reads back as the resource and its one pair. */
  lemma {:induction false} ParseOne(resource: string, k: string, v: string)
    ensures '?' !in resource && SafePair((k, v)) ==> ParseUrl(resource + "?" + k + "=" + v) == (resource, [(k, v)])
  {
    if '?' !in resource && SafePair((k, v)) {
      assert Rendered([(k, v)]) == [k + "=" + v];
      assert Encode([(k, v)]) == k + "=" + v;
      assert resource + "?" + k + "=" + v == resource + "?" + Encode([(k, v)]);
      ParseRendered(resource, [(k, v)]);
    }
  }

  /** `resource?k1=v1&k2=v2` reads back as the resource and its two pairs. */
  lemma {:induction false} ParseTwo(resource: string, k1: string, v1: string, k2: string, v2: string)
    ensures '?' !in resource && SafePair((k1, v1)) && SafePair((k2, v2)) ==>
      ParseUrl(resource + "?" + k1 + "=" + v1 + "&" + k2 + "=" + v2) == (resource, [(k1, v1), (k2, v2)])
  {
    if '?' !in resource && SafePair((k1, v1)) && SafePair((k2, v2)) {
      var pairs := [(k1, v1), (k2, v2)];
      assert Rendered(pairs) == [k1 + "=" + v1, k2 + "=" + v2];
      assert Rendered(pairs)[1..] == [k2 + "=" + v2];
      assert Join(Rendered(pairs)[1..], "&") == k2 + "=" + v2;
      assert Encode(pairs) == k1 + "=" + v1 + "&" + (k2 + "=" + v2);
      assert resource + "?" + k1 + "=" + v1 + "&" + k2 + "=" + v2 == resource + "?" + Encode(pairs);
      ParseRendered(resource, pairs);
    }
  }
}
