/**
 * `implode`/`join` and `explode` on strings, with the round trip between
 * them that holds when no part contains the separator.
 */
module Strings {

  /** `implode($sep, $parts)` */
  function Join(parts: seq<string>, sep: string): string {
    if parts == [] then ""
    else if |parts| == 1 then parts[0]
    else parts[0] + sep + Join(parts[1..], sep)
  }

  /** `explode($c, $s)` for a one-character separator: never empty, "" gives [""]. */
  function Split(s: string, c: char): (r: seq<string>)
    ensures r != []
  {
    if s == [] then [""]
    else
      var rest := Split(s[1..], c);
      if s[0] == c then [""] + rest else [[s[0]] + rest[0]] + rest[1..]
  }

  /** The text before the first `c` and the text after it ("" when there is no `c`). */
  function SplitFirst(s: string, c: char): (string, string) {
    if s == [] then ("", "")
    else if s[0] == c then ("", s[1..])
    else
      var (a, b) := SplitFirst(s[1..], c);
      ([s[0]] + a, b)
  }

  lemma {:induction false} SplitNoSeparator(s: string, c: char)
    requires c !in s
    ensures Split(s, c) == [s]
  {
    if s != [] {
      SplitNoSeparator(s[1..], c);
      assert [s[0]] + s[1..] == s;
    }
  }

  lemma {:induction false} SplitAtSeparator(a: string, b: string, c: char)
    requires c !in a
    ensures Split(a + [c] + b, c) == [a] + Split(b, c)
  {
    if a == [] {
      assert a + [c] + b == [c] + b;
      assert ([c] + b)[1..] == b;
    } else {
      var s := a + [c] + b;
      assert s[0] == a[0] && s[1..] == a[1..] + [c] + b;
      SplitAtSeparator(a[1..], b, c);
      assert [a[0]] + a[1..] == a;
    }
  }

  /** Splitting a join on a separator that no part contains gives the parts back. */
  lemma {:induction false} SplitJoin(parts: seq<string>, c: char)
    requires parts != []
    requires forall i :: 0 <= i < |parts| ==> c !in parts[i]
    ensures Split(Join(parts, [c]), c) == parts
  {
    if |parts| == 1 {
      SplitNoSeparator(parts[0], c);
    } else {
      SplitJoin(parts[1..], c);
      SplitAtSeparator(parts[0], Join(parts[1..], [c]), c);
      assert [parts[0]] + parts[1..] == parts;
    }
  }

  lemma {:induction false} SplitFirstAt(a: string, b: string, c: char)
    requires c !in a
    ensures SplitFirst(a + [c] + b, c) == (a, b)
  {
    if a == [] {
      assert a + [c] + b == [c] + b;
      assert ([c] + b)[1..] == b;
    } else {
      var s := a + [c] + b;
      assert s[0] == a[0] && s[1..] == a[1..] + [c] + b;
      SplitFirstAt(a[1..], b, c);
      assert [a[0]] + a[1..] == a;
    }
  }

  lemma {:induction false} SplitFirstNone(s: string, c: char)
    requires c !in s
    ensures SplitFirst(s, c) == (s, "")
  {
    if s != [] {
      SplitFirstNone(s[1..], c);
      assert [s[0]] + s[1..] == s;
    }
  }

  /** A join contains the separator's character only where the parts or the separators put it. */
  lemma {:induction false} JoinFree(parts: seq<string>, sep: string, c: char)
    requires c !in sep
    requires forall i :: 0 <= i < |parts| ==> c !in parts[i]
    ensures c !in Join(parts, sep)
  {
    if |parts| > 1 {
      JoinFree(parts[1..], sep, c);
    }
  }

  /** The segments of a path `a/b`. */
  lemma {:induction false} Segments2(a: string, b: string)
    ensures '/' !in a && '/' !in b ==> Split(a + "/" + b, '/') == [a, b]
  {
    if '/' !in a && '/' !in b {
      assert a + "/" + b == a + ['/'] + b;
      SplitAtSeparator(a, b, '/');
      SplitNoSeparator(b, '/');
    }
  }

  /** The segments of a path `a/b/c`. */
  lemma {:induction false} Segments3(a: string, b: string, c: string)
    ensures '/' !in a && '/' !in b && '/' !in c ==> Split(a + "/" + b + "/" + c, '/') == [a, b, c]
  {
    if '/' !in a && '/' !in b && '/' !in c {
      assert a + "/" + b + "/" + c == a + ['/'] + (b + "/" + c);
      SplitAtSeparator(a, b + "/" + c, '/');
      Segments2(b, c);
    }
  }

  /** The segments of a path `a/b/c/d`. */
  lemma {:induction false} Segments4(a: string, b: string, c: string, d: string)
    ensures '/' !in a && '/' !in b && '/' !in c && '/' !in d ==> Split(a + "/" + b + "/" + c + "/" + d, '/') == [a, b, c, d]
  {
    if '/' !in a && '/' !in b && '/' !in c && '/' !in d {
      assert a + "/" + b + "/" + c + "/" + d == a + ['/'] + (b + "/" + c + "/" + d);
      SplitAtSeparator(a, b + "/" + c + "/" + d, '/');
      Segments3(b, c, d);
    }
  }
}
