/**
 * The pieces of Python's `str` that the hook generator relies on, with Python's exact
 * behaviour: `split` on one character keeps empty fields, `index` fails when the
 * character is absent, and slices clamp their bounds and count negative ones from the end.
 */
module PyStrings {
  import opened Wrappers

  /** `s.split(sep)`: the maximal runs between separators, empty ones included. */
  function Split(s: string, sep: char): (r: seq<string>)
    ensures |r| >= 1
    ensures forall t :: t in r ==> sep !in t
    ensures forall t, c :: t in r && c in t ==> c in s
  {
    if s == [] then [""]
    else
      var rest := Split(s[1..], sep);
      if s[0] == sep then [""] + rest
      else [[s[0]] + rest[0]] + rest[1..]
  }

  /** `sep.join(parts)`. */
  function Join(sep: string, parts: seq<string>): string
  {
    if parts == [] then ""
    else if |parts| == 1 then parts[0]
    else parts[0] + sep + Join(sep, parts[1..])
  }

  /** The number of occurrences of `c` in `s`. */
  function Count(s: string, c: char): nat
  {
    if s == [] then 0 else (if s[0] == c then 1 else 0) + Count(s[1..], c)
  }

  /** Joining the fields of a split with the separator gives back the string. */
  lemma {:induction false} JoinSplit(s: string, sep: char)
    ensures Join([sep], Split(s, sep)) == s
  {
    if s != [] {
      var rest := Split(s[1..], sep);
      JoinSplit(s[1..], sep);
      if s[0] == sep {
        assert Split(s, sep) == [""] + rest;
        assert s == [sep] + s[1..];
      } else if |rest| == 1 {
        assert s == [s[0]] + s[1..];
      } else {
        assert Split(s, sep)[1..] == rest[1..];
        assert s == [s[0]] + s[1..];
      }
    }
  }

  /** A string without the separator splits into itself alone. */
  lemma {:induction false} SplitWithout(s: string, sep: char)
    requires sep !in s
    ensures Split(s, sep) == [s]
  {
    if s != [] {
      SplitWithout(s[1..], sep);
      assert s == [s[0]] + s[1..];
    }
  }

  /** Splitting is a homomorphism from separator-joined strings to concatenated field lists. */
  lemma {:induction false} SplitConcat(a: string, b: string, sep: char)
    ensures Split(a + [sep] + b, sep) == Split(a, sep) + Split(b, sep)
  {
    if a == [] {
      assert a + [sep] + b == [sep] + b;
      assert ([sep] + b)[1..] == b;
    } else {
      var v, q := Split(a[1..], sep), Split(b, sep);
      TailOfConcat(a, [sep]);
      TailOfConcat(a + [sep], b);
      SplitConcat(a[1..], b, sep);
      if a[0] == sep {
        assert [""] + (v + q) == [""] + v + q;
      } else {
        FrontGlue([a[0]], v, q);
      }
    }
  }

  /** The first element and the tail of a concatenation with a non-empty front. */
  lemma TailOfConcat<T>(s: seq<T>, y: seq<T>)
    requires s != []
    ensures (s + y)[0] == s[0] && (s + y)[1..] == s[1..] + y
  {
  }

  /** Gluing text onto the first field commutes with appending more fields. */
  lemma FrontGlue(x: string, v: seq<string>, q: seq<string>)
    requires |v| >= 1
    ensures var r := v + q;
      [x + r[0]] + r[1..] == [x + v[0]] + v[1..] + q
  {
    assert (v + q)[1..] == v[1..] + q;
  }

  /** The number of fields is one more than the number of separators. */
  lemma {:induction false} SplitCount(s: string, sep: char)
    ensures |Split(s, sep)| == Count(s, sep) + 1
  {
    if s != [] {
      SplitCount(s[1..], sep);
    }
  }

  /** A separator-free prefix glues onto the first field. */
  lemma {:induction false} SplitPrefix(x: string, s: string, sep: char)
    requires sep !in x
    ensures Split(x + s, sep) == [x + Split(s, sep)[0]] + Split(s, sep)[1..]
  {
    var w := Split(s, sep);
    if x != [] {
      TailOfConcat(x, s);
      SplitPrefix(x[1..], s, sep);
      var r := Split(x[1..] + s, sep);
      assert r[0] == x[1..] + w[0] && r[1..] == w[1..];
      assert [x[0]] + r[0] == x + w[0];
    } else {
      assert x + s == s && x + w[0] == w[0];
      assert [w[0]] + w[1..] == w;
    }
  }

  /** A separator-free suffix glues onto the last field. */
  lemma SplitSuffix(s: string, y: string, sep: char)
    requires sep !in y
    ensures var w := Split(s, sep);
      Split(s + y, sep) == w[..|w| - 1] + [w[|w| - 1] + y]
  {
    if sep !in s {
      SplitWithout(s, sep);
      SplitWithout(s + y, sep);
      assert [s] + [] == [s];
    } else {
      var k := RFind(s, sep);
      var front, back := s[..k], s[k + 1..];
      CutAt(s, y, k);
      SplitConcat(front, back, sep);
      SplitConcat(front, back + y, sep);
      SplitWithout(back, sep);
      SplitWithout(back + y, sep);
      GlueLast(Split(front, sep), back, y);
    }
  }

  /** Cutting a string, and the string with a suffix, around the character at `k`. */
  lemma CutAt(s: string, y: string, k: int)
    requires 0 <= k < |s|
    ensures s == s[..k] + [s[k]] + s[k + 1..]
    ensures s + y == s[..k] + [s[k]] + (s[k + 1..] + y)
  {
  }

  /** Gluing a suffix onto the last of the fields `ws + [last]`. */
  lemma GlueLast(ws: seq<string>, last: string, y: string)
    ensures var w := ws + [last];
      ws + [last + y] == w[..|w| - 1] + [w[|w| - 1] + y]
  {
    var w := ws + [last];
    assert w[..|w| - 1] == ws;
  }

  /** Splitting a join of separator-free fields gives back the fields. */
  lemma {:induction false} SplitJoin(parts: seq<string>, sep: char)
    requires parts != []
    requires forall p :: p in parts ==> sep !in p
    ensures Split(Join([sep], parts), sep) == parts
  {
    if |parts| == 1 {
      SplitWithout(parts[0], sep);
    } else {
      var head, rest := parts[0], parts[1..];
      var tail := Join([sep], rest);
      assert Join([sep], parts) == head + [sep] + tail;
      assert forall p :: p in rest ==> sep !in p by {
        forall p | p in rest
          ensures sep !in p
        {
          assert p in parts;
        }
      }
      SplitJoin(rest, sep);
      SplitConcat(head, tail, sep);
      SplitWithout(head, sep);
      HeadTail(parts);
    }
  }

  /** A non-empty sequence is its first element followed by the rest. */
  lemma HeadTail<T>(s: seq<T>)
    requires s != []
    ensures s == [s[0]] + s[1..]
  {
  }

  /** The position of the first `c` in `s`, or -1 (`str.find`). */
  function Find(s: string, c: char): (r: int)
    ensures -1 <= r < |s|
    ensures r == -1 <==> c !in s
    ensures r >= 0 ==> s[r] == c && c !in s[..r]
  {
    if s == [] then -1
    else if s[0] == c then 0
    else
      var k := Find(s[1..], c);
      if k == -1 then -1
      else
        assert s[..k + 1] == [s[0]] + s[1..][..k];
        k + 1
  }

  /** The position of the last `c` in `s`, or -1 (`str.rfind`). */
  function RFind(s: string, c: char): (r: int)
    ensures -1 <= r < |s|
    ensures r == -1 <==> c !in s
    ensures r >= 0 ==> s[r] == c && c !in s[r + 1..]
  {
    if s == [] then -1
    else if s[|s| - 1] == c then |s| - 1
    else
      assert s == s[..|s| - 1] + [s[|s| - 1]];
      var k := RFind(s[..|s| - 1], c);
      assert k >= 0 ==> s[k + 1..] == s[..|s| - 1][k + 1..] + [s[|s| - 1]];
      k
  }

  /** The first `c` of `a + b` is found in `a` when `a` has one, and otherwise in `b`. */
  lemma {:induction false} FindConcat(a: string, b: string, c: char)
    ensures Find(a + b, c) == if c in a then Find(a, c) else if c in b then |a| + Find(b, c) else -1
  {
    if a != [] {
      assert (a + b)[1..] == a[1..] + b;
      FindConcat(a[1..], b, c);
      assert a == [a[0]] + a[1..];
    } else {
      assert a + b == b;
    }
  }

  /** A slice bound as Python normalises it: negative counts from the end, then clamped. */
  function SliceBound(i: int, n: nat): (r: nat)
  {
    if i < 0 then (if i + n < 0 then 0 else i + n)
    else if i > n then n
    else i
  }

  /** `s[start:end]`. */
  function Slice(s: string, start: int, end: int): string
  {
    var i, j := SliceBound(start, |s|), SliceBound(end, |s|);
    if i < j then s[i..j] else ""
  }

  /** A slice within bounds is the plain subsequence. */
  lemma SliceWithin(s: string, i: int, j: int)
    requires 0 <= i <= j <= |s|
    ensures Slice(s, i, j) == s[i..j]
  {
  }

  /** `s[i:-1]` for a start before the last character. */
  lemma SliceToLast(s: string, i: int)
    requires 0 <= i < |s|
    ensures Slice(s, i, -1) == s[i..|s| - 1]
  {
  }

  /** A slice whose end does not pass its start (after normalising) is empty. */
  lemma SliceEmpty(s: string, i: int, j: int)
    requires SliceBound(j, |s|) <= SliceBound(i, |s|)
    ensures Slice(s, i, j) == ""
  {
  }

  /** Dropping the last character of `s[i:j + 1]` gives `s[i:j]`. */
  lemma SliceDropLast(s: string, i: int, j: int)
    requires 0 <= i && 0 <= j < |s|
    ensures DropLast(Slice(s, i, j + 1)) == Slice(s, i, j)
  {
    if i < j {
      assert s[i..j + 1][..j - i] == s[i..j];
    }
  }

  /** A character other than `c` at `s[j]` adds no `c` to `s[i:j + 1]`. */
  lemma SliceLastNot(s: string, i: int, j: int, c: char)
    requires 0 <= i && 0 <= j < |s| && s[j] != c
    ensures c in Slice(s, i, j + 1) <==> c in Slice(s, i, j)
  {
    if i <= j {
      assert s[i..j + 1] == s[i..j] + [s[j]];
    }
  }

  /** A prefix of a suffix is a middle part. */
  lemma PrefixOfSuffix(s: string, i: int, j: int)
    requires 0 <= i <= j <= |s|
    ensures s[i..][..j - i] == s[i..j]
  {
  }

  /** Appending two pieces in turn is appending them joined. */
  lemma AppendTwo(s: string, a: string, b: string)
    ensures s + a + b == s + (a + b)
  {
  }

  /** Appending four pieces in turn is appending them joined, the first one apart. */
  lemma AppendFour(s: string, a: string, b: string, c: string, d: string)
    ensures s + a + b + c + d == s + (a + (b + c + d))
  {
  }

  /** Appending three pieces in turn is appending them joined. */
  lemma AppendThree(s: string, a: string, b: string, c: string)
    ensures s + a + b + c == s + (a + b + c)
  {
  }

  /** `s[:-1]`. */
  function DropLast(s: string): string
  {
    if s == [] then "" else s[..|s| - 1]
  }

  /** `s[1:]`. */
  function DropFirst(s: string): string
  {
    if s == [] then "" else s[1..]
  }

  /** `s.startswith(prefix)`. */
  predicate StartsWith(s: string, prefix: string)
  {
    |prefix| <= |s| && s[..|prefix|] == prefix
  }

  /** `s.endswith(suffix)`. */
  predicate EndsWith(s: string, suffix: string)
  {
    |suffix| <= |s| && s[|s| - |suffix|..] == suffix
  }

  /** `sub in s` for strings. */
  predicate ContainsSub(s: string, sub: string)
    decreases |s|
  {
    |sub| <= |s| && (s[..|sub|] == sub || ContainsSub(s[1..], sub))
  }

  /** `c.upper()` for one character, restricted to ASCII letters. */
  function Upper(c: char): char
  {
    if 'a' <= c <= 'z' then (c as int - 32) as char else c
  }

  /** `c * n`. */
  function Repeat(c: char, n: nat): (r: string)
    ensures |r| == n && forall k :: 0 <= k < n ==> r[k] == c
  {
    seq(n, _ => c)
  }
}
