/**
 * JoinString and ToString(vector) from util/string.h: the pieces of a range,
 * each turned into a string by ToString, with a delimiter between
 * consecutive pieces. The element formatter ToString is a parameter of the
 * model; ToString(string) is the identity StrUtil.ToStringBytes.
 */
module StringJoin {
  import opened Murmur3
  import opened StrUtil

  /** The comma ToString(vector) joins with. */
  const Comma: Byte := 0x2c

  /** The pieces with delim between consecutive ones. */
  function Join<T>(parts: seq<seq<T>>, delim: seq<T>): (r: seq<T>)
    ensures parts == [] ==> r == []
    ensures |parts| == 1 ==> r == parts[0]
    ensures |parts| >= 1 ==> |parts[0]| <= |r| && r[..|parts[0]|] == parts[0]
  {
    if |parts| == 0 then []
    else if |parts| == 1 then parts[0]
    else parts[0] + delim + Join(parts[1..], delim)
  }

  /** The formatted elements of items, in order. */
  function Format<T>(items: seq<T>, toString: T -> Bytes): (r: seq<Bytes>)
    ensures |r| == |items|
    ensures forall i :: 0 <= i < |items| ==> r[i] == toString(items[i])
  {
    if items == [] then [] else [toString(items[0])] + Format(items[1..], toString)
  }

  /** The total length of the pieces. */
  function TotalLength(parts: seq<Bytes>): (n: nat)
    ensures parts == [] ==> n == 0
  {
    if parts == [] then 0 else |parts[0]| + TotalLength(parts[1..])
  }

  /** Joining one more piece appends the delimiter and that piece. */
  lemma {:induction false} JoinAppend(parts: seq<Bytes>, p: Bytes, delim: Bytes)
    requires parts != []
    ensures Join(parts + [p], delim) == Join(parts, delim) + delim + p
  {
    if |parts| == 1 {
      assert parts + [p] == [parts[0], p];
    } else {
      assert (parts + [p])[1..] == parts[1..] + [p];
      JoinAppend(parts[1..], p, delim);
    }
  }

  /**
   * The joined length is the pieces' lengths plus one delimiter for each of
   * the n - 1 gaps between n pieces.
   */
  lemma {:induction false} JoinLength(parts: seq<Bytes>, delim: Bytes)
    requires parts != []
    ensures |Join(parts, delim)| == TotalLength(parts) + (|parts| - 1) * |delim|
  {
    if |parts| > 1 {
      JoinLength(parts[1..], delim);
    } else {
      assert parts[1..] == [];
    }
  }

  /** The joined string ends with the last piece: there is no trailing delimiter. */
  lemma {:induction false} JoinEndsWithLast(parts: seq<Bytes>, delim: Bytes)
    requires parts != []
    ensures |parts[|parts| - 1]| <= |Join(parts, delim)|
    ensures Join(parts, delim)[|Join(parts, delim)| - |parts[|parts| - 1]|..] == parts[|parts| - 1]
  {
    if |parts| > 1 {
      JoinEndsWithLast(parts[1..], delim);
      var r := Join(parts, delim);
      var tail := Join(parts[1..], delim);
      var last := parts[|parts| - 1];
      assert r == (parts[0] + delim) + tail;
      assert r[|r| - |last|..] == tail[|tail| - |last|..];
    }
  }

  /** The number of occurrences of c in s. */
  function Occurrences<T(==)>(s: seq<T>, c: T): (n: nat)
    ensures n <= |s|
  {
    if s == [] then 0 else (if s[0] == c then 1 else 0) + Occurrences(s[1..], c)
  }

  /** Occurrences adds up over concatenation. */
  lemma {:induction false} OccurrencesConcat<T>(a: seq<T>, b: seq<T>, c: T)
    ensures Occurrences(a + b, c) == Occurrences(a, c) + Occurrences(b, c)
  {
    if a != [] {
      assert (a + b)[1..] == a[1..] + b;
      OccurrencesConcat(a[1..], b, c);
    } else {
      assert a + b == b;
    }
  }

  /** A string without the byte c counts none of it. */
  lemma {:induction false} OccurrencesNone<T>(s: seq<T>, c: T)
    requires c !in s
    ensures Occurrences(s, c) == 0
  {
    if s != [] {
      OccurrencesNone(s[1..], c);
    }
  }

  /**
   * Joining n pieces that do not contain the one-byte delimiter c puts
   * exactly n - 1 copies of c into the result.
   */
  lemma {:induction false} JoinDelimiterCount(parts: seq<Bytes>, c: Byte)
    requires parts != []
    requires forall i :: 0 <= i < |parts| ==> c !in parts[i]
    ensures Occurrences(Join(parts, [c]), c) == |parts| - 1
  {
    OccurrencesNone(parts[0], c);
    if |parts| > 1 {
      JoinDelimiterCount(parts[1..], c);
      OccurrencesConcat(parts[0] + [c], Join(parts[1..], [c]), c);
      OccurrencesConcat(parts[0], [c], c);
    }
  }

  /**
   * JoinString(start, end, delim): append ToString of each element and,
   * when another element follows, the delimiter. The C++ default delimiter
   * " " is the call with delim == [0x20].
   */
  method JoinString<T>(items: seq<T>, toString: T -> Bytes, delim: Bytes) returns (out: Bytes)
    ensures out == Join(Format(items, toString), delim)
  {
    ghost var parts := Format(items, toString);
    out := [];
    var start := 0;
    while start != |items|
      invariant start <= |items|
      invariant out == Join(parts[..start], delim) + (if 0 < start < |items| then delim else [])
      decreases |items| - start
    {
      out := out + toString(items[start]);
      if start > 0 {
        JoinAppend(parts[..start], parts[start], delim);
      } else {
        assert parts[..1] == [parts[0]];
      }
      assert parts[..start + 1] == parts[..start] + [parts[start]];
      start := start + 1;
      if start != |items| {
        out := out + delim;
      }
    }
    assert parts[..start] == parts;
  }

  /** ToString(vector): JoinString over the vector with a comma. */
  method VectorToString<T>(v: seq<T>, toString: T -> Bytes) returns (out: Bytes)
    ensures out == Join(Format(v, toString), [Comma])
  {
    out := JoinString(v, toString, [Comma]);
  }

  /** A one-element vector formats as its element alone, without a comma. */
  lemma SingletonHasNoComma<T>(x: T, toString: T -> Bytes)
    requires Comma !in toString(x)
    ensures Join(Format([x], toString), [Comma]) == toString(x)
    ensures Comma !in Join(Format([x], toString), [Comma])
  {
    assert Format([x], toString)[0] == toString(x);
  }

  // ---------------------------------------------------------------------------
  // split and join with a one-byte delimiter

  /**
   * Splitting a joined string gives back the pieces, provided no piece holds
   * the delimiter and the last one is not empty (split drops a trailing
   * empty piece).
   */
  lemma {:induction false} SplitJoin(parts: seq<Bytes>, c: Byte)
    requires parts != [] && parts[|parts| - 1] != []
    requires forall i :: 0 <= i < |parts| ==> c !in parts[i]
    ensures SplitSpec(Join(parts, [c]), [c]) == parts
  {
    var s := Join(parts, [c]);
    var p := parts[0];
    if |parts| == 1 {
      SepIndexUnique(s, [c], |s|);
    } else {
      var tail := Join(parts[1..], [c]);
      assert s == p + [c] + tail;
      assert s[|p|] == c;
      assert forall i :: 0 <= i < |p| ==> s[i] == p[i];
      SepIndexUnique(s, [c], |p|);
      assert s[..|p|] == p;
      assert s[|p| + 1..] == tail;
      SplitJoin(parts[1..], c);
    }
  }

  /**
   * Joining the pieces of a split with the one separator byte gives back the
   * input, less the trailing separator that split drops.
   */
  lemma {:induction false} JoinSplit(s: Bytes, c: Byte)
    ensures Join(SplitSpec(s, [c]), [c]) == if s != [] && s[|s| - 1] == c then s[..|s| - 1] else s
    decreases |s|
  {
    if s != [] {
      var k := SepIndex(s, [c]);
      SepIndexFirst(s, [c]);
      if k < |s| {
        var rest := s[k + 1..];
        JoinSplit(rest, c);
        JoinSplitStep(s, c, k);
      }
    }
  }

  /** One separator of JoinSplit: s is s[..k], the separator, and the rest. */
  lemma JoinSplitStep(s: Bytes, c: Byte, k: nat)
    requires k < |s| && SepIndex(s, [c]) == k && s[k] == c
    requires Join(SplitSpec(s[k + 1..], [c]), [c]) ==
      if s[k + 1..] != [] && s[|s| - 1] == c then s[k + 1..|s| - 1] else s[k + 1..]
    ensures Join(SplitSpec(s, [c]), [c]) == if s[|s| - 1] == c then s[..|s| - 1] else s
  {
    var rest := s[k + 1..];
    var tail := SplitSpec(rest, [c]);
    assert SplitSpec(s, [c]) == [s[..k]] + tail;
    if rest == [] {
      assert s[..|s| - 1] == s[..k];
    } else {
      assert ([s[..k]] + tail)[1..] == tail;
      assert Join([s[..k]] + tail, [c]) == s[..k] + [c] + Join(tail, [c]);
      Reassemble(s, k);
    }
  }

  /** s cut around offset k and glued back, with or without its last byte. */
  lemma Reassemble(s: Bytes, k: nat)
    requires k + 1 < |s|
    ensures s == s[..k] + [s[k]] + s[k + 1..]
    ensures s[..|s| - 1] == s[..k] + [s[k]] + s[k + 1..|s| - 1]
  {
    assert s[..|s| - 1] == s[..k] + [s[k]] + s[k + 1..|s| - 1] by {
      var t := s[..k] + [s[k]] + s[k + 1..|s| - 1];
      assert forall i :: 0 <= i < |s| - 1 ==> t[i] == s[i];
    }
  }
}
