/**
 * StringPiece from cuda-convnet/src/common/strutil.cpp: a (data_, len_) view
 * into a byte buffer owned by someone else, with strip, split, equality and
 * hashing, plus strnstr and ToString(string).
 *
 * A `const char*` is modelled as a buffer `mem` and an offset `off` into it, so
 * pieces produced by strip and split keep pointing into the original buffer.
 * Bytes are unsigned and `isspace` is the one of the C locale.
 */
module StrUtil {
  import opened Wrappers
  import opened Murmur3

  type Bytes = seq<Byte>

  /** isspace in the C locale: space, \t, \n, \v, \f and \r. */
  predicate IsSpace(b: Byte)
  {
    b == 0x20 || (0x09 <= b && b <= 0x0d)
  }

  /** strlen: the position of the first NUL byte. */
  function StrLen(c: Bytes): (n: nat)
    requires 0 in c
    ensures n < |c| && c[n] == 0
    ensures forall i :: 0 <= i < n ==> c[i] != 0
  {
    if c[0] == 0 then 0 else 1 + StrLen(c[1..])
  }

  // ---------------------------------------------------------------------------
  // strip: specification

  /** s without its leading whitespace. */
  function TrimLeft(s: Bytes): (r: Bytes)
    ensures |r| <= |s|
    ensures r == [] || !IsSpace(r[0])
  {
    if |s| > 0 && IsSpace(s[0]) then TrimLeft(s[1..]) else s
  }

  /** s without its trailing whitespace. */
  function TrimRight(s: Bytes): (r: Bytes)
    ensures |r| <= |s|
    ensures r == [] || !IsSpace(r[|r| - 1])
  {
    if |s| > 0 && IsSpace(s[|s| - 1]) then TrimRight(s[..|s| - 1]) else s
  }

  /** TrimLeft removes a prefix of whitespace bytes and keeps the rest. */
  lemma {:induction false} TrimLeftSuffix(s: Bytes)
    ensures TrimLeft(s) == s[|s| - |TrimLeft(s)|..]
    ensures forall i :: 0 <= i < |s| - |TrimLeft(s)| ==> IsSpace(s[i])
  {
    if |s| > 0 && IsSpace(s[0]) {
      TrimLeftSuffix(s[1..]);
    }
  }

  /** TrimRight removes a suffix of whitespace bytes and keeps the rest. */
  lemma {:induction false} TrimRightPrefix(s: Bytes)
    ensures TrimRight(s) == s[..|TrimRight(s)|]
    ensures forall i :: |TrimRight(s)| <= i < |s| ==> IsSpace(s[i])
  {
    if |s| > 0 && IsSpace(s[|s| - 1]) {
      TrimRightPrefix(s[..|s| - 1]);
    }
  }

  /** What strip leaves of s: whitespace removed from both ends. */
  function Stripped(s: Bytes): (r: Bytes)
  {
    TrimRight(TrimLeft(s))
  }

  /** A stripped string is empty or starts and ends with a non-space byte. */
  lemma StrippedEnds(s: Bytes)
    ensures Stripped(s) == [] || (!IsSpace(Stripped(s)[0]) && !IsSpace(Stripped(s)[|Stripped(s)| - 1]))
  {
    var l := TrimLeft(s);
    var r := TrimRight(l);
    if r != [] {
      TrimRightPrefix(l);
      assert r[0] == l[0];
    }
  }

  /** The stripped string is a contiguous piece of s: s == lead + Stripped(s) + trail. */
  lemma StrippedInfix(s: Bytes)
    ensures |s| - |TrimLeft(s)| + |Stripped(s)| <= |s|
    ensures Stripped(s) == s[|s| - |TrimLeft(s)|..|s| - |TrimLeft(s)| + |Stripped(s)|]
  {
    var l := TrimLeft(s);
    var a := |s| - |l|;
    var r := TrimRight(l);
    TrimLeftSuffix(s);
    TrimRightPrefix(l);
    assert l[..|r|] == s[a..a + |r|];
  }

  /** TrimLeft(s) starts at the first non-space offset k of s. */
  lemma {:induction false} TrimLeftAt(s: Bytes, k: nat)
    requires k <= |s| && (k == |s| || !IsSpace(s[k]))
    requires forall i :: 0 <= i < k ==> IsSpace(s[i])
    ensures TrimLeft(s) == s[k..]
  {
    if k > 0 {
      assert s[1..][k - 1..] == s[k..];
      TrimLeftAt(s[1..], k - 1);
    }
  }

  /** TrimRight(s) ends after the last non-space offset k - 1 of s. */
  lemma {:induction false} TrimRightAt(s: Bytes, k: nat)
    requires k <= |s| && (k == 0 || !IsSpace(s[k - 1]))
    requires forall i :: k <= i < |s| ==> IsSpace(s[i])
    ensures TrimRight(s) == s[..k]
  {
    if k < |s| {
      assert s[..|s| - 1][..k] == s[..k];
      TrimRightAt(s[..|s| - 1], k);
    } else {
      assert s[..k] == s;
    }
  }

  /** TrimLeft leaves a string alone that does not start with whitespace. */
  lemma TrimLeftNoop(s: Bytes)
    requires s == [] || !IsSpace(s[0])
    ensures TrimLeft(s) == s
  {
  }

  /** TrimRight leaves a string alone that does not end with whitespace. */
  lemma TrimRightNoop(s: Bytes)
    requires s == [] || !IsSpace(s[|s| - 1])
    ensures TrimRight(s) == s
  {
  }

  /** strip is idempotent. */
  lemma StripIdempotent(s: Bytes)
    ensures Stripped(Stripped(s)) == Stripped(s)
  {
    var r := Stripped(s);
    StrippedEnds(s);
    TrimLeftNoop(r);
    TrimRightNoop(r);
  }

  // ---------------------------------------------------------------------------
  // split: specification

  /** The offset of the first byte of s that occurs in delim, or |s| if there is none. */
  function SepIndex(s: Bytes, delim: Bytes): (k: nat)
    ensures k <= |s|
  {
    if |s| == 0 || s[0] in delim then 0 else 1 + SepIndex(s[1..], delim)
  }

  /** SepIndex is the first separator: every byte before it is not one. */
  lemma {:induction false} SepIndexFirst(s: Bytes, delim: Bytes)
    ensures SepIndex(s, delim) < |s| ==> s[SepIndex(s, delim)] in delim
    ensures forall i :: 0 <= i < SepIndex(s, delim) ==> s[i] !in delim
  {
    if |s| > 0 && s[0] !in delim {
      SepIndexFirst(s[1..], delim);
    }
  }

  /** Any offset that is the first separator (or |s| if none) is SepIndex. */
  lemma SepIndexUnique(s: Bytes, delim: Bytes, k: nat)
    requires k <= |s|
    requires k < |s| ==> s[k] in delim
    requires forall i :: 0 <= i < k ==> s[i] !in delim
    ensures SepIndex(s, delim) == k
  {
    SepIndexFirst(s, delim);
  }

  /**
   * The pieces split produces: up to each separator byte (any byte of delim),
   * a piece; after the last separator, a piece only if bytes remain.
   */
  function SplitSpec(s: Bytes, delim: Bytes): (parts: seq<Bytes>)
    ensures s == [] <==> parts == []
    decreases |s|
  {
    if |s| == 0 then []
    else
      var k := SepIndex(s, delim);
      if k == |s| then [s] else [s[..k]] + SplitSpec(s[k + 1..], delim)
  }

  /** No piece contains a separator byte. */
  lemma {:induction false} SplitPiecesHaveNoSeparator(s: Bytes, delim: Bytes)
    ensures forall i, j :: 0 <= i < |SplitSpec(s, delim)| && 0 <= j < |SplitSpec(s, delim)[i]| ==>
      SplitSpec(s, delim)[i][j] !in delim
    decreases |s|
  {
    if s != [] {
      var k := SepIndex(s, delim);
      SepIndexFirst(s, delim);
      if k < |s| {
        SplitPiecesHaveNoSeparator(s[k + 1..], delim);
      }
    }
  }

  /** The number of separator bytes in s. */
  function SepCount(s: Bytes, delim: Bytes): (n: nat)
    ensures n <= |s|
  {
    if s == [] then 0 else (if s[0] in delim then 1 else 0) + SepCount(s[1..], delim)
  }

  /** A separator-free prefix contributes nothing to the separator count. */
  lemma {:induction false} SepCountSkip(s: Bytes, delim: Bytes, k: nat)
    requires k < |s| && s[k] in delim
    requires forall i :: 0 <= i < k ==> s[i] !in delim
    ensures SepCount(s, delim) == 1 + SepCount(s[k + 1..], delim)
  {
    if k > 0 {
      SepCountSkip(s[1..], delim, k - 1);
      assert s[1..][k..] == s[k + 1..];
    }
  }

  /** A string without separators counts none. */
  lemma {:induction false} SepCountNone(s: Bytes, delim: Bytes)
    requires forall i :: 0 <= i < |s| ==> s[i] !in delim
    ensures SepCount(s, delim) == 0
  {
    if s != [] {
      SepCountNone(s[1..], delim);
    }
  }

  /**
   * split yields one piece per separator, plus one more when the input is
   * non-empty and does not end with a separator.
   */
  lemma {:induction false} SplitCount(s: Bytes, delim: Bytes)
    ensures |SplitSpec(s, delim)| == SepCount(s, delim) + (if s != [] && s[|s| - 1] !in delim then 1 else 0)
    decreases |s|
  {
    if s != [] {
      var k := SepIndex(s, delim);
      SepIndexFirst(s, delim);
      if k == |s| {
        SepCountNone(s, delim);
      } else {
        var rest := s[k + 1..];
        SepCountSkip(s, delim, k);
        SplitCount(rest, delim);
        if rest != [] {
          assert rest[|rest| - 1] == s[|s| - 1];
        }
      }
    }
  }

  /**
   * One round of split: from offset c, the first separator (or the end) is at
   * next, and the piece s[c..next] is followed by the split of what follows it.
   */
  lemma SplitStep(s: Bytes, d: Bytes, c: nat, next: nat)
    requires c < |s| && c <= next <= |s|
    requires forall j :: c <= j < next ==> s[j] !in d
    requires next < |s| ==> s[next] in d
    ensures SplitSpec(s[c..], d) == [s[c..next]] + SplitSpec(s[if next + 1 <= |s| then next + 1 else |s|..], d)
  {
    var t := s[c..];
    SepIndexUnique(t, d, next - c);
    assert t[..next - c] == s[c..next];
    if next < |s| {
      assert t[next - c + 1..] == s[next + 1..];
    } else {
      assert s[|s|..] == [];
      assert t == s[c..next];
    }
  }

  /** The pieces found so far, followed by the split of the rest, stay the split of s. */
  lemma SplitAdvance(s: Bytes, d: Bytes, c: nat, next: nat, done: seq<Bytes>)
    requires c < |s| && c <= next <= |s|
    requires forall j :: c <= j < next ==> s[j] !in d
    requires next < |s| ==> s[next] in d
    requires done + SplitSpec(s[c..], d) == SplitSpec(s, d)
    ensures (done + [s[c..next]]) + SplitSpec(s[if next + 1 <= |s| then next + 1 else |s|..], d) == SplitSpec(s, d)
  {
    SplitStep(s, d, c, next);
  }

  /** Empty pieces: a leading separator gives an empty first piece. */
  lemma SplitLeadingSeparator(s: Bytes, delim: Bytes)
    requires s != [] && s[0] in delim
    ensures SplitSpec(s, delim) == [[]] + SplitSpec(s[1..], delim)
  {
    assert SepIndex(s, delim) == 0;
  }

  /** The first separator of the set may be replaced by any other one. */
  function Canon(s: Bytes, delim: Bytes): (t: Bytes)
    requires delim != []
    ensures |t| == |s|
    ensures forall i :: 0 <= i < |s| ==> (t[i] == if s[i] in delim then delim[0] else s[i])
  {
    seq(|s|, i requires 0 <= i < |s| => if s[i] in delim then delim[0] else s[i])
  }

  /**
   * Every byte of delim is a separator on its own: splitting on the set is
   * splitting on its first byte after every separator was rewritten to it.
   */
  lemma {:induction false} SplitCanon(s: Bytes, delim: Bytes)
    requires delim != []
    ensures SplitSpec(s, delim) == SplitSpec(Canon(s, delim), [delim[0]])
    decreases |s|
  {
    if s != [] {
      var t := Canon(s, delim);
      var k := SepIndex(s, delim);
      SepIndexFirst(s, delim);
      SepIndexUnique(t, [delim[0]], k);
      assert t[..k] == s[..k];
      if k < |s| {
        assert t[k + 1..] == Canon(s[k + 1..], delim);
        SplitCanon(s[k + 1..], delim);
      } else {
        assert t == s;
      }
    }
  }

  // ---------------------------------------------------------------------------
  // memcmp / strncmp

  /** memcmp(a + i, b + j, n) == 0: the n bytes from each offset agree. */
  function MemEq(a: Bytes, i: nat, b: Bytes, j: nat, n: nat): (r: bool)
    requires i + n <= |a| && j + n <= |b|
    ensures r <==> a[i..i + n] == b[j..j + n]
    decreases n
  {
    if n == 0 then true
    else a[i] == b[j] && MemEq(a, i + 1, b, j + 1, n - 1)
  }

  /**
   * strncmp(a, b, n) == 0: the bytes agree up to n of them or up to a NUL
   * they share, whichever comes first. Against a needle with no NUL in its
   * first n bytes it is plain equality of the first n bytes.
   */
  function StrNCmpEq(a: Bytes, b: Bytes, n: nat): (r: bool)
    requires n <= |a| && n <= |b|
    ensures (forall i :: 0 <= i < n ==> b[i] != 0) ==> (r <==> a[..n] == b[..n])
  {
    if n == 0 then true
    else if a[0] != b[0] then false
    else if a[0] == 0 then true
    else
      assert a[..n] == [a[0]] + a[1..][..n - 1];
      assert b[..n] == [b[0]] + b[1..][..n - 1];
      StrNCmpEq(a[1..], b[1..], n - 1)
  }

  // ---------------------------------------------------------------------------
  // StringPiece

  /** A slice of a slice is a slice of the buffer. */
  lemma SliceOfSlice(m: Bytes, a: nat, b: nat, c: nat, d: nat)
    requires a <= b <= |m| && c <= d <= b - a
    ensures m[a..b][c..d] == m[a + c..a + d]
  {
    assert forall i :: 0 <= i < d - c ==> m[a..b][c..d][i] == m[a + c + i];
  }

  /** Skipping the whitespace bytes m[a..k] of the piece m[a..e] leaves TrimLeft of it. */
  lemma LeadingSpacesSkipped(m: Bytes, a: nat, k: nat, e: nat)
    requires a <= k <= e <= |m|
    requires forall i :: a <= i < k ==> IsSpace(m[i])
    requires k == e || !IsSpace(m[k])
    ensures TrimLeft(m[a..e]) == m[k..e]
  {
    var s := m[a..e];
    assert forall i :: 0 <= i < k - a ==> s[i] == m[a + i];
    assert k < e ==> s[k - a] == m[k];
    TrimLeftAt(s, k - a);
    assert s[k - a..] == m[k..e];
  }

  /** Dropping the whitespace bytes m[k..e] of the piece m[a..e] leaves TrimRight of it. */
  lemma TrailingSpacesSkipped(m: Bytes, a: nat, k: nat, e: nat)
    requires a <= k <= e <= |m|
    requires forall i :: k <= i < e ==> IsSpace(m[i])
    requires k == a || !IsSpace(m[k - 1])
    ensures TrimRight(m[a..e]) == m[a..k]
  {
    var s := m[a..e];
    assert forall i :: k - a <= i < e - a ==> s[i] == m[a + i];
    assert k > a ==> s[k - a - 1] == m[k - 1];
    TrimRightAt(s, k - a);
    assert s[..k - a] == m[a..k];
  }

  class StringPiece {
    /** The buffer data_ points into. */
    var mem: Bytes
    /** data_, as an offset into mem. */
    var off: nat
    /** len_. */
    var len: nat

    ghost predicate Valid()
      reads this
    {
      off + len <= |mem|
    }

    /** AsString: the len bytes starting at data_. */
    function AsString(): (s: Bytes)
      reads this
      requires Valid()
      ensures |s| == len
    {
      mem[off..off + len]
    }

    /** str() is AsString(). */
    function Str(): (s: Bytes)
      reads this
      requires Valid()
      ensures s == AsString()
    {
      AsString()
    }

    /** size() is the stored length, the length of AsString(). */
    function Size(): (n: nat)
      reads this
      requires Valid()
      ensures n == |AsString()|
    {
      len
    }

    /** StringPiece(): the NULL, empty piece. */
    constructor Empty()
      ensures Valid() && AsString() == []
    {
      mem, off, len := [], 0, 0;
    }

    /** The copy constructor shares the other piece's data pointer. */
    constructor Copy(s: StringPiece)
      requires s.Valid()
      ensures Valid() && mem == s.mem && off == s.off && AsString() == s.AsString()
    {
      mem, off, len := s.mem, s.off, s.len;
    }

    /** StringPiece(const string& s): a view of all of s. */
    constructor FromString(s: Bytes)
      ensures Valid() && AsString() == s
    {
      mem, off, len := s, 0, |s|;
    }

    /** StringPiece(const string& s, int len): a view of the first n bytes of s. */
    constructor FromStringPrefix(s: Bytes, n: nat)
      requires n <= |s|
      ensures Valid() && AsString() == s[..n]
    {
      mem, off, len := s, 0, n;
    }

    /** StringPiece(const char* c): a view of c up to its NUL terminator. */
    constructor FromCString(c: Bytes)
      requires 0 in c
      ensures Valid() && AsString() == c[..StrLen(c)]
      ensures forall i :: 0 <= i < |AsString()| ==> AsString()[i] != 0
    {
      mem, off, len := c, 0, StrLen(c);
    }

    /** StringPiece(const char* c, int len): c is the byte at offset p of buf. */
    constructor FromPointer(buf: Bytes, p: nat, n: nat)
      requires p + n <= |buf|
      ensures Valid() && mem == buf && off == p && len == n && AsString() == buf[p..p + n]
    {
      mem, off, len := buf, p, n;
    }

    /**
     * strip: move data_ past leading whitespace, then shorten len_ past
     * trailing whitespace. The piece stays inside its old range.
     */
    method Strip()
      requires Valid()
      modifies this
      ensures Valid() && mem == old(mem)
      ensures old(off) <= off && off + len <= old(off) + old(len)
      ensures AsString() == Stripped(old(AsString()))
    {
      ghost var m0, start, end := mem, off, off + len;
      assert AsString() == m0[start..end];
      while len > 0 && IsSpace(mem[off])
        invariant mem == m0 && start <= off && off + len == end && end <= |m0|
        invariant forall i :: start <= i < off ==> IsSpace(m0[i])
        decreases len
      {
        off, len := off + 1, len - 1;
      }
      LeadingSpacesSkipped(m0, start, off, end);
      ghost var mid := off;
      while len > 0 && IsSpace(mem[off + len - 1])
        invariant mem == m0 && off == mid && mid + len <= end
        invariant forall i :: mid + len <= i < end ==> IsSpace(m0[i])
        decreases len
      {
        len := len - 1;
      }
      TrailingSpacesSkipped(m0, mid, mid + len, end);
      assert Stripped(m0[start..end]) == m0[mid..mid + len];
    }

    /** hash(): word 0 of MurmurHash3 of the piece with seed 0. */
    method Hash() returns (h: bv64)
      requires Valid() && len < 0x8000_0000
      ensures h == Hash128(AsString(), 0).0
    {
      var key := mem[off..off + len];
      assert key == AsString();
      var out := new bv64[2];
      MurmurHash3(key, 0, out);
      h := out[0];
    }

    /** The static StringPiece::hash(sp) is sp.hash(). */
    static method HashOf(sp: StringPiece) returns (h: bv64)
      requires sp.Valid() && sp.len < 0x8000_0000
      ensures h == Hash128(sp.AsString(), 0).0
    {
      h := sp.Hash();
    }

    /**
     * The inner loops of split: from offset c of buf[base..base + n], advance
     * next until the byte there is one of the dn separator bytes at
     * dbuf[doff..], or until the end. found says whether a separator stopped it.
     */
    static method FindSeparator(buf: Bytes, base: nat, n: nat, c: nat, dbuf: Bytes, doff: nat, dn: nat,
                                ghost s: Bytes, ghost d: Bytes)
      returns (next: nat, found: bool)
      requires base + n <= |buf| && doff + dn <= |dbuf| && c <= n
      requires s == buf[base..base + n] && d == dbuf[doff..doff + dn]
      ensures c <= next <= n
      ensures forall j :: c <= j < next ==> s[j] !in d
      ensures found <==> next < n
      ensures found ==> s[next] in d
    {
      next := c;
      found := false;
      while next < n
        invariant c <= next <= n
        invariant forall j :: c <= j < next ==> s[j] !in d
        invariant !found
        decreases n - next
      {
        assert s[next] == buf[base + next];
        for i := 0 to dn
          invariant found <==> s[next] in d[..i]
        {
          assert d[..i + 1] == d[..i] + [dbuf[doff + i]];
          if buf[base + next] == dbuf[doff + i] {
            found := true;
          }
        }
        assert d[..dn] == d;
        if found {
          break;
        }
        next := next + 1;
      }
    }

    /** out.push_back(StringPiece(p, k)): a new piece viewing buf[p..p + k] is appended. */
    static method PushPiece(out: seq<StringPiece>, ghost parts: seq<Bytes>, buf: Bytes, base: nat, p: nat, k: nat,
                            ghost bytes: Bytes)
      returns (out2: seq<StringPiece>)
      requires base <= p && p + k <= |buf|
      requires PiecesOf(out, buf, base, parts)
      requires bytes == buf[p..p + k]
      ensures PiecesOf(out2, buf, base, parts + [bytes])
    {
      var part := new StringPiece.FromPointer(buf, p, k);
      PiecesOfAppend(out, buf, base, parts, part, bytes);
      out2 := out + [part];
    }

    /**
     * split: the pieces of sp between separator bytes (any byte of delim), in
     * order, each pointing into sp's buffer. Both pieces are passed by value.
     */
    static method Split(sp: StringPiece, delim: StringPiece) returns (out: seq<StringPiece>)
      requires sp.Valid() && delim.Valid()
      ensures PiecesOf(out, sp.mem, sp.off, SplitSpec(sp.AsString(), delim.AsString()))
    {
      out := SplitBuffer(sp.mem, sp.off, sp.len, delim.mem, delim.off, delim.len);
    }

    /** The body of split on the (data_, len_) pairs of sp and delim. */
    static method SplitBuffer(buf: Bytes, base: nat, n: nat, dbuf: Bytes, doff: nat, dn: nat)
      returns (out: seq<StringPiece>)
      requires base + n <= |buf| && doff + dn <= |dbuf|
      ensures PiecesOf(out, buf, base, SplitSpec(buf[base..base + n], dbuf[doff..doff + dn]))
    {
      ghost var s := buf[base..base + n];
      ghost var d := dbuf[doff..doff + dn];
      ghost var done: seq<Bytes> := [];
      ghost var rest := s;
      out := [];
      var c := 0;
      while c < n
        invariant c <= n + 1
        invariant PiecesOf(out, buf, base, done)
        invariant (c <= n ==> rest == s[c..]) && (c > n ==> rest == [])
        invariant done + SplitSpec(rest, d) == SplitSpec(s, d)
        decreases n + 1 - c
      {
        var next, found := FindSeparator(buf, base, n, c, dbuf, doff, dn, s, d);
        if found || c < n {
          SliceOfSlice(buf, base, base + n, c, next);
          out := PushPiece(out, done, buf, base, base + c, next - c, s[c..next]);
          SplitAdvance(s, d, c, next, done);
          done := done + [s[c..next]];
        }
        rest := s[if next + 1 <= n then next + 1 else n..];
        c := next + 1;
      }
    }
  }

  /** Each pieces[i] views buf at or after base and holds the bytes parts[i]. */
  ghost predicate PiecesOf(pieces: seq<StringPiece>, buf: Bytes, base: nat, parts: seq<Bytes>)
    reads pieces
  {
    |pieces| == |parts| &&
    forall i {:trigger pieces[i]} :: 0 <= i < |pieces| ==>
      pieces[i].mem == buf && base <= pieces[i].off && pieces[i].Valid() &&
      pieces[i].AsString() == parts[i]
  }

  /** Appending one more matching piece keeps PiecesOf. */
  lemma PiecesOfAppend(pieces: seq<StringPiece>, buf: Bytes, base: nat, parts: seq<Bytes>, p: StringPiece, part: Bytes)
    requires PiecesOf(pieces, buf, base, parts)
    requires p.mem == buf && base <= p.off && p.Valid() && p.AsString() == part
    ensures PiecesOf(pieces + [p], buf, base, parts + [part])
  {
    var ps, qs := pieces + [p], parts + [part];
    forall i | 0 <= i < |ps|
      ensures ps[i].mem == buf && base <= ps[i].off && ps[i].Valid() && ps[i].AsString() == qs[i]
    {
      if i < |pieces| {
        assert ps[i] == pieces[i] && qs[i] == parts[i];
      }
    }
  }

  /** operator==(a, b): equal sizes and memcmp of the bytes is zero. */
  function Equal(a: StringPiece, b: StringPiece): (r: bool)
    reads a, b
    requires a.Valid() && b.Valid()
    ensures r <==> a.AsString() == b.AsString()
  {
    a.Size() == b.Size() && MemEq(a.mem, a.off, b.mem, b.off, a.len)
  }

  /** operator==(a, const char* b): compare with the piece StringPiece(b). */
  method EqualCString(a: StringPiece, b: Bytes) returns (r: bool)
    requires a.Valid() && 0 in b
    ensures r <==> a.AsString() == b[..StrLen(b)]
  {
    var p := new StringPiece.FromCString(b);
    r := Equal(a, p);
  }

  /** Pieces that compare equal hash equally. */
  lemma EqualPiecesEqualHashes(a: StringPiece, b: StringPiece)
    requires a.Valid() && b.Valid() && a.len < 0x8000_0000
    requires Equal(a, b)
    ensures b.len < 0x8000_0000 && Hash128(a.AsString(), 0) == Hash128(b.AsString(), 0)
  {
  }

  /** hash_value(s) is s.hash(), the hook boost::hash uses. */
  method HashValue(s: StringPiece) returns (h: bv64)
    requires s.Valid() && s.len < 0x8000_0000
    ensures h == Hash128(s.AsString(), 0).0
  {
    h := s.Hash();
  }

  /** ToString(string) returns its argument: the identity formatter for JoinString. */
  function ToStringBytes(v: Bytes): (r: Bytes)
    ensures |r| == |v| && forall i :: 0 <= i < |v| ==> r[i] == v[i]
  {
    v
  }

  // ---------------------------------------------------------------------------
  // strnstr

  /** The needle occurs in hay at offset i. */
  predicate MatchAt(hay: Bytes, needle: Bytes, i: nat)
  {
    i + |needle| <= |hay| && hay[i..i + |needle|] == needle
  }

  /** The first offset in [i, limit) where needle occurs, if any. */
  function Search(hay: Bytes, needle: Bytes, i: nat, limit: int): (r: Option<nat>)
    ensures r.Some? ==> i <= r.value < limit && MatchAt(hay, needle, r.value)
    ensures r.Some? ==> forall j :: i <= j < r.value ==> !MatchAt(hay, needle, j)
    ensures r.None? ==> forall j :: i <= j < limit ==> !MatchAt(hay, needle, j)
    decreases limit - i
  {
    if i >= limit then None
    else if MatchAt(hay, needle, i) then Some(i)
    else Search(hay, needle, i + 1, limit)
  }

  /**
   * strnstr as written: it only tries the offsets i < len - strlen(needle),
   * so a match that ends exactly at len is never found.
   */
  method StrNStrAsWritten(haystack: Bytes, needle: Bytes, len: int) returns (r: Option<nat>)
    requires 0 in needle && len <= |haystack|
    ensures r == Search(haystack, needle[..StrLen(needle)], 0, len - StrLen(needle))
  {
    var nlen := StrLen(needle);
    var i := 0;
    while i < len - nlen
      invariant 0 <= i && (i <= len - nlen || len - nlen < 0)
      invariant Search(haystack, needle[..nlen], 0, len - nlen) == Search(haystack, needle[..nlen], i, len - nlen)
      decreases len - nlen - i
    {
      if StrNCmpEq(haystack[i..], needle, nlen) {
        assert haystack[i..][..nlen] == haystack[i..i + nlen];
        return Some(i);
      }
      assert haystack[i..][..nlen] == haystack[i..i + nlen];
      i := i + 1;
    }
    return None;
  }

  /** Counterexample: "ab" holds "ab" at 0, but strnstr("ab", "ab", 2) returns NULL. */
  lemma StrNStrMissesFinalMatch()
    ensures MatchAt([0x61, 0x62], [0x61, 0x62], 0)
    ensures Search([0x61, 0x62], [0x61, 0x62], 0, 2 - 2) == None
  {
  }

  /**
   * strnstr with the bound the name promises: the first offset whose match
   * lies within the first len bytes, or None when there is none.
   */
  method StrNStr(haystack: Bytes, needle: Bytes, len: int) returns (r: Option<nat>)
    requires 0 in needle && len <= |haystack|
    ensures r == Search(haystack, needle[..StrLen(needle)], 0, len - StrLen(needle) + 1)
    ensures r.Some? ==> r.value + StrLen(needle) <= len && MatchAt(haystack, needle[..StrLen(needle)], r.value)
    ensures r.None? ==> forall i :: 0 <= i && i + StrLen(needle) <= len ==> !MatchAt(haystack, needle[..StrLen(needle)], i)
  {
    var nlen := StrLen(needle);
    var i := 0;
    while i <= len - nlen
      invariant 0 <= i && (i <= len - nlen + 1 || len - nlen < 0)
      invariant Search(haystack, needle[..nlen], 0, len - nlen + 1) == Search(haystack, needle[..nlen], i, len - nlen + 1)
      decreases len - nlen + 1 - i
    {
      if StrNCmpEq(haystack[i..], needle, nlen) {
        assert haystack[i..][..nlen] == haystack[i..i + nlen];
        return Some(i);
      }
      assert haystack[i..][..nlen] == haystack[i..i + nlen];
      i := i + 1;
    }
    return None;
  }
}
