/**
 * The synset bookkeeping of imagenet/build-imagenet-batch.py: the memoized
 * decorator, synids, synid_to_name, label_names and randsyn.
 *
 * The directory listing behind synids and the synset file behind
 * synid_to_name become parameters: the listed paths and the file's text.
 * The random positions randsyn draws are a parameter too.
 */
module Synsets {
  import opened Wrappers
  import StringJoin

  // ---------------------------------------------------------------------------
  // memoized

  /**
   * A function with a cache: a call looks its arguments up first and calls
   * the function only on a miss. calls counts the calls of func.
   */
  class Memoized<K(==), V> {
    const func: K -> V
    var cache: map<K, V>
    ghost var calls: nat

    /** Every cached value is what func gives for its key. */
    ghost predicate Valid()
      reads this
    {
      forall k :: k in cache ==> cache[k] == func(k)
    }

    constructor(func: K -> V)
      ensures this.func == func && cache == map[] && calls == 0
      ensures Valid()
    {
      this.func := func;
      cache := map[];
      calls := 0;
    }

    /**
     * __call__: a hit returns the stored value and leaves everything as it
     * was; a miss calls func once and stores its value. Either way the value
     * is func's, and no entry is removed or overwritten.
     */
    method Call(args: K) returns (v: V)
      requires Valid()
      modifies this
      ensures Valid()
      ensures v == func(args)
      ensures args in old(cache) ==> v == old(cache)[args] && cache == old(cache) && calls == old(calls)
      ensures args !in old(cache) ==> cache == old(cache)[args := v] && calls == old(calls) + 1
    {
      if args in cache {
        v := cache[args];
      } else {
        v := func(args);
        calls := calls + 1;
        cache := cache[args := v];
      }
    }
  }

  /** Calling a memoized function twice with the same arguments calls it at most once. */
  method CallTwice<K(==), V>(m: Memoized<K, V>, args: K) returns (v1: V, v2: V)
    requires m.Valid()
    modifies m
    ensures v1 == v2 == m.func(args)
    ensures m.calls <= old(m.calls) + 1
    ensures args in m.cache && old(m.cache).Keys <= m.cache.Keys
  {
    v1 := m.Call(args);
    v2 := m.Call(args);
  }

  // ---------------------------------------------------------------------------
  // Python string helpers

  /** Python's s.split(c) for a one-character separator: the pieces between separators, at least one. */
  function PySplit(s: string, c: char): (r: seq<string>)
    ensures |r| >= 1
  {
    if s == [] then [[]]
    else
      var rest := PySplit(s[1..], c);
      if s[0] == c then [[]] + rest else [[s[0]] + rest[0]] + rest[1..]
  }

  /** No piece of a split holds the separator. */
  lemma {:induction false} PySplitPieces(s: string, c: char)
    ensures forall i :: 0 <= i < |PySplit(s, c)| ==> c !in PySplit(s, c)[i]
  {
    if s != [] {
      PySplitPieces(s[1..], c);
    }
  }

  /** n separators make n + 1 pieces. */
  lemma {:induction false} PySplitCount(s: string, c: char)
    ensures |PySplit(s, c)| == StringJoin.Occurrences(s, c) + 1
  {
    if s != [] {
      PySplitCount(s[1..], c);
    }
  }

  /** Joining the pieces with the separator gives the string back. */
  lemma {:induction false} JoinPySplit(s: string, c: char)
    ensures StringJoin.Join(PySplit(s, c), [c]) == s
  {
    if s != [] {
      var rest := PySplit(s[1..], c);
      JoinPySplit(s[1..], c);
      if s[0] == c {
        assert ([[]] + rest)[1..] == rest;
      } else {
        JoinConsHead(s[0], rest, [c]);
      }
    }
  }

  /** Putting x in front of the first piece puts it in front of the joined string. */
  lemma JoinConsHead(x: char, parts: seq<string>, delim: string)
    requires parts != []
    ensures StringJoin.Join([[x] + parts[0]] + parts[1..], delim) == [x] + StringJoin.Join(parts, delim)
  {
    var ps := [[x] + parts[0]] + parts[1..];
    assert ps[1..] == parts[1..];
  }

  /**
   * Splitting pieces joined with the separator gives them back, when no
   * piece holds the separator.
   */
  lemma {:induction false} PySplitJoin(parts: seq<string>, c: char)
    requires parts != []
    requires forall i :: 0 <= i < |parts| ==> c !in parts[i]
    ensures PySplit(StringJoin.Join(parts, [c]), c) == parts
  {
    if |parts| == 1 {
      PySplitWithout(parts[0], c);
    } else {
      var tail := StringJoin.Join(parts[1..], [c]);
      PySplitJoin(parts[1..], c);
      assert PySplit([c] + tail, c) == [[]] + parts[1..] by {
        assert ([c] + tail)[1..] == tail;
      }
      PySplitPrefix(parts[0], [c] + tail, c);
      assert parts[0] + [c] + tail == parts[0] + ([c] + tail);
      assert parts[0] + [] == parts[0];
      assert [parts[0]] + parts[1..] == parts;
    }
  }

  /** A string without the separator is one piece. */
  lemma {:induction false} PySplitWithout(s: string, c: char)
    requires c !in s
    ensures PySplit(s, c) == [s]
  {
    if s != [] {
      PySplitWithout(s[1..], c);
      assert [s[0]] + s[1..] == s;
    }
  }

  /** A prefix without the separator joins the first piece. */
  lemma {:induction false} PySplitPrefix(p: string, t: string, c: char)
    requires c !in p
    ensures PySplit(p + t, c) == [p + PySplit(t, c)[0]] + PySplit(t, c)[1..]
  {
    if p != [] {
      PySplitPrefix(p[1..], t, c);
      assert (p + t)[1..] == p[1..] + t;
      assert [p[0]] + (p[1..] + PySplit(t, c)[0]) == p + PySplit(t, c)[0];
    } else {
      var r := PySplit(t, c);
      assert p + t == t;
      assert p + r[0] == r[0];
      assert [r[0]] + r[1..] == r;
    }
  }

  /** re.split(' ', x, maxsplit=1): split at the first space only. */
  function SplitOnce(x: string): (r: seq<string>)
    ensures 1 <= |r| <= 2
  {
    if x == [] then [x]
    else if x[0] == ' ' then [[], x[1..]]
    else
      var rest := SplitOnce(x[1..]);
      [[x[0]] + rest[0]] + rest[1..]
  }

  /**
   * SplitOnce finds the first space: two pieces, the first without a space,
   * exactly when x has one, and joining them with a space gives x back.
   */
  lemma {:induction false} SplitOnceFirstSpace(x: string)
    ensures |SplitOnce(x)| == 2 <==> ' ' in x
    ensures ' ' !in SplitOnce(x)[0]
    ensures StringJoin.Join(SplitOnce(x), " ") == x
  {
    if x != [] && x[0] != ' ' {
      SplitOnceFirstSpace(x[1..]);
      var rest := SplitOnce(x[1..]);
      assert x == [x[0]] + x[1..];
      JoinConsHead(x[0], rest, " ");
    }
  }

  /** A key without a space and the rest of the line come apart at that space. */
  lemma {:induction false} SplitOnceKey(key: string, rest: string)
    requires ' ' !in key
    ensures SplitOnce(key + " " + rest) == [key, rest]
  {
    if key == [] {
      var x := key + " " + rest;
      assert x == [' '] + rest;
      assert x[0] == ' ' && x[1..] == rest;
    } else {
      SplitOnceKey(key[1..], rest);
      assert (key + " " + rest)[1..] == key[1..] + " " + rest;
      assert [key[0]] + key[1..] == key;
    }
  }

  /** v.split(',')[0]: the text before the first comma. */
  function FirstField(v: string): (f: string)
  {
    PySplit(v, ',')[0]
  }

  /** The first field is a prefix without a comma, and all of v when v has none. */
  lemma {:induction false} FirstFieldPrefix(v: string)
    ensures |FirstField(v)| <= |v| && FirstField(v) == v[..|FirstField(v)|]
    ensures ',' !in FirstField(v)
    ensures ',' !in v ==> FirstField(v) == v
  {
    PySplitPieces(v, ',');
    if v != [] && v[0] != ',' {
      FirstFieldPrefix(v[1..]);
      assert v == [v[0]] + v[1..];
    } else if v == [] {
      assert FirstField(v) == [];
    } else {
      assert FirstField(v) == [];
      assert v[0] == ',';
    }
  }

  // ---------------------------------------------------------------------------
  // synids

  /** os.path.basename: what follows the last '/'. */
  function Basename(p: string): (b: string)
    ensures '/' !in b
    ensures |b| <= |p| && b == p[|p| - |b|..]
    ensures |b| < |p| ==> p[|p| - |b| - 1] == '/'
  {
    if p == [] then []
    else if p[|p| - 1] == '/' then []
    else
      var b := Basename(p[..|p| - 1]);
      assert p[..|p| - 1][|p| - 1 - |b|..] == p[|p| - 1 - |b|..|p| - 1];
      b + [p[|p| - 1]]
  }

  /** A Python slice bound: a negative one counts from the end, then it is clamped to [0, n]. */
  function SliceIndex(i: int, n: nat): (k: nat)
    ensures k <= n
    ensures 0 <= i <= n ==> k == i
    ensures i < 0 && n + i >= 0 ==> k == n + i
  {
    if i < 0 then (if i + n < 0 then 0 else i + n) else (if i > n then n else i)
  }

  /** Python's s[lo:hi]. */
  function PySlice<T>(s: seq<T>, lo: int, hi: int): (r: seq<T>)
    ensures |r| <= |s|
  {
    var a, b := SliceIndex(lo, |s|), SliceIndex(hi, |s|);
    if a < b then s[a..b] else []
  }

  /** A synid: the basename of its zip file without the first character and the last four. */
  function Synid(path: string): (id: string)
  {
    PySlice(Basename(path), 1, -4)
  }

  /** basename[1:-4] takes the middle of a basename of five or more characters, and nothing of a shorter one. */
  lemma SynidMiddle(path: string)
    ensures |Basename(path)| >= 5 ==> Synid(path) == Basename(path)[1..|Basename(path)| - 4]
    ensures |Basename(path)| < 5 ==> Synid(path) == []
  {
  }

  /** The zip file get_syn_entry opens for a synid: DATADIR + '/n%s.zip'. */
  function ZipName(dir: string, id: string): (p: string)
  {
    dir + "/n" + id + ".zip"
  }

  /** synids inverts the zip file naming, for ids without a '/'. */
  lemma SynidOfZipName(dir: string, id: string)
    requires '/' !in id
    ensures Synid(ZipName(dir, id)) == id
  {
    var name := "n" + id + ".zip";
    assert ZipName(dir, id) == dir + "/" + name;
    assert '/' !in name;
    BasenameAfterSlash(dir, name);
    assert name[1..|name| - 4] == id;
  }

  /** The basename of dir + "/" + name, for a name without a '/', is name. */
  lemma {:induction false} BasenameAfterSlash(dir: string, name: string)
    requires '/' !in name
    ensures Basename(dir + "/" + name) == name
  {
    var p := dir + "/" + name;
    if name == [] {
    } else {
      var init := name[..|name| - 1];
      BasenameAfterSlash(dir, init);
      assert p[..|p| - 1] == dir + "/" + init;
      assert init + [name[|name| - 1]] == name;
    }
  }

  /** The example of a synid: n123.zip stands for 123. */
  lemma SynidExample()
    ensures Synid("/hdfs/imagenet-zip/n123.zip") == "123"
  {
    SynidOfZipName("/hdfs/imagenet-zip", "123");
  }

  /** synids(): the synid of every listed zip file, in listing order. */
  function Synids(paths: seq<string>): (ids: seq<string>)
    ensures |ids| == |paths|
    ensures forall i :: 0 <= i < |paths| ==> ids[i] == Synid(paths[i])
  {
    seq(|paths|, i requires 0 <= i < |paths| => Synid(paths[i]))
  }

  // ---------------------------------------------------------------------------
  // synid_to_name

  /**
   * dict(pairs): every element must have two items, and a later key
   * overwrites an earlier one. Failure(i) when element i is the first that
   * has not.
   */
  function DictOf(pairs: seq<seq<string>>): (r: Result<map<string, string>, nat>)
  {
    if pairs == [] then Success(map[])
    else
      var last := pairs[|pairs| - 1];
      match DictOf(pairs[..|pairs| - 1])
      case Failure(i) => Failure(i)
      case Success(m) => if |last| != 2 then Failure(|pairs| - 1) else Success(m[last[0] := last[1]])
  }

  /** dict fails exactly at its first element that is not a pair. */
  lemma {:induction false} DictOfFailure(pairs: seq<seq<string>>)
    ensures DictOf(pairs).Failure? <==> exists i :: 0 <= i < |pairs| && |pairs[i]| != 2
    ensures DictOf(pairs).Failure? ==>
      DictOf(pairs).error < |pairs| && |pairs[DictOf(pairs).error]| != 2 &&
      forall i :: 0 <= i < DictOf(pairs).error ==> |pairs[i]| == 2
  {
    if pairs != [] {
      var init := pairs[..|pairs| - 1];
      DictOfFailure(init);
      assert forall i :: 0 <= i < |init| ==> init[i] == pairs[i];
    }
  }

  /** Pairs with distinct keys: each key maps to its own value, and nothing else is a key. */
  lemma {:induction false} DictOfDistinct(pairs: seq<seq<string>>)
    requires forall i :: 0 <= i < |pairs| ==> |pairs[i]| == 2
    requires forall i, j :: 0 <= i < j < |pairs| ==> pairs[i][0] != pairs[j][0]
    ensures DictOf(pairs).Success?
    ensures forall i :: 0 <= i < |pairs| ==> pairs[i][0] in DictOf(pairs).value && DictOf(pairs).value[pairs[i][0]] == pairs[i][1]
    ensures forall k :: k in DictOf(pairs).value ==> exists i :: 0 <= i < |pairs| && pairs[i][0] == k
  {
    if pairs != [] {
      var init := pairs[..|pairs| - 1];
      assert forall i :: 0 <= i < |init| ==> init[i] == pairs[i];
      DictOfDistinct(init);
    }
  }

  /**
   * The dictionary synid_to_name builds before it cuts the names: the file
   * split at '\n', each line split at its first space, the piece after the
   * last '\n' dropped.
   */
  function ParseSynsets(text: string): (r: Result<map<string, string>, nat>)
  {
    var lines := PySplit(text, '\n');
    var init := lines[..|lines| - 1];
    DictOf(seq(|init|, i requires 0 <= i < |init| => SplitOnce(init[i])))
  }

  /** Every name cut at its first comma. */
  function FirstFields(m: map<string, string>): (r: map<string, string>)
    ensures r.Keys == m.Keys
    ensures forall k :: k in m ==> r[k] == FirstField(m[k])
  {
    map k | k in m :: FirstField(m[k])
  }

  /**
   * synid_to_name: parse the file, then rewrite each name to the text before
   * its first comma, key by key.
   */
  method SynidToName(text: string) returns (r: Result<map<string, string>, nat>)
    ensures ParseSynsets(text).Failure? ==> r == Failure(ParseSynsets(text).error)
    ensures ParseSynsets(text).Success? ==> r == Success(FirstFields(ParseSynsets(text).value))
  {
    var parsed := ParseSynsets(text);
    if parsed.Failure? {
      return Failure(parsed.error);
    }
    var syns := parsed.value;
    var todo := syns.Keys;
    while todo != {}
      invariant syns.Keys == parsed.value.Keys && todo <= syns.Keys
      invariant forall k :: k in syns && k !in todo ==> syns[k] == FirstField(parsed.value[k])
      invariant forall k :: k in todo ==> syns[k] == parsed.value[k]
      decreases |todo|
    {
      var k :| k in todo;
      syns := syns[k := FirstField(syns[k])];
      todo := todo - {k};
    }
    assert syns == FirstFields(parsed.value) by {
      forall k | k in syns
        ensures syns[k] == FirstFields(parsed.value)[k]
      {
      }
    }
    r := Success(syns);
  }

  /** A synset file: one line per entry, the id, a space and the names, each line ended by '\n'. */
  function SynsetFile(entries: seq<(string, string)>): (text: string)
  {
    StringJoin.Join(EntryLines(entries) + [[]], "\n")
  }

  /** The lines of a synset file. */
  function EntryLines(entries: seq<(string, string)>): (lines: seq<string>)
    ensures |lines| == |entries|
  {
    seq(|entries|, i requires 0 <= i < |entries| => entries[i].0 + " " + entries[i].1)
  }

  /** A file of entries whose ids have no space or newline, whose names have no newline, and whose ids differ. */
  predicate WellFormedEntries(entries: seq<(string, string)>)
  {
    (forall i :: 0 <= i < |entries| ==> ' ' !in entries[i].0 && '\n' !in entries[i].0 && '\n' !in entries[i].1) &&
    (forall i, j :: 0 <= i < j < |entries| ==> entries[i].0 != entries[j].0)
  }

  /**
   * Parsing a well-formed synset file gives back its entries: every id maps
   * to its names, and nothing else is an id.
   */
  lemma ParseSynsetFile(entries: seq<(string, string)>)
    requires WellFormedEntries(entries)
    ensures ParseSynsets(SynsetFile(entries)).Success?
    ensures forall i :: 0 <= i < |entries| ==>
      entries[i].0 in ParseSynsets(SynsetFile(entries)).value &&
      ParseSynsets(SynsetFile(entries)).value[entries[i].0] == entries[i].1
    ensures forall k :: k in ParseSynsets(SynsetFile(entries)).value ==>
      exists i :: 0 <= i < |entries| && entries[i].0 == k
  {
    var lines := EntryLines(entries);
    forall i | 0 <= i < |lines|
      ensures '\n' !in lines[i]
    {
      assert lines[i] == entries[i].0 + " " + entries[i].1;
    }
    PySplitJoin(lines + [[]], '\n');
    var split := PySplit(SynsetFile(entries), '\n');
    assert split[..|split| - 1] == lines;
    var pairs := seq(|lines|, i requires 0 <= i < |lines| => SplitOnce(lines[i]));
    forall i | 0 <= i < |lines|
      ensures pairs[i] == [entries[i].0, entries[i].1]
    {
      SplitOnceKey(entries[i].0, entries[i].1);
    }
    DictOfDistinct(pairs);
  }

  /** The last line counts only when a '\n' ends it: a file of one line without one has no entries. */
  lemma UnterminatedLineDropped(line: string)
    requires '\n' !in line
    ensures ParseSynsets(line) == Success(map[])
  {
    PySplitWithout(line, '\n');
  }

  // ---------------------------------------------------------------------------
  // label_names and randsyn

  /** label_names(): for each synid in order its name, or 'unknown' when it has none. */
  function LabelNames(ids: seq<string>, names: map<string, string>): (r: seq<string>)
    ensures |r| == |ids|
    ensures forall i :: 0 <= i < |ids| && ids[i] in names ==> r[i] == names[ids[i]]
    ensures forall i :: 0 <= i < |ids| && ids[i] !in names ==> r[i] == "unknown"
  {
    seq(|ids|, i requires 0 <= i < |ids| => if ids[i] in names then names[ids[i]] else "unknown")
  }

  /** Why randsyn returns no synid. */
  datatype RandSynError =
    | NoIds           // random.randrange(0) raises
    | DrawsExhausted  // the source keeps drawing; the model has run out of draws

  /**
   * randsyn: draw positions into ids until the synid there has a name.
   * draws stands for the successive random.randrange(len(ids)) results.
   */
  method RandSyn(ids: seq<string>, names: map<string, string>, draws: seq<nat>) returns (r: Result<string, RandSynError>)
    requires forall j :: 0 <= j < |draws| ==> draws[j] < |ids|
    ensures |ids| == 0 <==> r == Failure(NoIds)
    ensures r.Success? ==> r.value in names && r.value in ids
    ensures r.Success? ==> exists j :: 0 <= j < |draws| && r.value == ids[draws[j]] &&
                                     (forall j' :: 0 <= j' < j ==> ids[draws[j']] !in names)
    ensures r == Failure(DrawsExhausted) <==> |ids| > 0 && forall j :: 0 <= j < |draws| ==> ids[draws[j]] !in names
  {
    if |ids| == 0 {
      return Failure(NoIds);
    }
    var j := 0;
    while j < |draws|
      invariant j <= |draws|
      invariant forall j' :: 0 <= j' < j ==> ids[draws[j']] !in names
    {
      var synid := ids[draws[j]];
      if synid in names {
        return Success(synid);
      }
      j := j + 1;
    }
    r := Failure(DrawsExhausted);
  }
}
