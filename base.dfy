/**
 * Shared vocabulary: optional values, results, the JavaScript distinction
 * between `undefined` and `null`, the string operations of the JavaScript
 * runtime the generator relies on (`trim`, `join`, `split`), and plain
 * JavaScript objects seen as insertion-ordered key/value lists.
 */
module Base {

  datatype Option<+T> = None | Some(value: T)

  datatype Result<+T, +E> = Success(value: T) | Failure(error: E) {
    predicate IsFailure() { Failure? }
    function PropagateFailure<U>(): Result<U, E> requires Failure? { Failure(error) }
    function Extract(): T requires Success? { value }
  }

  /** A JavaScript value that may be absent in two ways, which `===` tells apart. */
  datatype Maybe<+T> = Undefined | Null | Present(value: T)

  // ---------------------------------------------------------------------------
  // String.prototype.trim

  /** The characters `String.prototype.trim` removes: WhiteSpace and LineTerminator of ECMA-262. */
  predicate IsWhitespace(c: char) {
    || c == '\t' || c == '\n' || c == '\U{000B}' || c == '\U{000C}' || c == '\r' || c == ' '
    || c == '\U{00A0}' || c == '\U{1680}' || ('\U{2000}' <= c <= '\U{200A}')
    || c == '\U{2028}' || c == '\U{2029}' || c == '\U{202F}' || c == '\U{205F}'
    || c == '\U{3000}' || c == '\U{FEFF}'
  }

  predicate AllWhitespace(s: string) {
    forall i :: 0 <= i < |s| ==> IsWhitespace(s[i])
  }

  /** The number of whitespace characters `s` starts with. */
  function LeadingWhitespace(s: string): (n: nat)
    ensures n <= |s| && AllWhitespace(s[..n]) && (n < |s| ==> !IsWhitespace(s[n]))
    decreases |s|
  {
    if |s| > 0 && IsWhitespace(s[0]) then
      var n := 1 + LeadingWhitespace(s[1..]);
      assert s[..n] == [s[0]] + s[1..][..n - 1];
      n
    else 0
  }

  /** The number of whitespace characters `s` ends with. */
  function TrailingWhitespace(s: string): (n: nat)
    ensures n <= |s| && AllWhitespace(s[|s| - n..]) && (n < |s| ==> !IsWhitespace(s[|s| - n - 1]))
    decreases |s|
  {
    if |s| > 0 && IsWhitespace(s[|s| - 1]) then
      var m := TrailingWhitespace(s[..|s| - 1]);
      TrailingStep(s, m);
      1 + m
    else 0
  }

  /** A whitespace suffix of `s` minus its whitespace last character grows by that character. */
  lemma TrailingStep(s: string, m: nat)
    requires |s| > 0 && IsWhitespace(s[|s| - 1]) && m <= |s| - 1
    requires AllWhitespace(s[..|s| - 1][|s| - 1 - m..])
    requires m < |s| - 1 ==> !IsWhitespace(s[..|s| - 1][|s| - 1 - m - 1])
    ensures AllWhitespace(s[|s| - (m + 1)..])
    ensures m + 1 < |s| ==> !IsWhitespace(s[|s| - (m + 1) - 1])
  {
    var t := s[..|s| - 1];
    forall k | |s| - (m + 1) <= k < |s| ensures IsWhitespace(s[k]) {
      if k < |s| - 1 {
        assert s[k] == t[|s| - 1 - m..][k - (|s| - 1 - m)];
      }
    }
    if m + 1 < |s| {
      assert s[|s| - (m + 1) - 1] == t[|s| - 1 - m - 1];
    }
  }

  function TrimStart(s: string): string
    decreases |s|
  {
    if |s| > 0 && IsWhitespace(s[0]) then TrimStart(s[1..]) else s
  }

  function TrimEnd(s: string): string
    decreases |s|
  {
    if |s| > 0 && IsWhitespace(s[|s| - 1]) then TrimEnd(s[..|s| - 1]) else s
  }

  /** `String.prototype.trim`. */
  function Trim(s: string): string {
    TrimEnd(TrimStart(s))
  }

  lemma {:induction false} TrimStartDrops(s: string)
    ensures TrimStart(s) == s[LeadingWhitespace(s)..]
    decreases |s|
  {
    if |s| > 0 && IsWhitespace(s[0]) {
      TrimStartDrops(s[1..]);
    }
  }

  lemma {:induction false} TrimEndDrops(s: string)
    ensures TrimEnd(s) == s[..|s| - TrailingWhitespace(s)]
    decreases |s|
  {
    if |s| > 0 && IsWhitespace(s[|s| - 1]) {
      TrimEndDrops(s[..|s| - 1]);
    }
  }

  /** The trimmed text neither starts nor ends with whitespace. */
  lemma TrimEdges(s: string)
    ensures Trim(s) != [] ==> !IsWhitespace(Trim(s)[0]) && !IsWhitespace(Trim(s)[|Trim(s)| - 1])
  {
    var i := LeadingWhitespace(s);
    var t := s[i..];
    var m := TrailingWhitespace(t);
    TrimStartDrops(s);
    TrimEndDrops(t);
    var r := t[..|t| - m];
    assert Trim(s) == r;
    if r != [] {
      assert r[0] == s[i];
      assert r[|r| - 1] == t[|t| - m - 1];
    }
  }

  /** A string that neither starts nor ends with whitespace is its own trim. */
  lemma TrimOfTrimmed(s: string)
    requires s != [] ==> !IsWhitespace(s[0]) && !IsWhitespace(s[|s| - 1])
    ensures Trim(s) == s
  {
  }

  /** Regrouping a concatenation of four parts. */
  lemma ConcatRegroup<T>(a: seq<T>, b: seq<T>, c: seq<T>, d: seq<T>)
    ensures a + ((b + c) + d) == ((a + b) + c) + d
  {
  }

  /** The trimmed text is the slice between the leading and the trailing whitespace. */
  lemma TrimIsSlice(s: string) returns (i: nat, j: nat)
    ensures i <= j <= |s| && Trim(s) == s[i..j] && AllWhitespace(s[..i]) && AllWhitespace(s[j..])
  {
    i := LeadingWhitespace(s);
    var t := s[i..];
    var m := TrailingWhitespace(t);
    TrimStartDrops(s);
    TrimEndDrops(t);
    j := |s| - m;
    assert t[..|t| - m] == s[i..j];
    assert t[|t| - m..] == s[j..];
  }

  /** The trimmed text is what is left between a whitespace prefix and a whitespace suffix. */
  lemma TrimParts(s: string) returns (pre: string, post: string)
    ensures AllWhitespace(pre) && AllWhitespace(post) && s == pre + Trim(s) + post
  {
    var i, j := TrimIsSlice(s);
    pre, post := s[..i], s[j..];
    assert s[..j] == pre + s[i..j];
    assert s == s[..j] + post;
  }

  /** Trimming twice is trimming once. */
  lemma TrimIdempotent(s: string)
    ensures Trim(Trim(s)) == Trim(s)
  {
    TrimEdges(s);
    TrimOfTrimmed(Trim(s));
  }

  // ---------------------------------------------------------------------------
  // Prefixes, suffixes, Array.prototype.join and String.prototype.split

  predicate StartsWith(s: string, prefix: string) {
    |prefix| <= |s| && s[..|prefix|] == prefix
  }

  predicate EndsWith(s: string, suffix: string) {
    |suffix| <= |s| && s[|s| - |suffix|..] == suffix
  }

  /** `parts.join(sep)`. */
  function Join(parts: seq<string>, sep: string): string
    decreases |parts|
  {
    if |parts| == 0 then ""
    else if |parts| == 1 then parts[0]
    else parts[0] + sep + Join(parts[1..], sep)
  }

  /** `s.split(c)` for a one-character separator. */
  function Split(s: string, c: char): (r: seq<string>)
    ensures |r| > 0
    decreases |s|
  {
    if c !in s then [s]
    else
      var i := IndexOf(s, c);
      [s[..i]] + Split(s[i + 1..], c)
  }

  function IndexOf(s: string, c: char): (i: nat)
    requires c in s
    ensures i < |s| && s[i] == c && c !in s[..i]
  {
    if s[0] == c then 0 else 1 + IndexOf(s[1..], c)
  }

  /** Joining pieces that never contain the separator and splitting again gives the pieces back. */
  lemma {:induction false} SplitJoin(parts: seq<string>, c: char)
    requires |parts| > 0
    requires forall k :: 0 <= k < |parts| ==> c !in parts[k]
    ensures Split(Join(parts, [c]), c) == parts
    decreases |parts|
  {
    if |parts| > 1 {
      var rest := Join(parts[1..], [c]);
      var s := parts[0] + [c] + rest;
      assert s[|parts[0]|] == c;
      assert s[..|parts[0]|] == parts[0];
      assert IndexOf(s, c) == |parts[0]|;
      assert s[|parts[0]| + 1..] == rest;
      SplitJoin(parts[1..], c);
      assert [parts[0]] + parts[1..] == parts;
    }
  }

  // ---------------------------------------------------------------------------
  // Insertion-ordered key/value lists: plain JavaScript objects (string keys)
  // and `Map`s (keys compared by identity)

  function Keys<K(==), V>(o: seq<(K, V)>): (r: seq<K>)
    ensures |r| == |o| && forall i :: 0 <= i < |o| ==> r[i] == o[i].0
  {
    seq(|o|, i requires 0 <= i < |o| => o[i].0)
  }

  predicate HasKey<K(==), V>(o: seq<(K, V)>, k: K) {
    k in Keys(o)
  }

  /** No key occurs twice: the entries of a real object. */
  predicate UniqueKeys<K(==), V>(o: seq<(K, V)>) {
    forall i, j :: 0 <= i < j < |o| ==> o[i].0 != o[j].0
  }

  /** `o[k]`, or `None` when the object has no such key. */
  function Lookup<K(==), V>(o: seq<(K, V)>, k: K): (r: Option<V>)
    ensures r.Some? <==> HasKey(o, k)
  {
    if o == [] then None
    else if o[0].0 == k then Some(o[0].1)
    else
      assert Keys(o) == [o[0].0] + Keys(o[1..]);
      Lookup(o[1..], k)
  }

  /** `o[k] = v`: a new key goes last, an existing key keeps its place and takes the new value. */
  function Put<K(==), V>(o: seq<(K, V)>, k: K, v: V): (r: seq<(K, V)>)
  {
    if o == [] then [(k, v)]
    else if o[0].0 == k then [(k, v)] + o[1..]
    else [o[0]] + Put(o[1..], k, v)
  }

  /** `{ ...a, ...b }`: the entries of `b` written onto `a`, one at a time. */
  function Spread<K(==), V>(a: seq<(K, V)>, b: seq<(K, V)>): seq<(K, V)>
    decreases |b|
  {
    if b == [] then a else Spread(Put(a, b[0].0, b[0].1), b[1..])
  }

  /** Reading back: the written key has the written value, and every other key is as it was. */
  lemma {:induction false} PutLookup<K, V>(o: seq<(K, V)>, k: K, v: V, k': K)
    ensures Lookup(Put(o, k, v), k') == if k' == k then Some(v) else Lookup(o, k')
  {
    if o != [] && o[0].0 != k {
      PutLookup(o[1..], k, v, k');
    }
  }

  /** Writing appends a new key and leaves an existing one in place. */
  lemma {:induction false} PutKeys<K, V>(o: seq<(K, V)>, k: K, v: V)
    ensures Keys(Put(o, k, v)) == if HasKey(o, k) then Keys(o) else Keys(o) + [k]
  {
    if o == [] {
    } else if o[0].0 == k {
      assert Keys(o)[0] == k;
      var r := Put(o, k, v);
      assert |r| == |o| && forall i :: 0 <= i < |o| ==> r[i].0 == o[i].0;
      assert Keys(r) == Keys(o);
    } else {
      KeysCons(o);
      PutKeys(o[1..], k, v);
      KeysCons(Put(o, k, v));
      assert Put(o, k, v)[1..] == Put(o[1..], k, v);
    }
  }

  lemma KeysCons<K, V>(o: seq<(K, V)>)
    requires o != []
    ensures Keys(o) == [o[0].0] + Keys(o[1..])
  {
  }

  /** In an object without repeated keys, each entry is what its key looks up. */
  lemma {:induction false} LookupAt<K, V>(o: seq<(K, V)>, i: nat)
    requires UniqueKeys(o) && i < |o|
    ensures Lookup(o, o[i].0) == Some(o[i].1)
  {
    if i > 0 {
      assert o[0].0 != o[i].0;
      LookupAt(o[1..], i - 1);
    }
  }

  /** A key that is found is the key of some entry holding the value found. */
  lemma {:induction false} LookupFound<K, V>(o: seq<(K, V)>, k: K)
    requires Lookup(o, k).Some?
    ensures exists i :: 0 <= i < |o| && o[i] == (k, Lookup(o, k).value)
  {
    if o[0].0 != k {
      LookupFound(o[1..], k);
      var i :| 0 <= i < |o[1..]| && o[1..][i] == (k, Lookup(o, k).value);
      assert o[i + 1] == o[1..][i];
    }
  }

  /** A second write to the same key replaces the first. */
  lemma {:induction false} PutPut<K, V>(o: seq<(K, V)>, k: K, v: V, w: V)
    ensures Put(Put(o, k, v), k, w) == Put(o, k, w)
  {
    if o != [] && o[0].0 != k {
      PutPut(o[1..], k, v, w);
    }
  }

  /** Writing keeps the keys of an object unique. */
  lemma PutUnique<K, V>(o: seq<(K, V)>, k: K, v: V)
    requires UniqueKeys(o)
    ensures UniqueKeys(Put(o, k, v))
  {
    PutKeys(o, k, v);
    var r := Put(o, k, v);
    forall i, j | 0 <= i < j < |r| ensures r[i].0 != r[j].0 {
      assert Keys(r)[i] == r[i].0 && Keys(r)[j] == r[j].0;
      if !HasKey(o, k) && j == |o| {
        assert Keys(o)[i] == o[i].0;
      }
    }
  }

  /** Spreading onto an object with none of the new keys is concatenation. */
  lemma {:induction false} SpreadDisjoint<K, V>(a: seq<(K, V)>, b: seq<(K, V)>)
    requires forall k :: HasKey(b, k) ==> !HasKey(a, k)
    requires UniqueKeys(b)
    ensures Spread(a, b) == a + b
    decreases |b|
  {
    if b != [] {
      assert Keys(b)[0] == b[0].0;
      PutAppendsNew(a, b[0].0, b[0].1);
      var a' := a + [b[0]];
      assert Keys(a') == Keys(a) + [b[0].0];
      forall k | HasKey(b[1..], k) ensures !HasKey(a', k) {
        KeysCons(b);
        var i :| 0 <= i < |b[1..]| && Keys(b[1..])[i] == k;
        assert b[i + 1].0 == k && Keys(b)[i + 1] == k;
        assert HasKey(b, k) && k != b[0].0;
        assert k !in Keys(a) + [b[0].0];
      }
      SpreadDisjoint(a', b[1..]);
      assert a' + b[1..] == a + b;
    }
  }

  lemma {:induction false} PutAppendsNew<K, V>(o: seq<(K, V)>, k: K, v: V)
    requires !HasKey(o, k)
    ensures Put(o, k, v) == o + [(k, v)]
  {
    if o != [] {
      KeysCons(o);
      PutAppendsNew(o[1..], k, v);
      assert [o[0]] + (o[1..] + [(k, v)]) == o + [(k, v)];
    }
  }

  // ---------------------------------------------------------------------------
  // Array.prototype.find

  /** No element before index `i` is accepted. */
  predicate NoneBefore<T>(xs: seq<T>, accept: T -> bool, i: nat)
    requires i <= |xs|
  {
    forall j :: 0 <= j < i ==> !accept(xs[j])
  }

  /** `Array.prototype.find`: the first element the finder accepts, or `undefined`. */
  function Find<T>(xs: seq<T>, accept: T -> bool): (r: Maybe<T>)
    ensures r != Null
    ensures r.Present? <==> exists i :: 0 <= i < |xs| && accept(xs[i])
    ensures r.Present? ==>
      exists i :: 0 <= i < |xs| && xs[i] == r.value && accept(xs[i]) && NoneBefore(xs, accept, i)
    decreases |xs|
  {
    if xs == [] then Undefined
    else if accept(xs[0]) then Present(xs[0])
    else
      var r := Find(xs[1..], accept);
      assert forall i :: 0 < i < |xs| ==> xs[i] == xs[1..][i - 1];
      assert r.Present? ==>
        exists i :: 0 <= i < |xs[1..]| && xs[1..][i] == r.value && NoneBefore(xs[1..], accept, i);
      r
  }

  /** The index of the first accepted element, or `|xs|` when there is none. */
  function FirstIndex<T>(xs: seq<T>, accept: T -> bool): (i: nat)
    ensures i <= |xs|
    ensures i < |xs| ==> accept(xs[i])
    ensures NoneBefore(xs, accept, i)
    decreases |xs|
  {
    if xs == [] then 0
    else if accept(xs[0]) then 0
    else
      var i := FirstIndex(xs[1..], accept);
      assert forall j :: 0 < j <= i ==> xs[j] == xs[1..][j - 1];
      1 + i
  }

  /** `find` returns exactly the first accepted element. */
  lemma {:induction false} FindFirst<T>(xs: seq<T>, accept: T -> bool, i: nat)
    requires i < |xs| && accept(xs[i]) && NoneBefore(xs, accept, i)
    ensures Find(xs, accept) == Present(xs[i])
  {
    if i > 0 {
      assert !accept(xs[0]);
      assert xs[1..][i - 1] == xs[i];
      assert NoneBefore(xs[1..], accept, i - 1) by {
        forall j | 0 <= j < i - 1 ensures !accept(xs[1..][j]) {
          assert xs[1..][j] == xs[j + 1];
        }
      }
      FindFirst(xs[1..], accept, i - 1);
    }
  }

  // ---------------------------------------------------------------------------
  // Array.prototype.filter

  /** `Array.prototype.filter`: the accepted elements, in their original order. */
  function Keep<T>(xs: seq<T>, accept: T -> bool): (r: seq<T>)
    ensures |r| <= |xs|
    ensures forall x :: x in r ==> x in xs && accept(x)
    decreases |xs|
  {
    if xs == [] then []
    else
      var rest := Keep(xs[1..], accept);
      assert forall x :: x in rest ==> x in xs[1..];
      (if accept(xs[0]) then [xs[0]] else []) + rest
  }

  /** Filtering distributes over concatenation. */
  lemma {:induction false} KeepAppend<T>(a: seq<T>, b: seq<T>, accept: T -> bool)
    ensures Keep(a + b, accept) == Keep(a, accept) + Keep(b, accept)
    decreases |a|
  {
    if a == [] {
      assert a + b == b;
    } else {
      assert (a + b)[0] == a[0] && (a + b)[1..] == a[1..] + b;
      KeepAppend(a[1..], b, accept);
    }
  }

  /** Every accepted element is kept. */
  lemma {:induction false} KeepKeeps<T>(xs: seq<T>, accept: T -> bool, i: nat)
    requires i < |xs| && accept(xs[i])
    ensures xs[i] in Keep(xs, accept)
    decreases |xs|
  {
    if i > 0 {
      KeepKeeps(xs[1..], accept, i - 1);
      assert xs[1..][i - 1] == xs[i];
    }
  }

  /** The filter comes out empty exactly when no element is accepted. */
  lemma KeepEmpty<T>(xs: seq<T>, accept: T -> bool)
    ensures Keep(xs, accept) == [] <==> forall i :: 0 <= i < |xs| ==> !accept(xs[i])
  {
    forall i | 0 <= i < |xs| && accept(xs[i]) ensures Keep(xs, accept) != [] {
      KeepKeeps(xs, accept, i);
    }
    if Keep(xs, accept) != [] {
      assert Keep(xs, accept)[0] in Keep(xs, accept);
    }
  }

  /** The first element kept is the first element accepted. */
  lemma {:induction false} KeepFirst<T>(xs: seq<T>, accept: T -> bool, i: nat)
    requires i < |xs| && accept(xs[i]) && NoneBefore(xs, accept, i)
    ensures Keep(xs, accept) != [] && Keep(xs, accept)[0] == xs[i]
    decreases |xs|
  {
    if i > 0 {
      assert !accept(xs[0]);
      assert xs[1..][i - 1] == xs[i];
      assert NoneBefore(xs[1..], accept, i - 1) by {
        forall j | 0 <= j < i - 1 ensures !accept(xs[1..][j]) {
          assert xs[1..][j] == xs[j + 1];
        }
      }
      KeepFirst(xs[1..], accept, i - 1);
    }
  }
}
