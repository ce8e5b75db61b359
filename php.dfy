/**
  PHP values as the core uses them: scalars and ordered arrays whose keys are
  integers or strings. An array is the sequence of its entries in insertion
  order, which is the order foreach, implode and array_keys see. The functions
  here are the array built-ins the core calls: `$a[$k]`, `$a[$k] = $v`,
  `$a[] = $v`, unset, array_merge and array_merge_recursive.
 */
module Php {
  import opened PhpStrings

  datatype Option<T> = None | Some(value: T)

  datatype Key = IntKey(n: int) | StrKey(s: string)

  datatype Value =
    | Null
    | Bool(b: bool)
    | Int(i: int)
    | Str(s: string)
    | Arr(entries: seq<Entry>)

  datatype Entry = Entry(key: Key, val: Value)

  /** What can leave a PHP call instead of a return value. */
  datatype Failure =
    | Exception(message: string)      // \Exception
    | PdoException(message: string)   // \PDOException, as raised or rethrown
    | NullMemberCall(member: string)  // \Error: a method called on null
    | CallFails(member: string)       // \Error: a call to a method the class does not define
    | TypeError(builtin: string)      // \TypeError from a built-in given a non-array
    | ReturnTypeError(member: string) // \TypeError: a returned value outside the declared return type

  /** How a call that returns nothing of interest ends: it completes or raises. */
  datatype Outcome = Pass | Fail(failure: Failure)

  /** How a call that returns a value ends: with the value, or raising. */
  datatype Result<T> = Ok(value: T) | Err(failure: Failure)

  // ---------------------------------------------------------------- keys

  /** The key a string becomes when it indexes an array: canonical decimal
      integer text becomes an integer key, anything else stays a string. */
  function StringKey(s: string): (k: Key)
    ensures k.IntKey? <==> IsIntegerKey(s)
    ensures k.StrKey? ==> k.s == s
  {
    if IsIntegerKey(s) then IntKey(IntegerKeyValue(s)) else StrKey(s)
  }

  /** A key as PHP can hold it: an integer, or a string that is no integer key. */
  predicate NormalKey(k: Key)
  {
    k.StrKey? ==> !IsIntegerKey(k.s)
  }

  /** `(string)$key`, as array_keys followed by trim or interpolation sees it. */
  function KeyText(k: Key): string
  {
    match k
    case IntKey(n) => IntToDecimal(n)
    case StrKey(s) => s
  }

  lemma StringKeyIsNormal(s: string)
    ensures NormalKey(StringKey(s))
  {
  }

  /** Keys survive a trip through their text. */
  lemma {:induction false} KeyTextRoundTrip(k: Key)
    requires NormalKey(k)
    ensures StringKey(KeyText(k)) == k
  {
    if k.IntKey? {
      IntegerKeyOfDecimal(k.n);
    }
  }

  /** Strings survive a trip through the key they become. */
  lemma {:induction false} StringKeyRoundTrip(s: string)
    ensures KeyText(StringKey(s)) == s
  {
    if IsIntegerKey(s) {
      DecimalOfIntegerKey(s);
    }
  }

  // ---------------------------------------------------------------- lookup

  /** The position of the first entry with key k, searching from `from`. */
  function FindFrom(a: seq<Entry>, k: Key, from: nat): (r: Option<nat>)
    requires from <= |a|
    ensures r.Some? ==> from <= r.value < |a| && a[r.value].key == k
    ensures r.Some? ==> forall m :: from <= m < r.value ==> a[m].key != k
    ensures r.None? ==> forall m :: from <= m < |a| ==> a[m].key != k
    decreases |a| - from
  {
    if from == |a| then None
    else if a[from].key == k then Some(from)
    else FindFrom(a, k, from + 1)
  }

  /** The position of the entry with key k: the first one, and in a PHP
      array the only one. */
  function Find(a: seq<Entry>, k: Key): (r: Option<nat>)
    ensures r.Some? ==> r.value < |a| && a[r.value].key == k
    ensures r.Some? ==> forall m :: 0 <= m < r.value ==> a[m].key != k
    ensures r.None? ==> forall m :: 0 <= m < |a| ==> a[m].key != k
  {
    FindFrom(a, k, 0)
  }

  /** `$a[$k] ?? null` with `array_key_exists` telling the two apart. */
  function Get(a: seq<Entry>, k: Key): Option<Value>
  {
    match Find(a, k)
    case None => None
    case Some(i) => Some(a[i].val)
  }

  /** array_key_exists($k, $a). */
  predicate HasKey(a: seq<Entry>, k: Key)
  {
    Find(a, k).Some?
  }

  /** A lookup finds something exactly when some entry has the key. */
  lemma GetFound(a: seq<Entry>, k: Key)
    ensures Get(a, k).Some? <==> exists i :: 0 <= i < |a| && a[i].key == k
  {
    if Find(a, k).Some? {
      var i := Find(a, k).value;
      assert a[i].key == k;
    }
  }

  /** The first position of a key depends only on where that key occurs. */
  lemma FindSameKeys(a: seq<Entry>, b: seq<Entry>, k: Key)
    requires |a| == |b| && forall m :: 0 <= m < |a| ==> (a[m].key == k) == (b[m].key == k)
    ensures Find(a, k) == Find(b, k)
  {
    if Find(a, k).Some? {
      assert b[Find(a, k).value].key == k;
    }
    if Find(b, k).Some? {
      assert a[Find(b, k).value].key == k;
    }
  }

  /** A key is found in the first part if it is there, otherwise in the
      second, shifted past the first. */
  lemma FindAppend(a: seq<Entry>, b: seq<Entry>, k: Key)
    ensures Find(a + b, k) ==
      if Find(a, k).Some? then Find(a, k)
      else match Find(b, k) case None => None case Some(i) => Some(|a| + i)
  {
    var ab := a + b;
    var f := Find(ab, k);
    if Find(a, k).Some? {
      assert ab[Find(a, k).value] == a[Find(a, k).value];
    }
    if Find(b, k).Some? {
      assert ab[|a| + Find(b, k).value] == b[Find(b, k).value];
    }
    if f.Some? {
      if f.value < |a| {
        assert ab[f.value] == a[f.value];
      } else {
        assert ab[f.value] == b[f.value - |a|];
      }
    }
    assert forall m :: 0 <= m < |a| ==> ab[m] == a[m];
    assert forall m :: |a| <= m < |ab| ==> ab[m] == b[m - |a|];
  }

  /** A lookup in two arrays side by side: the first wins. */
  lemma GetAppend(a: seq<Entry>, b: seq<Entry>, k: Key)
    ensures Get(a + b, k) == if HasKey(a, k) then Get(a, k) else Get(b, k)
  {
    FindAppend(a, b, k);
    if Find(a, k).Some? {
      assert (a + b)[Find(a, k).value] == a[Find(a, k).value];
    } else if Find(b, k).Some? {
      assert (a + b)[|a| + Find(b, k).value] == b[Find(b, k).value];
    }
  }

  /** A lookup in an array with one entry in front. */
  lemma GetCons(e: Entry, rest: seq<Entry>, k: Key)
    ensures Get([e] + rest, k) == if e.key == k then Some(e.val) else Get(rest, k)
    ensures HasKey([e] + rest, k) <==> e.key == k || HasKey(rest, k)
  {
    GetAppend([e], rest, k);
    assert Find([e], k) == if e.key == k then Some(0) else None;
  }

  /** Entries before the first one with the key do not affect a lookup. */
  lemma GetSkip(a: seq<Entry>, n: nat, k: Key)
    requires n <= |a| && forall i :: 0 <= i < n ==> a[i].key != k
    ensures Get(a, k) == Get(a[n..], k)
  {
    assert a == a[..n] + a[n..];
    assert forall m :: 0 <= m < n ==> a[..n][m] == a[m];
    GetAppend(a[..n], a[n..], k);
  }

  /** No key occurs twice: true of every PHP array. */
  predicate DistinctKeys(a: seq<Entry>)
  {
    forall i, j :: 0 <= i < j < |a| ==> a[i].key != a[j].key
  }

  /** In a PHP array every entry is where a lookup of its key finds it. */
  lemma GetAt(a: seq<Entry>, i: nat)
    requires DistinctKeys(a) && i < |a|
    ensures Find(a, a[i].key) == Some(i)
    ensures Get(a, a[i].key) == Some(a[i].val)
  {
  }

  // ---------------------------------------------------------------- update

  /** `$a[$k] = $v`: an existing key keeps its place, a new one goes last. */
  function Put(a: seq<Entry>, k: Key, v: Value): (r: seq<Entry>)
    ensures Get(r, k) == Some(v)
    ensures forall j :: j != k ==> Get(r, j) == Get(a, j)
    ensures HasKey(a, k) ==> |r| == |a|
    ensures !HasKey(a, k) ==> r == a + [Entry(k, v)]
    ensures |a| <= |r| <= |a| + 1
  {
    match Find(a, k)
    case Some(i) => PutReplaces(a, k, v, i); a[i := Entry(k, v)]
    case None => PutAppends(a, k, v); a + [Entry(k, v)]
  }

  /** The keys of Put(a, k, v) are those of a and k. */
  lemma PutKeys(a: seq<Entry>, k: Key, v: Value)
    ensures forall j :: HasKey(Put(a, k, v), j) <==> j == k || HasKey(a, j)
  {
    match Find(a, k)
    case Some(i) => PutReplacesKeys(a, k, v, i);
    case None => PutAppendsKeys(a, k, v);
  }

  /** Put's contract when the key is at position i: the entry is replaced in place. */
  lemma PutReplaces(a: seq<Entry>, k: Key, v: Value, i: nat)
    requires Find(a, k) == Some(i)
    ensures var r := a[i := Entry(k, v)];
      Get(r, k) == Some(v) && (forall j :: j != k ==> Get(r, j) == Get(a, j))
      && (DistinctKeys(a) ==> DistinctKeys(r))
  {
    var r := a[i := Entry(k, v)];
    forall j ensures Find(r, j) == Find(a, j) {
      FindSameKeys(r, a, j);
    }
  }

  /** Put's contract when the key is at position i: the same keys as before. */
  lemma PutReplacesKeys(a: seq<Entry>, k: Key, v: Value, i: nat)
    requires Find(a, k) == Some(i)
    ensures forall j :: HasKey(a[i := Entry(k, v)], j) <==> HasKey(a, j)
  {
    forall j ensures Find(a[i := Entry(k, v)], j) == Find(a, j) {
      FindSameKeys(a[i := Entry(k, v)], a, j);
    }
  }

  /** Put's contract when the key is new: the entry goes last. */
  lemma PutAppends(a: seq<Entry>, k: Key, v: Value)
    requires Find(a, k).None?
    ensures var r := a + [Entry(k, v)];
      Get(r, k) == Some(v) && (forall j :: j != k ==> Get(r, j) == Get(a, j))
      && (DistinctKeys(a) ==> DistinctKeys(r))
  {
    var e := Entry(k, v);
    forall j ensures Get(a + [e], j) == if j == k then Some(v) else Get(a, j) {
      GetAppend(a, [e], j);
      GetCons(e, [], j);
      assert [e] + [] == [e];
    }
  }

  /** Put's contract when the key is new: the keys gain k. */
  lemma PutAppendsKeys(a: seq<Entry>, k: Key, v: Value)
    ensures forall j :: HasKey(a + [Entry(k, v)], j) <==> j == k || HasKey(a, j)
  {
    forall j ensures HasKey(a + [Entry(k, v)], j) <==> j == k || HasKey(a, j) {
      FindAppend(a, [Entry(k, v)], j);
      assert Find([Entry(k, v)], j) == if j == k then Some(0) else None;
    }
  }

  /** Put keeps a PHP array's keys distinct and adds at most one entry. */
  lemma PutKeepsDistinct(a: seq<Entry>, k: Key, v: Value)
    requires DistinctKeys(a)
    ensures DistinctKeys(Put(a, k, v)) && |Put(a, k, v)| <= |a| + 1
  {
    match Find(a, k)
    case Some(i) => PutReplaces(a, k, v, i);
    case None => PutAppends(a, k, v);
  }

  /** Without its first entry a PHP array keeps distinct keys, none of them the first key. */
  lemma DistinctTail(a: seq<Entry>)
    requires a != []
    ensures DistinctKeys(a) ==> DistinctKeys(a[1..]) && !HasKey(a[1..], a[0].key)
  {
    if DistinctKeys(a) {
      forall i | 0 <= i < |a[1..]| ensures a[1..][i].key != a[0].key {
        assert a[1..][i] == a[i + 1];
      }
    }
  }

  /** An entry whose key is new can go in front of a PHP array. */
  lemma DistinctCons(e: Entry, rest: seq<Entry>)
    ensures DistinctKeys(rest) && !HasKey(rest, e.key) ==> DistinctKeys([e] + rest)
  {
    if DistinctKeys(rest) && !HasKey(rest, e.key) {
      var r := [e] + rest;
      forall i, j | 0 <= i < j < |r| ensures r[i].key != r[j].key {
        assert r[j] == rest[j - 1];
        if i > 0 {
          assert r[i] == rest[i - 1];
        }
      }
    }
  }

  /** `unset($a[$k])`: the entry goes, every other entry keeps its place. */
  function Remove(a: seq<Entry>, k: Key): (r: seq<Entry>)
    ensures Get(r, k) == None
    ensures forall j :: j != k ==> Get(r, j) == Get(a, j)
    ensures |r| <= |a|
    ensures !HasKey(a, k) ==> r == a
    ensures DistinctKeys(a) ==> DistinctKeys(r)
  {
    if a == [] then []
    else
      var rest := Remove(a[1..], k);
      assert a == [a[0]] + a[1..];
      GetCons(a[0], a[1..], k);
      forall j ensures Get([a[0]] + rest, j) == (if a[0].key == j then Some(a[0].val) else Get(rest, j))
                    && Get(a, j) == (if a[0].key == j then Some(a[0].val) else Get(a[1..], j)) {
        GetCons(a[0], rest, j);
        GetCons(a[0], a[1..], j);
      }
      DistinctTail(a);
      if a[0].key == k then rest
      else
        assert Get(rest, a[0].key) == Get(a[1..], a[0].key);
        assert HasKey(rest, a[0].key) == HasKey(a[1..], a[0].key);
        DistinctCons(a[0], rest);
        [a[0]] + rest
  }

  /** The largest integer key, if there is one. */
  function MaxIntKey(a: seq<Entry>): (m: Option<int>)
    ensures m.None? <==> forall i :: 0 <= i < |a| ==> a[i].key.StrKey?
    ensures m.Some? ==> forall i :: 0 <= i < |a| && a[i].key.IntKey? ==> a[i].key.n <= m.value
    ensures m.Some? ==> exists i :: 0 <= i < |a| && a[i].key == IntKey(m.value)
  {
    if a == [] then None
    else
      var rest := MaxIntKey(a[1..]);
      assert forall i :: 1 <= i < |a| ==> a[i] == a[1..][i - 1];
      match a[0].key
      case StrKey(_) => rest
      case IntKey(n) =>
        match rest
        case None => Some(n)
        case Some(m) => Some(if m < n then n else m)
  }

  /** The key `$a[] = $v` uses: one more than the largest integer key, 0 when
      there is none (PHP 8.3 rule; earlier versions use 0 also when every
      integer key is negative). */
  function NextIndex(a: seq<Entry>): (n: int)
    ensures !HasKey(a, IntKey(n))
    ensures (forall i :: 0 <= i < |a| ==> a[i].key.StrKey?) ==> n == 0
  {
    var n := match MaxIntKey(a) case None => 0 case Some(m) => m + 1;
    GetFound(a, IntKey(n));
    n
  }

  /** `$a[] = $v`. */
  function Push(a: seq<Entry>, v: Value): (r: seq<Entry>)
    ensures r == a + [Entry(IntKey(NextIndex(a)), v)]
    ensures DistinctKeys(a) ==> DistinctKeys(r)
  {
    var k := IntKey(NextIndex(a));
    assert forall i :: 0 <= i < |a| ==> a[i].key != k;
    a + [Entry(k, v)]
  }

  // ---------------------------------------------------------------- merging

  /** How array_merge and array_merge_recursive copy their first argument:
      string keys kept, integer keys renumbered from `next` in order. */
  function RenumberFrom(a: seq<Entry>, next: int): (r: seq<Entry>)
    ensures |r| == |a|
    ensures forall i :: 0 <= i < |a| ==> r[i].val == a[i].val && r[i].key.StrKey? == a[i].key.StrKey?
    ensures forall i :: 0 <= i < |a| && a[i].key.StrKey? ==> r[i] == a[i]
  {
    if a == [] then []
    else if a[0].key.IntKey? then [Entry(IntKey(next), a[0].val)] + RenumberFrom(a[1..], next + 1)
    else [a[0]] + RenumberFrom(a[1..], next)
  }

  function Renumber(a: seq<Entry>): seq<Entry>
  {
    RenumberFrom(a, 0)
  }

  /** Renumbering leaves every string-keyed entry where a lookup finds it. */
  lemma RenumberKeepsStrings(a: seq<Entry>, next: int, s: string)
    ensures Get(RenumberFrom(a, next), StrKey(s)) == Get(a, StrKey(s))
  {
    FindSameKeys(RenumberFrom(a, next), a, StrKey(s));
  }

  /** array_merge($dest, $src) after the copy of $dest: string keys of $src
      overwrite (an existing key keeps its place), integer keys are appended. */
  function MergeInto(dest: seq<Entry>, src: seq<Entry>): (r: seq<Entry>)
    ensures |dest| <= |r| <= |dest| + |src|
    ensures DistinctKeys(dest) ==> DistinctKeys(r)
    decreases |src|
  {
    if src == [] then dest
    else
      var e := src[0];
      var next := if e.key.IntKey? then Push(dest, e.val) else Put(dest, e.key, e.val);
      assert DistinctKeys(dest) ==> DistinctKeys(next) by {
        if e.key.StrKey? && DistinctKeys(dest) { PutKeepsDistinct(dest, e.key, e.val); }
      }
      MergeInto(next, src[1..])
  }

  /** Every key is a string key. */
  predicate StringKeyed(a: seq<Entry>)
  {
    forall i :: 0 <= i < |a| ==> a[i].key.StrKey?
  }

  /** Renumbering an array without integer keys changes nothing. */
  lemma RenumberStringKeyed(a: seq<Entry>, next: int)
    requires StringKeyed(a)
    ensures RenumberFrom(a, next) == a
  {
  }

  /** Storing the value a key already holds changes nothing. */
  lemma {:induction false} PutSame(a: seq<Entry>, k: Key, v: Value)
    requires Get(a, k) == Some(v)
    ensures Put(a, k, v) == a
    decreases |a|
  {
    if a[0].key != k {
      PutSame(a[1..], k, v);
    }
  }

  /** Merging in string-keyed entries that dest already holds changes nothing. */
  lemma {:induction false} MergeIntoPresent(dest: seq<Entry>, src: seq<Entry>)
    requires StringKeyed(src)
    requires forall i :: 0 <= i < |src| ==> Get(dest, src[i].key) == Some(src[i].val)
    ensures MergeInto(dest, src) == dest
    decreases |src|
  {
    if src != [] {
      PutSame(dest, src[0].key, src[0].val);
      assert forall i :: 0 <= i < |src[1..]| ==> src[1..][i] == src[i + 1];
      MergeIntoPresent(dest, src[1..]);
    }
  }

  /** array_merge($a, $a) is $a for a PHP array with only string keys. */
  lemma MergeSelf(a: seq<Entry>)
    requires StringKeyed(a) && DistinctKeys(a)
    ensures Merge(a, a) == a
  {
    RenumberStringKeyed(a, 0);
    forall i | 0 <= i < |a| ensures Get(a, a[i].key) == Some(a[i].val) {
      GetAt(a, i);
    }
    MergeIntoPresent(a, a);
  }

  /** Moving the first element of the second part to the end of the first
      leaves the concatenation as it is. */
  lemma MoveFirst<T>(a: seq<T>, b: seq<T>)
    requires b != []
    ensures (a + [b[0]]) + b[1..] == a + b
  {
    assert b == [b[0]] + b[1..];
  }

  /** Merging string-keyed entries whose keys are all new appends them in order. */
  lemma {:induction false} MergeIntoFresh(dest: seq<Entry>, src: seq<Entry>)
    requires StringKeyed(src) && DistinctKeys(dest + src)
    ensures MergeInto(dest, src) == dest + src
    decreases |src|
  {
    if src != [] {
      var e := src[0];
      forall i | 0 <= i < |dest| ensures dest[i].key != e.key {
        assert (dest + src)[i] == dest[i] && (dest + src)[|dest|] == e;
      }
      GetSkip(dest, |dest|, e.key);
      assert !HasKey(dest, e.key);
      assert MergeInto(dest, src) == MergeInto(Put(dest, e.key, e.val), src[1..]);
      assert Put(dest, e.key, e.val) == dest + [e];
      MoveFirst(dest, src);
      assert forall i :: 0 <= i < |src[1..]| ==> src[1..][i] == src[i + 1];
      MergeIntoFresh(dest + [e], src[1..]);
    }
  }

  /** array_merge($a, $b). */
  function Merge(a: seq<Entry>, b: seq<Entry>): (r: seq<Entry>)
    ensures |a| <= |r| <= |a| + |b|
    ensures StringKeyed(a) && b == [] ==> r == a
  {
    assert StringKeyed(a) ==> Renumber(a) == a by {
      if StringKeyed(a) { RenumberStringKeyed(a, 0); }
    }
    MergeInto(Renumber(a), b)
  }

  /** In array_merge the later array wins for every string key it has; the
      other string keys keep the value of the earlier one. */
  lemma {:induction false} MergeIntoStringKey(dest: seq<Entry>, src: seq<Entry>, s: string)
    requires DistinctKeys(src)
    ensures Get(MergeInto(dest, src), StrKey(s)) ==
      if HasKey(src, StrKey(s)) then Get(src, StrKey(s)) else Get(dest, StrKey(s))
    decreases |src|
  {
    if src != [] {
      var e := src[0];
      var next := if e.key.IntKey? then Push(dest, e.val) else Put(dest, e.key, e.val);
      assert DistinctKeys(src[1..]);
      MergeIntoStringKey(next, src[1..], s);
      if e.key.IntKey? {
        GetAppend(dest, [Entry(IntKey(NextIndex(dest)), e.val)], StrKey(s));
      } else if e.key == StrKey(s) {
        forall i | 0 <= i < |src[1..]| ensures src[1..][i].key != StrKey(s) {
          assert src[1..][i] == src[i + 1];
        }
      }
    }
  }

  lemma MergeStringKey(a: seq<Entry>, b: seq<Entry>, s: string)
    requires DistinctKeys(b)
    ensures Get(Merge(a, b), StrKey(s)) == if HasKey(b, StrKey(s)) then Get(b, StrKey(s)) else Get(a, StrKey(s))
  {
    MergeIntoStringKey(Renumber(a), b, s);
    RenumberKeepsStrings(a, 0, s);
  }

  /** What convert_to_array makes of an existing value in array_merge_recursive:
      an array stays, null and every scalar become a one-element list. */
  function AsArray(v: Value): seq<Entry>
  {
    if v.Arr? then v.entries else [Entry(IntKey(0), v)]
  }

  /** php_array_merge_recursive($dest, $src): integer keys of $src are
      appended; a string key new to $dest is appended with its value; a string
      key already in $dest turns the old value into an array, into which an
      array value of $src is merged recursively and any other value appended. */
  function MergeRecInto(dest: seq<Entry>, src: seq<Entry>): (r: seq<Entry>)
    ensures |dest| <= |r| <= |dest| + |src|
    decreases src
  {
    if src == [] then dest
    else MergeRecInto(MergeRecEntry(dest, src[0]), src[1..])
  }

  function MergeRecEntry(dest: seq<Entry>, e: Entry): (r: seq<Entry>)
    ensures |dest| <= |r| <= |dest| + 1
    ensures e.key.StrKey? ==> HasKey(r, e.key)
    decreases e
  {
    match e.key
    case IntKey(_) => Push(dest, e.val)
    case StrKey(_) =>
      match Get(dest, e.key)
      case None =>
        assert (dest + [e])[|dest|] == e;
        dest + [e]
      case Some(prev) =>
        var base := AsArray(prev);
        var merged := if e.val.Arr? then MergeRecInto(base, e.val.entries) else Push(base, e.val);
        Put(dest, e.key, Arr(merged))
  }

  /** array_merge_recursive($a, $b). */
  function MergeRecursive(a: seq<Entry>, b: seq<Entry>): (r: seq<Entry>)
    ensures |a| <= |r| <= |a| + |b|
  {
    MergeRecInto(Renumber(a), b)
  }

  // ---------------------------------------------------------------- conversions

  /** `(string)$v`, as string concatenation and interpolation apply it. Arrays
      give "Array" (PHP also emits a warning). */
  function Text(v: Value): (r: string)
    ensures r == "" <==> v == Null || v == Bool(false) || v == Str("")
  {
    match v
    case Null => ""
    case Bool(b) => if b then "1" else ""
    case Int(i) => IntToDecimal(i)
    case Str(s) => s
    case Arr(_) => "Array"
  }

  /** `(bool)$s` for a string: only "" and "0" are false. */
  predicate StrTruthy(s: string)
  {
    s != "" && s != "0"
  }

  /** `(bool)$v`; `empty($v)` is its negation. */
  predicate Truthy(v: Value)
  {
    match v
    case Null => false
    case Bool(b) => b
    case Int(i) => i != 0
    case Str(s) => StrTruthy(s)
    case Arr(a) => a != []
  }

  /** `isset($a[$k])`: present and not null. */
  predicate IsSet(a: seq<Entry>, k: Key)
  {
    Get(a, k).Some? && Get(a, k).value != Null
  }
}
