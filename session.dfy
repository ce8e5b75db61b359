/**
  The session store: one PHP array standing in for `$_SESSION`, addressed by
  dotted key paths such as "user.profile.name". Every operation first turns
  the path text into a list of keys, then walks the nested arrays one key at a
  time, creating a missing key as an empty array as it goes.
 */
module Sessions {
  import opened PhpStrings
  import opened Php

  // ---------------------------------------------------------------- key paths

  /** The segments of a path: whitespace trimmed, then '.' trimmed from both
      ends, then split at every '.'. There is always at least one segment. */
  function Segments(keys: string): (parts: seq<string>)
    ensures |parts| >= 1
  {
    Explode(".", TrimChars(Trim(keys), {'.'}))
  }

  /** The keys a path addresses, one per segment, as PHP indexes with them. */
  function Path(keys: string): (path: seq<Key>)
    ensures path != []
    ensures |path| == |Segments(keys)| >= 1
  {
    KeysOf(Segments(keys))
  }

  /** The array key of each segment. */
  function KeysOf(parts: seq<string>): (path: seq<Key>)
    ensures |path| == |parts|
    ensures forall i :: 0 <= i < |parts| ==> path[i] == StringKey(parts[i])
  {
    if parts == [] then [] else [StringKey(parts[0])] + KeysOf(parts[1..])
  }

  /** Joining the segments with '.' gives back the normalised path text. */
  lemma SegmentsJoin(keys: string)
    ensures Implode(".", Segments(keys)) == TrimChars(Trim(keys), {'.'})
  {
    ImplodeExplode(".", TrimChars(Trim(keys), {'.'}));
  }

  /** A path written as non-empty, dot-free segments joined by '.', with no
      whitespace at either end, splits back into exactly those segments. */
  lemma SegmentsOfDottedPath(parts: seq<string>)
    requires parts != []
    requires forall k :: 0 <= k < |parts| ==> parts[k] != "" && '.' !in parts[k]
    requires parts[0][0] !in Whitespace && parts[|parts| - 1][|parts[|parts| - 1]| - 1] !in Whitespace
    ensures Segments(Implode(".", parts)) == parts
  {
    var s := Implode(".", parts);
    ImplodeEnds(".", parts);
    TrimCharsNoop(s, Whitespace);
    TrimCharsNoop(s, {'.'});
    ExplodeImplode(".", parts);
  }

  // ---------------------------------------------------------------- lookup

  /** The walk of `get`: each key is looked up in the current array (a
      non-array there makes array_key_exists raise), and a missing key is
      walked into as an empty array. */
  function Lookup(v: Value, path: seq<Key>): (r: Result<Value>)
    ensures path == [] ==> r == Ok(v)
    ensures r.Err? ==> r.failure == TypeError("array_key_exists")
    decreases |path|
  {
    if path == [] then Ok(v)
    else if !v.Arr? then Err(TypeError("array_key_exists"))
    else
      match Get(v.entries, path[0])
      case None => Lookup(Arr([]), path[1..])
      case Some(child) => Lookup(child, path[1..])
  }

  /** What `get` returns for a path: the value found, with an empty array
      reported as null. */
  function GetValue(store: seq<Entry>, path: seq<Key>): (r: Result<Value>)
    ensures r.Err? <==> Lookup(Arr(store), path).Err?
    ensures r.Ok? ==> r.value != Arr([])
    ensures r.Ok? && r.value != Null ==> r.value == Lookup(Arr(store), path).value
  {
    match Lookup(Arr(store), path)
    case Err(f) => Err(f)
    case Ok(v) => Ok(if v == Arr([]) then Null else v)
  }

  /** Walking an empty array finds an empty array, whatever the path. */
  lemma {:induction false} LookupEmpty(path: seq<Key>)
    ensures Lookup(Arr([]), path) == Ok(Arr([]))
    decreases |path|
  {
    if path != [] {
      LookupEmpty(path[1..]);
    }
  }

  /** A walk along p + q is the walk along p continued along q. */
  lemma {:induction false} LookupAppend(v: Value, p: seq<Key>, q: seq<Key>)
    ensures Lookup(v, p + q) == match Lookup(v, p) case Err(f) => Err(f) case Ok(x) => Lookup(x, q)
    decreases |p|
  {
    if p == [] {
      assert p + q == q;
    } else {
      assert (p + q)[0] == p[0] && (p + q)[1..] == p[1..] + q;
      if v.Arr? {
        match Get(v.entries, p[0])
        case None => LookupAppend(Arr([]), p[1..], q);
        case Some(child) => LookupAppend(child, p[1..], q);
      }
    }
  }

  /** A key missing anywhere along the path makes `get` return null. */
  lemma MissingKeyGivesNull(store: seq<Entry>, path: seq<Key>, m: nat, a: seq<Entry>)
    requires m < |path|
    requires Lookup(Arr(store), path[..m]) == Ok(Arr(a)) && !HasKey(a, path[m])
    ensures GetValue(store, path) == Ok(Null)
  {
    assert path == path[..m] + path[m..];
    LookupAppend(Arr(store), path[..m], path[m..]);
    LookupEmpty(path[m + 1..]);
  }

  // ---------------------------------------------------------------- set

  /** The one-branch array `set` builds: path[0] => path[1] => ... => v. */
  function Nest(path: seq<Key>, v: Value): (r: Value)
    ensures path != [] ==> r.Arr? && |r.entries| == 1 && r.entries[0].key == path[0]
    decreases |path|
  {
    if path == [] then v else Arr([Entry(path[0], Nest(path[1..], v))])
  }

  /** Walking the branch along its own path finds the stored value. */
  lemma {:induction false} LookupNest(path: seq<Key>, v: Value)
    ensures Lookup(Nest(path, v), path) == Ok(v)
    decreases |path|
  {
    if path != [] {
      LookupNest(path[1..], v);
    }
  }

  /** The session after `set`: the branch merged in with array_merge_recursive. */
  function Stored(store: seq<Entry>, path: seq<Key>, v: Value): (r: seq<Entry>)
    requires path != []
    ensures |store| <= |r| <= |store| + 1
  {
    MergeRecursive(store, Nest(path, v).entries)
  }

  /** set renumbers integer keys: with `5` as the first key of an empty
      session, array_merge_recursive files the branch under key 0, so `get`
      on the same path then walks into a missing key and answers null. */
  lemma SetIntegerKeyRenumbers()
    ensures Stored([], [IntKey(5), StrKey("x")], Str("v")) == [Entry(IntKey(0), Arr([Entry(StrKey("x"), Str("v"))]))]
    ensures GetValue(Stored([], [IntKey(5), StrKey("x")], Str("v")), [IntKey(5), StrKey("x")]) == Ok(Null)
  {
    var path := [IntKey(5), StrKey("x")];
    var e := Entry(IntKey(0), Arr([Entry(StrKey("x"), Str("v"))]));
    assert Nest(path, Str("v")).entries == [Entry(IntKey(5), Arr([Entry(StrKey("x"), Str("v"))]))];
    assert Stored([], path, Str("v")) == [e];
    assert Get([e], IntKey(5)) == None;
    LookupEmpty(path[1..]);
  }

  /** Setting a path whose first key is a string key absent from the session
      appends one entry, after which `get` finds the value (null for an empty
      array). */
  lemma SetThenGet(store: seq<Entry>, path: seq<Key>, v: Value)
    requires path != [] && path[0].StrKey? && !HasKey(store, path[0])
    ensures Stored(store, path, v) == Renumber(store) + Nest(path, v).entries
    ensures GetValue(Stored(store, path, v), path) == Ok(if v == Arr([]) then Null else v)
  {
    var e := Nest(path, v).entries[0];
    assert Nest(path, v).entries == [e];
    RenumberKeepsStrings(store, 0, path[0].s);
    assert MergeRecInto(Renumber(store), [e]) == MergeRecInto(MergeRecEntry(Renumber(store), e), []);
    GetAppend(Renumber(store), [e], path[0]);
    LookupNest(path[1..], v);
  }

  /** A path `set` can store under: every key is a string key, and the walk
      goes through existing arrays until it reaches a key the array there
      lacks, which happens before the last key. */
  predicate FreshPath(a: seq<Entry>, path: seq<Key>)
    decreases |path|
  {
    path != [] && path[0].StrKey? &&
    match Get(a, path[0])
    case None => true
    case Some(child) => |path| > 1 && child.Arr? && FreshPath(child.entries, path[1..])
  }

  /** Merging a one-entry array is merging that entry. */
  lemma MergeRecOne(dest: seq<Entry>, e: Entry)
    ensures MergeRecInto(dest, [e]) == MergeRecEntry(dest, e)
  {
    assert [e][1..] == [];
  }

  /** Walking a branch off its own path, at any depth, finds an empty array. */
  lemma {:induction false} NestOffPath(p: seq<Key>, v: Value, k: nat, j: Key)
    requires k < |p| && j != p[k]
    ensures Lookup(Nest(p, v), p[..k] + [j]) == Ok(Arr([]))
    decreases k
  {
    GetCons(Entry(p[0], Nest(p[1..], v)), [], j);
    if k == 0 {
      assert p[..k] + [j] == [j];
    } else {
      var q := p[..k] + [j];
      assert q[0] == p[0] && q[1..] == p[1..][..k - 1] + [j];
      GetCons(Entry(p[0], Nest(p[1..], v)), [], p[0]);
      NestOffPath(p[1..], v, k - 1, j);
    }
  }

  /** array_merge_recursive of the branch for a fresh path stores the value
      where the path leads. */
  lemma {:induction false} MergeBranchThenLookup(dest: seq<Entry>, path: seq<Key>, v: Value)
    requires FreshPath(dest, path)
    ensures Lookup(Arr(MergeRecEntry(dest, Entry(path[0], Nest(path[1..], v)))), path) == Ok(v)
    decreases |path|
  {
    var e := Entry(path[0], Nest(path[1..], v));
    match Get(dest, path[0])
    case None =>
      GetAppend(dest, [e], path[0]);
      GetCons(e, [], path[0]);
      LookupNest(path[1..], v);
    case Some(child) =>
      var e1 := Entry(path[1], Nest(path[2..], v));
      assert path[1..][0] == path[1] && path[1..][1..] == path[2..];
      assert e.val == Arr([e1]);
      MergeRecOne(child.entries, e1);
      MergeBranchThenLookup(child.entries, path[1..], v);
  }

  /** array_merge_recursive of the branch for a fresh path leaves every
      other key of each array the path goes through as it was. */
  lemma {:induction false} MergeBranchKeepsSiblings(dest: seq<Entry>, path: seq<Key>, v: Value, i: nat, j: Key)
    requires FreshPath(dest, path) && i < |path| && j != path[i]
    ensures Lookup(Arr(MergeRecEntry(dest, Entry(path[0], Nest(path[1..], v)))), path[..i] + [j])
         == Lookup(Arr(dest), path[..i] + [j])
    decreases |path|
  {
    var e := Entry(path[0], Nest(path[1..], v));
    var r := MergeRecEntry(dest, e);
    var q := path[..i] + [j];
    if i == 0 {
      assert q == [j];
      if Get(dest, path[0]).None? {
        GetAppend(dest, [e], j);
        GetCons(e, [], j);
      }
      assert Get(r, j) == Get(dest, j);
    } else {
      assert q[0] == path[0] && q[1..] == path[1..][..i - 1] + [j];
      match Get(dest, path[0])
      case None =>
        GetAppend(dest, [e], path[0]);
        GetCons(e, [], path[0]);
        LookupEmpty(q[1..]);
        NestOffPath(path[1..], v, i - 1, j);
      case Some(child) =>
        var e1 := Entry(path[1], Nest(path[2..], v));
        assert path[1..][0] == path[1] && path[1..][1..] == path[2..];
        assert e.val == Arr([e1]);
        MergeRecOne(child.entries, e1);
        MergeBranchKeepsSiblings(child.entries, path[1..], v, i - 1, j);
    }
  }

  /** The renumbering `set` starts with changes nothing a walk that begins
      with a string key can see. */
  lemma RenumberedWalk(store: seq<Entry>, q: seq<Key>)
    requires q != [] && q[0].StrKey?
    ensures Lookup(Arr(Renumber(store)), q) == Lookup(Arr(store), q)
    ensures FreshPath(Renumber(store), q) == FreshPath(store, q)
  {
    RenumberKeepsStrings(store, 0, q[0].s);
  }

  /** Setting a fresh path, however deep it first leaves the existing
      arrays, makes `get` on that path find the value (null for an empty
      array). */
  lemma SetFreshThenGet(store: seq<Entry>, path: seq<Key>, v: Value)
    requires FreshPath(store, path)
    ensures GetValue(Stored(store, path, v), path) == Ok(if v == Arr([]) then Null else v)
  {
    var e := Entry(path[0], Nest(path[1..], v));
    assert Nest(path, v).entries == [e];
    MergeRecOne(Renumber(store), e);
    RenumberedWalk(store, path);
    MergeBranchThenLookup(Renumber(store), path, v);
  }

  /** Setting a fresh path leaves every sibling along it as `get` saw it:
      a key other than the path's own at some depth (a string key at the
      top, where integer keys are renumbered). */
  lemma SetFreshKeepsSiblings(store: seq<Entry>, path: seq<Key>, v: Value, i: nat, j: Key)
    requires FreshPath(store, path) && i < |path| && j != path[i] && (i == 0 ==> j.StrKey?)
    ensures GetValue(Stored(store, path, v), path[..i] + [j]) == GetValue(store, path[..i] + [j])
  {
    var e := Entry(path[0], Nest(path[1..], v));
    assert Nest(path, v).entries == [e];
    MergeRecOne(Renumber(store), e);
    var q := path[..i] + [j];
    assert q[0] == if i == 0 then j else path[0];
    RenumberedWalk(store, path);
    RenumberedWalk(store, q);
    MergeBranchKeepsSiblings(Renumber(store), path, v, i, j);
  }

  /** set("user.b", 2) after set("user.a", 1): the new leaf joins the
      existing branch beside the old one. */
  lemma SetBesideExistingLeaf()
    ensures var store := [Entry(StrKey("user"), Arr([Entry(StrKey("a"), Int(1))]))];
            var path := [StrKey("user"), StrKey("b")];
            GetValue(Stored(store, path, Int(2)), path) == Ok(Int(2)) &&
            GetValue(Stored(store, path, Int(2)), [StrKey("user"), StrKey("a")]) == Ok(Int(1))
  {
    var inner := [Entry(StrKey("a"), Int(1))];
    var store := [Entry(StrKey("user"), Arr(inner))];
    var path := [StrKey("user"), StrKey("b")];
    GetCons(store[0], [], StrKey("user"));
    GetCons(inner[0], [], StrKey("b"));
    GetCons(inner[0], [], StrKey("a"));
    assert [store[0]] == store && [inner[0]] == inner;
    assert FreshPath(inner, path[1..]);
    SetFreshThenGet(store, path, Int(2));
    assert path[..1] + [StrKey("a")] == [StrKey("user"), StrKey("a")];
    SetFreshKeepsSiblings(store, path, Int(2), 1, StrKey("a"));
  }

  /** `set` leaves every string key other than the path's first key as it was. */
  lemma SetKeepsOtherStrings(store: seq<Entry>, path: seq<Key>, v: Value, s: string)
    requires path != [] && path[0] != StrKey(s)
    ensures Get(Stored(store, path, v), StrKey(s)) == Get(store, StrKey(s))
  {
    var e := Nest(path, v).entries[0];
    assert Nest(path, v).entries == [e];
    var r := Renumber(store);
    RenumberKeepsStrings(store, 0, s);
    assert MergeRecInto(r, [e]) == MergeRecInto(MergeRecEntry(r, e), []);
    if e.key.IntKey? {
      GetAppend(r, [Entry(IntKey(NextIndex(r)), e.val)], StrKey(s));
    } else if Get(r, e.key).None? {
      GetAppend(r, [e], StrKey(s));
    }
  }

  /** Setting a single string key that already holds a scalar does not
      replace it: array_merge_recursive turns the old value into a list and
      appends the new one. */
  lemma SetExistingScalarMakesList(store: seq<Entry>, s: string, prev: Value, v: Value)
    requires Get(store, StrKey(s)) == Some(prev) && !prev.Arr? && !v.Arr?
    ensures Get(Stored(store, [StrKey(s)], v), StrKey(s)) ==
      Some(Arr([Entry(IntKey(0), prev), Entry(IntKey(1), v)]))
  {
    var e := Entry(StrKey(s), v);
    assert Nest([StrKey(s)], v).entries == [e];
    var r := Renumber(store);
    RenumberKeepsStrings(store, 0, s);
    assert MergeRecInto(r, [e]) == MergeRecInto(MergeRecEntry(r, e), []);
    var base := [Entry(IntKey(0), prev)];
    assert MaxIntKey(base) == Some(0);
    assert Push(base, v) == [Entry(IntKey(0), prev), Entry(IntKey(1), v)];
  }

  // ---------------------------------------------------------------- unset

  /** `unset`'s walk: every key is looked up (a non-array raises), a missing
      key is created as an empty array, the last key is removed from its
      parent, and the changed arrays are written back along the path. */
  function UnsetIn(v: Value, path: seq<Key>): (r: Result<Value>)
    requires path != []
    ensures r.Ok? ==> r.value.Arr?
    ensures r.Err? ==> r.failure == TypeError("array_key_exists")
    decreases |path|
  {
    if !v.Arr? then Err(TypeError("array_key_exists"))
    else
      var a := Ensured(v.entries, path[0]);
      if |path| == 1 then Ok(Arr(Remove(a, path[0])))
      else
        match UnsetIn(Get(a, path[0]).value, path[1..])
        case Err(f) => Err(f)
        case Ok(c) => Ok(Arr(Put(a, path[0], c)))
  }

  /** `if (!array_key_exists($k, $a)) $a[$k] = [];` */
  function Ensured(a: seq<Entry>, k: Key): (r: seq<Entry>)
    ensures HasKey(r, k)
    ensures HasKey(a, k) ==> r == a
    ensures !HasKey(a, k) ==> r == a + [Entry(k, Arr([]))]
  {
    if HasKey(a, k) then a else Put(a, k, Arr([]))
  }

  /** The guard of `unset` (`$keys !== null || $keys !== ''`), which no
      argument can fail. */
  function UnsetGuard(keys: Option<string>): (r: bool)
    ensures r
  {
    keys != None || keys != Some("")
  }

  /** The path text `unset` splits: a missing argument (null) trims to "". */
  function UnsetText(keys: Option<string>): string
  {
    if keys.Some? then keys.value else ""
  }

  /** What `unset($keys)` makes of the session: the rebuilt array, or the
      failure that stops it. */
  function UnsetResult(store: seq<Entry>, keys: Option<string>): (r: Result<Value>)
    ensures r.Ok? ==> r.value.Arr?
    ensures r.Err? ==> r.failure == TypeError("array_key_exists")
  {
    UnsetIn(Arr(store), Path(UnsetText(keys)))
  }

  /** After a successful `unset`, `get` on the same path finds null. */
  lemma {:induction false} UnsetThenGet(v: Value, path: seq<Key>)
    requires path != [] && UnsetIn(v, path).Ok?
    ensures Lookup(UnsetIn(v, path).value, path) == Ok(Arr([]))
    decreases |path|
  {
    var a := Ensured(v.entries, path[0]);
    if |path| == 1 {
      LookupEmpty(path[1..]);
    } else {
      UnsetThenGet(Get(a, path[0]).value, path[1..]);
    }
  }

  /** `unset` leaves every key beside the path's first key alone. */
  lemma UnsetKeepsSiblings(v: Value, path: seq<Key>, j: Key)
    requires path != [] && UnsetIn(v, path).Ok? && j != path[0]
    ensures Get(UnsetIn(v, path).value.entries, j) == Get(v.entries, j)
  {
  }

  /** One step of the `get` walk through an array. */
  lemma LookupStep(v: Value, q: seq<Key>)
    requires v.Arr? && q != []
    ensures Lookup(v, q) == Lookup(Get(Ensured(v.entries, q[0]), q[0]).value, q[1..])
  {
  }

  /** One step of the `unset` walk through an array, above the last key. */
  lemma UnsetStep(v: Value, path: seq<Key>)
    requires v.Arr? && |path| > 1
    ensures var a := Ensured(v.entries, path[0]);
      var c := UnsetIn(Get(a, path[0]).value, path[1..]);
      UnsetIn(v, path) == (if c.Err? then c else Ok(Arr(Put(a, path[0], c.value))))
  {
  }

  /** A path that leaves the unset path before its last key sees the same
      value before and after `unset`. */
  lemma {:induction false} UnsetKeepsDivergentPaths(v: Value, path: seq<Key>, q: seq<Key>, m: nat)
    requires path != [] && UnsetIn(v, path).Ok?
    requires m < |path| && m < |q| && q[..m] == path[..m] && q[m] != path[m]
    ensures Lookup(UnsetIn(v, path).value, q) == Lookup(v, q)
    decreases m
  {
    if m > 0 {
      UnsetChild(v, path);
      var child := Get(Ensured(v.entries, path[0]), path[0]).value;
      assert q[0] == q[..m][0] && path[0] == path[..m][0];
      assert q[1..][..m - 1] == q[..m][1..] && path[1..][..m - 1] == path[..m][1..];
      UnsetKeepsDivergentPaths(child, path[1..], q[1..], m - 1);
      DivergeBelow(v, path, q);
    } else {
      DivergeHere(v, path, q);
    }
  }

  /** Above the last key, a successful `unset` went through an array and
      succeeded one level down. */
  lemma UnsetChild(v: Value, path: seq<Key>)
    requires |path| > 1 && UnsetIn(v, path).Ok?
    ensures v.Arr? && UnsetIn(Get(Ensured(v.entries, path[0]), path[0]).value, path[1..]).Ok?
  {
  }

  /** A path that follows the unset path one step and then sees the same
      value below sees the same value from the top. */
  lemma DivergeBelow(v: Value, path: seq<Key>, q: seq<Key>)
    requires |path| > 1 && |q| > 1 && q[0] == path[0] && v.Arr? && UnsetIn(v, path).Ok?
    requires var child := Get(Ensured(v.entries, path[0]), path[0]).value;
      UnsetIn(child, path[1..]).Ok? && Lookup(UnsetIn(child, path[1..]).value, q[1..]) == Lookup(child, q[1..])
    ensures Lookup(UnsetIn(v, path).value, q) == Lookup(v, q)
  {
    var w := UnsetIn(v, path).value;
    UnsetStep(v, path);
    LookupStep(w, q);
    assert Ensured(w.entries, q[0]) == w.entries;
    LookupStep(v, q);
  }

  /** A path whose first key is not the unset path's first key sees the same
      value before and after `unset`. */
  lemma DivergeHere(v: Value, path: seq<Key>, q: seq<Key>)
    requires path != [] && q != [] && q[0] != path[0] && UnsetIn(v, path).Ok?
    ensures Lookup(UnsetIn(v, path).value, q) == Lookup(v, q)
  {
    UnsetKeepsSiblings(v, path, q[0]);
  }

  /** Unsetting a path in an empty array leaves the chain of created
      intermediate keys behind, each holding an empty array. */
  lemma {:induction false} UnsetOfEmpty(path: seq<Key>)
    requires path != []
    ensures UnsetIn(Arr([]), path) == Ok(Nest(path[..|path| - 1], Arr([])))
    decreases |path|
  {
    var a := Ensured([], path[0]);
    assert a == [Entry(path[0], Arr([]))];
    assert Get(a, path[0]) == Some(Arr([]));
    if |path| > 1 {
      UnsetOfEmpty(path[1..]);
      var n := Nest(path[1..][..|path[1..]| - 1], Arr([]));
      assert Put(a, path[0], n) == [Entry(path[0], n)];
      assert path[..|path| - 1][1..] == path[1..][..|path[1..]| - 1];
    }
  }

  /** The arrays `unset` has walked through, outermost first, each with the
      key taken from it. */
  datatype Frame = Frame(entries: seq<Entry>, key: Key)

  /** Writes an inner result back through the frames: each frame's key is set
      to the rebuilt inner array; a failure passes through unchanged. */
  function Rebuild(frames: seq<Frame>, r: Result<Value>): (res: Result<Value>)
    ensures r.Err? ==> res == r
    ensures r.Ok? && r.value.Arr? ==> res.Ok? && res.value.Arr?
    decreases |frames|
  {
    if frames == [] || r.Err? then r
    else
      var f := frames[|frames| - 1];
      Rebuild(frames[..|frames| - 1], Ok(Arr(Put(f.entries, f.key, r.value))))
  }

  /** Descending one level moves the array and its key into a new frame. */
  lemma DescendStep(frames: seq<Frame>, cur: Value, path: seq<Key>)
    requires cur.Arr? && |path| > 1
    ensures var a := Ensured(cur.entries, path[0]);
      Rebuild(frames, UnsetIn(cur, path)) ==
      Rebuild(frames + [Frame(a, path[0])], UnsetIn(Get(a, path[0]).value, path[1..]))
  {
    var a := Ensured(cur.entries, path[0]);
    UnsetStep(cur, path);
    assert (frames + [Frame(a, path[0])])[..|frames|] == frames;
  }

  /** Rebuilding one frame sets its key to the inner array. */
  lemma RebuildStep(frames: seq<Frame>, j: nat, node: Value)
    requires 0 < j <= |frames|
    ensures Rebuild(frames[..j], Ok(node)) ==
      Rebuild(frames[..j - 1], Ok(Arr(Put(frames[j - 1].entries, frames[j - 1].key, node))))
  {
    assert frames[..j][..j - 1] == frames[..j - 1];
  }

  // ---------------------------------------------------------------- the session

  class Session {
    var store: seq<Entry>

    constructor(initial: seq<Entry>)
      ensures store == initial
    {
      store := initial;
    }

    /** set($keys, $value). */
    method Set(keys: string, value: Value)
      modifies this
      ensures store == Stored(old(store), Path(keys), value)
    {
      var path := Path(keys);
      var node := value;
      var i := |path|;
      while i > 0
        invariant 0 <= i <= |path|
        invariant node == Nest(path[i..], value)
      {
        assert path[i - 1..][1..] == path[i..];
        node := Arr([Entry(path[i - 1], node)]);
        i := i - 1;
      }
      assert path[0..] == path;
      store := MergeRecursive(store, node.entries);
    }

    /** get($keys): the session is read, never written. */
    method Get(keys: string) returns (r: Result<Value>)
      ensures r == GetValue(store, Path(keys))
    {
      var path := Path(keys);
      var cur := Arr(store);
      var i := 0;
      while i < |path|
        invariant 0 <= i <= |path|
        invariant Lookup(cur, path[i..]) == Lookup(Arr(store), path)
      {
        if !cur.Arr? {
          return Err(TypeError("array_key_exists"));
        }
        assert path[i..][1..] == path[i + 1..];
        var found := Php.Get(cur.entries, path[i]);
        cur := if found.Some? then found.value else Arr([]);
        i := i + 1;
      }
      assert path[i..] == [];
      r := Ok(if cur == Arr([]) then Null else cur);
    }

    /** is_exist($key): `get` finds something other than null. */
    method IsExist(keys: string) returns (r: Result<bool>)
      ensures r.Err? <==> GetValue(store, Path(keys)).Err?
      ensures r.Err? ==> r.failure == GetValue(store, Path(keys)).failure
      ensures r.Ok? ==> (r.value <==> GetValue(store, Path(keys)).value != Null)
    {
      var v := Get(keys);
      r := match v
        case Err(f) => Err(f)
        case Ok(x) => Ok(x != Null);
    }

    /** unset($keys): on success the rebuilt array replaces the session and
        the result is true; a failure leaves the session alone. */
    method Unset(keys: Option<string>) returns (r: Result<bool>)
      modifies this
      ensures var res := UnsetResult(old(store), keys);
        (res.Ok? ==> r == Ok(true) && res.value == Arr(store)) &&
        (res.Err? ==> r == Err(res.failure) && store == old(store))
    {
      if UnsetGuard(keys) {
        r := UnsetPath(Path(UnsetText(keys)));
      } else {
        // the guard always holds: destroy() is never reached from here
        assert false;
      }
    }

    /** The body of `unset` for the keys of a path: walk down recording the
        arrays passed, remove the last key, then write the arrays back. */
    method UnsetPath(path: seq<Key>) returns (r: Result<bool>)
      requires path != []
      modifies this
      ensures var res := UnsetIn(Arr(old(store)), path);
        (res.Ok? ==> r == Ok(true) && store == res.value.entries) &&
        (res.Err? ==> r == Err(res.failure) && store == old(store))
    {
      ghost var target := UnsetIn(Arr(store), path);
      var frames: seq<Frame> := [];
      var cur := Arr(store);
      var i := 0;
      while i < |path| - 1
        invariant 0 <= i <= |path| - 1
        invariant target == Rebuild(frames, UnsetIn(cur, path[i..]))
        invariant store == old(store)
      {
        if !cur.Arr? {
          return Err(TypeError("array_key_exists"));
        }
        var a := Ensured(cur.entries, path[i]);
        DescendStep(frames, cur, path[i..]);
        assert path[i..][1..] == path[i + 1..];
        frames := frames + [Frame(a, path[i])];
        cur := Php.Get(a, path[i]).value;
        i := i + 1;
      }
      if !cur.Arr? {
        return Err(TypeError("array_key_exists"));
      }
      var node := Arr(Remove(Ensured(cur.entries, path[i]), path[i]));
      assert UnsetIn(cur, path[i..]) == Ok(node);
      assert frames[..|frames|] == frames;
      var j := |frames|;
      while j > 0
        invariant 0 <= j <= |frames|
        invariant node.Arr?
        invariant target == Rebuild(frames[..j], Ok(node))
      {
        RebuildStep(frames, j, node);
        node := Arr(Put(frames[j - 1].entries, frames[j - 1].key, node));
        j := j - 1;
      }
      store := node.entries;
      return Ok(true);
    }

    /** destroy(): session_unset empties the session. */
    method Destroy()
      modifies this
      ensures store == []
    {
      store := [];
    }
  }
}
