/**
  Core\Router: an ordered table of routes, each a path template, an
  upper-cased HTTP method, a controller and a method name. `run` tries the
  routes in registration order against the request path and dispatches the
  first one whose pattern matches and whose HTTP method is the request's;
  otherwise the default handler is used.

  Regular expressions are not evaluated here: `Regex` supplies what
  preg_match_all finds in a route template and what preg_match captures
  when a pattern is applied to a path.
 */
module Routing {
  import opened PhpStrings
  import opened Php

  const DefaultMethod: string := "main"

  /** A controller: a PHP callable, or a string that is not callable
      (normally "Class" or "Class::method()"). */
  datatype Handler = Callable(id: nat) | Name(text: string)

  datatype Route = Route(route: string, requestMethod: string, controller: Handler, methodName: string)

  /** One match of the route parameter pattern `\{((int|string|str)\:)?([a-z0-9]+)\}`:
      capture groups 1, 2 and 3, with "" for a group that did not take part. */
  datatype ParamMatch = ParamMatch(group1: string, group2: string, group3: string)

  /** What parseRouteParams records for one parameter. */
  datatype ParamInfo = ParamInfo(paramType: Option<string>, name: string, pattern: string)

  /** The regular expression engine, left abstract: the matches of the route
      parameter pattern in a template, and the capture groups (after the whole
      match) when a pattern matches a subject, or None when it does not. */
  datatype Regex = Regex(scan: string -> seq<ParamMatch>, matcher: (string, string) -> Option<seq<string>>)

  /** Where run went: the index and record of the dispatched route, or the
      default handler (null when none was set). */
  datatype Dispatch = Dispatched(index: nat, route: Route) | Fallback(callback: Option<Handler>)

  // ---------------------------------------------------------------- pure helpers

  /** The method name registered for a controller given without one: 'main'
      for a callable; for a string, the part after the first '::' with every
      '()' removed, or 'main' when there is no '::'. */
  function ExtractMethod(controller: Handler): (r: string)
    ensures controller.Callable? ==> r == DefaultMethod
  {
    match controller
    case Callable(_) => DefaultMethod
    case Name(s) =>
      var parts := Explode("::", s);
      var methodName := if |parts| >= 2 then parts[1] else DefaultMethod;
      StrReplace("()", "", methodName)
  }

  /** The default handler stored by `default`: a callable as is, a string
      completed to "Class::method". */
  function DefaultHandler(callback: Handler, methodName: Option<string>): (h: Handler)
    ensures callback.Callable? ==> h == callback
    ensures callback.Name? ==> h.Name? && callback.text + "::" <= h.text
  {
    match callback
    case Callable(_) => callback
    case Name(s) => Name(s + "::" + (if methodName.Some? then methodName.value else DefaultMethod))
  }

  /** The HTTP method test of matchRoute, ignoring case; a missing
      REQUEST_METHOD compares as "". */
  function IsValidRequestMethod(methodName: string, serverMethod: Option<string>): (r: bool)
    ensures serverMethod.None? ==> (r <==> methodName == "")
    ensures serverMethod == Some(methodName) ==> r
  {
    Upper(methodName) == Upper(if serverMethod.Some? then serverMethod.value else "")
  }

  /** The record parseRouteParams builds from one match. It reads groups 1
      and 2, so `paramType` is the lower-cased "int:"-style prefix (null when
      absent or "0") and `name` is the type word. */
  function ParamInfoOf(m: ParamMatch): ParamInfo
  {
    var t := Lower(m.group1);
    ParamInfo(if StrTruthy(t) then Some(t) else None, m.group2, if t == "int" then "[0-9]+" else ".+")
  }

  function ParamInfos(found: seq<ParamMatch>): (r: seq<ParamInfo>)
    ensures |r| == |found|
    ensures forall i :: 0 <= i < |found| ==> r[i] == ParamInfoOf(found[i])
  {
    seq(|found|, i requires 0 <= i < |found| => ParamInfoOf(found[i]))
  }

  /** The text generateRoutePattern looks for: "{type:name}", with a null type as "". */
  function Placeholder(p: ParamInfo): string
  {
    "{" + (if p.paramType.Some? then p.paramType.value else "") + ":" + p.name + "}"
  }

  /** The route after each parameter's placeholder, in order, is replaced by its group. */
  function Substituted(route: string, info: seq<ParamInfo>): string
    decreases |info|
  {
    if info == [] then route
    else Substituted(StrReplace(Placeholder(info[0]), "(" + info[0].pattern + ")", route), info[1..])
  }

  function RoutePattern(route: string, info: seq<ParamInfo>): (p: string)
    ensures |p| >= 5 && p[..2] == "/^" && p[|p| - 3..] == "$/i"
  {
    "/^" + StrReplace("/", "\\/", TrimChars(Substituted(route, info), {'/'})) + "$/i"
  }

  /** The key extractParameters stores the i-th capture under: the i-th
      recorded name, or "" (a null key) when there are more captures than
      parameters. */
  function ParamKey(info: seq<ParamInfo>, i: nat): Key
  {
    if i < |info| then StringKey(info[i].name) else StrKey("")
  }

  /** The keys of the first n captures, in capture order. */
  function ParamKeys(info: seq<ParamInfo>, n: nat): (keys: seq<Key>)
    ensures |keys| == n && forall i :: 0 <= i < n ==> keys[i] == ParamKey(info, i)
  {
    seq(n, (i: int) requires 0 <= i => ParamKey(info, i))
  }

  /** The parameters of the first n captures stored under the given keys. */
  function ParametersFrom(keys: seq<Key>, captures: seq<string>, n: nat): (r: seq<Entry>)
    requires n <= |keys| && n <= |captures|
  {
    if n == 0 then [] else Put(ParametersFrom(keys, captures, n - 1), keys[n - 1], Str(captures[n - 1]))
  }

  /** matchRoute: the pattern matches the path and the HTTP method is the request's. */
  predicate Matches(r: Route, path: string, serverMethod: Option<string>, rx: Regex)
  {
    rx.matcher(RoutePattern(r.route, ParamInfos(rx.scan(r.route))), path).Some?
    && IsValidRequestMethod(r.requestMethod, serverMethod)
  }

  /** The first route at or after `from` that `accept` takes. */
  function FirstMatch(routes: seq<Route>, accept: Route -> bool, from: nat): (r: Option<nat>)
    requires from <= |routes|
    ensures r.Some? ==> from <= r.value < |routes| && accept(routes[r.value])
    ensures r.Some? ==> forall j :: from <= j < r.value ==> !accept(routes[j])
    ensures r.None? ==> forall j :: from <= j < |routes| ==> !accept(routes[j])
    decreases |routes| - from
  {
    if from == |routes| then None
    else if accept(routes[from]) then Some(from)
    else FirstMatch(routes, accept, from + 1)
  }

  // ---------------------------------------------------------------- loops

  method ParseRouteParams(found: seq<ParamMatch>) returns (params: seq<ParamInfo>)
    ensures |params| == |found|
    ensures forall i :: 0 <= i < |found| ==> params[i] == ParamInfoOf(found[i])
  {
    params := [];
    var index := 0;
    while index < |found|
      invariant 0 <= index <= |found|
      invariant |params| == index
      invariant forall i :: 0 <= i < index ==> params[i] == ParamInfoOf(found[i])
    {
      var m := found[index];
      var t := Lower(m.group1);
      var pattern := if t == "int" then "[0-9]+" else ".+";
      params := params + [ParamInfo(if StrTruthy(t) then Some(t) else None, m.group2, pattern)];
      index := index + 1;
    }
  }

  /** The route pattern: placeholders replaced in order, '/' trimmed from
      both ends, every remaining '/' escaped, anchored and case-insensitive. */
  method GenerateRoutePattern(route: string, info: seq<ParamInfo>) returns (p: string)
    ensures p == RoutePattern(route, info)
    ensures |p| >= 5 && p[..2] == "/^" && p[|p| - 3..] == "$/i"
    ensures Escaped(p[2..|p| - 3], '\\', '/')
  {
    var r := route;
    var k := 0;
    while k < |info|
      invariant 0 <= k <= |info|
      invariant Substituted(r, info[k..]) == Substituted(route, info)
    {
      assert info[k..][1..] == info[k + 1..];
      r := StrReplace(Placeholder(info[k]), "(" + info[k].pattern + ")", r);
      k := k + 1;
    }
    assert info[k..] == [];
    var body := StrReplace("/", "\\/", TrimChars(r, {'/'}));
    p := "/^" + body + "$/i";
    assert p[2..|p| - 3] == body;
    EscapedCharPreceded('\\', '/', TrimChars(r, {'/'}));
  }

  /** The captures keyed by parameter name, in capture order; a later
      capture under the same name overwrites an earlier one. */
  method ExtractParameters(info: seq<ParamInfo>, captures: seq<string>) returns (ps: seq<Entry>)
    ensures ps == ParametersFrom(ParamKeys(info, |captures|), captures, |captures|)
  {
    var keys := ParamKeys(info, |captures|);
    ps := [];
    var index := 0;
    while index < |captures|
      invariant 0 <= index <= |captures|
      invariant ps == ParametersFrom(keys, captures, index)
    {
      assert keys[index] == ParamKey(info, index);
      ParametersFromStep(keys, captures, index + 1);
      ps := Put(ps, keys[index], Str(captures[index]));
      index := index + 1;
    }
  }

  /** The first n captures make at most n entries, none sharing a key. */
  lemma {:induction false} ParametersFromDistinct(keys: seq<Key>, captures: seq<string>, n: nat)
    requires n <= |keys| && n <= |captures|
    ensures DistinctKeys(ParametersFrom(keys, captures, n)) && |ParametersFrom(keys, captures, n)| <= n
  {
    if n > 0 {
      ParametersFromDistinct(keys, captures, n - 1);
      ParametersFromStep(keys, captures, n);
      PutKeepsDistinct(ParametersFrom(keys, captures, n - 1), keys[n - 1], Str(captures[n - 1]));
    }
  }

  /** One more capture is one more Put. */
  lemma ParametersFromStep(keys: seq<Key>, captures: seq<string>, n: nat)
    requires 0 < n <= |keys| && n <= |captures|
    ensures ParametersFrom(keys, captures, n) == Put(ParametersFrom(keys, captures, n - 1), keys[n - 1], Str(captures[n - 1]))
  {
  }

  /** Every entry is stored under the key of one of the first n captures. */
  lemma {:induction false} ParametersFromKeys(keys: seq<Key>, captures: seq<string>, n: nat)
    requires n <= |keys| && n <= |captures|
    ensures KeysAmong(ParametersFrom(keys, captures, n), keys[..n])
  {
    if n > 0 {
      ParametersFromKeys(keys, captures, n - 1);
      var prev := ParametersFrom(keys, captures, n - 1);
      ParametersFromStep(keys, captures, n);
      PutKeysFrom(prev, keys[n - 1], Str(captures[n - 1]), keys[..n - 1]);
      TakeOneMore(keys, n);
    }
  }

  /** A key holds the last of the first n captures stored under it. */
  lemma {:induction false} ParametersFromLast(keys: seq<Key>, captures: seq<string>, n: nat, i: nat)
    requires n <= |keys| && n <= |captures| && i < n
    requires forall j :: i < j < n ==> keys[j] != keys[i]
    ensures Get(ParametersFrom(keys, captures, n), keys[i]) == Some(Str(captures[i]))
  {
    var prev := ParametersFrom(keys, captures, n - 1);
    ParametersFromStep(keys, captures, n);
    if i < n - 1 {
      ParametersFromLast(keys, captures, n - 1, i);
      PutOther(prev, keys[n - 1], Str(captures[n - 1]), keys[i]);
    } else {
      PutThis(prev, keys[i], Str(captures[i]));
    }
  }

  /** The key assigned holds the value assigned. */
  lemma PutThis(a: seq<Entry>, k: Key, v: Value)
    ensures Get(Put(a, k, v), k) == Some(v)
  {
  }

  /** Every other key reads as before the assignment. */
  lemma PutOther(a: seq<Entry>, k: Key, v: Value, j: Key)
    requires j != k
    ensures Get(Put(a, k, v), j) == Get(a, j)
  {
  }

  /** With distinct keys for all captures, each capture is found under its own key. */
  lemma ParametersByName(keys: seq<Key>, captures: seq<string>)
    requires |keys| == |captures|
    requires forall i, j :: 0 <= i < j < |captures| ==> keys[i] != keys[j]
    ensures var ps := ParametersFrom(keys, captures, |captures|);
      |ps| == |captures| &&
      forall i :: 0 <= i < |captures| ==> Get(ps, keys[i]) == Some(Str(captures[i]))
  {
    forall i | 0 <= i < |captures|
      ensures Get(ParametersFrom(keys, captures, |captures|), keys[i]) == Some(Str(captures[i]))
    {
      ParametersFromLast(keys, captures, |captures|, i);
    }
    ParametersFromLength(keys, captures, |captures|);
  }

  /** With distinct keys, the first n captures make n entries. */
  lemma {:induction false} ParametersFromLength(keys: seq<Key>, captures: seq<string>, n: nat)
    requires n <= |keys| && n <= |captures|
    requires forall i, j :: 0 <= i < j < n ==> keys[i] != keys[j]
    ensures |ParametersFrom(keys, captures, n)| == n
  {
    if n > 0 {
      ParametersFromLength(keys, captures, n - 1);
      ParametersFromGrows(keys, captures, n);
    }
  }

  /** A capture under a key no earlier capture used adds an entry. */
  lemma ParametersFromGrows(keys: seq<Key>, captures: seq<string>, n: nat)
    requires 0 < n <= |keys| && n <= |captures|
    requires keys[n - 1] !in keys[..n - 1]
    ensures |ParametersFrom(keys, captures, n)| == |ParametersFrom(keys, captures, n - 1)| + 1
  {
    ParametersFromKeys(keys, captures, n - 1);
    ParametersFromStep(keys, captures, n);
    PutNewKey(ParametersFrom(keys, captures, n - 1), keys[n - 1], Str(captures[n - 1]), keys[..n - 1]);
  }

  /** The first n + 1 elements are the first n and then the next one. */
  lemma TakeOneMore<T>(s: seq<T>, n: nat)
    requires 0 < n <= |s|
    ensures s[..n] == s[..n - 1] + [s[n - 1]]
  {
  }

  /** Every entry's key is one of ks. */
  predicate KeysAmong(a: seq<Entry>, ks: seq<Key>)
  {
    forall e :: e in a ==> e.key in ks
  }

  /** Put adds at most its own key to the keys of an array. */
  lemma PutKeysFrom(a: seq<Entry>, k: Key, v: Value, ks: seq<Key>)
    requires KeysAmong(a, ks)
    ensures KeysAmong(Put(a, k, v), ks + [k])
  {
    forall e | e in Put(a, k, v) ensures e.key in ks + [k] {
      PutMember(a, k, v, e);
    }
  }

  /** Put with a key outside the keys of an array adds an entry. */
  lemma PutNewKey(a: seq<Entry>, k: Key, v: Value, ks: seq<Key>)
    requires KeysAmong(a, ks)
    requires k !in ks
    ensures |Put(a, k, v)| == |a| + 1
  {
    forall i | 0 <= i < |a| ensures a[i].key != k {
      assert a[i] in a;
    }
    GetFound(a, k);
  }

  /** An entry of Put(a, k, v) is an entry of a or has key k. */
  lemma PutMember(a: seq<Entry>, k: Key, v: Value, e: Entry)
    requires e in Put(a, k, v)
    ensures e in a || e.key == k
  {
    var r := Put(a, k, v);
    var m :| 0 <= m < |r| && r[m] == e;
    if Find(a, k).Some? {
      assert r == a[Find(a, k).value := Entry(k, v)];
      if m != Find(a, k).value {
        assert r[m] == a[m];
      }
    } else {
      if m < |a| {
        assert r[m] == a[m];
      }
    }
  }

  // ---------------------------------------------------------------- the router

  class Router {
    var routes: seq<Route>
    var parameters: seq<Entry>
    var errCallback: Option<Handler>

    constructor ()
      ensures routes == [] && parameters == [] && errCallback == None
    {
      routes := [];
      parameters := [];
      errCallback := None;
    }

    /** getParams(): the parameters of the route last matched. */
    function GetParams(): seq<Entry>
      reads this
    {
      parameters
    }

    /** Appends one record; the method defaults to the one named in the controller. */
    method AddRoute(requestMethod: string, route: string, controller: Handler, methodName: Option<string>)
      modifies this`routes
      ensures routes == old(routes) + [Route(route, Upper(requestMethod), controller,
                                             if methodName.Some? then methodName.value else ExtractMethod(controller))]
    {
      var m := if methodName.Some? then methodName.value else ExtractMethod(controller);
      routes := routes + [Route(route, Upper(requestMethod), controller, m)];
    }

    method Get(route: string, controller: Handler, methodName: Option<string>)
      modifies this`routes
      ensures routes == old(routes) + [Route(route, "GET", controller,
                                             if methodName.Some? then methodName.value else ExtractMethod(controller))]
    {
      AddRoute("GET", route, controller, methodName);
      assert Upper("GET") == "GET";
    }

    method Post(route: string, controller: Handler, methodName: Option<string>)
      modifies this`routes
      ensures routes == old(routes) + [Route(route, "POST", controller,
                                             if methodName.Some? then methodName.value else ExtractMethod(controller))]
    {
      AddRoute("POST", route, controller, methodName);
      assert Upper("POST") == "POST";
    }

    method Put(route: string, controller: Handler, methodName: Option<string>)
      modifies this`routes
      ensures routes == old(routes) + [Route(route, "PUT", controller,
                                             if methodName.Some? then methodName.value else ExtractMethod(controller))]
    {
      AddRoute("PUT", route, controller, methodName);
      assert Upper("PUT") == "PUT";
    }

    method Delete(route: string, controller: Handler, methodName: Option<string>)
      modifies this`routes
      ensures routes == old(routes) + [Route(route, "DELETE", controller,
                                             if methodName.Some? then methodName.value else ExtractMethod(controller))]
    {
      AddRoute("DELETE", route, controller, methodName);
      assert Upper("DELETE") == "DELETE";
    }

    method Default(callback: Handler, methodName: Option<string>)
      modifies this`errCallback
      ensures errCallback == Some(DefaultHandler(callback, methodName))
    {
      errCallback := Some(match callback
                          case Callable(_) => callback
                          case Name(s) => Name(s + "::" + (if methodName.Some? then methodName.value else DefaultMethod)));
    }

    /** matchRoute for one record: on a match the captured parameters replace `parameters`. */
    method MatchRoute(r: Route, path: string, serverMethod: Option<string>, rx: Regex) returns (matched: bool)
      modifies this`parameters
      ensures matched == Matches(r, path, serverMethod, rx)
      ensures matched ==> var captures := rx.matcher(RoutePattern(r.route, ParamInfos(rx.scan(r.route))), path).value;
        parameters == ParametersFrom(ParamKeys(ParamInfos(rx.scan(r.route)), |captures|), captures, |captures|)
      ensures !matched ==> parameters == old(parameters)
    {
      var info := ParseRouteParams(rx.scan(r.route));
      assert info == ParamInfos(rx.scan(r.route));
      var pattern := GenerateRoutePattern(r.route, info);
      var captures := rx.matcher(pattern, path);
      if captures.Some? && IsValidRequestMethod(r.requestMethod, serverMethod) {
        parameters := ExtractParameters(info, captures.value);
        return true;
      }
      return false;
    }

    /** run: tries the routes in order and stops at the first match; the
        path is the given base path, or the request path, with '/' trimmed. */
    method Run(basepath: Option<string>, requestPath: string, serverMethod: Option<string>, rx: Regex) returns (d: Dispatch)
      modifies this`parameters
      ensures var path := TrimChars(if basepath.Some? then basepath.value else requestPath, {'/'});
        var first := FirstMatch(routes, r => Matches(r, path, serverMethod, rx), 0);
        (d.Dispatched? <==> first.Some?) &&
        (d.Dispatched? ==> d.index == first.value && d.route == routes[d.index]) &&
        (d.Dispatched? ==> var r := routes[d.index];
          var captures := rx.matcher(RoutePattern(r.route, ParamInfos(rx.scan(r.route))), path).value;
          parameters == ParametersFrom(ParamKeys(ParamInfos(rx.scan(r.route)), |captures|), captures, |captures|)) &&
        (d.Fallback? ==> d.callback == errCallback && parameters == old(parameters))
    {
      var path := TrimChars(if basepath.Some? then basepath.value else requestPath, {'/'});
      var i := 0;
      while i < |routes|
        invariant 0 <= i <= |routes|
        invariant FirstMatch(routes, r => Matches(r, path, serverMethod, rx), 0)
                  == FirstMatch(routes, r => Matches(r, path, serverMethod, rx), i)
        invariant parameters == old(parameters)
      {
        var matched := MatchRoute(routes[i], path, serverMethod, rx);
        if matched {
          return Dispatched(i, routes[i]);
        }
        i := i + 1;
      }
      return Fallback(errCallback);
    }
  }

  // ---------------------------------------------------------------- properties

  /** Registering a route later does not change which earlier route a request dispatches to. */
  lemma AddRouteKeepsFirstMatch(routes: seq<Route>, r: Route, accept: Route -> bool)
    requires FirstMatch(routes, accept, 0).Some?
    ensures FirstMatch(routes + [r], accept, 0) == FirstMatch(routes, accept, 0)
  {
    var k := FirstMatch(routes, accept, 0).value;
    var t := routes + [r];
    assert forall j :: 0 <= j < |routes| ==> t[j] == routes[j];
    FirstMatchAt(t, accept, 0, k);
  }

  /** FirstMatch finds the least accepted index. */
  lemma {:induction false} FirstMatchAt(routes: seq<Route>, accept: Route -> bool, from: nat, k: nat)
    requires from <= k < |routes| && accept(routes[k])
    requires forall j :: from <= j < k ==> !accept(routes[j])
    ensures FirstMatch(routes, accept, from) == Some(k)
    decreases k - from
  {
    if from < k {
      FirstMatchAt(routes, accept, from + 1, k);
    }
  }

  /** The HTTP method comparison ignores case on both sides. */
  lemma RequestMethodIgnoresCase(methodName: string, serverMethod: string)
    ensures IsValidRequestMethod(methodName, Some(serverMethod)) == IsValidRequestMethod(Lower(methodName), Some(serverMethod))
    ensures IsValidRequestMethod(methodName, Some(serverMethod)) == IsValidRequestMethod(methodName, Some(Lower(serverMethod)))
    ensures IsValidRequestMethod(methodName, Some(serverMethod)) <==> Upper(methodName) == Upper(serverMethod)
  {
    UpperOfLower(methodName);
    UpperOfLower(serverMethod);
  }

  /** A "Class::method()" controller registers "method". */
  lemma ExtractMethodOfPair(c: string, m: string)
    requires ':' !in c && ':' !in m && '(' !in m
    ensures ExtractMethod(Name(c + "::" + m + "()")) == m
  {
    var s := c + "::" + m + "()";
    assert s == Implode("::", [c, m + "()"]);
    assert forall k :: 0 <= k < 2 ==> ':' !in [c, m + "()"][k];
    ExplodeImplode("::", [c, m + "()"]);
    assert m + "()" == Implode("()", [m, ""]);
    assert forall k :: 0 <= k < 2 ==> '(' !in [m, ""][k];
    ExplodeImplode("()", [m, ""]);
  }

  /** A controller string without "::" registers 'main'. */
  lemma ExtractMethodWithoutPair(c: string)
    requires Free(c, "::")
    ensures ExtractMethod(Name(c)) == DefaultMethod
  {
    assert FirstOccurrence(c, "::", 0) == -1;
    assert Explode("::", c) == [c];
    assert Free(DefaultMethod, "()") by {
      forall i ensures !OccursAt(DefaultMethod, "()", i) {
        assert 0 <= i && i + 2 <= 4 ==> DefaultMethod[i] != '(';
      }
    }
    StrReplaceAbsent("()", "", DefaultMethod);
  }

  /** The "Class::method" string stored by `default` splits back into its two
      parts at '::', as handleDefault splits it. */
  lemma DefaultHandlerSplits(c: string, methodName: Option<string>)
    requires ':' !in c
    requires methodName.Some? ==> ':' !in methodName.value
    ensures var h := DefaultHandler(Name(c), methodName);
      Explode("::", h.text) == [c, if methodName.Some? then methodName.value else DefaultMethod]
  {
    var m := if methodName.Some? then methodName.value else DefaultMethod;
    assert DefaultHandler(Name(c), methodName).text == Implode("::", [c, m]);
    assert forall k :: 0 <= k < 2 ==> ':' !in [c, m][k];
    ExplodeImplode("::", [c, m]);
  }

  /** A match as the route parameter pattern produces it: either no type
      prefix, or a type word from int, string and str followed by ':'. */
  predicate Shaped(m: ParamMatch)
  {
    (m.group1 == "" && m.group2 == "") ||
    (m.group1 == m.group2 + ":" && Lower(m.group2) in ["int", "string", "str"])
  }

  /** With the groups read as written, every parameter gets the pattern ".+",
      its recorded name is the type word, and it has a type exactly when the
      template gave one. */
  lemma ParamInfoAsWritten(m: ParamMatch)
    requires Shaped(m)
    ensures ParamInfoOf(m).pattern == ".+"
    ensures ParamInfoOf(m).name == m.group2
    ensures ParamInfoOf(m).paramType.Some? <==> m.group1 != ""
  {
    var t := Lower(m.group1);
    if m.group1 != "" {
      assert t[|t| - 1] == ':';
    }
  }

  /** The placeholder searched for never occurs in a template without "::"
      and "{:", so generateRoutePattern then leaves every placeholder of the
      template in place. */
  lemma {:induction false} TemplateKeptLiterally(route: string, found: seq<ParamMatch>)
    requires forall i :: 0 <= i < |found| ==> Shaped(found[i])
    requires Free(route, "::") && Free(route, "{:")
    ensures Substituted(route, ParamInfos(found)) == route
    decreases |found|
  {
    if found != [] {
      var p := ParamInfoOf(found[0]);
      PlaceholderAbsent(route, found[0]);
      StrReplaceAbsent(Placeholder(p), "(" + p.pattern + ")", route);
      assert ParamInfos(found)[1..] == ParamInfos(found[1..]);
      TemplateKeptLiterally(route, found[1..]);
    }
  }

  /** The placeholder of a parameter read as written holds "{:" (no type) or
      "::" (the type word ends in ':'), so it is absent from a template
      holding neither. */
  lemma PlaceholderAbsent(route: string, m: ParamMatch)
    requires Shaped(m)
    requires Free(route, "::") && Free(route, "{:")
    ensures Free(route, Placeholder(ParamInfoOf(m)))
  {
    var p := ParamInfoOf(m);
    ParamInfoAsWritten(m);
    var s := Placeholder(p);
    if p.paramType.None? {
      assert s[..2] == "{:";
      forall i ensures !OccursAt(route, s, i) {
        if OccursAt(route, s, i) { SliceOccurs(route, s, "{:", 0, i); }
      }
    } else {
      var t := p.paramType.value;
      assert t == Lower(m.group1);
      assert t[|t| - 1] == ':';
      assert s[|t|..|t| + 2] == "::";
      forall i ensures !OccursAt(route, s, i) {
        if OccursAt(route, s, i) { SliceOccurs(route, s, "::", |t|, i); }
      }
    }
  }

  /** Where a string occurs, every piece of it occurs too. */
  lemma SliceOccurs(route: string, s: string, piece: string, at: nat, i: int)
    requires at + |piece| <= |s| && s[at..at + |piece|] == piece
    requires OccursAt(route, s, i)
    ensures OccursAt(route, piece, i + at)
  {
    var w := route[i..i + |s|];
    assert w == s;
    forall t | 0 <= t < |piece| ensures route[i + at + t] == piece[t] {
      assert route[i + at + t] == w[at + t];
      assert piece[t] == s[at + t];
    }
    assert route[i + at..i + at + |piece|] == piece;
  }
}
