// The in-browser request dispatcher: method and path normalisation, route
// templates with `{name}` placeholders, the table of registered routes, and
// the envelope every reply is given.

module ApiFetch {
  import opened Js

  // ---------------------------------------------------------------- method

  /** `normaliseMethod`: a non-blank string, trimmed and upper-cased; anything else is GET. */
  function NormaliseMethod(v: Value): (r: string)
    ensures v.Str? && Trim(v.s) != "" ==> r == Upper(Trim(v.s))
    ensures !(v.Str? && Trim(v.s) != "") ==> r == "GET"
    ensures r != "" && Upper(r) == r
  {
    if v.Str? && Trim(v.s) != "" then
      var t := Trim(v.s);
      assert forall i :: 0 <= i < |t| ==> UpperChar(UpperChar(t[i])) == UpperChar(t[i]);
      Upper(t)
    else "GET"
  }

  /** A normalised method reads back as itself. */
  lemma {:induction false} MethodIsNormal(v: Value)
    ensures NormaliseMethod(Str(NormaliseMethod(v))) == NormaliseMethod(v)
  {
    hide Trim, TrimStart, TrimEnd, Upper, UpperChar, IsSpace;
    var m := NormaliseMethod(v);
    if v.Str? && Trim(v.s) != "" {
      UpperKeepsTrimmed(Trim(v.s));
    } else {
      GetIsTrimmed();
    }
    TrimOfTrimmed(m);
  }

  /** Upper-casing changes no white space, so a trimmed text stays trimmed. */
  lemma UpperKeepsTrimmed(t: string)
    requires IsTrimmed(t)
    ensures IsTrimmed(Upper(t))
  {
    hide IsSpace;
    if t != [] {
      assert Upper(t)[0] == UpperChar(t[0]) && Upper(t)[|t| - 1] == UpperChar(t[|t| - 1]);
      UpperCharKeepsSpace(t[0]);
      UpperCharKeepsSpace(t[|t| - 1]);
    }
  }

  lemma UpperCharKeepsSpace(c: char)
    ensures IsSpace(UpperChar(c)) <==> IsSpace(c)
  {
  }

  lemma GetIsTrimmed()
    ensures IsTrimmed("GET")
  {
  }

  // ---------------------------------------------------------------- path

  /** No two slashes in a row. */
  predicate NoDoubleSlash(s: string)
  {
    forall i :: 0 <= i < |s| - 1 ==> !(s[i] == '/' && s[i + 1] == '/')
  }

  /** `s.replace(/\/+/g, '/')`: every run of slashes becomes one slash. */
  function CollapseSlashes(s: string): (r: string)
    ensures NoDoubleSlash(r)
    ensures forall c :: c in r ==> c in s
    ensures s != [] ==> r != [] && r[0] == s[0] && r[|r| - 1] == s[|s| - 1]
    ensures s == [] ==> r == []
  {
    if |s| <= 1 then s
    else if s[0] == '/' && s[1] == '/' then CollapseSlashes(s[1..])
    else [s[0]] + CollapseSlashes(s[1..])
  }

  /** A text with no double slash is left as it is. */
  lemma {:induction false} CollapseKeepsCollapsed(s: string)
    requires NoDoubleSlash(s)
    ensures CollapseSlashes(s) == s
  {
    if |s| > 1 {
      CollapseKeepsCollapsed(s[1..]);
    }
  }

  /** The path before the first `?`, slashes collapsed. */
  function PathCore(s: string): (c: string)
    ensures NoDoubleSlash(c) && '?' !in c
    ensures s != [] && s[0] != '?' ==> c != [] && c[0] == s[0]
  {
    CollapseSlashes(s[..IndexOf(s, '?')])
  }

  /** `collapsed.slice(0, -1)` when it is longer than one and ends in a slash. */
  function DropTrailingSlash(c: string): (r: string)
    requires NoDoubleSlash(c) && '?' !in c
    ensures NoDoubleSlash(r) && '?' !in r && |r| <= |c|
    ensures |r| > 1 ==> r[|r| - 1] != '/'
    ensures c != [] ==> r != [] && r[0] == c[0]
  {
    if |c| > 1 && c[|c| - 1] == '/' then
      assert c[|c| - 2] != '/';
      c[..|c| - 1]
    else c
  }

  /** A leading slash added when there is none. */
  function Root(c: string): (r: string)
    requires NoDoubleSlash(c) && '?' !in c
    ensures r != [] && r[0] == '/' && NoDoubleSlash(r) && '?' !in r
    ensures c != [] && c[|c| - 1] != '/' ==> r[|r| - 1] != '/'
    ensures c == [] ==> r == "/"
  {
    if c == [] || c[0] != '/' then "/" + c else c
  }

  /** `normalisePath` as written: trimmed, cut at the first `?`, slashes collapsed; then a
    * trailing slash is dropped, and only otherwise is a missing leading slash added. */
  function NormalisePath(v: Value): (r: string)
    ensures r != [] && '?' !in r && NoDoubleSlash(r)
    ensures |r| > 1 ==> r[|r| - 1] != '/'
    ensures !v.Str? || Trim(v.s) == "" ==> r == "/"
  {
    if !v.Str? then "/"
    else
      var trimmed := Trim(v.s);
      if trimmed == "" then "/"
      else
        var collapsed := PathCore(trimmed);
        if |collapsed| > 1 && collapsed[|collapsed| - 1] == '/' then DropTrailingSlash(collapsed)
        else Root(collapsed)
  }

  /** Trimming a string that starts with a slash keeps the slash in front. */
  lemma TrimKeepsLeadingSlash(s: string)
    requires s != [] && s[0] == '/'
    ensures Trim(s) != [] && Trim(s)[0] == '/'
  {
    assert TrimStart(s) == s;
  }

  /** A path that starts with a slash keeps it. */
  lemma LeadingSlashKept(s: string)
    requires s != [] && s[0] == '/'
    ensures NormalisePath(Str(s))[0] == '/'
  {
    hide Trim, PathCore, DropTrailingSlash, Root;
    TrimKeepsLeadingSlash(s);
  }

  /** The quirk of the order of the last two steps: a path with a trailing slash and no
    * leading slash comes back without a leading slash. */
  lemma {:induction false} TrailingSlashSkipsLeadingSlash(s: string)
    requires IsTrimmed(s) && |s| > 1 && '?' !in s && NoDoubleSlash(s)
    requires s[0] != '/' && s[|s| - 1] == '/'
    ensures NormalisePath(Str(s)) == s[..|s| - 1]
    ensures NormalisePath(Str(s))[0] != '/'
  {
    CleanPathCore(s);
    hide Trim, PathCore, CollapseSlashes, IndexOf, TrimStart, TrimEnd;
    assert NormalisePath(Str(s)) == DropTrailingSlash(s);
  }

  /** The evidently intended `normalisePath`: the leading slash is added before the
    * trailing slash is dropped, so every path starts with a slash. */
  function NormalisePathRooted(v: Value): (r: string)
    ensures r != [] && r[0] == '/' && '?' !in r && NoDoubleSlash(r)
    ensures |r| > 1 ==> r[|r| - 1] != '/'
    ensures !v.Str? || Trim(v.s) == "" ==> r == "/"
  {
    if !v.Str? then "/"
    else
      var trimmed := Trim(v.s);
      if trimmed == "" then "/" else DropTrailingSlash(Root(PathCore(trimmed)))
  }

  /** The two agree on every path that already starts with a slash. */
  lemma {:induction false} RootedAgreesOnRootedPaths(s: string)
    requires s != [] && s[0] == '/'
    ensures NormalisePathRooted(Str(s)) == NormalisePath(Str(s))
  {
    hide Trim, TrimStart, TrimEnd, PathCore, CollapseSlashes, IndexOf, Root;
    TrimKeepsLeadingSlash(s);
    RootOfRooted(PathCore(Trim(s)));
  }

  /** A path that starts with a slash gets no second one. */
  lemma RootOfRooted(c: string)
    requires NoDoubleSlash(c) && '?' !in c && c != [] && c[0] == '/'
    ensures Root(c) == c
  {
  }

  /** A trimmed path with no query and no double slash is its own core. */
  lemma {:induction false} CleanPathCore(s: string)
    requires IsTrimmed(s) && '?' !in s && NoDoubleSlash(s)
    ensures Trim(s) == s && PathCore(s) == s
  {
    TrimOfTrimmed(s);
    var k := IndexOf(s, '?');
    assert k == |s|;
    assert s[..k] == s;
    CollapseKeepsCollapsed(s);
  }

  /** With the intended order a path without its leading slash normalises exactly as the
    * same path with it. */
  lemma {:induction false} RootedIgnoresMissingSlash(s: string)
    requires IsTrimmed(s) && s != [] && '?' !in s && NoDoubleSlash(s) && s[0] != '/'
    ensures NormalisePathRooted(Str(s)) == NormalisePath(Str("/" + s))
  {
    hide Trim, PathCore, CollapseSlashes, IndexOf, TrimStart, TrimEnd, NoDoubleSlash, IsTrimmed;
    SlashPrefixed(s);
    CleanPathCore(s);
    CleanPathCore("/" + s);
  }

  /** A clean path without its leading slash gets it back from `Root`, and stays clean. */
  lemma SlashPrefixed(s: string)
    requires IsTrimmed(s) && s != [] && '?' !in s && NoDoubleSlash(s) && s[0] != '/'
    ensures IsTrimmed("/" + s) && '?' !in "/" + s && NoDoubleSlash("/" + s)
    ensures Root(s) == "/" + s && Root("/" + s) == "/" + s
  {
    var t := "/" + s;
    assert forall i :: 0 < i < |t| ==> t[i] == s[i - 1];
  }

  // ---------------------------------------------------------------- splitting

  /** `s.split('/')` */
  function Split(s: string): (r: seq<string>)
    ensures |r| >= 1 && forall i :: 0 <= i < |r| ==> '/' !in r[i]
    ensures r[0] == [] <==> s == [] || s[0] == '/'
  {
    if s == [] then [[]]
    else
      var rest := Split(s[1..]);
      if s[0] == '/' then [[]] + rest else [[s[0]] + rest[0]] + rest[1..]
  }

  /** `parts.join('/')` */
  function Join(parts: seq<string>): string
    requires |parts| >= 1
  {
    if |parts| == 1 then parts[0] else parts[0] + "/" + Join(parts[1..])
  }

  /** Joining the parts of a split gives the text back. */
  lemma {:induction false} JoinSplit(s: string)
    ensures Join(Split(s)) == s
  {
    if s != [] {
      var rest := Split(s[1..]);
      JoinSplit(s[1..]);
      if s[0] == '/' {
        assert Split(s)[1..] == rest;
        assert s == [s[0]] + s[1..];
      } else {
        var r := Split(s);
        if |rest| == 1 {
          assert Join(r) == [s[0]] + rest[0];
        } else {
          assert r[1..] == rest[1..];
          assert Join(r) == [s[0]] + (rest[0] + "/" + Join(rest[1..]));
        }
      }
    }
  }

  /** Splitting the join of slash-free parts gives the parts back. */
  lemma {:induction false} SplitJoin(parts: seq<string>)
    requires |parts| >= 1 && forall i :: 0 <= i < |parts| ==> '/' !in parts[i]
    ensures Split(Join(parts)) == parts
  {
    if |parts| == 1 {
      SplitSlashFree(parts[0], []);
    } else {
      SplitJoin(parts[1..]);
      SplitSlashFree(parts[0], parts[1..]);
    }
  }

  /** Splitting a slash-free word followed by a slash and a text prepends the word. */
  lemma {:induction false} SplitSlashFree(w: string, rest: seq<string>)
    requires '/' !in w
    requires forall i :: 0 <= i < |rest| ==> '/' !in rest[i]
    ensures rest == [] ==> Split(w) == [w]
    ensures rest != [] ==> Split(w + "/" + Join(rest)) == [w] + Split(Join(rest))
  {
    if w == [] {
      if rest != [] {
        assert w + "/" + Join(rest) == "/" + Join(rest);
        assert ("/" + Join(rest))[1..] == Join(rest);
      }
    } else {
      assert '/' !in w[1..];
      assert [w[0]] + w[1..] == w;
      SplitSlashFree(w[1..], rest);
      if rest != [] {
        var s := w + "/" + Join(rest);
        assert s[0] == w[0] && s[1..] == w[1..] + "/" + Join(rest);
        var tail := Split(s[1..]);
        assert tail == [w[1..]] + Split(Join(rest));
        assert Split(s) == [[w[0]] + tail[0]] + tail[1..];
      } else {
        assert Split(w) == [[w[0]] + Split(w[1..])[0]] + Split(w[1..])[1..];
      }
    }
  }

  // ---------------------------------------------------------------- templates

  /** A template segment: literal text, or a `{name}` placeholder. */
  datatype Segment = Lit(text: string) | Param(name: string)

  /** `/^\{[^}]+\}$/` */
  predicate IsPlaceholder(part: string)
  {
    |part| >= 3 && part[0] == '{' && part[|part| - 1] == '}' && '}' !in part[1..|part| - 1]
  }

  function SegmentOf(part: string): (s: Segment)
    ensures s.Lit? ==> s.text == part
    ensures s.Param? ==> s.name != ""
  {
    if IsPlaceholder(part) then
      var name := Trim(part[1..|part| - 1]);
      Param(if name == "" then "param" else name)
    else Lit(part)
  }

  /** `createMatcher(pattern)`: the segments of the normalised pattern. */
  function Template(pattern: Value): (segs: seq<Segment>)
    ensures |segs| == |Split(NormalisePath(pattern))|
    ensures forall i :: 0 <= i < |segs| ==> segs[i] == SegmentOf(Split(NormalisePath(pattern))[i])
  {
    var parts := Split(NormalisePath(pattern));
    seq(|parts|, i requires 0 <= i < |parts| => SegmentOf(parts[i]))
  }

  /** Whether a template segment accepts one segment of the path: a literal equal to it,
    * or a placeholder and a non-empty segment. */
  predicate SegmentAccepts(s: Segment, part: string)
  {
    match s
    case Lit(t) => t == part
    case Param(_) => part != ""
  }

  /** The placeholders of a template bound to the segments of a path, left to right, so
    * that a name used twice keeps its last segment. */
  function MatchParts(segs: seq<Segment>, parts: seq<string>): (r: Option<map<string, string>>)
    ensures r.Some? <==> |segs| == |parts| && forall i :: 0 <= i < |segs| ==> SegmentAccepts(segs[i], parts[i])
    ensures r.Some? ==> forall n :: n in r.value <==> exists i :: 0 <= i < |segs| && segs[i] == Param(n)
  {
    if |segs| != |parts| then None
    else if segs == [] then Some(map[])
    else
      var k := |segs| - 1;
      var init := MatchParts(segs[..k], parts[..k]);
      assert forall i :: 0 <= i < k ==> segs[..k][i] == segs[i] && parts[..k][i] == parts[i];
      if init.None? then None
      else
        match segs[k]
        case Lit(t) => if t == parts[k] then init else None
        case Param(n) => if parts[k] != "" then Some(init.value[n := parts[k]]) else None
  }

  /** Parameters bind positionally: a placeholder holds the segment at its own position,
    * unless the same name comes again further right. */
  lemma {:induction false} MatchBindsPositionally(segs: seq<Segment>, parts: seq<string>, i: nat)
    requires MatchParts(segs, parts).Some?
    requires i < |segs| && segs[i].Param?
    requires forall j :: i < j < |segs| ==> segs[j] != segs[i]
    ensures segs[i].name in MatchParts(segs, parts).value
    ensures MatchParts(segs, parts).value[segs[i].name] == parts[i]
  {
    var k := |segs| - 1;
    var init := MatchParts(segs[..k], parts[..k]);
    assert forall j :: 0 <= j < k ==> segs[..k][j] == segs[j] && parts[..k][j] == parts[j];
    if i < k {
      MatchBindsPositionally(segs[..k], parts[..k], i);
      assert segs[k] != segs[i];
    }
  }

  /** The matcher applied to a path: `null`, or the bound parameters. */
  function MatchPath(segs: seq<Segment>, path: Value): Option<map<string, string>>
  {
    MatchParts(segs, Split(NormalisePath(path)))
  }

  /** A template with no leading slash can never match a path that has one: its first
    * segment is never empty, and a rooted path's is. */
  lemma UnrootedTemplateNeverMatches(pattern: Value, path: string)
    requires NormalisePath(pattern)[0] != '/'
    requires path != [] && path[0] == '/'
    ensures MatchPath(Template(pattern), Str(path)).None?
  {
    LeadingSlashKept(path);
    var segs := Template(pattern);
    var parts := Split(NormalisePath(Str(path)));
    assert parts[0] == [];
    assert Split(NormalisePath(pattern))[0] != [];
    assert !SegmentAccepts(segs[0], parts[0]);
  }

  // ---------------------------------------------------------------- replies

  /** What a handler produced: nothing, a reply object with `ok`, any other value, or an
    * error it threw (its `status` and `message`). */
  datatype Outcome =
    | NoResult
    | Shaped(ok: Value, status: Value, data: Option<Value>, message: Value)
    | Plain(value: Value)
    | Thrown(errStatus: Value, errMessage: Value)

  /** The envelope `apiFetch` resolves to. */
  datatype Response = Response(ok: bool, status: int, data: Option<Value>, message: Option<string>)

  predicate IsInteger(v: Value)
  {
    v.Num? && v.n == v.n.Floor as real
  }

  /** `ensureStatus`: an integer status of at least 100 is kept; otherwise 200 or 500. */
  function EnsureStatus(status: Value, ok: bool): (r: int)
    ensures r >= 100
    ensures IsInteger(status) && status.n >= 100.0 ==> r as real == status.n
    ensures !(IsInteger(status) && status.n >= 100.0) ==> r == (if ok then 200 else 500)
  {
    if IsInteger(status) && status.n >= 100.0 then status.n.Floor else if ok then 200 else 500
  }

  /** `ensureResponseShape` */
  function EnsureResponseShape(o: Outcome): (r: Response)
    requires !o.Thrown?
    ensures o.NoResult? ==> r == Response(true, 200, None, None)
    ensures o.Plain? ==> r == Response(true, 200, Some(o.value), None)
    ensures o.Shaped? ==> r.ok == Truthy(o.ok) && r.status == EnsureStatus(o.status, Truthy(o.ok)) && r.data == o.data
    ensures o.Shaped? ==> (r.message.None? <==> o.message.Missing?)
    ensures r.status >= 100
  {
    match o
    case Shaped(ok, status, data, message) =>
      Response(Truthy(ok), EnsureStatus(status, Truthy(ok)), data, if message.Missing? then None else Some(JsString(message)))
    case NoResult => Response(true, 200, None, None)
    case Plain(v) => Response(true, 200, Some(v), None)
  }

  /** A handler's own `{ok, status, data}` or `{ok: false, status, message}` reply passes
    * through unchanged when its status is a proper one. */
  lemma HandlerReplyPassesThrough(ok: bool, status: int, data: Option<Value>, message: Option<string>)
    requires status >= 100
    ensures var m := if message.Some? then Str(message.value) else Missing;
            EnsureResponseShape(Shaped(Bool(ok), Num(status as real), data, m)) == Response(ok, status, data, message)
  {
    assert (status as real).Floor == status;
  }

  /** `formatError`: any integer status is kept (even one below 100); a blank or non-text
    * message becomes `'Unexpected error'`. */
  function FormatError(status: Value, message: Value): (r: Response)
    ensures !r.ok && r.data.None? && r.message.Some? && r.message.value != ""
    ensures IsInteger(status) ==> r.status as real == status.n
    ensures !IsInteger(status) ==> r.status == 500
    ensures message.Str? && Trim(message.s) != "" ==> r.message == Some(message.s)
  {
    var m := if message.Str? && Trim(message.s) != "" then message.s else "Unexpected error";
    Response(false, if IsInteger(status) then status.n.Floor else 500, None, Some(m))
  }

  // ---------------------------------------------------------------- routes

  /** A route as registered: its method, its path template and the handler it runs. */
  datatype RouteDef = RouteDef(verb: Value, path: Value, handler: nat)

  /** A compiled route: the method normalised and the template split into segments. */
  datatype Compiled = Compiled(verb: string, path: string, segs: seq<Segment>, handler: nat)

  function CompileRoute(d: RouteDef): Compiled
  {
    Compiled(NormaliseMethod(d.verb), NormalisePath(d.path), Template(d.path), d.handler)
  }

  /** `compileRoutes` */
  function CompileAll(ds: seq<RouteDef>): (cs: seq<Compiled>)
    ensures |cs| == |ds| && forall i :: 0 <= i < |ds| ==> cs[i] == CompileRoute(ds[i])
  {
    seq(|ds|, i requires 0 <= i < |ds| => CompileRoute(ds[i]))
  }

  /** Whether a compiled route answers a request: equal method and a matching path. */
  predicate Answers(c: Compiled, verb: string, path: string)
  {
    c.verb == verb && MatchPath(c.segs, Str(path)).Some?
  }

  /** What the handler is given. */
  datatype Request = Request(verb: string, path: string, params: map<string, string>)

  /** The reply to a request: the first route that answers runs, and what it produced is
    * given the envelope; with no such route, 404. */
  function Respond(routes: seq<Compiled>, verb: string, path: string, run: (nat, Request) -> Outcome): (r: Response)
  {
    match FindFirst(routes, c => Answers(c, verb, path))
    case None => Response(false, 404, None, Some("No route for " + verb + " " + path))
    case Some(k) =>
      var o := run(routes[k].handler, Request(verb, path, MatchPath(routes[k].segs, Str(path)).value));
      if o.Thrown? then FormatError(o.errStatus, o.errMessage) else EnsureResponseShape(o)
  }

  /** With no route that answers, the reply is 404. */
  lemma RespondNotFound(routes: seq<Compiled>, verb: string, path: string, run: (nat, Request) -> Outcome)
    requires forall i :: 0 <= i < |routes| ==> !Answers(routes[i], verb, path)
    ensures Respond(routes, verb, path, run) == Response(false, 404, None, Some("No route for " + verb + " " + path))
  {
    var accept := c => Answers(c, verb, path);
    assert forall i :: 0 <= i < |routes| ==> !accept(routes[i]);
  }

  /** The route that runs is the first that answers, with the parameters its template binds. */
  lemma RespondPicksFirst(routes: seq<Compiled>, verb: string, path: string, run: (nat, Request) -> Outcome, k: nat)
    requires k < |routes| && Answers(routes[k], verb, path)
    requires forall j :: 0 <= j < k ==> !Answers(routes[j], verb, path)
    ensures var o := run(routes[k].handler, Request(verb, path, MatchPath(routes[k].segs, Str(path)).value));
            Respond(routes, verb, path, run) == if o.Thrown? then FormatError(o.errStatus, o.errMessage) else EnsureResponseShape(o)
  {
    var accept := c => Answers(c, verb, path);
    assert forall j :: 0 <= j <= k ==> accept(routes[j]) == Answers(routes[j], verb, path);
    assert FindFirst(routes, accept) == Some(k);
  }

  /** The table of routes: the built-in routes, then those registered later, and the
    * compiled list rebuilt from both after every change. */
  class RouteTable {
    const builtin: seq<RouteDef>
    var extra: seq<RouteDef>
    var compiled: seq<Compiled>

    predicate Valid()
      reads this
    {
      compiled == CompileAll(builtin + extra)
    }

    constructor (builtin: seq<RouteDef>)
      ensures this.builtin == builtin && extra == [] && Valid()
    {
      this.builtin := builtin;
      extra := [];
      compiled := CompileAll(builtin);
      assert builtin + [] == builtin;
    }

    /** `registerRoute`: a non-object (`None`) throws; a route is appended after every
      * route already known. */
    method RegisterRoute(route: Option<RouteDef>) returns (r: Result<()>)
      requires Valid()
      modifies this
      ensures Valid()
      ensures route.None? ==> r.Failure? && extra == old(extra)
      ensures route.Some? ==> r.Success? && extra == old(extra) + [route.value]
    {
      if route.None? {
        return Failure("registerRoute(route) expects a route object.");
      }
      extra := extra + [route.value];
      compiled := CompileAll(builtin + extra);
      r := Success(());
    }

    /** `resetExtraRoutes` */
    method ResetExtraRoutes()
      requires Valid()
      modifies this
      ensures Valid() && extra == []
    {
      extra := [];
      compiled := CompileAll(builtin);
      assert builtin + [] == builtin;
    }

    /** `apiFetch`: the method and the URL's path normalised, then the route loop. */
    method Fetch(verb: Value, urlPath: string, run: (nat, Request) -> Outcome) returns (r: Response)
      requires Valid()
      ensures r == Respond(compiled, NormaliseMethod(verb), NormalisePath(Str(urlPath)), run)
    {
      hide NormalisePath, NormaliseMethod, MatchPath, FormatError, EnsureResponseShape, Respond, FindFirst, Valid;
      var path := NormalisePath(Str(urlPath));
      var m := NormaliseMethod(verb);
      var i := 0;
      while i < |compiled|
        invariant 0 <= i <= |compiled|
        invariant forall j :: 0 <= j < i ==> !Answers(compiled[j], m, path)
      {
        var route := compiled[i];
        if route.verb == m {
          var found := MatchPath(route.segs, Str(path));
          if found.Some? {
            var o := run(route.handler, Request(m, path, found.value));
            r := if o.Thrown? then FormatError(o.errStatus, o.errMessage) else EnsureResponseShape(o);
            RespondPicksFirst(compiled, m, path, run, i);
            return;
          }
        }
        i := i + 1;
      }
      RespondNotFound(compiled, m, path, run);
      r := Response(false, 404, None, Some("No route for " + m + " " + path));
    }
  }

  /** A route registered later never shadows a built-in one: when a built-in route
    * answers, the route that runs is built in. */
  lemma BuiltinRoutesComeFirst(builtin: seq<RouteDef>, extra: seq<RouteDef>, verb: string, path: string)
    requires exists i :: 0 <= i < |builtin| && Answers(CompileRoute(builtin[i]), verb, path)
    ensures var cs := CompileAll(builtin + extra);
            var k := FindFirst(cs, c => Answers(c, verb, path));
            k.Some? && k.value < |builtin|
  {
    var cs := CompileAll(builtin + extra);
    var accept := c => Answers(c, verb, path);
    var i :| 0 <= i < |builtin| && Answers(CompileRoute(builtin[i]), verb, path);
    assert cs[i] == CompileRoute(builtin[i]);
    assert accept(cs[i]);
  }
}
