// The view registry of the single-page front end: for each role, the views
// it may open in registration order, and the route currently shown.

module Router {
  import opened Js

  /** `normalize`: `(value ?? '')` as text, trimmed and lower-cased. */
  function NormaliseRole(v: Value): string
  {
    Lower(Trim(JsString(Coalesce(v, Str("")))))
  }

  /** `buildViewKey`: `(value ?? '')` as text, trimmed. */
  function ViewKey(v: Value): string
  {
    Trim(JsString(Coalesce(v, Str(""))))
  }

  /** A registered view: its label and the render callback it runs. */
  datatype ViewEntry = ViewEntry(caption: Value, render: nat)

  /** A role's views: their keys in registration order and the entry under each key. */
  datatype Bucket = Bucket(order: seq<string>, views: map<string, ViewEntry>)

  /** Each key once in the order, and exactly the keys that have an entry. */
  predicate BucketOk(b: Bucket)
  {
    && (forall i, j :: 0 <= i < j < |b.order| ==> b.order[i] != b.order[j])
    && (forall k :: k in b.views ==> k in b.order)
    && (forall i :: 0 <= i < |b.order| ==> b.order[i] in b.views)
  }

  /** The route shown: `{role, view}`, either of which may be `null`. */
  datatype Route = Route(role: Option<string>, view: Option<string>)

  /** An item of `getAvailableViews`. */
  datatype ViewInfo = ViewInfo(id: string, caption: Value)

  /** The label stored for a view: `label || viewKey`. */
  function LabelFor(caption: Value, key: string): (r: Value)
    ensures Truthy(caption) ==> r == caption
    ensures !Truthy(caption) ==> r == Str(key)
  {
    if Truthy(caption) then caption else Str(key)
  }

  /** A bucket after registering a view: a new key goes last, a known key keeps its place,
    * and the entry under the key is replaced. */
  function Register(b: Bucket, key: string, entry: ViewEntry): (r: Bucket)
    requires BucketOk(b)
    ensures BucketOk(r)
    ensures key in b.views ==> r.order == b.order
    ensures key !in b.views ==> r.order == b.order + [key]
    ensures r.views == b.views[key := entry]
  {
    Bucket(if key in b.views then b.order else b.order + [key], b.views[key := entry])
  }

  /** The view `navigate` opens: the requested one when it is registered, else the first. */
  function Resolve(b: Bucket, view: Value): (r: string)
    requires BucketOk(b) && b.order != []
    ensures r in b.views
    ensures ViewKey(view) != "" && ViewKey(view) in b.views ==> r == ViewKey(view)
    ensures ViewKey(view) == "" || ViewKey(view) !in b.views ==> r == b.order[0]
  {
    var target := ViewKey(view);
    if target == "" || target !in b.views then b.order[0] else target
  }

  /** Every role key is non-empty and every bucket is well formed. */
  predicate RoutesOk(routes: map<string, Bucket>)
  {
    forall r :: r in routes ==> r != "" && BucketOk(routes[r])
  }

  /** The `{view, label, render}` part of a route definition; `render` is `None` when it
    * is not a function. `ownRole` is the definition's own `role` property, when it has one:
    * `registerRoutes` spreads the definition after its `role` argument, so that property wins. */
  datatype ViewDef = ViewDef(view: Value, caption: Value, render: Option<nat>, ownRole: Option<Value>)

  /** The role `registerRoute({ role, ...d })` sees: the definition's own role, else the argument. */
  function DefRole(role: Value, d: ViewDef): (r: Value)
    ensures d.ownRole.None? ==> r == role
    ensures d.ownRole.Some? ==> r == d.ownRole.value
  {
    if d.ownRole.Some? then d.ownRole.value else role
  }

  /** The registry with `entry` registered under the role key and view key given. */
  function RegisterAt(routes: map<string, Bucket>, key: string, viewKey: string, entry: ViewEntry): (r: map<string, Bucket>)
    requires RoutesOk(routes) && key != ""
    ensures RoutesOk(r)
    ensures key in r && r.Keys == routes.Keys + {key}
    ensures forall other :: other in routes && other != key ==> r[other] == routes[other]
    ensures key in routes ==> r[key] == Register(routes[key], viewKey, entry)
    ensures key !in routes ==> r[key] == Bucket([viewKey], map[viewKey := entry])
    ensures viewKey in r[key].views
    ensures forall o, k :: o in routes && k in routes[o].views ==> k in r[o].views
  {
    var b := if key in routes then routes[key] else Bucket([], map[]);
    routes[key := Register(b, viewKey, entry)]
  }

  /** The registry after `registerRoute({role, ...d})`, or the error it throws. */
  function RegisterIn(routes: map<string, Bucket>, role: Value, d: ViewDef): (r: Result<map<string, Bucket>>)
    requires RoutesOk(routes)
    ensures r.Success? ==> RoutesOk(r.value)
    ensures r.Failure? <==> NormaliseRole(role) == "" || ViewKey(d.view) == "" || d.render.None?
    ensures r.Success? ==>
              r.value == RegisterAt(routes, NormaliseRole(role), ViewKey(d.view), ViewEntry(LabelFor(d.caption, ViewKey(d.view)), d.render.value))
  {
    var key := NormaliseRole(role);
    var viewKey := ViewKey(d.view);
    if key == "" then Failure("registerRoute requiere un rol válido.")
    else if viewKey == "" then Failure("registerRoute requiere una vista con identificador.")
    else if d.render.None? then
      Failure("registerRoute(\"" + key + "\", \"" + viewKey + "\") espera una función render.")
    else
      Success(RegisterAt(routes, key, viewKey, ViewEntry(LabelFor(d.caption, viewKey), d.render.value)))
  }

  /** The registry after registering `defs` in turn, and the error of the first one
    * refused, which stops the rest. */
  function RegisterAll(routes: map<string, Bucket>, role: Value, defs: seq<ViewDef>): (r: (map<string, Bucket>, Option<string>))
    requires RoutesOk(routes)
    ensures RoutesOk(r.0)
    decreases |defs|
  {
    if defs == [] then (routes, None)
    else
      match RegisterIn(routes, DefRole(role, defs[0]), defs[0])
      case Failure(e) => (routes, Some(e))
      case Success(next) => RegisterAll(next, role, defs[1..])
  }

  class Router {
    var routes: map<string, Bucket>
    var hasContainer: bool
    var current: Route

    /** Every role key is non-empty and every bucket is well formed. */
    predicate Valid()
      reads this
    {
      RoutesOk(routes)
    }

    constructor ()
      ensures Valid() && routes == map[] && !hasContainer && current == Route(None, None)
    {
      routes := map[];
      hasContainer := false;
      current := Route(None, None);
    }

    /** `setContentContainer`: only an element is accepted. */
    method SetContentContainer(isElement: bool) returns (r: Result<()>)
      modifies this`hasContainer
      ensures isElement ==> r.Success? && hasContainer
      ensures !isElement ==> r.Failure? && hasContainer == old(hasContainer)
    {
      if !isElement {
        return Failure("setContentContainer(node) espera un elemento HTML.");
      }
      hasContainer := true;
      r := Success(());
    }

    /** `registerRoute`: an empty role, an empty view key or a render that is not a
      * function throws and registers nothing. */
    method RegisterRoute(role: Value, d: ViewDef) returns (r: Result<()>)
      requires Valid()
      modifies this`routes
      ensures Valid()
      ensures r.Failure? <==> NormaliseRole(role) == "" || ViewKey(d.view) == "" || d.render.None?
      ensures var u := RegisterIn(old(routes), role, d);
              && (u.Failure? ==> r == Failure(u.error) && routes == old(routes))
              && (u.Success? ==> r.Success? && routes == u.value)
    {
      var u := RegisterIn(routes, role, d);
      if u.Failure? {
        return Failure(u.error);
      }
      routes := u.value;
      r := Success(());
    }

    /** `registerRoutes`: the definitions are registered in turn; the first one refused
      * stops the rest and is reported, and those before it stay registered. */
    method RegisterRoutes(role: Value, defs: seq<ViewDef>) returns (r: Result<()>)
      requires Valid()
      modifies this`routes
      ensures Valid()
      ensures var (after, error) := RegisterAll(old(routes), role, defs);
              routes == after && (r.Failure? <==> error.Some?) && (error.Some? ==> r.error == error.value)
    {
      var i := 0;
      while i < |defs|
        invariant 0 <= i <= |defs|
        invariant Valid()
        invariant RegisterAll(old(routes), role, defs) == RegisterAll(routes, role, defs[i..])
      {
        var step := RegisterRoute(DefRole(role, defs[i]), defs[i]);
        assert defs[i..][1..] == defs[i + 1..];
        if step.Failure? {
          return step;
        }
        i := i + 1;
      }
      r := Success(());
    }

    /** `getAvailableViews`: a role's views in registration order; none for an unknown role. */
    function AvailableViews(role: Value): (r: seq<ViewInfo>)
      requires Valid()
      reads this
      ensures NormaliseRole(role) !in routes ==> r == []
      ensures NormaliseRole(role) in routes ==>
                var b := routes[NormaliseRole(role)];
                && |r| == |b.order|
                && forall i :: 0 <= i < |r| ==> r[i] == ViewInfo(b.order[i], b.views[b.order[i]].caption)
    {
      var key := NormaliseRole(role);
      if key !in routes then []
      else
        var b := routes[key];
        seq(|b.order|, i requires 0 <= i < |b.order| => ViewInfo(b.order[i], b.views[b.order[i]].caption))
    }

    /** `navigate`: without a container it throws; a role with no views shows no view; any
      * other request opens the requested view when it is registered, else the first. The
      * route shown is stored and a copy returned. */
    method Navigate(role: Value, view: Value) returns (r: Result<Route>)
      requires Valid()
      modifies this`current
      ensures !hasContainer ==> r.Failure? && current == old(current)
      ensures hasContainer ==> r == Success(current)
      ensures hasContainer && (NormaliseRole(role) !in routes || routes[NormaliseRole(role)].order == []) ==>
                current == Route(if NormaliseRole(role) == "" then None else Some(NormaliseRole(role)), None)
      ensures hasContainer && NormaliseRole(role) in routes && routes[NormaliseRole(role)].order != [] ==>
                current == Route(Some(NormaliseRole(role)), Some(Resolve(routes[NormaliseRole(role)], view)))
    {
      hide NormaliseRole, ViewKey;
      if !hasContainer {
        return Failure("navigate(role, view) requiere un contenedor de contenido configurado.");
      }
      var normalisedRole := NormaliseRole(role);
      if normalisedRole !in routes || routes[normalisedRole].order == [] {
        current := Route(if normalisedRole == "" then None else Some(normalisedRole), None);
        return Success(current);
      }
      var bucket := routes[normalisedRole];
      var target := Resolve(bucket, view);
      current := Route(Some(normalisedRole), Some(target));
      r := Success(current);
    }
  }

  /** Registering the same key twice keeps one place for it, at its first position, and
    * the later label and render win. */
  lemma ReRegisterKeepsPlace(b: Bucket, key: string, e1: ViewEntry, e2: ViewEntry)
    requires BucketOk(b)
    ensures var once := Register(b, key, e1);
            var twice := Register(once, key, e2);
            && twice.order == once.order
            && twice.views[key] == e2
            && (key !in b.views ==> twice.order == b.order + [key])
            && (key in b.views ==> twice.order == b.order)
  {
  }

  /** Registering a view never reorders the views already there. */
  lemma RegisterKeepsOrder(b: Bucket, key: string, e: ViewEntry)
    requires BucketOk(b)
    ensures Register(b, key, e).order[..|b.order|] == b.order
    ensures forall k :: k in b.views && k != key ==> Register(b, key, e).views[k] == b.views[k]
  {
    var r := Register(b, key, e);
    if key !in b.views {
      assert r.order[..|b.order|] == b.order;
    }
  }

  /** Roles are found whatever their case and padding. */
  lemma RoleCaseAndPaddingIgnored(a: string, b: string)
    requires Lower(Trim(a)) == Lower(Trim(b))
    ensures NormaliseRole(Str(a)) == NormaliseRole(Str(b))
  {
  }

  /** A view key is found whatever its padding. */
  lemma {:induction false} ViewKeyPaddingIgnored(v: string)
    ensures ViewKey(Str(Trim(v))) == ViewKey(Str(v))
  {
    TrimIdempotent(v);
  }

  /** When `registerRoutes` throws nothing, every definition's view is registered under
    * the role, and every view registered before is still there. */
  lemma {:induction false} RegisterAllRegistersEach(routes: map<string, Bucket>, role: Value, defs: seq<ViewDef>)
    requires RoutesOk(routes)
    requires RegisterAll(routes, role, defs).1.None?
    ensures var after := RegisterAll(routes, role, defs).0;
            && (forall r, k :: r in routes && k in routes[r].views ==> r in after && k in after[r].views)
            && (forall i :: 0 <= i < |defs| ==>
                  var key := NormaliseRole(DefRole(role, defs[i]));
                  key in after && ViewKey(defs[i].view) in after[key].views)
    decreases |defs|
  {
    hide NormaliseRole, ViewKey, Register, RegisterAt;
    if defs != [] {
      var next := RegisterIn(routes, DefRole(role, defs[0]), defs[0]).value;
      RegisterAllRegistersEach(next, role, defs[1..]);
      var after := RegisterAll(routes, role, defs).0;
      assert after == RegisterAll(next, role, defs[1..]).0;
      forall i | 0 <= i < |defs|
        ensures var key := NormaliseRole(DefRole(role, defs[i]));
                key in after && ViewKey(defs[i].view) in after[key].views
      {
        if i > 0 {
          assert defs[i] == defs[1..][i - 1];
        }
      }
    }
  }
}
