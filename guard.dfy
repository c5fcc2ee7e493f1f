/** The authentication route guard registered with `router.beforeEach`
    (client/src/main.js:79-100).

    The guard walks the whole route table with `forEach`. For a route whose
    path is the target's and which is `secure`, a logged-out user is sent to
    "/login"; for one which is `unAuth`, a logged-in user is sent to "/".
    The `return` in front of each redirect leaves only the `forEach`
    callback, so the walk goes on over the remaining routes and the
    guard's final `next()` runs in every case. The guard is modelled by the
    sequence of `next` calls it makes. */
module RouteGuard {
  import opened Wrappers
  import opened Session

  /** An entry of `router.options.routes`, reduced to the fields the guard reads. */
  datatype Route = Route(path: string, secure: bool, unAuth: bool)

  /** One call of the guard's `next` callback: `next()` or `next(path)`. */
  datatype NextCall = Pass | Redirect(to: string)

  const LoginPath := "/login"
  const HomePath := "/"

  /** A route makes the guard redirect: it is the target's route and the
      flag that applies to the current token state is set. */
  predicate Hit(route: Route, target: string, token: Token)
  {
    route.path == target && (if Truthy(token) then route.unAuth else route.secure)
  }

  /** Where a redirect for the given token state goes. */
  function RedirectPath(token: Token): string
  {
    if Truthy(token) then HomePath else LoginPath
  }

  /** The calls the guard makes while visiting one route: at most one redirect. */
  function Visit(route: Route, target: string, token: Token): seq<NextCall>
  {
    if Hit(route, target, token) then [Redirect(RedirectPath(token))] else []
  }

  /** The redirects the guard issues over a route table, in table order. */
  function Redirects(routes: seq<Route>, target: string, token: Token): seq<NextCall>
  {
    if routes == [] then []
    else Visit(routes[0], target, token) + Redirects(routes[1..], target, token)
  }

  /** Every call the guard makes, ending with the unconditional `next()`. */
  function GuardLog(routes: seq<Route>, target: string, token: Token): seq<NextCall>
  {
    Redirects(routes, target, token) + [Pass]
  }

  /** How many routes of a table make the guard redirect. */
  function HitCount(routes: seq<Route>, target: string, token: Token): nat
  {
    if routes == [] then 0
    else (if Hit(routes[0], target, token) then 1 else 0) + HitCount(routes[1..], target, token)
  }

  /** The guard as written (client/src/main.js:79-100). `matched` stands for
      `to.matched`, of which the guard reads the first record's path, and only
      inside the walk: with an empty table it is never read, so it must be
      non-empty only when the table is. Route table and token are values, so
      the guard changes neither. */
  method BeforeEach(routes: seq<Route>, matched: seq<string>, token: Token) returns (log: seq<NextCall>)
    requires |routes| > 0 ==> |matched| > 0
    ensures |routes| > 0 ==> log == GuardLog(routes, matched[0], token)
    ensures |routes| == 0 ==> log == [Pass]
    ensures |log| >= 1 && log[|log| - 1] == Pass
  {
    log := [];
    for i := 0 to |routes|
      invariant |routes| > 0 ==> log == Redirects(routes[..i], matched[0], token)
      invariant |routes| == 0 ==> log == []
    {
      RedirectsAppend(routes[..i], [routes[i]], matched[0], token);
      assert routes[..i + 1] == routes[..i] + [routes[i]];
      var route := routes[i];
      if matched[0] == route.path && route.secure {
        if Unauthenticated(token) {
          // `return next('/login')` ends this callback only
          log := log + [Redirect(LoginPath)];
          continue;
        }
      }
      if matched[0] == route.path && route.unAuth {
        if Truthy(token) {
          log := log + [Redirect(HomePath)];
        }
      }
    }
    assert routes[..|routes|] == routes;
    log := log + [Pass];
  }

  /** Walking a table in two parts issues the same redirects, in the same
      order, as walking it in one. */
  lemma {:induction false} RedirectsAppend(a: seq<Route>, b: seq<Route>, target: string, token: Token)
    ensures Redirects(a + b, target, token) == Redirects(a, target, token) + Redirects(b, target, token)
  {
    if a == [] {
      assert a + b == b;
    } else {
      assert (a + b)[1..] == a[1..] + b;
      RedirectsAppend(a[1..], b, target, token);
    }
  }

  /** There is one redirect per hit, and all of them go to the same path,
      the one the token state selects. */
  lemma {:induction false} RedirectsShape(routes: seq<Route>, target: string, token: Token)
    ensures |Redirects(routes, target, token)| == HitCount(routes, target, token)
    ensures forall k :: 0 <= k < |Redirects(routes, target, token)| ==>
      Redirects(routes, target, token)[k] == Redirect(RedirectPath(token))
  {
    if routes != [] {
      RedirectsShape(routes[1..], target, token);
    }
  }

  /** The guard always ends with exactly one `next()`, whatever redirects came
      before it, and makes one call more than there are hits. */
  lemma GuardEndsWithOnePass(routes: seq<Route>, target: string, token: Token)
    ensures |GuardLog(routes, target, token)| == 1 + HitCount(routes, target, token)
    ensures GuardLog(routes, target, token)[|GuardLog(routes, target, token)| - 1] == Pass
    ensures forall k :: 0 <= k < |GuardLog(routes, target, token)| - 1 ==>
      GuardLog(routes, target, token)[k] == Redirect(RedirectPath(token))
  {
    RedirectsShape(routes, target, token);
  }

  /** The guard redirects at least once exactly when some route is a hit. */
  lemma {:induction false} HitCountPositiveIff(routes: seq<Route>, target: string, token: Token)
    ensures HitCount(routes, target, token) > 0 <==>
      exists i :: 0 <= i < |routes| && Hit(routes[i], target, token)
  {
    if routes != [] {
      HitCountPositiveIff(routes[1..], target, token);
      if Hit(routes[0], target, token) {
        assert Hit(routes[0], target, token);
      } else if exists i :: 0 <= i < |routes| && Hit(routes[i], target, token) {
        var i :| 0 <= i < |routes| && Hit(routes[i], target, token);
        assert Hit(routes[1..][i - 1], target, token);
      }
    }
  }

  /** With a missing or empty token, the guard redirects to "/login" exactly
      when some route with the target's path is `secure`. */
  lemma LoginRedirectIff(routes: seq<Route>, target: string, token: Token)
    ensures Redirect(LoginPath) in GuardLog(routes, target, token) <==>
      !Truthy(token) && exists i :: 0 <= i < |routes| && routes[i].path == target && routes[i].secure
  {
    GuardEndsWithOnePass(routes, target, token);
    HitCountPositiveIff(routes, target, token);
    var log := GuardLog(routes, target, token);
    if Redirect(LoginPath) in log {
      var k :| 0 <= k < |log| && log[k] == Redirect(LoginPath);
      assert k < |log| - 1;
      var i :| 0 <= i < |routes| && Hit(routes[i], target, token);
      assert routes[i].path == target && routes[i].secure;
    }
    if !Truthy(token) && exists i :: 0 <= i < |routes| && routes[i].path == target && routes[i].secure {
      var i :| 0 <= i < |routes| && routes[i].path == target && routes[i].secure;
      assert Hit(routes[i], target, token);
      assert log[0] == Redirect(LoginPath);
    }
  }

  /** With a truthy token, the guard redirects to "/" exactly when some route
      with the target's path is `unAuth`. */
  lemma HomeRedirectIff(routes: seq<Route>, target: string, token: Token)
    ensures Redirect(HomePath) in GuardLog(routes, target, token) <==>
      Truthy(token) && exists i :: 0 <= i < |routes| && routes[i].path == target && routes[i].unAuth
  {
    GuardEndsWithOnePass(routes, target, token);
    HitCountPositiveIff(routes, target, token);
    var log := GuardLog(routes, target, token);
    if Redirect(HomePath) in log {
      var k :| 0 <= k < |log| && log[k] == Redirect(HomePath);
      assert k < |log| - 1;
      var i :| 0 <= i < |routes| && Hit(routes[i], target, token);
      assert routes[i].path == target && routes[i].unAuth;
    }
    if Truthy(token) && exists i :: 0 <= i < |routes| && routes[i].path == target && routes[i].unAuth {
      var i :| 0 <= i < |routes| && routes[i].path == target && routes[i].unAuth;
      assert Hit(routes[i], target, token);
      assert log[0] == Redirect(HomePath);
    }
  }

  /** The guard makes the single call `next()` exactly when no route is a
      hit: every route with the target's path lacks the flag that applies. */
  lemma PassOnlyIff(routes: seq<Route>, target: string, token: Token)
    ensures GuardLog(routes, target, token) == [Pass] <==>
      forall i :: 0 <= i < |routes| && routes[i].path == target ==>
        if Truthy(token) then !routes[i].unAuth else !routes[i].secure
  {
    GuardEndsWithOnePass(routes, target, token);
    HitCountPositiveIff(routes, target, token);
  }

  /** A route with another path, or with neither flag, adds nothing to the
      log wherever it stands in the table. */
  lemma InertRouteAddsNothing(a: seq<Route>, r: Route, b: seq<Route>, target: string, token: Token)
    requires r.path != target || (!r.secure && !r.unAuth)
    ensures GuardLog(a + [r] + b, target, token) == GuardLog(a + b, target, token)
  {
    assert !Hit(r, target, token);
    assert Redirects([r], target, token) == [] by {
      assert [r][1..] == [];
    }
    var ar := a + [r];
    RedirectsAppend(a, [r], target, token);
    assert Redirects(ar, target, token) == Redirects(a, target, token);
    RedirectsAppend(ar, b, target, token);
    RedirectsAppend(a, b, target, token);
    assert Redirects(ar + b, target, token) == Redirects(a + b, target, token);
  }

  /** The redirect caused by route i is the call whose position is the number
      of hits before it. Within one call of the guard every redirect is the
      same value, so this position is all that "table order" can mean for
      the log; the structural statement of order is RedirectsAppend. */
  lemma RedirectPosition(routes: seq<Route>, i: nat, target: string, token: Token)
    requires i < |routes| && Hit(routes[i], target, token)
    ensures HitCount(routes[..i], target, token) < |GuardLog(routes, target, token)| - 1
    ensures GuardLog(routes, target, token)[HitCount(routes[..i], target, token)] ==
      Redirect(RedirectPath(token))
  {
    assert routes == routes[..i] + routes[i..];
    RedirectsAppend(routes[..i], routes[i..], target, token);
    RedirectsShape(routes[..i], target, token);
    RedirectsShape(routes, target, token);
    assert Redirects(routes[i..], target, token)[0] == Redirect(RedirectPath(token));
  }

  /** As written, every redirect is followed by the unconditional `next()`:
      whenever the guard redirects, it calls `next` at least twice. */
  lemma RedirectFollowedByPass(routes: seq<Route>, target: string, token: Token)
    requires exists i :: 0 <= i < |routes| && Hit(routes[i], target, token)
    ensures |GuardLog(routes, target, token)| >= 2
    ensures GuardLog(routes, target, token)[0] == Redirect(RedirectPath(token))
    ensures GuardLog(routes, target, token)[|GuardLog(routes, target, token)| - 1] == Pass
  {
    HitCountPositiveIff(routes, target, token);
    GuardEndsWithOnePass(routes, target, token);
  }

  /** A concrete navigation that shows it: a logged-out user opening a secure
      page makes the guard call `next('/login')` and then `next()`. */
  lemma NextCalledTwice()
    ensures GuardLog([Route("/dashboard", true, false)], "/dashboard", None) ==
      [Redirect(LoginPath), Pass]
  {
  }

  /** A route table with a public landing page, a login page for logged-out
      users only and a secure page. */
  const ExampleRoutes := [Route("/", false, false), Route("/login", false, true), Route("/dashboard", true, false)]

  /** Three navigations over that table: a logged-out user opening the
      secure page is sent to "/login", a logged-in user opening the login
      page is sent to "/", and a logged-in user opening the secure page
      passes; each time the final `next()` follows. */
  lemma ExampleNavigations()
    ensures GuardLog(ExampleRoutes, "/dashboard", None) == [Redirect(LoginPath), Pass]
    ensures GuardLog(ExampleRoutes, "/login", Some("abc123")) == [Redirect(HomePath), Pass]
    ensures GuardLog(ExampleRoutes, "/dashboard", Some("abc123")) == [Pass]
  {
  }

  /** The guard as its `return next(...)` statements intend it
      (client/src/main.js:87, 94, with "Proceed as normal" at line 98 for
      the case where nothing redirected): the first hit redirects and nothing
      else is called; with no hit, navigation proceeds. */
  method BeforeEachIntended(routes: seq<Route>, matched: seq<string>, token: Token) returns (log: seq<NextCall>)
    requires |routes| > 0 ==> |matched| > 0
    ensures |log| == 1
    ensures |routes| == 0 ==> log == [Pass]
    ensures |routes| > 0 ==> log[0] == GuardLog(routes, matched[0], token)[0]
    ensures |routes| > 0 ==> (log == [Pass] <==> GuardLog(routes, matched[0], token) == [Pass])
  {
    if |routes| > 0 {
      GuardEndsWithOnePass(routes, matched[0], token);
      HitCountPositiveIff(routes, matched[0], token);
    }
    for i := 0 to |routes|
      invariant forall j :: 0 <= j < i ==> !Hit(routes[j], matched[0], token)
    {
      var route := routes[i];
      if matched[0] == route.path && route.secure && Unauthenticated(token) {
        log := [Redirect(LoginPath)];
        return;
      }
      if matched[0] == route.path && route.unAuth && Truthy(token) {
        log := [Redirect(HomePath)];
        return;
      }
    }
    log := [Pass];
  }
}
