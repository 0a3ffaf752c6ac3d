/** Assembly of a route's base address and of the default application URL. */
module Urls {
  import opened Outcomes
  import opened Model

  predicate HasPrefix(s: string, prefix: string)
  {
    |prefix| <= |s| && s[..|prefix|] == prefix
  }

  /** Whether `sub` occurs somewhere in `s` (Java's `String.contains`). */
  predicate Contains(s: string, sub: string)
    decreases |s|
  {
    HasPrefix(s, sub) || (|s| > 0 && Contains(s[1..], sub))
  }

  /** The scheme a route selects: TLS present means HTTPS. */
  function Scheme(tls: bool): string
  {
    if tls then "https://" else "http://"
  }

  /** `getBaseAddress`: scheme chosen by the route's TLS, then the route's host. */
  function BaseAddress(route: Route): string
  {
    Scheme(route.tls) + route.host
  }

  /** The root is appended only when present and longer than one character,
      so that a root of "/" adds nothing. */
  predicate AppendsHttpRoot(httpRoot: Option<string>)
  {
    httpRoot.Some? && |httpRoot.value| > 1
  }

  /** The address of an unnamed `URL` injection: the application's route, plus its root. */
  function DefaultAddress(route: Route, httpRoot: Option<string>): string
  {
    BaseAddress(route) + (if AppendsHttpRoot(httpRoot) then httpRoot.value else "")
  }

  lemma {:induction false} ContainsInfix(a: string, b: string, c: string)
    ensures Contains(a + b + c, b)
    decreases |a|
  {
    if a == [] {
      assert (a + b + c)[..|b|] == b;
    } else {
      assert (a + b + c)[1..] == a[1..] + b + c;
      ContainsInfix(a[1..], b, c);
    }
  }

  /** The base address starts with "https://" exactly when the route has TLS, with
      "http://" exactly when it has not, and what follows the scheme is the host. */
  lemma BaseAddressScheme(route: Route)
    ensures HasPrefix(BaseAddress(route), "https://") <==> route.tls
    ensures HasPrefix(BaseAddress(route), "http://") <==> !route.tls
    ensures BaseAddress(route)[|Scheme(route.tls)|..] == route.host
  {
    var a := BaseAddress(route);
    if route.tls {
      assert a[4] == 's';
      assert a[..8] == "https://";
    } else {
      assert a[4] == ':';
      assert a[..7] == "http://";
    }
  }

  /** The default address is the base address followed by the root exactly when the
      root is longer than "/"; a missing root and the root "/" give the bare base address. */
  lemma DefaultAddressRoot(route: Route, httpRoot: Option<string>)
    ensures AppendsHttpRoot(httpRoot) ==> DefaultAddress(route, httpRoot) == BaseAddress(route) + httpRoot.value
    ensures !AppendsHttpRoot(httpRoot) ==> DefaultAddress(route, httpRoot) == BaseAddress(route)
    ensures httpRoot == Some("/") ==> DefaultAddress(route, httpRoot) == BaseAddress(route)
    ensures HasPrefix(DefaultAddress(route, httpRoot), BaseAddress(route))
  {
    var b := BaseAddress(route);
    assert (b + (if AppendsHttpRoot(httpRoot) then httpRoot.value else ""))[..|b|] == b;
  }

  /** The worked example: app `foo`, root `/api`, host `foo.example.com`. */
  lemma DefaultAddressExamples()
    ensures DefaultAddress(Route("foo.example.com", false), Some("/api")) == "http://foo.example.com/api"
    ensures DefaultAddress(Route("foo.example.com", true), Some("/api")) == "https://foo.example.com/api"
    ensures DefaultAddress(Route("foo.example.com", false), Some("/")) == "http://foo.example.com"
  {
    var host, root := "foo.example.com", "/api";
    assert AppendsHttpRoot(Some(root)) && !AppendsHttpRoot(Some("/"));
    assert "http://" + host + root == "http://foo.example.com/api";
    assert "https://" + host + root == "https://foo.example.com/api";
    assert "http://" + host + "" == "http://foo.example.com";
  }
}
