/**
  What the gateway makes of a lookup in the route table (internal/gateway/handler.go).
 */
module Gateway {
  import opened Text
  import opened Route
  import opened Router

  datatype Reply = Routed(chosen: Route) | MethodNotAllowed(allow: seq<string>) | NotFound

  /** A lookup that fails is answered with 405 and the exact list of methods that would
      succeed, if there are any, and with 404 otherwise: RFC 9110, sections 10.2.1 and 15.5.6. */
  method Dispatch(router: Router, q: Request) returns (reply: Reply)
    requires Acceptable(router.routes)
    ensures reply.Routed? <==> Served(router.routes, q)
    ensures reply.Routed? ==> IsBest(router.routes, q, reply.chosen)
    ensures reply.MethodNotAllowed? <==>
              !Served(router.routes, q) && exists verb :: Served(router.routes, q.(verb := verb))
    ensures reply.MethodNotAllowed? ==>
              StrictlySorted(reply.allow) &&
              forall verb :: verb in reply.allow <==> Served(router.routes, q.(verb := verb))
  {
    hide Acceptable, IsBest, Served, TakesEveryMethod, Configured;
    var found := Match(router, q);
    if found.Some? {
      return Routed(found.value);
    }
    var allowedMethods := AllowedMethods(router, q.host, q.path, q.headers);
    WouldSucceed(router.routes, q);
    if |allowedMethods| != 0 {
      assert allowedMethods[0] in allowedMethods;
      return MethodNotAllowed(allowedMethods);
    }
    return NotFound;
  }

  lemma WouldSucceed(routes: seq<Route>, q: Request)
    requires !Served(routes, q)
    ensures !TakesEveryMethod(routes, q.host, q.path, q.headers)
    ensures forall verb ::
              Configured(routes, q.host, q.path, q.headers, verb) <==> Served(routes, q.(verb := verb))
  {
    hide MatchesApartFromMethod;
    assert forall r :: r in routes && MatchesApartFromMethod(r, q.host, q.path, q.headers) && r.methods == [] ==>
             Matches(r, q);
    forall verb
      ensures Configured(routes, q.host, q.path, q.headers, verb) <==> Served(routes, q.(verb := verb))
    {
      if Configured(routes, q.host, q.path, q.headers, verb) {
        var r :| r in routes && MatchesApartFromMethod(r, q.host, q.path, q.headers) && verb in r.methods;
        assert Matches(r, q.(verb := verb));
      }
      if Served(routes, q.(verb := verb)) {
        var r :| r in routes && Matches(r, q.(verb := verb));
        assert r.methods != [] by { assert r.methods == [] ==> Matches(r, q); }
      }
    }
  }
}
