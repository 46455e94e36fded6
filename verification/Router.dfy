/**
  The route table (internal/router/router.go). The constructor rejects a table in which two
  routes could tie for a request; that is what makes the one-pass lookup independent of the
  table's order.
 */
module Router {
  import opened Common
  import opened Text
  import opened Route

  /** A request's header fields, by canonical name. */
  type Headers = map<string, seq<string>>

  datatype Request = Request(verb: string, host: string, path: string, headers: Headers)

  datatype Router = Router(routes: seq<Route>)

  datatype TableError =
    | NoRoutes
    | BadRoute(name: string, error: RouteError)
    | DuplicateName(name: string)
    | ConflictingRoutes(name: string, existing: string, path: string, priority: int)

  datatype Result<T> = Success(value: T) | Failure(error: TableError)

  // ----- Header names -----

  /** The form under which net/http stores the fields with a given name. */
  function Canonical(name: string): string {
    if !IsToken(name) then name else seq(|name|, i requires 0 <= i < |name| => CanonicalChar(name, i))
  }

  function CanonicalChar(name: string, i: nat): char
    requires i < |name|
  {
    if i == 0 || name[i - 1] == '-' then UpperChar(name[i]) else LowerChar(name[i])
  }

  function Values(headers: Headers, name: string): seq<string> {
    if Canonical(name) in headers then headers[Canonical(name)] else []
  }

  /** Two header names are stored under the same key exactly if they differ in case at most. */
  lemma SameCanonical(a: string, b: string)
    requires IsToken(a) && IsToken(b)
    ensures Canonical(a) == Canonical(b) <==> Lower(a) == Lower(b)
  {
    hide IsToken, LowerChar, UpperChar, CanonicalChar;
    if Canonical(a) == Canonical(b) {
      assert |a| == |Canonical(a)| == |b|;
      forall i | 0 <= i < |a| ensures Lower(a)[i] == Lower(b)[i] {
        assert CanonicalChar(a, i) == Canonical(a)[i] == Canonical(b)[i] == CanonicalChar(b, i);
        SameLetter(a, b, i);
      }
    }
    if Lower(a) == Lower(b) {
      assert |a| == |Lower(a)| == |b|;
      forall i | 0 <= i < |a| ensures CanonicalChar(a, i) == CanonicalChar(b, i) {
        assert Lower(a)[i] == Lower(b)[i];
        assert i > 0 ==> Lower(a)[i - 1] == Lower(b)[i - 1];
        SameLetter(a, b, i);
      }
    }
  }

  lemma SameLetter(a: string, b: string, i: nat)
    requires i < |a| && i < |b|
    ensures CanonicalChar(a, i) == CanonicalChar(b, i) ==> LowerChar(a[i]) == LowerChar(b[i])
    ensures LowerChar(a[i]) == LowerChar(b[i]) && (i > 0 ==> LowerChar(a[i - 1]) == LowerChar(b[i - 1])) ==>
              CanonicalChar(a, i) == CanonicalChar(b, i)
  {
  }

  /** A letter at the start or behind a hyphen is upper case, every other letter is lower case. */
  predicate CasedAt(s: string, i: nat)
    requires i < |s|
  {
    if i == 0 || s[i - 1] == '-' then !('a' <= s[i] <= 'z') else !('A' <= s[i] <= 'Z')
  }

  /** The canonical form differs in case only, and is cased by words. */
  lemma CanonicalCase(name: string)
    requires IsToken(name)
    ensures var c := Canonical(name);
            Lower(c) == Lower(name) && forall i :: 0 <= i < |c| ==> CasedAt(c, i)
  {
    hide IsToken, CanonicalChar, LowerChar;
    var c := Canonical(name);
    assert |c| == |name| && forall i :: 0 <= i < |name| ==> c[i] == CanonicalChar(name, i);
    forall i | 0 <= i < |name| ensures LowerChar(c[i]) == LowerChar(name[i]) {
      CanonicalCharCase(name, i);
    }
    assert Lower(c) == Lower(name);
    forall i | 0 <= i < |c| ensures CasedAt(c, i) {
      CanonicalCharCase(name, i);
      if i > 0 {
        CanonicalCharCase(name, i - 1);
      }
    }
  }

  lemma CanonicalCharCase(name: string, i: nat)
    requires i < |name|
    ensures var c := CanonicalChar(name, i);
            LowerChar(c) == LowerChar(name[i]) && (c == '-' <==> name[i] == '-') &&
            if i == 0 || name[i - 1] == '-' then !('a' <= c <= 'z') else !('A' <= c <= 'Z')
  {
  }

  // ----- Hosts -----

  /** The host part of "host:port", after net.SplitHostPort; None where that fails. */
  function SplitHost(hostport: string): Option<string> {
    match LastIndexOf(hostport, ':')
    case None => None
    case Some(i) =>
      if hostport[0] != '[' then
        if ':' in hostport[..i] || '[' in hostport || ']' in hostport then None
        else Some(hostport[..i])
      else
        match IndexOf(hostport, ']')
        case None => None
        case Some(end) =>
          if end + 1 != i || '[' in hostport[1..] || ']' in hostport[end + 1..] then None
          else Some(hostport[1..end])
  }

  function NormalizeHost(host: string): string {
    var lowered := Lower(host);
    match SplitHost(lowered)
    case None => lowered
    case Some(hostname) => hostname
  }

  /** A configured host is matched by itself in any case, with or without a port. */
  lemma HostMatchesItself(host: string, spelled: string, port: string)
    requires HostnameValid(host) && Lower(spelled) == host
    requires ':' !in port && '[' !in port && ']' !in port
    ensures NormalizeHost(spelled) == host
    ensures NormalizeHost(spelled + ":" + port) == host
  {
    HostnameChars(host);
    LowerAddsNoPunctuation(port);
    hide HostnameValid, SplitHost, Lower;
    assert Lower(spelled + ":" + port) == host + ":" + Lower(port);
    SplitsOff(host, Lower(port));
    NothingToSplit(host);
  }

  /** The host of a request is taken without its port and in lower case; in brackets, as IPv6
      addresses come, it may itself contain colons. */
  lemma HostForms(host: string, address: string, port: string)
    requires ':' !in host && '[' !in host && ']' !in host
    requires '[' !in address && ']' !in address
    requires ':' !in port && '[' !in port && ']' !in port
    ensures NormalizeHost(host) == Lower(host)
    ensures NormalizeHost(host + ":" + port) == Lower(host)
    ensures NormalizeHost("[" + address + "]:" + port) == Lower(address)
  {
    LowerAddsNoPunctuation(host);
    LowerAddsNoPunctuation(address);
    LowerAddsNoPunctuation(port);
    hide SplitHost, Lower;
    assert Lower(host + ":" + port) == Lower(host) + ":" + Lower(port);
    assert Lower("[" + address + "]:" + port) == "[" + Lower(address) + "]:" + Lower(port) by {
      LowerBracketed(address, port);
    }
    NothingToSplit(Lower(host));
    SplitsOff(Lower(host), Lower(port));
    SplitsBracketed(Lower(address), Lower(port));
  }

  lemma LowerBracketed(address: string, port: string)
    ensures Lower("[" + address + "]:" + port) == "[" + Lower(address) + "]:" + Lower(port)
  {
    var s, t := "[" + address + "]:" + port, "[" + Lower(address) + "]:" + Lower(port);
    assert |s| == |t|;
    forall i | 0 <= i < |s| ensures LowerChar(s[i]) == t[i] {
    }
  }

  lemma SplitsBracketed(address: string, port: string)
    requires '[' !in address && ']' !in address
    requires ':' !in port && '[' !in port && ']' !in port
    ensures SplitHost("[" + address + "]:" + port) == Some(address)
  {
    hide LastIndexOf, IndexOf;
    var s := "[" + address + "]:" + port;
    var n := |address| + 1;
    BracketedParts(address, port);
    LastIndexIs(s, ':', n + 1);
    IndexIs(s, ']', n);
  }

  lemma BracketedParts(address: string, port: string)
    ensures var s, n := "[" + address + "]:" + port, |address| + 1;
            s[0] == '[' && s[n] == ']' && s[n + 1] == ':' && s[1..n] == address && s[..n] == "[" + address &&
            s[n + 2..] == port && s[1..] == address + "]:" + port && s[n + 1..] == ":" + port
  {
  }

  lemma LowerAddsNoPunctuation(s: string)
    ensures ':' !in s ==> ':' !in Lower(s)
    ensures '[' !in s ==> '[' !in Lower(s)
    ensures ']' !in s ==> ']' !in Lower(s)
  {
    forall i | 0 <= i < |s| ensures Lower(s)[i] in ":[]" ==> s[i] == Lower(s)[i] {
    }
  }

  lemma NothingToSplit(host: string)
    requires ':' !in host
    ensures SplitHost(host) == None
  {
  }

  lemma SplitsOff(host: string, port: string)
    requires ':' !in host && '[' !in host && ']' !in host
    requires ':' !in port && '[' !in port && ']' !in port
    ensures SplitHost(host + ":" + port) == Some(host)
  {
    var s := host + ":" + port;
    assert s[|host|] == ':' && s[..|host|] == host && s[|host| + 1..] == port;
  }

  // ----- Matching -----

  predicate MatchesPath(r: Route, path: string) {
    if r.pathExact != "" then path == r.pathExact
    else r.pathPrefix == "/" || path == r.pathPrefix || HasPrefix(path, r.pathPrefix + "/")
  }

  predicate MatchesMethod(r: Route, verb: string) {
    r.methods == [] || verb in r.methods
  }

  predicate MatchesHost(r: Route, host: string) {
    r.hosts == [] || host in r.hosts
  }

  /** Every named field is present exactly once, with exactly the given value. */
  predicate MatchesHeaders(r: Route, headers: Headers) {
    forall h :: h in r.headerMatches ==> Values(headers, h.name) == [h.exact]
  }

  predicate MatchesApartFromMethod(r: Route, host: string, path: string, headers: Headers) {
    HasPrefix(path, "/") && MatchesPath(r, path) && MatchesHost(r, NormalizeHost(host)) && MatchesHeaders(r, headers)
  }

  predicate Matches(r: Route, q: Request) {
    MatchesApartFromMethod(r, q.host, q.path, q.headers) && MatchesMethod(r, q.verb)
  }

  /** What a route's fields say of a request: an exact path is met by itself only; a prefix by
      itself and by whatever continues it at a segment boundary; and the lists of methods and of
      hosts are met by their members, or by anything if they are empty. */
  lemma MatchesMeans(r: Route, q: Request)
    requires PathValid(r)
    ensures Matches(r, q) <==>
            q.path != "" && q.path[0] == '/' &&
            (r.pathExact != "" ==> q.path == r.pathExact) &&
            (r.pathExact == "" && r.pathPrefix != "/" ==>
               |r.pathPrefix| <= |q.path| && q.path[..|r.pathPrefix|] == r.pathPrefix &&
               (|q.path| == |r.pathPrefix| || q.path[|r.pathPrefix|] == '/')) &&
            (r.methods == [] || exists m :: m in r.methods && m == q.verb) &&
            (r.hosts == [] || exists h :: h in r.hosts && h == NormalizeHost(q.host)) &&
            (forall h :: h in r.headerMatches ==>
               |Values(q.headers, h.name)| == 1 && Values(q.headers, h.name)[0] == h.exact)
  {
    hide NormalizeHost, Values;
    var p := r.pathPrefix;
    assert HasPrefix(q.path, "/") <==> q.path != "" && q.path[0] == '/';
    if |p| < |q.path| && q.path[..|p|] == p && q.path[|p|] == '/' {
      assert q.path[..|p| + 1] == p + "/";
    }
    if HasPrefix(q.path, p + "/") {
      assert q.path[..|p| + 1][..|p|] == q.path[..|p|] && (p + "/")[..|p|] == p;
    }
  }

  /** Segment by segment: a prefix other than the root matches exactly the paths whose segments
      begin with its own. */
  lemma PrefixIsSegments(r: Route, path: string)
    requires r.pathExact == "" && r.pathPrefix != "/"
    ensures MatchesPath(r, path) <==> Split(r.pathPrefix, '/') <= Split(path, '/')
  {
    var p := r.pathPrefix;
    hide Split;
    if MatchesPath(r, path) && path != p {
      var rest := path[|p| + 1..];
      assert path == p + ['/'] + rest;
      SplitAppend(p, rest, '/');
    }
    if Split(p, '/') <= Split(path, '/') {
      var tail := Split(path, '/')[|Split(p, '/')|..];
      JoinSplit(p, '/');
      JoinSplit(path, '/');
      if tail == [] {
        assert Split(path, '/') == Split(p, '/');
      } else {
        assert Split(path, '/') == Split(p, '/') + tail;
        JoinAppend(Split(p, '/'), tail, ['/']);
        assert path == p + "/" + Join(tail, "/");
      }
    }
  }

  datatype PathKey = PathKey(path: string, exact: bool)

  function KeyOf(r: Route): PathKey {
    if r.pathExact != "" then PathKey(r.pathExact, true) else PathKey(r.pathPrefix, false)
  }

  /** `a` comes before `b` by path length, then exactness, then priority. */
  predicate Outranks(a: Route, b: Route) {
    var x, y := KeyOf(a), KeyOf(b);
    |x.path| > |y.path| ||
    (|x.path| == |y.path| && x.exact && !y.exact) ||
    (|x.path| == |y.path| && x.exact == y.exact && a.priority > b.priority)
  }

  /** `a` has the longer path; or at equal length an exact path, and `b` a prefix; or, both being
      exact or both prefixes of one length, the higher priority. One of the two paths of a valid
      route is empty, so that the lengths add up to the length of the other. */
  predicate Preferred(a: Route, b: Route) {
    var x, y := |a.pathExact| + |a.pathPrefix|, |b.pathExact| + |b.pathPrefix|;
    x >= y &&
    (x == y ==> (b.pathExact != "" ==> a.pathExact != "")) &&
    (x == y && (a.pathExact == "" <==> b.pathExact == "") ==> a.priority > b.priority)
  }

  lemma OutranksMeans(a: Route, b: Route)
    requires PathValid(a) && PathValid(b)
    ensures Outranks(a, b) <==> Preferred(a, b)
  {
  }

  /** The route to answer with: one that matches and outranks every other match. */
  predicate IsBest(routes: seq<Route>, q: Request, r: Route) {
    r in routes && Matches(r, q) &&
    forall o :: o in routes && o != r && Matches(o, q) ==> Outranks(r, o)
  }

  // ----- Conflicts -----

  predicate Overlap(current: seq<string>, existing: seq<string>) {
    current == [] || existing == [] || exists x :: x in current && x in existing
  }

  /** The two lists do not ask for different values of one header. */
  predicate Compatible(current: seq<HeaderMatch>, existing: seq<HeaderMatch>) {
    forall h, k :: h in current && k in existing && Lower(h.name) == Lower(k.name) ==> h.exact == k.exact
  }

  predicate Conflict(a: Route, b: Route) {
    KeyOf(a) == KeyOf(b) && a.priority == b.priority &&
    Overlap(a.methods, b.methods) && Overlap(a.hosts, b.hosts) && Compatible(a.headerMatches, b.headerMatches)
  }

  method SetsOverlap(current: seq<string>, existing: seq<string>) returns (overlap: bool)
    ensures overlap <==> Overlap(current, existing)
  {
    if |current| == 0 || |existing| == 0 {
      return true;
    }
    var members: set<string> := {};
    for i := 0 to |current|
      invariant forall x :: x in members <==> x in current[..i]
    {
      members := members + {current[i]};
    }
    for i := 0 to |existing|
      invariant forall x :: x in existing[..i] ==> x !in current
    {
      if existing[i] in members {
        assert current[..|current|] == current && existing[i] in current;
        return true;
      }
    }
    assert current[..|current|] == current && existing[..|existing|] == existing;
    return false;
  }

  /** The lookup table of one header list: names without regard to case, and values. */
  ghost predicate Tabulates(wanted: map<string, string>, headers: seq<HeaderMatch>) {
    wanted.Keys == Names(headers) && forall h :: h in headers ==> wanted[Lower(h.name)] == h.exact
  }

  lemma TabulateOne(wanted: map<string, string>, headers: seq<HeaderMatch>, h: HeaderMatch)
    requires Tabulates(wanted, headers) && HeadersValid(headers + [h])
    ensures Tabulates(wanted[Lower(h.name) := h.exact], headers + [h])
  {
    hide Lower, HeaderMatchValid;
    forall k | k in headers ensures Lower(k.name) != Lower(h.name) {
      var i :| 0 <= i < |headers| && headers[i] == k;
      assert (headers + [h])[i] == k && (headers + [h])[|headers|] == h;
    }
  }

  method HeaderMatchSetsOverlap(current: seq<HeaderMatch>, existing: seq<HeaderMatch>) returns (overlap: bool)
    requires HeadersValid(current)
    ensures overlap <==> Compatible(current, existing)
  {
    if |current| == 0 || |existing| == 0 {
      return true;
    }
    hide HeaderMatchValid, Lower, Tabulates;
    var wanted: map<string, string> := map[];
    assert Tabulates(wanted, []) by { NothingTabulated(); }
    for i := 0 to |current|
      invariant Tabulates(wanted, current[..i])
    {
      assert current[..i + 1] == current[..i] + [current[i]];
      TabulateOne(wanted, current[..i], current[i]);
      wanted := wanted[Lower(current[i].name) := current[i].exact];
    }
    assert current[..|current|] == current;
    overlap := Agrees(wanted, current, existing);
  }

  lemma NothingTabulated()
    ensures Tabulates(map[], [])
  {
  }

  method Agrees(wanted: map<string, string>, ghost current: seq<HeaderMatch>, existing: seq<HeaderMatch>)
    returns (overlap: bool)
    requires Tabulates(wanted, current)
    ensures overlap <==> Compatible(current, existing)
  {
    hide Lower;
    for i := 0 to |existing|
      invariant Compatible(current, existing[..i])
    {
      var name := Lower(existing[i].name);
      if name in wanted && wanted[name] != existing[i].exact {
        ghost var h :| h in current && Lower(h.name) == name;
        return false;
      }
      assert existing[..i + 1] == existing[..i] + [existing[i]];
    }
    assert existing[..|existing|] == existing;
    return true;
  }

  // ----- Construction -----

  predicate NamesDistinct(routes: seq<Route>) {
    forall i, j :: 0 <= i < j < |routes| ==> routes[i].name != routes[j].name
  }

  /** The tables that a router can be built from. */
  predicate Acceptable(routes: seq<Route>) {
    routes != [] && Sound(routes)
  }

  predicate Sound(routes: seq<Route>) {
    (forall r :: r in routes ==> Valid(r)) && NamesDistinct(routes) &&
    forall i, j :: 0 <= i < j < |routes| ==> !Conflict(routes[j], routes[i])
  }

  /** The first of `existing` that conflicts with `r`. */
  function FirstConflict(r: Route, existing: seq<Route>): (found: Option<Route>)
    ensures found.None? <==> forall o :: o in existing ==> !Conflict(r, o)
  {
    if existing == [] then None
    else
      var front, last := existing[..|existing| - 1], existing[|existing| - 1];
      assert existing == front + [last];
      var earlier := FirstConflict(r, front);
      if earlier.Some? then earlier else if Conflict(r, last) then Some(last) else None
  }

  /** The routes with one path matcher. */
  function Bucket(routes: seq<Route>, key: PathKey): (bucket: seq<Route>)
    ensures forall r :: r in bucket <==> r in routes && KeyOf(r) == key
  {
    if routes == [] then []
    else
      var front, last := routes[..|routes| - 1], routes[|routes| - 1];
      assert routes == front + [last];
      if KeyOf(last) == key then Bucket(front, key) + [last] else Bucket(front, key)
  }

  /** What is wrong with adding `r` to `earlier`. */
  function RouteFault(r: Route, earlier: seq<Route>): Option<TableError> {
    if FirstError(r).Some? then Some(BadRoute(r.name, FirstError(r).value))
    else if r.name in RouteNames(earlier) then Some(DuplicateName(r.name))
    else match FirstConflict(r, earlier)
      case Some(o) => Some(ConflictingRoutes(r.name, o.name, KeyOf(r).path, r.priority))
      case None => None
  }

  /** The first fault of the first `n` routes. */
  function TableFault(routes: seq<Route>, n: nat): Option<TableError>
    requires n <= |routes|
  {
    if n == 0 then None
    else
      var earlier := TableFault(routes, n - 1);
      if earlier.Some? then earlier else RouteFault(routes[n - 1], routes[..n - 1])
  }

  /** The error says truly, and with the right names, why `r` cannot follow `earlier`; a rule is
      only blamed if those checked before it hold, and the first route that conflicts is named. */
  predicate Explains(error: TableError, r: Route, earlier: seq<Route>) {
    match error
    case NoRoutes => false
    case BadRoute(name, ruleError) => name == r.name && !Valid(r) && !RuleHolds(r, Stage(ruleError))
    case DuplicateName(name) => name == r.name && Valid(r) && exists o :: o in earlier && o.name == name
    case ConflictingRoutes(name, existing, path, priority) =>
      name == r.name && priority == r.priority && (path == r.pathExact || path == r.pathPrefix) && path != "" &&
      Valid(r) && (forall o :: o in earlier ==> o.name != r.name) &&
      exists j :: 0 <= j < |earlier| && earlier[j].name == existing && Conflict(r, earlier[j]) &&
                  forall i :: 0 <= i < j ==> !Conflict(r, earlier[i])
  }

  lemma {:induction false} FaultExplained(routes: seq<Route>, n: nat)
    requires n <= |routes| && TableFault(routes, n).Some?
    ensures var error := TableFault(routes, n).value;
            exists i :: 0 <= i < n && Sound(routes[..i]) && Explains(error, routes[i], routes[..i])
  {
    hide Sound, Explains, RouteFault;
    if TableFault(routes, n - 1).Some? {
      FaultExplained(routes, n - 1);
    } else {
      NoFault(routes, n - 1);
      RouteFaultExplained(routes[n - 1], routes[..n - 1]);
    }
  }

  lemma RouteFaultExplained(r: Route, earlier: seq<Route>)
    requires RouteFault(r, earlier).Some?
    ensures Explains(RouteFault(r, earlier).value, r, earlier)
  {
    MeetsRules(r);
    ErrorNamesRule(r);
    KeyIsPath(r);
    if FirstConflict(r, earlier).Some? {
      FirstConflictIsFirst(r, earlier);
    }
    hide FirstError, Valid, RuleHolds, Stage, Conflict, FirstConflict, KeyOf;
  }

  lemma KeyIsPath(r: Route)
    ensures Valid(r) ==> KeyOf(r).path != "" && (KeyOf(r).path == r.pathExact || KeyOf(r).path == r.pathPrefix)
  {
  }

  lemma {:induction false} FirstConflictIsFirst(r: Route, existing: seq<Route>)
    requires FirstConflict(r, existing).Some?
    ensures var found := FirstConflict(r, existing).value;
            exists j :: 0 <= j < |existing| && existing[j] == found && Conflict(r, existing[j]) &&
                        forall i :: 0 <= i < j ==> !Conflict(r, existing[i])
  {
    hide Conflict;
    var front := existing[..|existing| - 1];
    if FirstConflict(r, front).Some? {
      FirstConflictIsFirst(r, front);
    } else {
      assert forall i :: 0 <= i < |front| ==> existing[i] in front;
    }
  }

  lemma {:induction false} FirstFault(routes: seq<Route>, i: nat, n: nat)
    requires i <= n <= |routes| && TableFault(routes, i).Some?
    ensures TableFault(routes, n) == TableFault(routes, i)
  {
    hide RouteFault;
    if i < n {
      FirstFault(routes, i, n - 1);
    }
  }

  /** A prefix of the table has no fault exactly if it is sound. */
  lemma {:induction false} NoFault(routes: seq<Route>, n: nat)
    requires n <= |routes|
    ensures TableFault(routes, n) == None <==> Sound(routes[..n])
  {
    hide FirstError, Valid, Conflict, FirstConflict;
    if n > 0 {
      NoFault(routes, n - 1);
      MeetsRules(routes[n - 1]);
      SoundStep(routes[..n - 1], routes[n - 1]);
      assert routes[..n] == routes[..n - 1] + [routes[n - 1]];
    }
  }

  lemma SoundStep(earlier: seq<Route>, r: Route)
    ensures Sound(earlier + [r]) <==>
            Sound(earlier) && Valid(r) && (forall o :: o in earlier ==> o.name != r.name && !Conflict(r, o))
  {
    hide Valid, Conflict;
    var all := earlier + [r];
    assert all[|earlier|] == r && all[..|earlier|] == earlier;
    if Sound(all) {
      forall o | o in earlier ensures o.name != r.name && !Conflict(r, o) {
        var i :| 0 <= i < |earlier| && earlier[i] == o;
        assert all[i] == o;
      }
      assert forall i :: 0 <= i < |earlier| ==> earlier[i] == all[i];
    }
  }

  lemma {:induction false} BucketConflict(r: Route, routes: seq<Route>)
    ensures FirstConflict(r, Bucket(routes, KeyOf(r))) == FirstConflict(r, routes)
  {
    if routes != [] {
      var front, last := routes[..|routes| - 1], routes[|routes| - 1];
      BucketConflict(r, front);
      var bucket := Bucket(front, KeyOf(r));
      assert (bucket + [last])[..|bucket|] == bucket;
    }
  }

  /** The conflict check of one route against those with its path matcher. */
  method CheckConflicts(r: Route, existingRoutes: seq<Route>) returns (found: Option<Route>)
    requires Valid(r) && forall o :: o in existingRoutes ==> KeyOf(o) == KeyOf(r)
    ensures found == FirstConflict(r, existingRoutes)
  {
    hide Valid, Overlap, Compatible, KeyOf;
    for i := 0 to |existingRoutes|
      invariant FirstConflict(r, existingRoutes[..i]) == None
    {
      assert existingRoutes[..i + 1] == existingRoutes[..i] + [existingRoutes[i]];
      var existingRoute := existingRoutes[i];
      if r.priority != existingRoute.priority {
        continue;
      }
      var conflict := MatchersOverlap(r, existingRoute);
      if conflict {
        FirstConflictStays(r, existingRoutes, i + 1, |existingRoutes|);
        assert existingRoutes[..|existingRoutes|] == existingRoutes;
        return Some(existingRoute);
      }
    }
    assert existingRoutes[..|existingRoutes|] == existingRoutes;
    return None;
  }

  method MatchersOverlap(r: Route, existing: Route) returns (conflict: bool)
    requires Valid(r) && KeyOf(existing) == KeyOf(r) && r.priority == existing.priority
    ensures conflict <==> Conflict(r, existing)
  {
    hide Overlap, Compatible, KeyOf;
    conflict := SetsOverlap(r.methods, existing.methods);
    if conflict {
      conflict := SetsOverlap(r.hosts, existing.hosts);
    }
    if conflict {
      conflict := HeaderMatchSetsOverlap(r.headerMatches, existing.headerMatches);
    }
  }

  lemma {:induction false} FirstConflictStays(r: Route, routes: seq<Route>, i: nat, n: nat)
    requires i <= n <= |routes| && FirstConflict(r, routes[..i]).Some?
    ensures FirstConflict(r, routes[..n]) == FirstConflict(r, routes[..i])
  {
    hide Conflict;
    if i < n {
      FirstConflictStays(r, routes, i, n - 1);
      assert routes[..n][..n - 1] == routes[..n - 1];
    }
  }

  function RouteNames(routes: seq<Route>): set<string> {
    set o | o in routes :: o.name
  }

  /** The loop's index of the routes seen so far. */
  ghost predicate Indexes(routesByPathMatcher: map<PathKey, seq<Route>>, routes: seq<Route>) {
    forall key :: Listed(routesByPathMatcher, key) == Bucket(routes, key)
  }

  function Listed(routesByPathMatcher: map<PathKey, seq<Route>>, key: PathKey): seq<Route> {
    if key in routesByPathMatcher then routesByPathMatcher[key] else []
  }

  lemma IndexOne(index: map<PathKey, seq<Route>>, routes: seq<Route>, r: Route)
    requires Indexes(index, routes)
    ensures Indexes(index[KeyOf(r) := Listed(index, KeyOf(r)) + [r]], routes + [r])
  {
    hide KeyOf;
    var index' := index[KeyOf(r) := Listed(index, KeyOf(r)) + [r]];
    forall key ensures Listed(index', key) == Bucket(routes + [r], key) {
      assert (routes + [r])[..|routes|] == routes;
      assert Listed(index, key) == Bucket(routes, key);
    }
  }

  /** Builds a router, or names the first fault of the table. */
  method New(routes: seq<Route>) returns (result: Result<Router>)
    ensures result.Success? <==> Acceptable(routes)
    ensures result.Success? ==> result.value.routes == routes
    ensures result.Failure? ==>
              if routes == [] then result.error == NoRoutes
              else TableFault(routes, |routes|) == Some(result.error)
    ensures result.Failure? && routes != [] ==>
              exists i :: 0 <= i < |routes| && Sound(routes[..i]) && Explains(result.error, routes[i], routes[..i])
  {
    hide RouteFault, Sound, KeyOf, Indexes, Explains;
    if TableFault(routes, |routes|).Some? {
      FaultExplained(routes, |routes|);
    }
    var uniqueNames: set<string> := {};
    var routesByPathMatcher: map<PathKey, seq<Route>> := map[];
    if |routes| == 0 {
      return Failure(NoRoutes);
    }
    NoFault(routes, |routes|);
    assert routes[..|routes|] == routes;
    assert Indexes(routesByPathMatcher, []) by { NothingIndexed(); }
    for i := 0 to |routes|
      invariant TableFault(routes, i) == None
      invariant uniqueNames == RouteNames(routes[..i]) && Indexes(routesByPathMatcher, routes[..i])
    {
      var r := routes[i];
      var fault := CheckRoute(r, routes[..i], uniqueNames, routesByPathMatcher);
      if fault.Some? {
        FirstFault(routes, i + 1, |routes|);
        return Failure(fault.value);
      }
      assert routes[..i + 1] == routes[..i] + [r];
      IndexOne(routesByPathMatcher, routes[..i], r);
      routesByPathMatcher := routesByPathMatcher[KeyOf(r) := Listed(routesByPathMatcher, KeyOf(r)) + [r]];
      uniqueNames := uniqueNames + {r.name};
    }
    return Success(Router(routes));
  }

  lemma NothingIndexed()
    ensures Indexes(map[], [])
  {
  }

  /** One iteration of the loop over the table. */
  method CheckRoute(r: Route, ghost earlier: seq<Route>, uniqueNames: set<string>,
                    routesByPathMatcher: map<PathKey, seq<Route>>) returns (fault: Option<TableError>)
    requires uniqueNames == RouteNames(earlier) && Indexes(routesByPathMatcher, earlier)
    ensures fault == RouteFault(r, earlier)
  {
    hide FirstConflict, Valid, FirstError, KeyOf, Conflict;
    var error := Validate(r);
    if error.Some? {
      return Some(BadRoute(r.name, error.value));
    }
    if r.name in uniqueNames {
      return Some(DuplicateName(r.name));
    }
    var key := KeyOf(r);
    BucketConflict(r, earlier);
    var existingRoutes := Listed(routesByPathMatcher, key);
    var found := CheckConflicts(r, existingRoutes);
    if found.Some? {
      return Some(ConflictingRoutes(r.name, found.value.name, key.path, r.priority));
    }
    return None;
  }

  // ----- Conflicts are ties -----

  /** Two valid routes with one path matcher and priority conflict exactly if some request
      matches both. */
  lemma ConflictIsShared(a: Route, b: Route)
    requires Valid(a) && Valid(b) && KeyOf(a) == KeyOf(b) && a.priority == b.priority
    ensures Conflict(a, b) <==> exists q :: Matches(a, q) && Matches(b, q)
  {
    if Conflict(a, b) {
      var q := SharedRequest(a, b);
    }
    if q :| Matches(a, q) && Matches(b, q) {
      SharedMeansConflict(a, b, q);
    }
  }

  lemma SharedMeansConflict(a: Route, b: Route, q: Request)
    requires Valid(a) && Valid(b) && KeyOf(a) == KeyOf(b) && a.priority == b.priority
    requires Matches(a, q) && Matches(b, q)
    ensures Conflict(a, b)
  {
    hide MatchesPath, NormalizeHost, PathValid, HostnameValid, MethodValid, KeyOf, HeaderMatchValid;
    var host := NormalizeHost(q.host);
    assert a.methods == [] || b.methods == [] || (q.verb in a.methods && q.verb in b.methods);
    assert a.hosts == [] || b.hosts == [] || (host in a.hosts && host in b.hosts);
    forall h, k | h in a.headerMatches && k in b.headerMatches && Lower(h.name) == Lower(k.name)
      ensures h.exact == k.exact
    {
      SameValues(h, k, q.headers);
    }
  }

  lemma SameValues(h: HeaderMatch, k: HeaderMatch, headers: Headers)
    requires HeaderMatchValid(h) && HeaderMatchValid(k) && Lower(h.name) == Lower(k.name)
    requires Values(headers, h.name) == [h.exact] && Values(headers, k.name) == [k.exact]
    ensures h.exact == k.exact
  {
    hide IsToken, Canonical, IsReservedRequestHeader, TrimSpace, Lower, IsFieldValue;
    SameCanonical(h.name, k.name);
    assert [h.exact][0] == [k.exact][0];
  }

  function Witness(current: seq<string>, existing: seq<string>): (x: string)
    requires Overlap(current, existing)
    ensures current == [] || x in current
    ensures existing == [] || x in existing
  {
    if current == [] && existing == [] then ""
    else if current == [] then existing[0]
    else if existing == [] then current[0]
    else FirstShared(current, existing)
  }

  function FirstShared(current: seq<string>, existing: seq<string>): (x: string)
    requires exists y :: y in current && y in existing
    ensures x in current && x in existing
  {
    if current[0] in existing then current[0] else FirstShared(current[1..], existing)
  }

  /** Exactly the given fields, one value each. */
  function FieldsFor(matches: seq<HeaderMatch>): Headers {
    if matches == [] then map[]
    else FieldsFor(matches[1..])[Canonical(matches[0].name) := [matches[0].exact]]
  }

  lemma {:induction false} FieldsMatch(matches: seq<HeaderMatch>, h: HeaderMatch)
    requires h in matches && (forall k :: k in matches ==> HeaderMatchValid(k))
    requires forall k :: k in matches && Lower(k.name) == Lower(h.name) ==> k.exact == h.exact
    ensures Values(FieldsFor(matches), h.name) == [h.exact]
  {
    hide Canonical, IsToken, IsReservedRequestHeader, TrimSpace, Lower, IsFieldValue;
    assert matches == [matches[0]] + matches[1..];
    assert HeaderMatchValid(matches[0]) && HeaderMatchValid(h);
    SameCanonical(matches[0].name, h.name);
    if Lower(matches[0].name) != Lower(h.name) {
      FieldsMatch(matches[1..], h);
    }
  }

  /** Lists without repeated names and without a clash are satisfied by one set of fields. */
  lemma CompatibleFields(a: seq<HeaderMatch>, b: seq<HeaderMatch>)
    requires HeadersValid(a) && HeadersValid(b) && Compatible(a, b)
    ensures forall h :: h in a + b ==> Values(FieldsFor(a + b), h.name) == [h.exact]
  {
    hide HeaderMatchValid, Lower, Values;
    NamedOnce(a);
    NamedOnce(b);
    forall h | h in a + b ensures Values(FieldsFor(a + b), h.name) == [h.exact] {
      FieldsMatch(a + b, h);
    }
  }

  lemma NamedOnce(headers: seq<HeaderMatch>)
    requires HeadersValid(headers)
    ensures forall h, k :: h in headers && k in headers && Lower(h.name) == Lower(k.name) ==> h == k
  {
    hide HeaderMatchValid, Lower;
  }

  /** A request on which two conflicting routes meet. */
  lemma SharedRequest(a: Route, b: Route) returns (q: Request)
    requires Valid(a) && Valid(b) && Conflict(a, b)
    ensures Matches(a, q) && Matches(b, q)
  {
    hide HostnameValid, MethodValid, Compatible, NormalizeHost, Overlap, HeadersValid, Values;
    hide PathValid, MatchesPath, KeyOf;
    OwnPath(a);
    OwnPath(b);
    var host := Witness(a.hosts, b.hosts);
    q := Request(Witness(a.methods, b.methods), host, KeyOf(a).path, FieldsFor(a.headerMatches + b.headerMatches));
    CompatibleFields(a.headerMatches, b.headerMatches);
    if a.hosts != [] || b.hosts != [] {
      UnchangedHost(host);
    }
  }

  lemma OwnPath(r: Route)
    requires PathValid(r)
    ensures HasPrefix(KeyOf(r).path, "/") && MatchesPath(r, KeyOf(r).path)
  {
  }

  lemma UnchangedHost(host: string)
    requires HostnameValid(host)
    ensures NormalizeHost(host) == host
  {
    HostnameChars(host);
    NothingToSplit(host);
  }

  /** In an accepted table, two routes that match one request are never level. */
  lemma NoTies(routes: seq<Route>, q: Request, a: Route, b: Route)
    requires Sound(routes) && a in routes && b in routes && a != b
    requires Matches(a, q) && Matches(b, q)
    ensures Outranks(a, b) <==> !Outranks(b, a)
  {
    hide Conflict, NormalizeHost, Values;
    if !Outranks(a, b) && !Outranks(b, a) {
      SamePathMatcher(a, b, q.path);
      SharedMeansConflict(a, b, q);
      PairwiseSound(routes, a, b);
      assert false;
    }
  }

  lemma PairwiseSound(routes: seq<Route>, a: Route, b: Route)
    requires Sound(routes) && a in routes && b in routes && a != b
    ensures a.name != b.name && !Conflict(a, b)
  {
    hide Valid, Conflict;
    var i :| 0 <= i < |routes| && routes[i] == a;
    var j :| 0 <= j < |routes| && routes[j] == b;
    ConflictSymmetric(a, b);
  }

  lemma ConflictSymmetric(a: Route, b: Route)
    ensures Conflict(a, b) <==> Conflict(b, a)
  {
    hide KeyOf, Lower;
  }

  /** Matchers of one length and kind that match one path are the same matcher. */
  lemma SamePathMatcher(a: Route, b: Route, path: string)
    requires PathValid(a) && PathValid(b) && MatchesPath(a, path) && MatchesPath(b, path)
    requires |KeyOf(a).path| == |KeyOf(b).path| && KeyOf(a).exact == KeyOf(b).exact
    ensures KeyOf(a) == KeyOf(b)
  {
    if !KeyOf(a).exact {
      PrefixOfPath(a, path);
      PrefixOfPath(b, path);
    }
  }

  lemma PrefixOfPath(r: Route, path: string)
    requires PathValid(r) && MatchesPath(r, path) && !KeyOf(r).exact
    ensures r.pathPrefix == "/" || r.pathPrefix == path[..|r.pathPrefix|]
    ensures r.pathPrefix[0] == '/'
  {
  }

  /** Both routes match `q` and neither is preferred. */
  predicate Tie(a: Route, b: Route, q: Request) {
    Matches(a, q) && Matches(b, q) && !Outranks(a, b) && !Outranks(b, a)
  }

  /** A table of valid routes with distinct names is accepted exactly if no request makes two
      of its routes tie. */
  lemma AcceptedWithoutTies(routes: seq<Route>)
    requires routes != [] && NamesDistinct(routes) && forall r :: r in routes ==> Valid(r)
    ensures Acceptable(routes) <==> forall q, i, j :: 0 <= i < j < |routes| ==> !Tie(routes[i], routes[j], q)
  {
    hide Valid, Conflict, Tie;
    if Acceptable(routes) {
      forall q, i, j | 0 <= i < j < |routes| ensures !Tie(routes[i], routes[j], q) {
        assert routes[i].name != routes[j].name;
        TieIsImpossible(routes, q, routes[i], routes[j]);
      }
    } else {
      var i, j :| 0 <= i < j < |routes| && Conflict(routes[j], routes[i]);
      ConflictTies(routes[i], routes[j]);
      var q :| Tie(routes[i], routes[j], q);
    }
  }

  lemma TieIsImpossible(routes: seq<Route>, q: Request, a: Route, b: Route)
    requires Sound(routes) && a in routes && b in routes && a != b
    ensures !Tie(a, b, q)
  {
    hide Valid, Conflict, Matches, Outranks;
    if Matches(a, q) && Matches(b, q) {
      NoTies(routes, q, a, b);
    }
  }

  lemma ConflictTies(a: Route, b: Route)
    requires Valid(a) && Valid(b) && Conflict(b, a)
    ensures exists q :: Tie(a, b, q)
  {
    hide Valid, Matches, Overlap, Compatible;
    var q := SharedRequest(b, a);
    assert Tie(a, b, q);
  }

  /** A rejected table need not be ambiguous: here two routes tie on every request, but a
      third outranks both. */
  lemma ShadowedTieIsRejected() returns (routes: seq<Route>)
    ensures NamesDistinct(routes) && (forall r :: r in routes ==> Valid(r)) && !Acceptable(routes)
    ensures forall q :: Served(routes, q) ==> exists r :: IsBest(routes, q, r)
  {
    var a := Route("a", "/", "", [], [], [], 0, false, true, true);
    var b, c := a.(name := "b"), a.(name := "c", priority := 1);
    routes := [a, b, c];
    assert routes[0] == a && routes[1] == b && routes[2] == c;
    assert Conflict(routes[1], routes[0]);
    forall q | Served(routes, q) ensures exists r :: IsBest(routes, q, r) {
      assert IsBest(routes, q, c);
    }
  }

  // ----- Lookup -----

  predicate Served(routes: seq<Route>, q: Request) {
    exists r :: r in routes && Matches(r, q)
  }

  lemma BestIsUnique(routes: seq<Route>, q: Request, a: Route, b: Route)
    requires IsBest(routes, q, a) && IsBest(routes, q, b)
    ensures a == b
  {
  }

  /** A match that no other match outranks. */
  lemma {:induction false} TopMatch(routes: seq<Route>, q: Request) returns (top: Route)
    requires Served(routes, q)
    ensures top in routes && Matches(top, q) && forall o :: o in routes && Matches(o, q) ==> !Outranks(o, top)
  {
    hide Matches, KeyOf;
    var front, last := routes[..|routes| - 1], routes[|routes| - 1];
    assert routes == front + [last];
    if Served(front, q) {
      top := TopMatch(front, q);
      if Matches(last, q) && Outranks(last, top) {
        top := last;
      }
    } else {
      top := last;
    }
  }

  /** In any table, accepted or not, a request that some route matches has a best route exactly
      if every two of its matches that tie are both outranked by a third. */
  lemma BestExistsIff(routes: seq<Route>, q: Request)
    requires Served(routes, q)
    ensures (exists r :: IsBest(routes, q, r)) <==>
            forall a, b :: a in routes && b in routes && a != b && Tie(a, b, q) ==>
              exists r :: r in routes && Matches(r, q) && Outranks(r, a) && Outranks(r, b)
  {
    hide Matches, Outranks;
    if r :| IsBest(routes, q, r) {
      assert forall a, b :: a in routes && b in routes && a != b && Tie(a, b, q) ==> r != a && r != b;
    }
    if forall a, b :: a in routes && b in routes && a != b && Tie(a, b, q) ==>
         exists r :: r in routes && Matches(r, q) && Outranks(r, a) && Outranks(r, b)
    {
      var top := TopMatch(routes, q);
      forall o | o in routes && o != top && Matches(o, q) ensures Outranks(top, o) {
        assert !Outranks(top, o) ==> Tie(top, o, q);
      }
      assert IsBest(routes, q, top);
    }
  }

  /** The state of the scan after `seen`. */
  predicate BestSoFar(seen: seq<Route>, q: Request, best: Route, bestPathLength: int) {
    if bestPathLength == -1 then !Served(seen, q)
    else IsBest(seen, q, best) && bestPathLength == |KeyOf(best).path|
  }

  /** Returns the best match; by BestIsUnique there is only one. */
  method Match(router: Router, q: Request) returns (found: Option<Route>)
    requires Acceptable(router.routes)
    ensures found.Some? <==> Served(router.routes, q)
    ensures found.Some? ==> IsBest(router.routes, q, found.value)
    ensures found.Some? ==> forall o :: o in router.routes && o != found.value && Matches(o, q) ==>
                                         Preferred(found.value, o)
  {
    forall r, o | r in router.routes && o in router.routes && Outranks(r, o) ensures Preferred(r, o) {
      OutranksMeans(r, o);
    }
    hide Sound, MatchesPath, MatchesHost, MatchesHeaders, NormalizeHost, KeyOf, IsBest;
    var routes := router.routes;
    if !HasPrefix(q.path, "/") {
      return None;
    }
    var host := NormalizeHost(q.host);
    var bestMatch := Route("", "", "", [], [], [], 0, false, false, false);
    var bestMatchPathLength := -1;
    for i := 0 to |routes|
      invariant BestSoFar(routes[..i], q, bestMatch, bestMatchPathLength)
    {
      assert routes[..i + 1] == routes[..i] + [routes[i]];
      var r := routes[i];
      if !(MatchesPath(r, q.path) && MatchesMethod(r, q.verb) && MatchesHost(r, host) && MatchesHeaders(r, q.headers)) {
        SkipRoute(routes[..i], q, bestMatch, bestMatchPathLength, r);
        continue;
      }
      ScanRoute(routes, i, q, bestMatch, bestMatchPathLength);
      var candidateIsBetter := Better(r, bestMatch, bestMatchPathLength);
      if candidateIsBetter {
        bestMatch := r;
        bestMatchPathLength := PathLength(r);
      }
    }
    assert routes[..|routes|] == routes;
    if bestMatchPathLength == -1 {
      return None;
    }
    BestIsServed(routes, q, bestMatch);
    return Some(bestMatch);
  }

  function PathLength(r: Route): int {
    if r.pathExact != "" then |r.pathExact| else |r.pathPrefix|
  }

  /** The comparison of one match with the best so far. */
  method Better(r: Route, best: Route, bestPathLength: int) returns (candidateIsBetter: bool)
    requires bestPathLength == -1 || bestPathLength == |KeyOf(best).path|
    ensures candidateIsBetter <==> bestPathLength == -1 || Outranks(r, best)
  {
    var candidateIsExact := r.pathExact != "";
    var candidatePathLength := PathLength(r);
    var bestIsExact := best.pathExact != "";
    if candidatePathLength > bestPathLength {
      candidateIsBetter := true;
    } else if candidatePathLength < bestPathLength {
      candidateIsBetter := false;
    } else if candidateIsExact != bestIsExact {
      candidateIsBetter := candidateIsExact;
    } else {
      candidateIsBetter := r.priority > best.priority;
    }
  }

  lemma BestIsServed(routes: seq<Route>, q: Request, best: Route)
    requires IsBest(routes, q, best)
    ensures Served(routes, q)
  {
  }

  lemma SkipRoute(seen: seq<Route>, q: Request, best: Route, bestPathLength: int, r: Route)
    requires BestSoFar(seen, q, best, bestPathLength) && !Matches(r, q)
    ensures BestSoFar(seen + [r], q, best, bestPathLength)
  {
    hide Matches, Outranks, KeyOf;
  }

  lemma ScanRoute(routes: seq<Route>, i: nat, q: Request, best: Route, bestPathLength: int)
    requires Acceptable(routes) && i < |routes| && Matches(routes[i], q)
    requires BestSoFar(routes[..i], q, best, bestPathLength)
    ensures var r := routes[i];
            if bestPathLength == -1 || Outranks(r, best) then BestSoFar(routes[..i] + [r], q, r, PathLength(r))
            else BestSoFar(routes[..i] + [r], q, best, bestPathLength)
  {
    hide Matches, Valid, Conflict;
    var r, seen := routes[i], routes[..i];
    if bestPathLength != -1 {
      assert best in routes;
      var j :| 0 <= j < i && routes[j] == best;
      assert routes[j].name != routes[i].name;
      NoTies(routes, q, best, r);
    }
  }

  // ----- The order of the table -----

  /** Any reordering of an accepted table is accepted and answers every request alike. */
  lemma OrderDoesNotMatter(routes: seq<Route>, other: seq<Route>)
    requires Acceptable(routes) && multiset(routes) == multiset(other)
    ensures Acceptable(other)
    ensures forall q, r :: IsBest(routes, q, r) <==> IsBest(other, q, r)
  {
    hide Valid, Conflict, Matches, Outranks;
    forall r ensures r in routes <==> r in other {
      assert r in multiset(routes) <==> r in multiset(other);
    }
    assert other != [] by { assert routes[0] in other; }
    forall i, j | 0 <= i < j < |other| ensures other[i].name != other[j].name && !Conflict(other[j], other[i]) {
      ListedOnce(routes, other, i, j);
      PairwiseSound(routes, other[j], other[i]);
    }
  }

  lemma ListedOnce(routes: seq<Route>, other: seq<Route>, i: nat, j: nat)
    requires Sound(routes) && multiset(routes) == multiset(other) && i < j < |other|
    ensures other[i] != other[j]
  {
    hide Valid, Conflict;
    OnceByName(routes, other[i]);
    if other[i] == other[j] {
      CountedTwice(other, i, j);
    }
  }

  lemma CountedTwice(routes: seq<Route>, i: nat, j: nat)
    requires i < j < |routes| && routes[i] == routes[j]
    ensures multiset(routes)[routes[i]] >= 2
  {
    assert routes == routes[..j] + [routes[j]] + routes[j + 1..];
    assert routes[..j][i] == routes[i];
  }

  lemma {:induction false} OnceByName(routes: seq<Route>, r: Route)
    requires NamesDistinct(routes)
    ensures multiset(routes)[r] <= 1
  {
    if routes != [] {
      OnceByName(routes[1..], r);
      assert routes == [routes[0]] + routes[1..];
      if r == routes[0] {
        assert r !in routes[1..];
      }
    }
  }

  // ----- Allowed methods -----

  /** Drops repetitions from a sorted list. */
  method Compact(s: seq<string>) returns (r: seq<string>)
    requires Sorted(s)
    ensures StrictlySorted(r) && forall x :: x in r <==> x in s
  {
    r := [];
    for i := 0 to |s|
      invariant StrictlySorted(r) && forall x :: x in r <==> x in s[..i]
      invariant |r| > 0 <==> i > 0
      invariant i > 0 ==> r[|r| - 1] == s[i - 1]
    {
      if i == 0 || s[i] != s[i - 1] {
        forall k | 0 <= k < |r| ensures Before(r[k], s[i]) {
          if k < |r| - 1 {
            BeforeTransitive(r[k], r[|r| - 1], s[i]);
          }
        }
        r := r + [s[i]];
      }
    }
    assert s[..|s|] == s;
  }

  /** Some route for this host, path and header fields takes every method. */
  predicate TakesEveryMethod(routes: seq<Route>, host: string, path: string, headers: Headers) {
    exists r :: r in routes && MatchesApartFromMethod(r, host, path, headers) && r.methods == []
  }

  predicate Configured(routes: seq<Route>, host: string, path: string, headers: Headers, verb: string) {
    exists r :: r in routes && MatchesApartFromMethod(r, host, path, headers) && verb in r.methods
  }

  /** Nil where some matching route takes every method; otherwise the sorted, distinct
      methods configured for the routes that match apart from their methods. */
  method AllowedMethods(router: Router, host: string, path: string, headers: Headers) returns (allowed: seq<string>)
    ensures StrictlySorted(allowed)
    ensures TakesEveryMethod(router.routes, host, path, headers) ==> allowed == []
    ensures !TakesEveryMethod(router.routes, host, path, headers) ==>
              forall verb :: verb in allowed <==> Configured(router.routes, host, path, headers, verb)
  {
    hide MatchesPath, MatchesHost, MatchesHeaders, NormalizeHost;
    if !HasPrefix(path, "/") {
      return [];
    }
    var normalized := NormalizeHost(host);
    var allowedMethods: seq<string> := [];
    var routes := router.routes;
    for i := 0 to |routes|
      invariant !TakesEveryMethod(routes[..i], host, path, headers)
      invariant forall verb :: verb in allowedMethods <==> Configured(routes[..i], host, path, headers, verb)
    {
      var r := routes[i];
      assert routes[..i + 1] == routes[..i] + [r];
      if MatchesPath(r, path) && MatchesHost(r, normalized) && MatchesHeaders(r, headers) {
        if |r.methods| == 0 {
          return [];
        }
        allowedMethods := allowedMethods + r.methods;
      }
    }
    assert routes[..|routes|] == routes;
    var sorted := Sort(allowedMethods);
    forall verb ensures verb in sorted <==> verb in allowedMethods {
      assert verb in multiset(sorted) <==> verb in multiset(allowedMethods);
    }
    allowed := Compact(sorted);
  }
}
