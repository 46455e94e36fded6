/**
  Routes and their validation (internal/router/route.go). A route's action and its header,
  error-response, time-out, body-size and rate-limit policies do not take part in matching;
  whether they are well formed is a given of the route.
 */
module Route {
  import opened Common
  import opened Text

  datatype HeaderMatch = HeaderMatch(name: string, exact: string)

  datatype Route = Route(
    name: string,
    pathPrefix: string,
    pathExact: string,
    headerMatches: seq<HeaderMatch>,
    methods: seq<string>,
    hosts: seq<string>,
    priority: int,
    stripPathPrefix: bool,
    actionValid: bool,
    policiesValid: bool)

  datatype RouteError =
    | EmptyName
    | InvalidAction
    | TwoPathMatchers
    | NoPathMatcher
    | PrefixNotRooted
    | PrefixEndsInSlash
    | ExactNotRooted
    | StripWithoutPrefix
    | EmptyMethod(verb: string)
    | MethodNotUppercase(verb: string)
    | InvalidMethod(verb: string)
    | DuplicateMethod(verb: string)
    | InvalidHost(host: string)
    | DuplicateHost(host: string)
    | InvalidPolicy
    | InvalidHeaderMatch(header: HeaderMatch)
    | DuplicateHeaderMatch(name: string)

  // ----- Parts of a route -----

  /** The bytes of a token in RFC 9110, section 5.6.2. */
  predicate IsTokenChar(c: char) {
    'a' <= c <= 'z' || 'A' <= c <= 'Z' || '0' <= c <= '9' || c in "!#$%&'*+-.^_`|~"
  }

  predicate IsToken(s: string) {
    s != "" && forall c :: c in s ==> IsTokenChar(c)
  }

  /** No control bytes other than the horizontal tab. */
  predicate IsFieldValue(s: string) {
    forall c :: c in s ==> (' ' <= c && c != 127 as char) || c == 9 as char
  }

  predicate IsReservedRequestHeader(name: string) {
    var lowerName := Lower(name);
    lowerName in {
      "host", "connection", "content-length", "forwarded", "keep-alive", "proxy-authenticate",
      "proxy-authorization", "proxy-connection", "te", "trailer", "transfer-encoding",
      "upgrade", "x-real-ip", "x-request-id"} ||
    HasPrefix(lowerName, "x-forwarded-")
  }

  /** RFC 9110, section 5.6.2, from the other side: the visible bytes that are not delimiters. */
  lemma TokenCharsAreNotDelimiters(c: char)
    ensures IsTokenChar(c) <==> 33 as char <= c <= 126 as char && c !in "\"(),/:;<=>?@[\\]{}"
  {
  }

  /** Reserved names are reserved in any case, and every X-Forwarded- name is. */
  lemma ReservedIgnoresCase(name: string, other: string, rest: string)
    requires Lower(name) == Lower(other)
    ensures IsReservedRequestHeader(name) <==> IsReservedRequestHeader(other)
    ensures IsReservedRequestHeader("X-Forwarded-" + rest)
  {
    assert Lower("X-Forwarded-" + rest) == "x-forwarded-" + Lower(rest);
  }

  predicate HeaderMatchValid(h: HeaderMatch) {
    TrimSpace(h.name) != "" && TrimSpace(h.exact) != "" &&
    IsToken(h.name) && IsFieldValue(h.exact) && !IsReservedRequestHeader(h.name)
  }

  predicate IsHostChar(c: char) {
    'a' <= c <= 'z' || '0' <= c <= '9' || c == '-'
  }

  predicate LabelValid(part: string) {
    1 <= |part| <= 63 && !HasPrefix(part, "-") && !HasSuffix(part, "-") &&
    forall c :: c in part ==> IsHostChar(c)
  }

  predicate HostnameValid(host: string) {
    |host| <= 253 && TrimSpace(host) != "" && Lower(host) == host && !HasSuffix(host, ".") &&
    forall part :: part in Split(host, '.') ==> LabelValid(part)
  }

  /** A valid host name holds nothing but the characters of labels and dots. */
  lemma HostnameChars(host: string)
    requires HostnameValid(host)
    ensures host != "" && forall c :: c in host ==> IsHostChar(c) || c == '.'
  {
    forall c | c in host ensures IsHostChar(c) || c == '.' {
      if c != '.' {
        CharOfPart(host, '.', c);
      }
    }
  }

  /** A label as RFC 1123, section 2.1, has it, in lower case. */
  predicate IsLabel(part: string) {
    1 <= |part| <= 63 && part[0] != '-' && part[|part| - 1] != '-' &&
    forall i :: 0 <= i < |part| ==> part[i] == '-' || '0' <= part[i] <= '9' || 'a' <= part[i] <= 'z'
  }

  /** The valid host names are the labels joined by dots, up to 253 bytes; the checks for blanks,
      upper case and a trailing dot exclude nothing more. */
  lemma HostnamesAreLabels(host: string)
    ensures HostnameValid(host) <==>
            |host| <= 253 &&
            exists labels :: labels != [] && host == Join(labels, ".") && forall l :: l in labels ==> IsLabel(l)
  {
    if HostnameValid(host) {
      var labels := Split(host, '.');
      JoinSplit(host, '.');
      forall l | l in labels ensures IsLabel(l) {
        LabelsAgree(l);
      }
    }
    if labels :| labels != [] && host == Join(labels, ".") && forall l :: l in labels ==> IsLabel(l) {
      if |host| <= 253 {
        LabelsMakeHostname(labels);
      }
    }
  }

  lemma LabelsAgree(part: string)
    ensures LabelValid(part) <==> IsLabel(part)
  {
    if 1 <= |part| {
      assert part[..1] == "-" <==> part[0] == '-';
      assert part[|part| - 1..] == "-" <==> part[|part| - 1] == '-';
    }
    forall i | 0 <= i < |part| ensures part[i] in part {
    }
  }

  lemma LabelsMakeHostname(labels: seq<string>)
    requires labels != [] && (forall l :: l in labels ==> IsLabel(l)) && |Join(labels, ".")| <= 253
    ensures HostnameValid(Join(labels, "."))
  {
    var host := Join(labels, ".");
    SplitJoin(labels, '.');
    LabelChars(labels);
    forall l | l in labels ensures LabelValid(l) {
      LabelsAgree(l);
    }
    hide Join, Split, IsLabel, LabelValid, TrimSpace;
    NotBlank(host);
    assert Lower(host) == host;
  }

  lemma NotBlank(s: string)
    requires s != "" && !IsSpace(s[0])
    ensures TrimSpace(s) != ""
  {
    assert TrimLeft(s) == s;
    if TrimRight(s) == "" {
      AllSpace(s);
    }
  }

  /** A name joined from labels has only their characters and dots, and no dot at either end. */
  lemma {:induction false} LabelChars(labels: seq<string>)
    requires labels != [] && forall l :: l in labels ==> IsLabel(l)
    ensures var host := Join(labels, ".");
            host != "" && host[0] != '.' && host[|host| - 1] != '.' &&
            forall i :: 0 <= i < |host| ==>
              host[i] == '.' || host[i] == '-' || '0' <= host[i] <= '9' || 'a' <= host[i] <= 'z'
  {
    assert IsLabel(labels[0]);
    if |labels| > 1 {
      LabelChars(labels[1..]);
    }
  }

  lemma {:induction false} CharOfPart(s: string, separator: char, c: char)
    requires c in s && c != separator
    ensures exists p :: p in Split(s, separator) && c in p
  {
    var rest := Split(s[1..], separator);
    if s[0] == c {
      assert ([[s[0]] + rest[0]] + rest[1..])[0] in Split(s, separator);
    } else {
      CharOfPart(s[1..], separator, c);
      var p :| p in rest && c in p;
      if s[0] != separator && p == rest[0] {
        assert c in Split(s, separator)[0];
      } else if s[0] != separator {
        assert rest == [rest[0]] + rest[1..];
        assert p in rest[1..];
      }
    }
  }

  // ----- Validation -----

  function MethodFault(verb: string): Option<RouteError> {
    if TrimSpace(verb) == "" then Some(EmptyMethod(verb))
    else if Upper(verb) != verb then Some(MethodNotUppercase(verb))
    else if !IsToken(verb) then Some(InvalidMethod(verb))
    else None
  }

  function HostFault(host: string): Option<RouteError> {
    if HostnameValid(host) then None else Some(InvalidHost(host))
  }

  function HeaderFault(h: HeaderMatch): Option<RouteError> {
    if HeaderMatchValid(h) then None else Some(InvalidHeaderMatch(h))
  }

  /** What makes one item of a list wrong in itself, the name by which items must differ, and
      the error for an item that repeats a name. */
  datatype ListRule<!T> = ListRule(fault: T -> Option<RouteError>, name: T -> string, repeated: T -> RouteError)

  function MethodRule(): ListRule<string> {
    ListRule(MethodFault, verb => verb, verb => DuplicateMethod(verb))
  }

  function HostRule(): ListRule<string> {
    ListRule(HostFault, host => host, host => DuplicateHost(host))
  }

  /** Header names differ by more than case. */
  function HeaderRule(): ListRule<HeaderMatch> {
    ListRule(HeaderFault, (h: HeaderMatch) => Lower(h.name), (h: HeaderMatch) => DuplicateHeaderMatch(Lower(h.name)))
  }

  function NamesOf<T>(items: seq<T>, name: T -> string): set<string> {
    set i | 0 <= i < |items| :: name(items[i])
  }

  /** What is wrong with one item after others with the names `earlier`. */
  function ItemError<T>(rule: ListRule<T>, item: T, earlier: set<string>): Option<RouteError> {
    if rule.fault(item).Some? then rule.fault(item)
    else if rule.name(item) in earlier then Some(rule.repeated(item))
    else None
  }

  /** The first fault of the first `n` items. */
  function ListError<T>(rule: ListRule<T>, items: seq<T>, n: nat): Option<RouteError>
    requires n <= |items|
  {
    if n == 0 then None
    else
      var earlier := ListError(rule, items, n - 1);
      if earlier.Some? then earlier else ItemError(rule, items[n - 1], NamesOf(items[..n - 1], rule.name))
  }

  function MethodsError(r: Route): Option<RouteError> {
    ListError(MethodRule(), r.methods, |r.methods|)
  }

  function HostsError(r: Route): Option<RouteError> {
    ListError(HostRule(), r.hosts, |r.hosts|)
  }

  function HeadersError(r: Route): Option<RouteError> {
    ListError(HeaderRule(), r.headerMatches, |r.headerMatches|)
  }

  function PathError(r: Route): Option<RouteError> {
    if r.pathExact != "" && r.pathPrefix != "" then Some(TwoPathMatchers)
    else if r.pathExact == "" && r.pathPrefix == "" then Some(NoPathMatcher)
    else if r.pathPrefix != "" && !HasPrefix(r.pathPrefix, "/") then Some(PrefixNotRooted)
    else if r.pathPrefix != "" && HasSuffix(r.pathPrefix, "/") && r.pathPrefix != "/" then Some(PrefixEndsInSlash)
    else if r.pathExact != "" && !HasPrefix(r.pathExact, "/") then Some(ExactNotRooted)
    else if r.stripPathPrefix && r.pathPrefix == "" then Some(StripWithoutPrefix)
    else None
  }

  /** The first fault of a route in the order in which the fields are checked. */
  function FirstError(r: Route): Option<RouteError> {
    if TrimSpace(r.name) == "" then Some(EmptyName)
    else if !r.actionValid then Some(InvalidAction)
    else if PathError(r).Some? then PathError(r)
    else if MethodsError(r).Some? then MethodsError(r)
    else if HostsError(r).Some? then HostsError(r)
    else if !r.policiesValid then Some(InvalidPolicy)
    else HeadersError(r)
  }

  /** The header names as HTTP compares them: without regard to case. */
  function Names(headers: seq<HeaderMatch>): set<string> {
    set h | h in headers :: Lower(h.name)
  }

  /** The loop that checks the methods, the hosts and the header matches in turn. */
  method ValidateList<T>(rule: ListRule<T>, items: seq<T>) returns (error: Option<RouteError>)
    ensures error == ListError(rule, items, |items|)
  {
    var seen: set<string> := {};
    for i := 0 to |items|
      invariant seen == NamesOf(items[..i], rule.name) && ListError(rule, items, i) == None
    {
      error := ItemError(rule, items[i], seen);
      if error.Some? {
        FirstItemError(rule, items, i + 1, |items|);
        return;
      }
      NamesAppend(items, i, rule.name);
      seen := seen + {rule.name(items[i])};
    }
    return None;
  }

  lemma NamesAppend<T>(items: seq<T>, i: nat, name: T -> string)
    requires i < |items|
    ensures NamesOf(items[..i + 1], name) == NamesOf(items[..i], name) + {name(items[i])}
  {
    var front, all := items[..i], items[..i + 1];
    forall x ensures x in NamesOf(all, name) <==> x in NamesOf(front, name) + {name(items[i])} {
      if x in NamesOf(front, name) {
        var j :| 0 <= j < i && name(front[j]) == x;
        assert name(all[j]) == x;
      }
      assert name(all[i]) == name(items[i]);
    }
  }

  lemma {:induction false} FirstItemError<T>(rule: ListRule<T>, items: seq<T>, i: nat, n: nat)
    requires i <= n <= |items| && ListError(rule, items, i).Some?
    ensures ListError(rule, items, n) == ListError(rule, items, i)
  {
    if i < n {
      FirstItemError(rule, items, i, n - 1);
    }
  }

  method Validate(r: Route) returns (error: Option<RouteError>)
    ensures error == FirstError(r)
    ensures error == None <==> Valid(r)
    ensures error.Some? ==>
              !RuleHolds(r, Stage(error.value)) && forall k :: 0 <= k < Stage(error.value) ==> RuleHolds(r, k)
  {
    MeetsRules(r);
    ErrorNamesRule(r);
    hide Stage, RuleHolds;
    if TrimSpace(r.name) == "" {
      return Some(EmptyName);
    }
    if !r.actionValid {
      return Some(InvalidAction);
    }
    error := PathError(r);
    if error.Some? {
      return;
    }
    error := ValidateList(MethodRule(), r.methods);
    if error.Some? {
      return;
    }
    error := ValidateList(HostRule(), r.hosts);
    if error.Some? {
      return;
    }
    if !r.policiesValid {
      return Some(InvalidPolicy);
    }
    error := ValidateList(HeaderRule(), r.headerMatches);
  }

  // ----- What validation amounts to -----

  predicate Distinct(s: seq<string>) {
    forall i, j :: 0 <= i < j < |s| ==> s[i] != s[j]
  }

  predicate MethodValid(verb: string) {
    IsToken(verb) && Upper(verb) == verb
  }

  /** The rules for a route, in no particular order. */
  predicate Valid(r: Route) {
    TrimSpace(r.name) != "" && r.actionValid && r.policiesValid && PathValid(r) &&
    (forall m :: m in r.methods ==> MethodValid(m)) && Distinct(r.methods) &&
    (forall h :: h in r.hosts ==> HostnameValid(h)) && Distinct(r.hosts) &&
    HeadersValid(r.headerMatches)
  }

  /** Exactly one path matcher, rooted; a prefix has no trailing slash unless it is the root. */
  predicate PathValid(r: Route) {
    if r.pathExact != "" then
      r.pathPrefix == "" && r.pathExact[0] == '/' && !r.stripPathPrefix
    else
      r.pathPrefix != "" && r.pathPrefix[0] == '/' && (r.pathPrefix[|r.pathPrefix| - 1] == '/' ==> |r.pathPrefix| == 1)
  }

  predicate HeadersValid(headers: seq<HeaderMatch>) {
    (forall h :: h in headers ==> HeaderMatchValid(h)) &&
    forall i, j :: 0 <= i < j < |headers| ==> Lower(headers[i].name) != Lower(headers[j].name)
  }

  /** A route passes the checks exactly if it meets the rules. */
  lemma MeetsRules(r: Route)
    ensures FirstError(r) == None <==> Valid(r)
  {
    PathRules(r);
    MethodRules(r);
    HostRules(r);
    HeaderRules(r);
    hide PathError, MethodsError, HostsError, HeadersError, HostnameValid, MethodValid, HeadersValid, PathValid;
    hide TrimSpace;
  }

  /** The rule that an error is about, in checking order. */
  function Stage(error: RouteError): nat {
    match error
    case EmptyName => 0
    case InvalidAction => 1
    case TwoPathMatchers | NoPathMatcher | PrefixNotRooted | PrefixEndsInSlash | ExactNotRooted => 2
    case StripWithoutPrefix => 2
    case EmptyMethod(_) | MethodNotUppercase(_) | InvalidMethod(_) | DuplicateMethod(_) => 3
    case InvalidHost(_) | DuplicateHost(_) => 4
    case InvalidPolicy => 5
    case InvalidHeaderMatch(_) | DuplicateHeaderMatch(_) => 6
  }

  predicate RuleHolds(r: Route, k: nat) {
    match k
    case 0 => TrimSpace(r.name) != ""
    case 1 => r.actionValid
    case 2 => PathValid(r)
    case 3 => (forall m :: m in r.methods ==> MethodValid(m)) && Distinct(r.methods)
    case 4 => (forall h :: h in r.hosts ==> HostnameValid(h)) && Distinct(r.hosts)
    case 5 => r.policiesValid
    case 6 => HeadersValid(r.headerMatches)
    case _ => true
  }

  /** The error reported is about the first rule that does not hold. */
  lemma ErrorNamesRule(r: Route)
    ensures FirstError(r).Some? ==>
              var k := Stage(FirstError(r).value);
              !RuleHolds(r, k) && forall j :: 0 <= j < k ==> RuleHolds(r, j)
  {
    PathRules(r);
    MethodRules(r);
    HostRules(r);
    HeaderRules(r);
    PathStage(r);
    MethodsStage(r);
    HostsStage(r);
    HeadersStage(r);
    hide Distinct, HostnameValid, MethodValid, HeadersValid, PathValid, TrimSpace;
    hide PathError, MethodsError, HostsError, HeadersError, Stage;
    assert Stage(EmptyName) == 0 && Stage(InvalidAction) == 1 && Stage(InvalidPolicy) == 5 by {
      ConstantStages();
    }
  }

  lemma ConstantStages()
    ensures Stage(EmptyName) == 0 && Stage(InvalidAction) == 1 && Stage(InvalidPolicy) == 5
  {
  }

  lemma PathStage(r: Route)
    ensures PathError(r).Some? ==> Stage(PathError(r).value) == 2
  {
  }

  lemma MethodsStage(r: Route)
    ensures MethodsError(r).Some? ==> Stage(MethodsError(r).value) == 3
  {
    hide TrimSpace, Upper, IsToken, ListError;
    ListErrorStage(MethodRule(), r.methods, |r.methods|, 3);
  }

  lemma HostsStage(r: Route)
    ensures HostsError(r).Some? ==> Stage(HostsError(r).value) == 4
  {
    hide HostnameValid, ListError;
    ListErrorStage(HostRule(), r.hosts, |r.hosts|, 4);
  }

  lemma HeadersStage(r: Route)
    ensures HeadersError(r).Some? ==> Stage(HeadersError(r).value) == 6
  {
    hide HeaderMatchValid, Lower, ListError;
    ListErrorStage(HeaderRule(), r.headerMatches, |r.headerMatches|, 6);
  }

  lemma {:induction false} ListErrorStage<T>(rule: ListRule<T>, items: seq<T>, n: nat, stage: nat)
    requires n <= |items|
    requires forall item :: rule.fault(item).Some? ==> Stage(rule.fault(item).value) == stage
    requires forall item :: Stage(rule.repeated(item)) == stage
    ensures ListError(rule, items, n).Some? ==> Stage(ListError(rule, items, n).value) == stage
  {
    if n > 0 {
      ListErrorStage(rule, items, n - 1, stage);
    }
  }

  lemma PathRules(r: Route)
    ensures PathError(r) == None <==> PathValid(r)
  {
  }

  lemma TokenNotBlank(s: string)
    requires IsToken(s)
    ensures TrimSpace(s) != ""
  {
    assert IsTokenChar(s[0]) && !IsSpace(s[0]);
    NotBlank(s);
  }

  lemma {:induction false} AllSpace(s: string)
    ensures TrimRight(s) == "" ==> forall c :: c in s ==> IsSpace(c)
  {
    if s != "" && IsSpace(s[|s| - 1]) {
      AllSpace(s[..|s| - 1]);
      assert s == s[..|s| - 1] + [s[|s| - 1]];
    }
  }

  /** A list passes exactly if no item has a fault and no two share a name. */
  lemma {:induction false} ListRules<T>(rule: ListRule<T>, items: seq<T>, n: nat)
    requires n <= |items|
    ensures ListError(rule, items, n) == None <==>
            (forall i :: 0 <= i < n ==> rule.fault(items[i]) == None) &&
            (forall i, j :: 0 <= i < j < n ==> rule.name(items[i]) != rule.name(items[j]))
  {
    if n > 0 {
      ListRules(rule, items, n - 1);
      NameIn(items, n - 1, rule.name);
      hide NamesOf;
    }
  }

  lemma NameIn<T>(items: seq<T>, i: nat, name: T -> string)
    requires i < |items|
    ensures name(items[i]) in NamesOf(items[..i], name) <==> exists j :: 0 <= j < i && name(items[j]) == name(items[i])
  {
    if j :| 0 <= j < i && name(items[j]) == name(items[i]) {
      assert name(items[..i][j]) == name(items[i]);
    }
  }

  lemma MethodRules(r: Route)
    ensures MethodsError(r) == None <==> (forall m :: m in r.methods ==> MethodValid(m)) && Distinct(r.methods)
  {
    ListRules(MethodRule(), r.methods, |r.methods|);
    forall m ensures MethodFault(m) == None <==> MethodValid(m) {
      if IsToken(m) {
        TokenNotBlank(m);
      }
    }
    hide ListError, MethodFault, MethodValid;
  }

  lemma HostRules(r: Route)
    ensures HostsError(r) == None <==> (forall h :: h in r.hosts ==> HostnameValid(h)) && Distinct(r.hosts)
  {
    ListRules(HostRule(), r.hosts, |r.hosts|);
    hide ListError, HostnameValid;
  }

  lemma HeaderRules(r: Route)
    ensures HeadersError(r) == None <==> HeadersValid(r.headerMatches)
  {
    ListRules(HeaderRule(), r.headerMatches, |r.headerMatches|);
    hide ListError, HeaderMatchValid, Lower;
  }
}
