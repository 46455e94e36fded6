/**
  The X-Forwarded-For chain (internal/proxy/trusted_proxies.go): parsing, sanitising and
  formatting, and what a chain becomes on its way through several trusted proxies.
  The text form of an address is a parameter, of which only Faithful is asked.
 */
module ForwardedFor {
  import opened Common
  import opened Text

  const MAX_FORWARDED_FOR_HOPS := 32

  // ----- Addresses and prefixes -----

  type Bits32 = s: seq<bool> | |s| == 32 witness seq(32, _ => false)
  type Bits128 = s: seq<bool> | |s| == 128 witness seq(128, _ => false)

  /** An address of package net/netip; Invalid is its zero value. */
  datatype Addr = Invalid | V4(bits: Bits32) | V6(wide: Bits128, zone: string)

  /** A CIDR prefix: the first `length` bits of `base`. */
  datatype Prefix = Prefix(base: Addr, length: int)

  function Zone(a: Addr): string {
    if a.V6? then a.zone else ""
  }

  function WithoutZone(a: Addr): Addr {
    if a.V6? then a.(zone := "") else a
  }

  /** The first 96 bits of an IPv4-mapped IPv6 address. */
  function Mapped(): (bits: seq<bool>)
    ensures |bits| == 96
  {
    seq(96, i => i >= 80)
  }

  /** The IPv4 address inside an IPv4-mapped one; any other address as it is. */
  function Unmap(a: Addr): (u: Addr)
    ensures u.Invalid? <==> a.Invalid?
    ensures Zone(a) == "" ==> Zone(u) == ""
  {
    if a.V6? && a.wide[..96] == Mapped() then V4(a.wide[96..]) else a
  }

  predicate PrefixValid(p: Prefix) {
    match p.base
    case Invalid => false
    case V4(_) => 0 <= p.length <= 32
    case V6(_, _) => 0 <= p.length <= 128
  }

  /** Families do not mix, and an address with a zone is in no prefix. */
  predicate Contains(p: Prefix, a: Addr) {
    PrefixValid(p) && Zone(a) == "" &&
    match a
    case Invalid => false
    case V4(bits) => p.base.V4? && p.base.bits[..p.length] == bits[..p.length]
    case V6(wide, _) => p.base.V6? && p.base.wide[..p.length] == wide[..p.length]
  }

  predicate Trusted(a: Addr, cidrs: seq<Prefix>) {
    !a.Invalid? && exists p :: p in cidrs && (Contains(p, a) || Contains(p, Unmap(a)))
  }

  method IsTrustedProxy(addr: Addr, cidrs: seq<Prefix>) returns (trusted: bool)
    ensures trusted <==> Trusted(addr, cidrs)
  {
    hide Unmap, Contains;
    if addr.Invalid? {
      return false;
    }
    var unmapped := Unmap(addr);
    for i := 0 to |cidrs|
      invariant forall p :: p in cidrs[..i] ==> !Contains(p, addr) && !Contains(p, unmapped)
    {
      if Contains(cidrs[i], addr) || Contains(cidrs[i], unmapped) {
        return true;
      }
    }
    assert cidrs[..|cidrs|] == cidrs;
    return false;
  }

  /** Every configured prefix counts, wherever it stands in the list. */
  lemma TrustIsAnyPrefix(a: Addr, xs: seq<Prefix>, ys: seq<Prefix>)
    ensures Trusted(a, xs + ys) <==> Trusted(a, xs) || Trusted(a, ys)
    ensures !Trusted(a, [])
  {
    hide Contains, Unmap;
  }

  /** A prefix of full length contains only its base, one of length zero its whole family, and a
      shorter prefix of the same base contains whatever a longer one does. */
  lemma PrefixesNest(base: Addr, a: Addr, shorter: int, longer: int)
    requires PrefixValid(Prefix(base, longer)) && 0 <= shorter <= longer && Zone(base) == ""
    ensures Contains(Prefix(base, longer), a) ==> Contains(Prefix(base, shorter), a)
    ensures Contains(Prefix(base, if base.V4? then 32 else 128), a) <==> a == base
    ensures Contains(Prefix(base, 0), a) <==> Zone(a) == "" && a.V4? == base.V4? && a.V6? == base.V6?
  {
    if base.V4? {
      assert base.bits[..32] == base.bits && (a.V4? ==> a.bits[..32] == a.bits);
      assert a.V4? && base.bits[..longer] == a.bits[..longer] ==>
             base.bits[..longer][..shorter] == a.bits[..longer][..shorter];
    } else {
      assert base.wide[..128] == base.wide && (a.V6? ==> a.wide[..128] == a.wide);
      assert a.V6? && base.wide[..longer] == a.wide[..longer] ==>
             base.wide[..longer][..shorter] == a.wide[..longer][..shorter];
    }
  }

  /** An address as the parser leaves it. */
  predicate Plain(a: Addr) {
    !a.Invalid? && Zone(a) == "" && Unmap(a) == a
  }

  lemma UnmapIsPlain(a: Addr)
    requires !a.Invalid? && Zone(a) == ""
    ensures Plain(Unmap(a))
  {
  }

  // ----- Sanitising -----

  /** Where the scan from the right ends: at the last untrusted address, or at the first
      address if all of them are trusted. */
  function Start(chain: seq<Addr>, cidrs: seq<Prefix>): (start: nat)
    ensures start <= |chain| && (start == |chain| ==> chain == [])
    ensures forall i :: start < i < |chain| ==> Trusted(chain[i], cidrs)
    ensures start > 0 ==> !Trusted(chain[start], cidrs)
  {
    if |chain| <= 1 then 0
    else if !Trusted(chain[|chain| - 1], cidrs) then |chain| - 1
    else Start(chain[..|chain| - 1], cidrs)
  }

  function UnmapAll(chain: seq<Addr>): (unmapped: seq<Addr>)
    ensures |unmapped| == |chain| && forall i :: 0 <= i < |chain| ==> unmapped[i] == Unmap(chain[i])
  {
    seq(|chain|, i requires 0 <= i < |chain| => Unmap(chain[i]))
  }

  function Sanitized(remote: Addr, chain: seq<Addr>, cidrs: seq<Prefix>): seq<Addr> {
    if remote.Invalid? then []
    else if !Trusted(remote, cidrs) || |chain| > MAX_FORWARDED_FOR_HOPS then [Unmap(remote)]
    else
      var start := Start(chain, cidrs);
      if start < |chain| && chain[start].Invalid? then [Unmap(remote)]
      else UnmapAll(chain[start..]) + [Unmap(remote)]
  }

  method SanitizeXForwardedFor(remote: Addr, forwardedFor: seq<Addr>, cidrs: seq<Prefix>)
    returns (sanitized: seq<Addr>)
    ensures sanitized == Sanitized(remote, forwardedFor, cidrs)
    ensures remote.Invalid? ==> sanitized == []
  {
    TrustedAreValid(forwardedFor, cidrs);
    hide Trusted, Unmap, Start;
    if remote.Invalid? {
      return [];
    }
    var normalizedRemote := Unmap(remote);
    var trusted := IsTrustedProxy(remote, cidrs);
    if !trusted || |forwardedFor| > MAX_FORWARDED_FOR_HOPS {
      return [normalizedRemote];
    }
    var start := |forwardedFor|;
    var i := |forwardedFor| - 1;
    while i >= 0
      invariant -1 <= i < |forwardedFor| && start == i + 1
      invariant forall k :: start <= k < |forwardedFor| ==> Trusted(forwardedFor[k], cidrs) && !forwardedFor[k].Invalid?
    {
      var addr := forwardedFor[i];
      if addr.Invalid? {
        StartIsUnique(forwardedFor, cidrs, i);
        return [normalizedRemote];
      }
      start := i;
      trusted := IsTrustedProxy(addr, cidrs);
      if !trusted {
        break;
      }
      i := i - 1;
    }
    StartIsUnique(forwardedFor, cidrs, start);
    sanitized := UnmapEach(forwardedFor[start..]);
    sanitized := sanitized + [normalizedRemote];
  }

  method UnmapEach(chain: seq<Addr>) returns (unmapped: seq<Addr>)
    ensures unmapped == UnmapAll(chain)
  {
    hide Unmap;
    unmapped := [];
    for k := 0 to |chain|
      invariant unmapped == UnmapAll(chain[..k])
    {
      unmapped := unmapped + [Unmap(chain[k])];
    }
    assert chain[..|chain|] == chain;
  }

  lemma StartIsUnique(chain: seq<Addr>, cidrs: seq<Prefix>, start: nat)
    requires start <= |chain| && (start == |chain| ==> chain == [])
    requires forall i :: start < i < |chain| ==> Trusted(chain[i], cidrs)
    requires start > 0 ==> !Trusted(chain[start], cidrs)
    ensures start == Start(chain, cidrs)
  {
    hide Trusted;
  }

  /** `c` is the peer, before it a suffix of trusted addresses of `chain`, as long as there is,
      and before that at most one address, the one at the edge of trust. */
  predicate Shaped(c: seq<Addr>, remote: Addr, chain: seq<Addr>, cidrs: seq<Prefix>, start: nat) {
    start <= |chain| && c == UnmapAll(chain[start..]) + [Unmap(remote)] &&
    (forall i :: start < i < |chain| ==> Trusted(chain[i], cidrs)) &&
    (0 < start < |chain| ==> !Trusted(chain[start], cidrs)) &&
    (forall i :: start <= i < |chain| ==> !chain[i].Invalid?)
  }

  /** What is kept, and when it is more than the peer: the peer must be trusted, the chain must
      not be too long and the scan must not end at an invalid address. */
  lemma SanitizedShape(remote: Addr, chain: seq<Addr>, cidrs: seq<Prefix>) returns (start: nat)
    requires !remote.Invalid?
    ensures Shaped(Sanitized(remote, chain, cidrs), remote, chain, cidrs, start)
    ensures |Sanitized(remote, chain, cidrs)| <= MAX_FORWARDED_FOR_HOPS + 1
    ensures chain != [] ==>
              (start < |chain| <==>
               Trusted(remote, cidrs) && |chain| <= MAX_FORWARDED_FOR_HOPS &&
               !chain[Start(chain, cidrs)].Invalid?)
  {
    TrustedAreValid(chain, cidrs);
    hide Trusted, Unmap;
    start := Start(chain, cidrs);
    if !Trusted(remote, cidrs) || |chain| > MAX_FORWARDED_FOR_HOPS || (chain != [] && chain[start].Invalid?) {
      start := |chain|;
      assert UnmapAll(chain[start..]) == [];
    }
  }

  lemma TrustedAreValid(chain: seq<Addr>, cidrs: seq<Prefix>)
    ensures forall i :: 0 <= i < |chain| && Trusted(chain[i], cidrs) ==> !chain[i].Invalid?
  {
  }

  // ----- Text -----

  /** netip.ParseAddr and Addr.String. */
  datatype Codec = Codec(parse: string -> Option<Addr>, show: Addr -> string) {
    /** Parsing yields real addresses and undoes printing; the text of an address has neither
        commas nor surrounding white space. */
    ghost predicate Faithful() {
      (forall s :: parse(s).Some? ==> !parse(s).value.Invalid?) &&
      (forall a :: Plain(a) ==> parse(show(a)) == Some(a)) &&
      (forall a :: Plain(a) ==> show(a) != "" && ',' !in show(a) && TrimSpace(show(a)) == show(a))
    }
  }

  /** One element of a header field's list. */
  function ReadHop(codec: Codec, text: string): (hop: Option<Addr>)
    ensures hop.Some? && codec.Faithful() ==> Plain(hop.value)
  {
    match codec.parse(TrimSpace(text))
    case None => None
    case Some(addr) => if Zone(addr) != "" then None else Some(Unmap(addr))
  }

  function ReadHops(codec: Codec, texts: seq<string>): (hops: Option<seq<Addr>>)
    ensures hops.Some? ==> |hops.value| == |texts|
    ensures hops.Some? && codec.Faithful() ==> forall a :: a in hops.value ==> Plain(a)
  {
    if texts == [] then Some([])
    else
      var front := ReadHops(codec, texts[..|texts| - 1]);
      var last := ReadHop(codec, texts[|texts| - 1]);
      if front.None? || last.None? then None else Some(front.value + [last.value])
  }

  /** The list elements of all the fields, in order. */
  function Elements(values: seq<string>): seq<string> {
    if values == [] then []
    else Elements(values[..|values| - 1]) + Split(TrimSpace(values[|values| - 1]), ',')
  }

  /** Several fields are read as one, joined by commas: RFC 9110, section 5.3. */
  lemma {:induction false} FieldsCombine(values: seq<string>)
    requires values != []
    ensures Elements(values) == Split(Join(Trimmings(values), ","), ',')
  {
    var front, last := values[..|values| - 1], TrimSpace(values[|values| - 1]);
    assert Trimmings(values) == Trimmings(front) + [last];
    if front != [] {
      FieldsCombine(front);
      JoinAppend(Trimmings(front), [last], ",");
      SplitAppend(Join(Trimmings(front), ","), last, ',');
    }
  }

  function Trimmings(values: seq<string>): (trimmed: seq<string>)
    ensures |trimmed| == |values| && forall i :: 0 <= i < |values| ==> trimmed[i] == TrimSpace(values[i])
  {
    seq(|values|, i requires 0 <= i < |values| => TrimSpace(values[i]))
  }

  /** All or nothing: one bad element, or one too many, and the whole chain is given up. */
  function Parsed(codec: Codec, values: seq<string>): (hops: Option<seq<Addr>>)
    ensures hops.Some? ==> |hops.value| <= MAX_FORWARDED_FOR_HOPS
    ensures hops.Some? && codec.Faithful() ==> forall a :: a in hops.value ==> Plain(a)
  {
    if |Elements(values)| > MAX_FORWARDED_FOR_HOPS then None else ReadHops(codec, Elements(values))
  }

  lemma {:induction false} ReadHopsFails(codec: Codec, texts: seq<string>, more: seq<string>)
    requires ReadHops(codec, texts).None?
    ensures ReadHops(codec, texts + more).None?
  {
    hide ReadHop;
    if more == [] {
      assert texts + more == texts;
    } else {
      ReadHopsFails(codec, texts, more[..|more| - 1]);
      assert (texts + more)[..|texts + more| - 1] == texts + more[..|more| - 1];
    }
  }

  method ParseXForwardedFor(codec: Codec, values: seq<string>) returns (addresses: Option<seq<Addr>>)
    ensures addresses == Parsed(codec, values)
  {
    if |values| == 0 {
      return Some([]);
    }
    var read: seq<Addr> := [];
    for i := 0 to |values|
      invariant ReadHops(codec, Elements(values[..i])) == Some(read) && |read| <= MAX_FORWARDED_FOR_HOPS
    {
      assert values[..i + 1][..i] == values[..i];
      var parts := Split(TrimSpace(values[i]), ',');
      assert Elements(values[..i + 1]) == Elements(values[..i]) + parts;
      var more := AppendHops(codec, Elements(values[..i]), read, parts);
      if more.None? {
        GivenUp(codec, values, i + 1);
        return None;
      }
      read := more.value;
    }
    assert values[..|values|] == values;
    return Some(read);
  }

  /** What is wrong with the first `i` fields is wrong with all of them. */
  lemma GivenUp(codec: Codec, values: seq<string>, i: nat)
    requires i <= |values|
    requires |Elements(values[..i])| > MAX_FORWARDED_FOR_HOPS || ReadHops(codec, Elements(values[..i])).None?
    ensures Parsed(codec, values) == None
  {
    var rest := MoreElements(values, i);
    if |Elements(values)| <= MAX_FORWARDED_FOR_HOPS {
      ReadHopsFails(codec, Elements(values[..i]), rest);
    }
  }

  lemma {:induction false} MoreElements(values: seq<string>, i: nat) returns (rest: seq<string>)
    requires i <= |values|
    ensures Elements(values) == Elements(values[..i]) + rest
    decreases |values|
  {
    if i == |values| {
      assert values[..i] == values;
      rest := [];
    } else {
      rest := MoreElements(values[..|values| - 1], i);
      assert values[..|values| - 1][..i] == values[..i];
      rest := rest + Split(TrimSpace(values[|values| - 1]), ',');
    }
  }

  /** The inner loop: reads the elements of one field. */
  method AppendHops(codec: Codec, ghost earlier: seq<string>, read: seq<Addr>, parts: seq<string>)
    returns (addresses: Option<seq<Addr>>)
    requires ReadHops(codec, earlier) == Some(read) && |read| <= MAX_FORWARDED_FOR_HOPS
    ensures addresses == if |earlier + parts| > MAX_FORWARDED_FOR_HOPS then None else ReadHops(codec, earlier + parts)
  {
    hide ReadHop;
    assert earlier + parts[..0] == earlier;
    var list := read;
    for i := 0 to |parts|
      invariant ReadHops(codec, earlier + parts[..i]) == Some(list) && |list| <= MAX_FORWARDED_FOR_HOPS
    {
      assert (earlier + parts[..i + 1])[..|earlier| + i] == earlier + parts[..i];
      assert earlier + parts == (earlier + parts[..i + 1]) + parts[i + 1..];
      if |list| >= MAX_FORWARDED_FOR_HOPS {
        return None;
      }
      var hop := ReadHop(codec, parts[i]);
      if hop.None? {
        ReadHopsFails(codec, earlier + parts[..i + 1], parts[i + 1..]);
        return None;
      }
      list := list + [hop.value];
    }
    assert parts[..|parts|] == parts;
    return Some(list);
  }

  function ShowAll(codec: Codec, addresses: seq<Addr>): (texts: seq<string>)
    ensures |texts| == |addresses| && forall i :: 0 <= i < |texts| ==> texts[i] == codec.show(Unmap(addresses[i]))
  {
    seq(|addresses|, i requires 0 <= i < |addresses| => codec.show(Unmap(addresses[i])))
  }

  predicate Formattable(addresses: seq<Addr>) {
    |addresses| <= MAX_FORWARDED_FOR_HOPS + 1 && forall a :: a in addresses ==> !a.Invalid? && Zone(a) == ""
  }

  function Formatted(codec: Codec, addresses: seq<Addr>): Option<string> {
    if Formattable(addresses) then Some(Join(ShowAll(codec, addresses), ", ")) else None
  }

  method FormatXForwardedFor(codec: Codec, addresses: seq<Addr>) returns (text: Option<string>)
    ensures text == Formatted(codec, addresses)
    ensures text.Some? <==>
            |addresses| <= MAX_FORWARDED_FOR_HOPS + 1 && forall a :: a in addresses ==> !a.Invalid? && Zone(a) == ""
  {
    hide Unmap;
    if |addresses| == 0 {
      return Some("");
    }
    if |addresses| > MAX_FORWARDED_FOR_HOPS + 1 {
      return None;
    }
    var formatted: seq<string> := [];
    for i := 0 to |addresses|
      invariant formatted == ShowAll(codec, addresses[..i])
      invariant forall a :: a in addresses[..i] ==> !a.Invalid? && Zone(a) == ""
    {
      var addr := addresses[i];
      if addr.Invalid? {
        return None;
      }
      if Zone(addr) != "" {
        return None;
      }
      addr := Unmap(addr);
      formatted := formatted + [codec.show(addr)];
    }
    assert addresses[..|addresses|] == addresses;
    return Some(Join(formatted, ", "));
  }

  // ----- Printing and parsing again -----

  /** The list elements of a joined text: the first part, and the others after a space. */
  function Spaced(parts: seq<string>): (elements: seq<string>)
    ensures |elements| == |parts|
    ensures forall i :: 0 <= i < |parts| ==> elements[i] == if i == 0 then parts[0] else " " + parts[i]
  {
    seq(|parts|, i requires 0 <= i < |parts| => if i == 0 then parts[0] else " " + parts[i])
  }

  lemma {:induction false} SplitJoined(parts: seq<string>)
    requires parts != [] && forall p :: p in parts ==> ',' !in p
    ensures Split(Join(parts, ", "), ',') == Spaced(parts)
  {
    hide Split, Spaced;
    if |parts| == 1 {
      SplitWhole(parts[0], ',');
    } else {
      var tail := Join(parts[1..], ", ");
      assert parts[0] + ", " + tail == parts[0] + [','] + (" " + tail);
      SplitAtFirst(parts[0], " " + tail, ',');
      SplitJoined(parts[1..]);
      SplitSpace(tail);
      SpacedStep(parts);
    }
  }

  lemma SpacedStep(parts: seq<string>)
    requires |parts| > 1
    ensures var rest := Spaced(parts[1..]);
            Spaced(parts) == [parts[0]] + ([" " + rest[0]] + rest[1..])
  {
  }

  lemma SplitSpace(s: string)
    ensures Split(" " + s, ',') == [" " + Split(s, ',')[0]] + Split(s, ',')[1..]
  {
    assert (" " + s)[1..] == s;
  }

  /** Text without white space at its ends. */
  predicate Trimmed(s: string) {
    s != "" && !IsSpace(s[0]) && !IsSpace(s[|s| - 1])
  }

  lemma TrimIsIdentity(s: string)
    requires s != ""
    ensures TrimSpace(s) == s <==> Trimmed(s)
  {
    TrimLeftShrinks(s);
  }

  lemma {:induction false} TrimLeftShrinks(s: string)
    ensures |TrimLeft(s)| <= |s|
  {
    if s != "" && IsSpace(s[0]) {
      TrimLeftShrinks(s[1..]);
    }
  }

  lemma TrimSpaceInFront(s: string)
    requires Trimmed(s)
    ensures TrimSpace(" " + s) == s
  {
    assert (" " + s)[1..] == s && (" " + s)[0] == ' ';
    assert TrimLeft(" " + s) == TrimLeft(s);
  }

  lemma {:induction false} JoinedIsTrimmed(parts: seq<string>)
    requires parts != [] && forall p :: p in parts ==> Trimmed(p)
    ensures Trimmed(Join(parts, ", "))
  {
    assert Trimmed(parts[0]);
    if |parts| > 1 {
      JoinedIsTrimmed(parts[1..]);
      var tail := Join(parts[1..], ", ");
      var text := parts[0] + ", " + tail;
      assert text[|text| - 1] == tail[|tail| - 1];
    }
  }

  predicate AllPlain(chain: seq<Addr>) {
    forall a :: a in chain ==> Plain(a)
  }

  /** A chain of 1 to 32 plain addresses survives being printed and parsed again. */
  lemma ParseUndoesFormat(codec: Codec, chain: seq<Addr>)
    requires codec.Faithful() && AllPlain(chain) && 1 <= |chain| <= MAX_FORWARDED_FOR_HOPS
    ensures Formatted(codec, chain).Some? && Parsed(codec, [Formatted(codec, chain).value]) == Some(chain)
  {
    hide TrimSpace, Plain, Join, Split, Codec.Faithful, ReadHops, Elements, Trimmed, Unmap;
    var texts := ShowAll(codec, chain);
    var text := Join(texts, ", ");
    ShownWell(codec, chain);
    ElementsOfJoined(texts);
    ReadBack(codec, chain);
  }

  lemma ElementsOfJoined(texts: seq<string>)
    requires texts != [] && forall p :: p in texts ==> ',' !in p && Trimmed(p)
    ensures Elements([Join(texts, ", ")]) == Spaced(texts)
  {
    hide TrimSpace, Join, Split, Elements;
    var text := Join(texts, ", ");
    JoinedIsTrimmed(texts);
    TrimIsIdentity(text);
    SplitJoined(texts);
    OneValue(text);
  }

  lemma OneValue(value: string)
    ensures Elements([value]) == Split(TrimSpace(value), ',')
  {
    hide Split, TrimSpace;
    assert [value][..0] == [] && Elements([]) == [];
  }

  lemma ShownWell(codec: Codec, chain: seq<Addr>)
    requires codec.Faithful() && AllPlain(chain)
    ensures forall p :: p in ShowAll(codec, chain) ==> ',' !in p && Trimmed(p)
    ensures forall a :: a in chain ==> Unmap(a) == a && !a.Invalid? && Zone(a) == ""
  {
    hide TrimSpace;
    forall i | 0 <= i < |chain|
      ensures ',' !in ShowAll(codec, chain)[i] && Trimmed(ShowAll(codec, chain)[i])
    {
      assert chain[i] in chain;
      TrimIsIdentity(codec.show(chain[i]));
    }
  }

  lemma {:induction false} ReadEach(codec: Codec, elements: seq<string>, chain: seq<Addr>)
    requires |elements| == |chain|
    requires forall i :: 0 <= i < |chain| ==> ReadHop(codec, elements[i]) == Some(chain[i])
    ensures ReadHops(codec, elements) == Some(chain)
  {
    hide ReadHop;
    if chain != [] {
      ReadEach(codec, elements[..|chain| - 1], chain[..|chain| - 1]);
      assert chain == chain[..|chain| - 1] + [chain[|chain| - 1]];
    }
  }

  lemma ReadBack(codec: Codec, chain: seq<Addr>)
    requires codec.Faithful() && AllPlain(chain)
    ensures ReadHops(codec, Spaced(ShowAll(codec, chain))) == Some(chain)
  {
    hide Plain, Codec.Faithful, ReadHop, Unmap;
    var elements := Spaced(ShowAll(codec, chain));
    forall i | 0 <= i < |chain| ensures ReadHop(codec, elements[i]) == Some(chain[i]) {
      PlainIsUnmapped(chain[i]);
      ReadOneBack(codec, chain[i], elements[i]);
    }
    ReadEach(codec, elements, chain);
  }

  lemma PlainIsUnmapped(a: Addr)
    requires Plain(a)
    ensures Unmap(a) == a
  {
  }

  lemma ReadOneBack(codec: Codec, a: Addr, element: string)
    requires codec.Faithful() && Plain(a) && (element == codec.show(a) || element == " " + codec.show(a))
    ensures ReadHop(codec, element) == Some(a)
  {
    TrimIsIdentity(codec.show(a));
    TrimSpaceInFront(codec.show(a));
  }

  // ----- One proxy -----

  /** The result of netip.ParseAddrPort on a connection's remote address. */
  datatype AddrPort = AddrPort(addr: Addr, port: nat)

  function RemoteIP(parsed: Option<AddrPort>): (remote: Option<Addr>)
  {
    if parsed.None? || parsed.value.port == 0 then None else Some(WithoutZone(parsed.value.addr))
  }

  /** The chain that a proxy sends on; its peer is `remote`. */
  function Outbound(codec: Codec, remote: Addr, values: seq<string>, cidrs: seq<Prefix>): seq<Addr> {
    var parsed := if Trusted(remote, cidrs) then Parsed(codec, values) else None;
    Sanitized(remote, if parsed.Some? then parsed.value else [], cidrs)
  }

  /** The outbound header field: its value, or None if it is deleted. */
  method SetXForwardedFor(codec: Codec, peer: Option<AddrPort>, values: seq<string>, cidrs: seq<Prefix>)
    returns (field: Option<string>)
    requires codec.Faithful() && (peer.Some? ==> !peer.value.addr.Invalid?)
    ensures field.Some? <==> peer.Some? && peer.value.port != 0
    ensures field.Some? ==>
              var remote := WithoutZone(peer.value.addr);
              field == Formatted(codec, Outbound(codec, remote, values, cidrs)) &&
              EndsIn(field.value, codec.show(Unmap(remote))) &&
              (!Trusted(remote, cidrs) ==> field.value == codec.show(Unmap(remote)))
  {
    hide Trusted, Sanitized, Parsed, Formatted, Unmap, Codec.Faithful, EndsIn;
    var remote := RemoteIP(peer);
    if remote.None? {
      return None;
    }
    OutboundFormats(codec, remote.value, values, cidrs);
    OutboundEndsInPeer(codec, remote.value, values, cidrs);
    var parsedForwardedFor: seq<Addr> := [];
    var trusted := IsTrustedProxy(remote.value, cidrs);
    if trusted {
      var parsed := ParseXForwardedFor(codec, values);
      if parsed.Some? {
        parsedForwardedFor := parsed.value;
      }
    }
    var sanitized := SanitizeXForwardedFor(remote.value, parsedForwardedFor, cidrs);
    var formatted := FormatXForwardedFor(codec, sanitized);
    if formatted.None? || formatted.value == "" {
      return None;
    }
    return formatted;
  }

  /** `last` is the last element of the list `text`. */
  predicate EndsIn(text: string, last: string) {
    text == last || HasSuffix(text, ", " + last)
  }

  /** What is sent on ends in the peer's own address, and is nothing else for a peer that is not
      trusted. */
  lemma OutboundEndsInPeer(codec: Codec, remote: Addr, values: seq<string>, cidrs: seq<Prefix>)
    requires codec.Faithful() && !remote.Invalid? && Zone(remote) == ""
    requires Formatted(codec, Outbound(codec, remote, values, cidrs)).Some?
    ensures var text := Formatted(codec, Outbound(codec, remote, values, cidrs)).value;
            EndsIn(text, codec.show(Unmap(remote))) &&
            (!Trusted(remote, cidrs) ==> text == codec.show(Unmap(remote)))
  {
    BehindTheEdge(codec, remote, values, cidrs);
    UnmapIsPlain(remote);
    PlainIsUnmapped(Unmap(remote));
    hide Trusted, Plain, Unmap, Codec.Faithful, Parsed, Join;
    var c := Outbound(codec, remote, values, cidrs);
    LastShown(codec, c);
  }

  lemma LastShown(codec: Codec, c: seq<Addr>)
    requires c != []
    ensures EndsIn(Join(ShowAll(codec, c), ", "), codec.show(Unmap(c[|c| - 1])))
    ensures |c| == 1 ==> Join(ShowAll(codec, c), ", ") == codec.show(Unmap(c[0]))
  {
    hide Unmap;
    var texts := ShowAll(codec, c);
    var front, last := texts[..|c| - 1], texts[|c| - 1];
    assert texts == front + [last];
    if |c| > 1 {
      JoinAppend(front, [last], ", ");
      var before := Join(front, ", ");
      assert before + ", " + last == before + (", " + last);
    }
  }

  /** A chain that a proxy sends on always has a text: the parser admits 32 hops, the formatter
      33, and neither lets a zone through. */
  lemma OutboundFormats(codec: Codec, remote: Addr, values: seq<string>, cidrs: seq<Prefix>)
    requires codec.Faithful() && !remote.Invalid? && Zone(remote) == ""
    ensures var c := Outbound(codec, remote, values, cidrs);
            AllPlain(c) && 1 <= |c| <= MAX_FORWARDED_FOR_HOPS + 1 &&
            Formatted(codec, c).Some? && Formatted(codec, c).value != ""
  {
    hide Trusted, Parsed, Sanitized, Plain, Unmap, Codec.Faithful, Join, Trimmed, Shaped;
    var parsed := if Trusted(remote, cidrs) then Parsed(codec, values) else None;
    var chain := if parsed.Some? then parsed.value else [];
    var start := SanitizedShape(remote, chain, cidrs);
    var c := Sanitized(remote, chain, cidrs);
    ShapedIsPlain(c, remote, chain, cidrs, start);
    ShownWell(codec, c);
    JoinedIsTrimmed(ShowAll(codec, c));
  }

  lemma ShapedIsPlain(c: seq<Addr>, remote: Addr, chain: seq<Addr>, cidrs: seq<Prefix>, start: nat)
    requires Shaped(c, remote, chain, cidrs, start) && AllPlain(chain) && !remote.Invalid? && Zone(remote) == ""
    ensures AllPlain(c) && c != [] && c == chain[start..] + [Unmap(remote)]
  {
    UnmapIsPlain(remote);
    hide Trusted, Unmap;
    forall i | start <= i < |chain| ensures Plain(chain[i]) {
      assert chain[i] in chain;
    }
    assert UnmapAll(chain[start..]) == chain[start..];
  }

  // ----- Several proxies -----

  /** The field that carries the chain `c` to the next proxy. */
  function Field(codec: Codec, c: seq<Addr>): seq<string> {
    match Formatted(codec, c)
    case None => []
    case Some(text) => [text]
  }

  /** What a proxy whose peer is `next` makes of the chain `c`. */
  function Relayed(codec: Codec, c: seq<Addr>, next: Addr, cidrs: seq<Prefix>): seq<Addr> {
    Outbound(codec, next, Field(codec, c), cidrs)
  }

  /** A trusted hop cuts a chain at the edge of trust; a chain of 33 it does not read at all. */
  lemma RelayedChain(codec: Codec, c: seq<Addr>, next: Addr, cidrs: seq<Prefix>)
    requires codec.Faithful() && AllPlain(c) && 1 <= |c| <= MAX_FORWARDED_FOR_HOPS + 1
    requires !next.Invalid? && Trusted(next, cidrs)
    ensures Relayed(codec, c, next, cidrs) ==
            (if |c| <= MAX_FORWARDED_FOR_HOPS then c[Start(c, cidrs)..] else []) + [Unmap(next)]
  {
    hide Trusted, Plain, Codec.Faithful, Join, Split, Start, ReadHops, Elements;
    ShownWell(codec, c);
    ElementsOfJoined(ShowAll(codec, c));
    hide Unmap;
    if |c| <= MAX_FORWARDED_FOR_HOPS {
      ParseUndoesFormat(codec, c);
      assert UnmapAll(c[Start(c, cidrs)..]) == c[Start(c, cidrs)..];
    } else {
      assert UnmapAll([]) == [];
    }
  }

  /** A trusted hop keeps the whole of a chain exactly if the chain fits the parser and the
      peer that ended it is trusted in its unmapped form too. */
  lemma FurtherHop(codec: Codec, first: Addr, values: seq<string>, next: Addr, cidrs: seq<Prefix>)
    requires codec.Faithful() && !first.Invalid? && Zone(first) == ""
    requires !next.Invalid? && Trusted(next, cidrs)
    ensures var c := Outbound(codec, first, values, cidrs);
            Relayed(codec, c, next, cidrs) == c + [Unmap(next)] <==>
            |c| <= MAX_FORWARDED_FOR_HOPS && (|c| == 1 || Trusted(Unmap(first), cidrs))
  {
    hide Trusted, TrustedBehind, AllPlain, Unmap, Codec.Faithful, Formatted, Outbound, Relayed, Start;
    var c := Outbound(codec, first, values, cidrs);
    OutboundFormats(codec, first, values, cidrs);
    BehindTheEdge(codec, first, values, cidrs);
    RelayedChain(codec, c, next, cidrs);
    WholeIfTrusted(c, cidrs);
    PeerDecides(c, cidrs);
    SameFront(if |c| <= MAX_FORWARDED_FOR_HOPS then c[Start(c, cidrs)..] else [], c, Unmap(next));
  }

  lemma PeerDecides(c: seq<Addr>, cidrs: seq<Prefix>)
    requires c != [] && TrustedBehind(c, cidrs, |c| - 1)
    ensures TrustedBehind(c, cidrs, |c|) <==> |c| == 1 || Trusted(c[|c| - 1], cidrs)
  {
    hide Trusted;
  }

  /** Of the first `n` addresses, all but the very first are trusted. */
  predicate TrustedBehind(c: seq<Addr>, cidrs: seq<Prefix>, n: nat)
    requires n <= |c|
  {
    forall i :: 0 < i < n ==> Trusted(c[i], cidrs)
  }

  /** Of a chain sent on, all but the first address and the peer are trusted. */
  lemma BehindTheEdge(codec: Codec, first: Addr, values: seq<string>, cidrs: seq<Prefix>)
    requires codec.Faithful() && !first.Invalid? && Zone(first) == ""
    ensures var c := Outbound(codec, first, values, cidrs);
            c != [] && c[|c| - 1] == Unmap(first) && TrustedBehind(c, cidrs, |c| - 1)
  {
    hide Trusted, Plain, Unmap, Codec.Faithful, Parsed, Sanitized, Start;
    var parsed := if Trusted(first, cidrs) then Parsed(codec, values) else None;
    var chain := if parsed.Some? then parsed.value else [];
    var c := Outbound(codec, first, values, cidrs);
    var start := SanitizedShape(first, chain, cidrs);
    ShapedIsPlain(c, first, chain, cidrs, start);
    forall i | 0 < i < |c| - 1 ensures Trusted(c[i], cidrs) {
      assert c[i] == chain[start + i];
    }
  }

  lemma SameFront(a: seq<Addr>, b: seq<Addr>, last: Addr)
    ensures a + [last] == b + [last] <==> a == b
  {
    assert (a + [last])[..|a + [last]| - 1] == a && (b + [last])[..|b + [last]| - 1] == b;
  }

  lemma WholeIfTrusted(c: seq<Addr>, cidrs: seq<Prefix>)
    requires c != []
    ensures c[Start(c, cidrs)..] == c <==> TrustedBehind(c, cidrs, |c|)
  {
    hide Trusted;
    var start := Start(c, cidrs);
    assert |c[start..]| == |c| - start;
    assert c[0..] == c;
  }

  /** A chain after further hops. */
  function Relays(codec: Codec, c: seq<Addr>, peers: seq<Addr>, cidrs: seq<Prefix>): seq<Addr> {
    if peers == [] then c
    else Relayed(codec, Relays(codec, c, peers[..|peers| - 1], cidrs), peers[|peers| - 1], cidrs)
  }

  predicate TrustedEitherWay(p: Addr, cidrs: seq<Prefix>) {
    Zone(p) == "" && Trusted(p, cidrs) && Trusted(Unmap(p), cidrs)
  }

  /** A plain chain in which everything behind the first address is trusted. */
  predicate Whole(c: seq<Addr>, cidrs: seq<Prefix>) {
    c != [] && AllPlain(c) && TrustedBehind(c, cidrs, |c|)
  }

  /** Behind any number of trusted hops, up to 33 addresses in all, nothing is lost. */
  lemma {:induction false} HopsAccumulate(codec: Codec, c: seq<Addr>, peers: seq<Addr>, cidrs: seq<Prefix>)
    requires codec.Faithful() && Whole(c, cidrs) && |c| + |peers| <= MAX_FORWARDED_FOR_HOPS + 1
    requires forall p :: p in peers ==> TrustedEitherWay(p, cidrs)
    ensures Relays(codec, c, peers, cidrs) == c + UnmapAll(peers) && Whole(c + UnmapAll(peers), cidrs)
  {
    hide Whole, TrustedEitherWay, Unmap, Codec.Faithful, Relayed;
    if peers == [] {
      assert c + UnmapAll(peers) == c;
    } else {
      var front, last := peers[..|peers| - 1], peers[|peers| - 1];
      HopsAccumulate(codec, c, front, cidrs);
      OneMoreHop(codec, c + UnmapAll(front), last, cidrs);
      assert c + UnmapAll(peers) == c + UnmapAll(front) + [Unmap(last)];
    }
  }

  /** What a proxy sends on is whole, so that HopsAccumulate applies from there. */
  lemma OutboundIsWhole(codec: Codec, first: Addr, values: seq<string>, cidrs: seq<Prefix>)
    requires codec.Faithful() && !first.Invalid? && TrustedEitherWay(first, cidrs)
    ensures Whole(Outbound(codec, first, values, cidrs), cidrs)
  {
    hide Trusted, Plain, Unmap, Codec.Faithful, Outbound;
    OutboundFormats(codec, first, values, cidrs);
    BehindTheEdge(codec, first, values, cidrs);
  }

  lemma OneMoreHop(codec: Codec, c: seq<Addr>, next: Addr, cidrs: seq<Prefix>)
    requires codec.Faithful() && Whole(c, cidrs) && |c| <= MAX_FORWARDED_FOR_HOPS && TrustedEitherWay(next, cidrs)
    ensures Relayed(codec, c, next, cidrs) == c + [Unmap(next)] && Whole(c + [Unmap(next)], cidrs)
  {
    assert !next.Invalid?;
    UnmapIsPlain(next);
    WholeAppend(c, Unmap(next), cidrs);
    hide Trusted, AllPlain, Plain, Unmap, Codec.Faithful, Relayed, Start;
    RelayedChain(codec, c, next, cidrs);
    WholeIfTrusted(c, cidrs);
  }

  lemma WholeAppend(c: seq<Addr>, a: Addr, cidrs: seq<Prefix>)
    requires Whole(c, cidrs) && Plain(a) && Trusted(a, cidrs)
    ensures Whole(c + [a], cidrs)
  {
    hide Trusted, Plain;
  }

  /** Why the unmapped form matters: with the mapped range itself as the only trusted prefix, a
      mapped peer is trusted, but not the address it is written down as, so that the next
      trusted hop drops what came before. */
  lemma MappedPrefixLosesChain(codec: Codec)
    returns (first: Addr, values: seq<string>, next: Addr, cidrs: seq<Prefix>)
    requires codec.Faithful()
    ensures Zone(first) == "" && Trusted(first, cidrs) && Trusted(next, cidrs)
    ensures var c := Outbound(codec, first, values, cidrs);
            |c| == 2 && Relayed(codec, c, next, cidrs) == [Unmap(first), Unmap(next)]
  {
    hide Codec.Faithful, Parsed, Formatted, Field;
    var zeros: Bits32 := seq(32, _ => false);
    var client := V4(zeros);
    first := V6(Mapped() + zeros, "");
    next := first;
    var prefix := Prefix(first, 96);
    cidrs := [prefix];
    assert Contains(prefix, first) && prefix in cidrs;
    assert first.wide[..96] == Mapped() && first.wide[96..] == zeros;
    assert !Trusted(client, cidrs);
    ParseUndoesFormat(codec, [client]);
    values := [Formatted(codec, [client]).value];
    assert UnmapAll([client]) == [client] && [client][0..] == [client];
    assert Outbound(codec, first, values, cidrs) == [client, client];
    RelayedChain(codec, [client, client], next, cidrs);
    assert [client, client][1..] == [client];
  }

  // ----- Faithful codecs exist -----

  function Digits(bits: seq<bool>): (text: string)
    ensures |text| == |bits| && forall i :: 0 <= i < |bits| ==> text[i] == if bits[i] then '1' else '0'
  {
    seq(|bits|, i requires 0 <= i < |bits| => if bits[i] then '1' else '0')
  }

  function BitsOf(text: string): (bits: seq<bool>)
    ensures |bits| == |text|
  {
    seq(|text|, i requires 0 <= i < |text| => text[i] == '1')
  }

  /** Addresses in binary: not the text form of net/netip, but enough to show that asking for a
      faithful codec is not asking for the impossible. */
  function Binary(): Codec {
    Codec(
      (s: string) =>
        if |s| == 33 then Some(V4(BitsOf(s[1..])))
        else if |s| == 129 then Some(V6(BitsOf(s[1..]), ""))
        else None,
      (a: Addr) =>
        match a
        case Invalid => ""
        case V4(bits) => "4" + Digits(bits)
        case V6(wide, _) => "6" + Digits(wide))
  }

  lemma BinaryIsFaithful()
    ensures Binary().Faithful()
  {
    forall a | Plain(a)
      ensures var s := Binary().show(a); Binary().parse(s) == Some(a) && s != "" && ',' !in s && TrimSpace(s) == s
    {
      BinaryText(if a.V4? then '4' else '6', if a.V4? then a.bits else a.wide);
    }
  }

  lemma BinaryText(family: char, bits: seq<bool>)
    requires family == '4' || family == '6'
    ensures var s := [family] + Digits(bits);
            BitsOf(s[1..]) == bits && |s| == |bits| + 1 && ',' !in s && TrimSpace(s) == s
  {
    var s := [family] + Digits(bits);
    assert s[1..] == Digits(bits) && BitsOf(Digits(bits)) == bits;
    assert forall i :: 0 <= i < |s| ==> s[i] in "0146";
    TrimIsIdentity(s);
  }
}
