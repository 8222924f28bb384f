/** Endpoints and addresses of either family as text, and the dispatch between the families. */
module Endpoints {
  import opened Text
  import Ipv4
  import Ipv6

  datatype Ipv4Endpoint = Ipv4Endpoint(address: Ipv4.Address, port: nat)

  datatype Ipv6Endpoint = Ipv6Endpoint(address: seq<Ipv6.Group>, port: nat)

  datatype IpAddress = V4Address(v4: Ipv4.Address) | V6Address(v6: seq<Ipv6.Group>)

  datatype IpEndpoint = V4Endpoint(v4: Ipv4Endpoint) | V6Endpoint(v6: Ipv6Endpoint)

  /** `DottedTail` as for IPv6 addresses: outside of the model. */
  datatype Outcome<T> = NotValid | DottedTail | Parsed(value: T)

  predicate IsV6(address: seq<Ipv6.Group>)
  {
    |address| == 8
  }

  // ---------------------------------------------------------------- the texts

  function PrintV4(e: Ipv4Endpoint): string
  {
    Ipv4.ToString(e.address) + [':'] + Decimal(e.port)
  }

  function PrintV6(e: Ipv6Endpoint): string
    requires IsV6(e.address)
  {
    ['['] + Ipv6.ToString(e.address) + [']', ':'] + Decimal(e.port)
  }

  function ParseV4(s: string): Option<Ipv4Endpoint>
  {
    var colonPos := Find(s, ':', 0);
    if colonPos == |s| then None
    else
      match Ipv4.Parse(s[..colonPos])
      case None => None
      case Some(address) =>
        match PortOf(s[colonPos + 1..])
        case None => None
        case Some(port) => Some(Ipv4Endpoint(address, port))
  }

  /** The first "]:" at or behind `i`, or the length. */
  function FindClose(s: string, i: nat): (r: nat)
    requires i <= |s|
    ensures i <= r <= |s| && (r < |s| ==> r + 1 < |s| && s[r] == ']' && s[r + 1] == ':')
    ensures forall k :: i <= k < r && k + 1 < |s| ==> !(s[k] == ']' && s[k + 1] == ':')
    decreases |s| - i
  {
    if i + 1 >= |s| then |s| else if s[i] == ']' && s[i + 1] == ':' then i else FindClose(s, i + 1)
  }

  function ParseV6(s: string): Outcome<Ipv6Endpoint>
  {
    if |s| < 6 || s[0] != '[' then NotValid
    else
      var close := FindClose(s, 1);
      if close == |s| then NotValid
      else
        match Ipv6.Parse(s[1..close])
        case NotAnAddress => NotValid
        case DottedTail => DottedTail
        case Parsed(address) =>
          match PortOf(s[close + 2..])
          case None => NotValid
          case Some(port) => Parsed(Ipv6Endpoint(address, port))
  }

  function PrintEndpoint(e: IpEndpoint): string
    requires e.V6Endpoint? ==> IsV6(e.v6.address)
  {
    match e
    case V4Endpoint(v4) => PrintV4(v4)
    case V6Endpoint(v6) => PrintV6(v6)
  }

  function ParseEndpoint(s: string): Outcome<IpEndpoint>
  {
    match ParseV4(s)
    case Some(v4) => Parsed(V4Endpoint(v4))
    case None =>
      match ParseV6(s)
      case Parsed(v6) => Parsed(V6Endpoint(v6))
      case DottedTail => DottedTail
      case NotValid => NotValid
  }

  function PrintAddress(a: IpAddress): string
    requires a.V6Address? ==> IsV6(a.v6)
  {
    match a
    case V4Address(v4) => Ipv4.ToString(v4)
    case V6Address(v6) => Ipv6.ToString(v6)
  }

  function ParseAddress(s: string): Outcome<IpAddress>
  {
    match Ipv4.Parse(s)
    case Some(v4) => Parsed(V4Address(v4))
    case None =>
      match Ipv6.Parse(s)
      case Parsed(v6) => Parsed(V6Address(v6))
      case DottedTail => DottedTail
      case NotAnAddress => NotValid
  }

  // ---------------------------------------------------------------- the characters of printed texts

  predicate InV4Text(c: char)
  {
    IsDigit(c) || c == '.'
  }

  lemma {:induction false} DottedCharacters(bytes: seq<Ipv4.Byte>)
    ensures forall c :: c in Ipv4.Dotted(bytes) ==> InV4Text(c)
  {
    if bytes != [] {
      DottedCharacters(bytes[1..]);
    }
  }

  lemma V4Characters(a: Ipv4.Address)
    ensures forall c :: c in Ipv4.ToString(a) ==> InV4Text(c)
    ensures Ipv4.ToString(a) != []
  {
    DottedCharacters(Ipv4.Bytes(a)[1..]);
  }

  predicate InV6Text(c: char)
  {
    Ipv6.IsHex(c) || c == ':'
  }

  lemma {:induction false} JoinCharacters(gs: seq<string>)
    requires Ipv6.AllGroups(gs)
    ensures forall c :: c in Ipv6.Join(gs) ==> InV6Text(c)
    ensures |gs| > 1 ==> ':' in Ipv6.Join(gs)
  {
    if gs != [] {
      Ipv6.JoinUnfolds(gs);
      JoinCharacters(gs[1..]);
      assert forall i :: 0 <= i < |gs[0]| ==> Ipv6.IsHex(gs[0][i]);
    }
  }

  lemma V6Characters(address: seq<Ipv6.Group>)
    requires IsV6(address)
    ensures var s := Ipv6.ToString(address); (forall c :: c in s ==> InV6Text(c)) && ':' in s && |s| >= 2
  {
    hide Ipv6.LongestRun, Ipv6.Join, Ipv6.Texts, Ipv6.AllGroups;
    var (start, length) := Ipv6.LongestRun(address, 8);
    if length >= 2 {
      Ipv6.ValuesOfTexts(address[..start]);
      Ipv6.ValuesOfTexts(address[start + length..]);
      JoinCharacters(Ipv6.Texts(address[..start]));
      JoinCharacters(Ipv6.Texts(address[start + length..]));
    } else {
      Ipv6.ValuesOfTexts(address);
      JoinCharacters(Ipv6.Texts(address));
      Ipv6.JoinUnfolds(Ipv6.Texts(address));
    }
  }

  // ---------------------------------------------------------------- round trips

  lemma V4EndpointRoundTrip(e: Ipv4Endpoint)
    requires e.port <= MAX_PORT
    ensures ParseV4(PrintV4(e)) == Some(e)
  {
    hide Ipv4.ToString, Ipv4.Parse, Decimal, PortOf;
    var address, port := Ipv4.ToString(e.address), Decimal(e.port);
    V4Characters(e.address);
    FindInJoin(address, ':', port);
    Ipv4.RoundTrip(e.address);
    PortRoundTrip(e.port);
    var s := PrintV4(e);
    assert s[..|address|] == address && s[|address| + 1..] == port;
  }

  lemma CloseIsFound(front: string, back: string)
    requires ']' !in front
    ensures var s := ['['] + front + [']', ':'] + back;
            FindClose(s, 1) == |front| + 1 && s[1..|front| + 1] == front && s[|front| + 3..] == back
  {
    var s := ['['] + front + [']', ':'] + back;
    var n := |front| + 1;
    assert s[n] == ']' && s[n + 1] == ':';
    assert forall k :: 1 <= k < n ==> s[k] == front[k - 1];
  }

  lemma V6EndpointRoundTrip(e: Ipv6Endpoint)
    requires IsV6(e.address) && e.port <= MAX_PORT
    ensures ParseV6(PrintV6(e)) == Parsed(e)
  {
    hide Ipv6.ToString, Ipv6.Parse, Decimal, PortOf;
    V6Characters(e.address);
    CloseIsFound(Ipv6.ToString(e.address), Decimal(e.port));
    Ipv6.RoundTrip(e.address);
    PortRoundTrip(e.port);
  }

  /** No text of an IPv6 endpoint is taken for one of an IPv4 endpoint. */
  lemma V6EndpointIsNotV4(e: Ipv6Endpoint)
    requires IsV6(e.address)
    ensures ParseV4(PrintV6(e)) == None
  {
    var s := PrintV6(e);
    var colonPos := Find(s, ':', 0);
    assert s[0] == '[';
    if 0 < colonPos < |s| {
      assert s[..colonPos][0] == '[';
    }
  }

  /** Every endpoint of either family is read back as it was, by way of the dispatch. */
  lemma EndpointRoundTrip(e: IpEndpoint)
    requires match e case V4Endpoint(v4) => v4.port <= MAX_PORT case V6Endpoint(v6) => IsV6(v6.address) && v6.port <= MAX_PORT
    ensures ParseEndpoint(PrintEndpoint(e)) == Parsed(e)
  {
    hide ParseV4, ParseV6, PrintV4, PrintV6;
    match e {
      case V4Endpoint(v4) => V4EndpointRoundTrip(v4);
      case V6Endpoint(v6) =>
        V6EndpointIsNotV4(v6);
        V6EndpointRoundTrip(v6);
    }
  }

  /** No printed IPv6 address is taken for an IPv4 address. */
  lemma V6AddressIsNotV4(address: seq<Ipv6.Group>)
    requires IsV6(address)
    ensures Ipv4.Parse(Ipv6.ToString(address)) == None
  {
    hide Ipv4.Parse, Ipv4.ToString, Ipv6.ToString;
    var s := Ipv6.ToString(address);
    V6Characters(address);
    if Ipv4.Parse(s).Some? {
      var a := Ipv4.Parse(s).value;
      Ipv4.AcceptedTexts(s, a);
      V4Characters(a);
    }
  }

  /** Every address of either family is read back as it was, by way of the dispatch. */
  lemma AddressRoundTrip(a: IpAddress)
    requires a.V6Address? ==> IsV6(a.v6)
    ensures ParseAddress(PrintAddress(a)) == Parsed(a)
  {
    hide Ipv4.Parse, Ipv4.ToString, Ipv6.Parse, Ipv6.ToString;
    match a {
      case V4Address(v4) => Ipv4.RoundTrip(v4);
      case V6Address(v6) =>
        V6AddressIsNotV4(v6);
        Ipv6.RoundTrip(v6);
    }
  }

  // ---------------------------------------------------------------- what the parsers accept

  /** An IPv4 address, a colon and a port. */
  ghost predicate IsV4Text(s: string, address: string, port: string, e: Ipv4Endpoint)
  {
    s == address + [':'] + port && Ipv4.Parse(address) == Some(e.address) && PortOf(port) == Some(e.port)
  }

  ghost predicate DenotesV4(s: string, e: Ipv4Endpoint)
  {
    exists address: string, port: string :: IsV4Text(s, address, port, e)
  }

  /** The search for a colon finds the one between an address and a port: no address contains any. */
  lemma V4ParserIsExact(s: string, e: Ipv4Endpoint)
    ensures ParseV4(s) == Some(e) <==> DenotesV4(s, e)
  {
    hide Ipv4.Parse, PortOf;
    if ParseV4(s) == Some(e) {
      var k := Find(s, ':', 0);
      assert s == s[..k] + [':'] + s[k + 1..];
      assert IsV4Text(s, s[..k], s[k + 1..], e);
    }
    if DenotesV4(s, e) {
      var address: string, port: string :| IsV4Text(s, address, port, e);
      AcceptedV4Characters(address);
      FindInJoin(address, ':', port);
      assert s[..|address|] == address && s[|address| + 1..] == port;
    }
  }

  lemma AcceptedV4Characters(s: string)
    requires Ipv4.Parse(s).Some?
    ensures forall c :: c in s ==> InV4Text(c)
  {
    hide Ipv4.Parse, Ipv4.ToString, DecimalValue;
    var a := Ipv4.Parse(s).value;
    Ipv4.AcceptedTexts(s, a);
    V4Characters(a);
  }

  /** An IPv6 address in brackets, a colon and a port. */
  ghost predicate IsV6Text(s: string, address: string, port: string, e: Ipv6Endpoint)
  {
    s == ['['] + address + [']', ':'] + port && Ipv6.Parse(address) == Ipv6.Parsed(e.address) && PortOf(port) == Some(e.port)
  }

  ghost predicate DenotesV6(s: string, e: Ipv6Endpoint)
  {
    exists address: string, port: string :: IsV6Text(s, address, port, e)
  }

  /** Likewise for the search for the closing bracket; and no endpoint is shorter than six characters. */
  lemma V6ParserIsExact(s: string, e: Ipv6Endpoint)
    ensures ParseV6(s) == Parsed(e) <==> DenotesV6(s, e)
  {
    hide Ipv6.Parse, PortOf;
    if ParseV6(s) == Parsed(e) {
      var k := FindClose(s, 1);
      assert s == ['['] + s[1..k] + [']', ':'] + s[k + 2..];
      assert IsV6Text(s, s[1..k], s[k + 2..], e);
    }
    if DenotesV6(s, e) {
      var address: string, port: string :| IsV6Text(s, address, port, e);
      AcceptedV6Characters(address);
      PortIsNotEmpty(port);
      CloseIsFound(address, port);
    }
  }

  lemma PortIsNotEmpty(s: string)
    requires PortOf(s).Some?
    ensures s != []
  {
  }

  lemma AcceptedV6Characters(s: string)
    requires Ipv6.Parse(s).Parsed?
    ensures |s| >= 2 && forall c :: c in s ==> InV6Text(c)
  {
    hide Ipv6.Parse, Ipv6.Join, Ipv6.AllGroups, Ipv6.Values;
    var address := Ipv6.Parse(s).address;
    Ipv6.ParserIsExact(s, address);
    if gs: seq<string> :| Ipv6.IsFull(s, gs, address) {
      JoinCharacters(gs);
      Ipv6.JoinUnfolds(gs);
    } else {
      var pre: seq<string>, post: seq<string> :| Ipv6.IsCompressed(s, pre, post, address);
      JoinCharacters(pre);
      JoinCharacters(post);
    }
  }

  // ---------------------------------------------------------------- the program's functions

  method V4ToString(e: Ipv4Endpoint) returns (s: string)
    ensures s == PrintV4(e)
    ensures e.port <= MAX_PORT ==> ParseV4(s) == Some(e)
  {
    if e.port <= MAX_PORT {
      V4EndpointRoundTrip(e);
    }
    s := Ipv4.Print(e.address);
    s := s + [':'];
    s := s + Decimal(e.port);
  }

  method V4FromString(s: string) returns (r: Option<Ipv4Endpoint>)
    ensures r == ParseV4(s)
    ensures forall e :: r == Some(e) <==> DenotesV4(s, e)
  {
    hide DenotesV4;
    forall e: Ipv4Endpoint
      ensures ParseV4(s) == Some(e) <==> DenotesV4(s, e)
    {
      V4ParserIsExact(s, e);
    }
    var colonPos := Find(s, ':', 0);
    if colonPos == |s| {
      return None;
    }
    var address := Ipv4.FromString(s[..colonPos]);
    if address.None? {
      return None;
    }
    var port := ParsePort(s[colonPos + 1..]);
    if port.None? {
      return None;
    }
    return Some(Ipv4Endpoint(address.value, port.value));
  }

  method V6ToString(e: Ipv6Endpoint) returns (s: string)
    requires IsV6(e.address)
    ensures s == PrintV6(e)
    ensures e.port <= MAX_PORT ==> ParseEndpoint(s) == Parsed(V6Endpoint(e))
  {
    if e.port <= MAX_PORT {
      EndpointRoundTrip(V6Endpoint(e));
    }
    s := ['['];
    var address := Ipv6.Print(e.address);
    s := s + address;
    s := s + [']', ':'];
    s := s + Decimal(e.port);
  }

  method V6FromString(s: string) returns (r: Outcome<Ipv6Endpoint>)
    ensures r == ParseV6(s)
    ensures forall e :: r == Parsed(e) <==> DenotesV6(s, e)
  {
    hide DenotesV6;
    forall e: Ipv6Endpoint
      ensures ParseV6(s) == Parsed(e) <==> DenotesV6(s, e)
    {
      V6ParserIsExact(s, e);
    }
    if |s| < 6 {
      return NotValid;
    }
    if s[0] != '[' {
      return NotValid;
    }
    var closeBracketPos := FindClose(s, 1);
    if closeBracketPos == |s| {
      return NotValid;
    }
    var address := Ipv6.FromString(s[1..closeBracketPos]);
    if address.DottedTail? {
      return DottedTail;
    } else if !address.Parsed? {
      return NotValid;
    }
    var port := ParsePort(s[closeBracketPos + 2..]);
    if port.None? {
      return NotValid;
    }
    return Parsed(Ipv6Endpoint(address.address, port.value));
  }
}
