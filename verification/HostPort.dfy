/**
 The client's -server flag (cmd/client/main.go), which net.SplitHostPort cuts into host and port, and the
 addresses that internal/config/config.go builds from a host and a port.
 */
module HostPort {
  import opened Common
  import opened PortNumber

  /** strings.IndexByte. */
  function FirstIndex(s: string, c: char): (r: Option<nat>)
    ensures r.None? ==> c !in s
    ensures r.Some? ==> r.value < |s| && s[r.value] == c && forall k :: 0 <= k < r.value ==> s[k] != c
  {
    if s == "" then None
    else if s[0] == c then Some(0)
    else
      var r := FirstIndex(s[1..], c);
      assert forall k :: 1 <= k < |s| ==> s[k] == s[1..][k - 1];
      if r.Some? then Some(r.value + 1) else None
  }

  /** strings.LastIndexByte. */
  function LastIndex(s: string, c: char): (r: Option<nat>)
    ensures r.None? ==> c !in s
    ensures r.Some? ==> r.value < |s| && s[r.value] == c && forall k :: r.value < k < |s| ==> s[k] != c
  {
    if s == "" then None
    else if s[|s| - 1] == c then Some(|s| - 1)
    else LastIndex(s[..|s| - 1], c)
  }

  /** net.SplitHostPort; None stands for each of its errors. */
  function SplitHostPort(hostport: string): Option<(string, string)> {
    match LastIndex(hostport, ':')
    case None => None
    case Some(i) =>
      if hostport[0] == '[' then
        match FirstIndex(hostport, ']')
        case None => None
        case Some(end) =>
          if end + 1 != i || '[' in hostport[1..] || ']' in hostport[end + 1..] then None
          else Some((hostport[1..end], hostport[i + 1..]))
      else if ':' in hostport[..i] || '[' in hostport || ']' in hostport then None
      else Some((hostport[..i], hostport[i + 1..]))
  }

  /** Server.Address and Server.Port of the configuration after the flag has been read. */
  function ServerFlag(flag: string, address: string, port: int): (string, int) {
    if flag == "" then (address, port)
    else
      match SplitHostPort(flag)
      case Some((host, p)) => (host, Wrap(Value(p)))
      case None => (flag, port)
  }

  method ReadServerFlag(flag: string, address: string, port: int) returns (newAddress: string, newPort: int)
    ensures (newAddress, newPort) == ServerFlag(flag, address, port)
  {
    newAddress, newPort := address, port;
    if flag != "" {
      match SplitHostPort(flag)
      case Some((host, p)) =>
        newAddress := host;
        newPort := ParsePort(p);
      case None =>
        newAddress := flag;
    }
  }

  /** ServerAddress and ListenAddress. */
  function Address(host: string, port: int): string { host + ":" + Digits(port) }

  predicate Bracketless(s: string) { '[' !in s && ']' !in s }

  lemma {:induction false} DigitsOnly(n: int)
    ensures forall i :: 0 <= i < |Digits(n)| ==> IsDigit(Digits(n)[i])
    decreases n
  {
    if n > 0 {
      DigitsOnly(n / 10);
    }
  }

  /** The last colon of a built address is the one before the port. */
  lemma LastColon(host: string, port: int)
    ensures LastIndex(Address(host, port), ':') == Some(|host|)
    ensures Address(host, port)[..|host|] == host && Address(host, port)[|host| + 1..] == Digits(port)
  {
    DigitsOnly(port);
    assert Address(host, port)[|host|] == ':';
  }

  lemma BracketsOfAddress(host: string, port: int)
    ensures '[' in Address(host, port) <==> '[' in host
    ensures ']' in Address(host, port) <==> ']' in host
  {
    DigitsOnly(port);
  }

  /** A built address whose host has no brackets can be split iff the host has no colon, and then correctly. */
  lemma BracketlessAddress(host: string, port: int)
    requires Bracketless(host)
    ensures SplitHostPort(Address(host, port)) == if ':' in host then None else Some((host, Digits(port)))
  {
    LastColon(host, port);
    BracketsOfAddress(host, port);
    assert Address(host, port)[0] in Address(host, port);
  }

  /** Splitting returns the host and port of a built address iff the host has no colon and no bracket. */
  lemma SplitUndoesAddressExactly(host: string, port: int)
    ensures SplitHostPort(Address(host, port)) == Some((host, Digits(port))) <==> Bracketless(host) && ':' !in host
  {
    if Bracketless(host) {
      BracketlessAddress(host, port);
    } else {
      LastColon(host, port);
      BracketsOfAddress(host, port);
    }
  }

  /** What splitting sees of an address with the host in brackets. */
  lemma BracketedParts(host: string, port: int)
    ensures var s := Address("[" + host + "]", port);
            && s[0] == '[' && s[|host| + 1] == ']' && s[1..|host| + 1] == host
            && s[1..] == host + "]:" + Digits(port) && s[|host| + 2..] == ":" + Digits(port)
            && LastIndex(s, ':') == Some(|host| + 2) && s[|host| + 3..] == Digits(port)
  {
    LastColon("[" + host + "]", port);
    assert Address("[" + host + "]", port) == "[" + host + "]:" + Digits(port);
  }

  /** The first closing bracket is the one behind the host iff the host has none. */
  lemma FirstClosing(s: string, host: string)
    requires |host| + 1 < |s| && s[0] == '[' && s[1..|host| + 1] == host && s[|host| + 1] == ']'
    ensures FirstIndex(s, ']') == Some(|host| + 1) <==> ']' !in host
  {
    assert forall k :: 0 <= k < |host| ==> s[k + 1] == host[k];
  }

  /** With the brackets that an IPv6 address needs, colons do no harm. */
  lemma SplitUndoesBracketsExactly(host: string, port: int)
    ensures SplitHostPort(Address("[" + host + "]", port)) == Some((host, Digits(port))) <==> Bracketless(host)
  {
    var s := Address("[" + host + "]", port);
    BracketedParts(host, port);
    FirstClosing(s, host);
    DigitsOnly(port);
    assert '[' in s[1..] <==> '[' in host;
    assert ']' !in s[|host| + 2..];
  }

  /** The two forms that can be split: a plain host, or one in brackets; the port has no colon and no bracket. */
  predicate PlainForm(s: string, host: string, port: string) {
    s == host + ":" + port && Bracketless(host) && ':' !in host && Bracketless(port) && ':' !in port
  }

  predicate BracketForm(s: string, host: string, port: string) {
    s == "[" + host + "]:" + port && Bracketless(host) && Bracketless(port) && ':' !in port
  }

  lemma PlainIsSplit(s: string, host: string, port: string)
    requires PlainForm(s, host, port)
    ensures SplitHostPort(s) == Some((host, port))
  {
    assert s[|host|] == ':' && s[..|host|] == host && s[|host| + 1..] == port;
    assert s[0] in s;
    assert forall k :: |host| < k < |s| ==> s[k] == port[k - |host| - 1];
    assert LastIndex(s, ':') == Some(|host|);
    BracketsOfParts(host, port);
  }

  lemma BracketsOfParts(host: string, port: string)
    ensures Bracketless(host + ":" + port) <==> Bracketless(host) && Bracketless(port)
  {
    var s := host + ":" + port;
    assert forall c :: c in s <==> c in host || c == ':' || c in port;
  }

  /** Where the colon and the brackets are. */
  lemma BracketFormParts(s: string, host: string, port: string)
    requires s == "[" + host + "]:" + port
    ensures var n := |host|;
            && |s| == n + 3 + |port| && s[0] == '[' && s[n + 1] == ']' && s[n + 2] == ':'
            && s[1..n + 1] == host && s[n + 3..] == port
            && s[1..] == host + "]:" + port && s[n + 2..] == ":" + port
  {
  }

  lemma LastColonAt(s: string, k: nat)
    requires k < |s| && s[k] == ':' && ':' !in s[k + 1..]
    ensures LastIndex(s, ':') == Some(k)
  {
    assert forall i :: k < i < |s| ==> s[i] == s[k + 1..][i - k - 1];
  }

  lemma BracketsAreSplit(s: string, host: string, port: string)
    requires BracketForm(s, host, port)
    ensures SplitHostPort(s) == Some((host, port))
  {
    BracketFormParts(s, host, port);
    LastColonAt(s, |host| + 2);
    FirstClosing(s, host);
  }

  lemma SplitIsPlain(s: string)
    requires SplitHostPort(s).Some? && s[0] != '['
    ensures var (host, port) := SplitHostPort(s).value; PlainForm(s, host, port)
  {
    var i := LastIndex(s, ':').value;
    assert s == s[..i] + ":" + s[i + 1..];
    assert ':' !in s[i + 1..];
  }

  lemma SplitIsBracketed(s: string)
    requires SplitHostPort(s).Some? && s[0] == '['
    ensures var (host, port) := SplitHostPort(s).value; BracketForm(s, host, port)
  {
    var i, end := LastIndex(s, ':').value, FirstIndex(s, ']').value;
    assert s == "[" + s[1..end] + "]:" + s[i + 1..];
    assert ':' !in s[i + 1..];
    assert forall c :: c in s[i + 1..] ==> c in s[1..] && c in s[end + 1..];
    assert forall c :: c in s[1..end] ==> c in s[1..];
  }

  /** For every text: splitting returns host and port iff the text is one of the two forms made of them. */
  lemma SplitExactly(s: string, host: string, port: string)
    ensures SplitHostPort(s) == Some((host, port)) <==> PlainForm(s, host, port) || BracketForm(s, host, port)
  {
    if PlainForm(s, host, port) {
      PlainIsSplit(s, host, port);
    } else if BracketForm(s, host, port) {
      BracketsAreSplit(s, host, port);
    } else if SplitHostPort(s) == Some((host, port)) {
      if s[0] == '[' { SplitIsBracketed(s); } else { SplitIsPlain(s); }
    }
  }

  /**
   What the flag does to address and port, for every text: nothing if it is empty; both are set if it has one of
   the two forms; otherwise the text as it is becomes the address, and the port stays.
   */
  lemma FlagExactly(flag: string, address: string, before: int, host: string, port: string)
    ensures ServerFlag("", address, before) == (address, before)
    ensures PlainForm(flag, host, port) || BracketForm(flag, host, port) ==>
              ServerFlag(flag, address, before) == (host, Wrap(Value(port)))
    ensures flag != "" && (forall h, p :: !PlainForm(flag, h, p) && !BracketForm(flag, h, p)) ==>
              ServerFlag(flag, address, before) == (flag, before)
  {
    SplitExactly(flag, host, port);
    if flag != "" && SplitHostPort(flag).Some? {
      SplitExactly(flag, SplitHostPort(flag).value.0, SplitHostPort(flag).value.1);
    }
  }

  /** The host that splitting returns has no brackets, and a colon only if it was given in brackets. */
  lemma SplitHost(s: string)
    requires SplitHostPort(s).Some?
    ensures var (host, port) := SplitHostPort(s).value;
            Bracketless(host) && (':' in host ==> s[0] == '[')
  {
  }

  /**
   The flag sets the address and the port that a configuration with this host and port would print, iff the
   host has no colon and no bracket; a port that is not positive prints as nothing and is read as 0.
   */
  lemma FlagUndoesAddressExactly(host: string, port: int, address: string, before: int)
    requires -0x8000_0000_0000_0000 <= port < 0x8000_0000_0000_0000
    ensures ServerFlag(Address(host, port), address, before) == (host, Max(0, port))
            <==> Bracketless(host) && ':' !in host
  {
    SplitUndoesAddressExactly(host, port);
    ParseUndoesPrint(port);
  }

  /**
   A flag with host and port makes the client dial an address that can itself be split iff the host has no
   colon: the brackets of an IPv6 host are dropped and not put back.
   */
  lemma FlagIsDialableExactly(flag: string, address: string, before: int)
    requires SplitHostPort(flag).Some?
    ensures var (host, port) := ServerFlag(flag, address, before);
            SplitHostPort(Address(host, port)).Some? <==> ':' !in SplitHostPort(flag).value.0
  {
    SplitHost(flag);
    var (host, port) := ServerFlag(flag, address, before);
    BracketlessAddress(host, port);
  }

  /** A familiar case: "[::1]:7700" is read correctly, and dialled as "::1:7700". */
  lemma LoopbackIsNotDialable(address: string, before: int)
    ensures ServerFlag("[::1]:7700", address, before) == ("::1", 7700)
    ensures SplitHostPort(Address("::1", 7700)) == None
  {
    ShortcutAgrees();
    var host := "::1";
    assert Address("[" + host + "]", 7700) == "[::1]:7700";
    SplitUndoesBracketsExactly(host, 7700);
    ParseUndoesPrint(7700);
    assert host[0] == ':';
    BracketlessAddress(host, 7700);
  }
}
