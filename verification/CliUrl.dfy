/** The Go client's CLI URL: `host:port`, `http://host:port`, `https://host:port` or a bare port. */
module CliUrl {
  import opened Wrappers

  const HTTP := "http://"
  const HTTPS := "https://"

  function CutPrefix(s: string, prefix: string): string {
    if prefix <= s then s[|prefix|..] else s
  }

  /** Position of the first colon, or the length. */
  function FirstColon(s: string): (n: nat)
    ensures n <= |s| && ':' !in s[..n] && (n < |s| ==> s[n] == ':')
  {
    if s == "" || s[0] == ':' then 0
    else
      var n := FirstColon(s[1..]);
      assert s[..n + 1] == [s[0]] + s[1..][..n];
      n + 1
  }

  predicate IsDigit(c: char) {
    '0' <= c <= '9'
  }

  predicate AllDigits(s: string) {
    s != "" && forall i :: 0 <= i < |s| ==> IsDigit(s[i])
  }

  function Value(s: string): nat
    requires forall i :: 0 <= i < |s| ==> IsDigit(s[i])
  {
    if s == "" then 0
    else
      assert IsDigit(s[|s| - 1]);
      10 * Value(s[..|s| - 1]) + (s[|s| - 1] as int - '0' as int)
  }

  /** `strconv.Atoi`: an optional sign and decimal digits. Overflow is not told apart from any other value
      too large for a port. */
  function Atoi(s: string): Option<int> {
    if AllDigits(s) then Some(Value(s) as int)
    else if s != "" && s[0] == '+' && AllDigits(s[1..]) then Some(Value(s[1..]))
    else if s != "" && s[0] == '-' && AllDigits(s[1..]) then Some(0 - Value(s[1..]))
    else None
  }

  /** Host and port of a URL without its scheme. */
  function HostAndPort(cleanUrl: string): Option<(string, int)> {
    var n := FirstColon(cleanUrl);
    var before := cleanUrl[..n];
    var host := if n < |cleanUrl| && before != "" then before else "localhost";
    var portStr := if n < |cleanUrl| then cleanUrl[n + 1..] else before;
    match Atoi(portStr)
    case None => None
    case Some(port) => if port <= 0 || port > 65535 then None else Some((host, port))
  }

  /** Host and port of a URL, or nothing where the source panics. */
  function ParseCliUrl(url: string): Option<(string, int)> {
    HostAndPort(CutPrefix(CutPrefix(url, HTTPS), HTTP))
  }

  /** A number in decimal. */
  function Decimal(n: nat): (s: string)
    ensures AllDigits(s)
  {
    var digit := ('0' as int + n % 10) as char;
    if n < 10 then [digit] else Decimal(n / 10) + [digit]
  }

  lemma {:induction false} ValueOfDecimal(n: nat)
    ensures Value(Decimal(n)) == n
  {
    var s := Decimal(n);
    if n < 10 {
      assert s[..0] == "";
    } else {
      assert s[..|s| - 1] == Decimal(n / 10);
      ValueOfDecimal(n / 10);
    }
  }

  /** Every accepted URL yields a host that is not empty and has no colon, and a port in range. */
  lemma AcceptedUrlIsUsable(url: string)
    requires ParseCliUrl(url).Some?
    ensures var (host, port) := ParseCliUrl(url).value;
      host != "" && ':' !in host && 1 <= port <= 65535
  {
  }

  lemma FirstColonAt(host: string, rest: string)
    requires ':' !in host
    ensures FirstColon(host + ":" + rest) == |host|
  {
    var s := host + ":" + rest;
    var n := FirstColon(s);
    assert forall i :: 0 <= i < |host| ==> s[i] == host[i] && host[i] in host;
    assert s[|host|] == ':';
    assert forall i :: 0 <= i < n ==> s[..n][i] == s[i];
  }

  /** A colon-free host before a colon and anything but a slash carries no scheme. */
  lemma NoScheme(host: string, rest: string, scheme: string)
    requires ':' !in host && rest != "" && rest[0] != '/'
    requires scheme == HTTP || scheme == HTTPS
    ensures !(scheme <= host + ":" + rest)
  {
    var s := host + ":" + rest;
    var at := |scheme| - 3;
    assert scheme[at] == ':' && scheme[at + 1] == '/' && forall i :: 0 <= i < at ==> scheme[i] != ':';
    assert s[|host|] == ':' && s[|host| + 1] == rest[0];
    assert forall i :: 0 <= i < |host| ==> s[i] == host[i] && host[i] in host;
  }

  predicate Scheme(s: string) {
    s == "" || s == HTTP || s == HTTPS || s == HTTPS + HTTP
  }

  /** Cutting takes off a scheme before a text that carries none itself. */
  lemma Cut(scheme: string, plain: string)
    requires Scheme(scheme) && !(HTTP <= plain) && !(HTTPS <= plain)
    ensures CutPrefix(CutPrefix(scheme + plain, HTTPS), HTTP) == plain
  {
    var url := scheme + plain;
    if scheme == "" {
      assert url == plain;
    } else {
      assert url[|scheme|..] == plain;
      if scheme == HTTPS + HTTP {
        assert url[|HTTPS|..] == HTTP + plain;
        assert (HTTP + plain)[|HTTP|..] == plain;
      }
      if scheme == HTTP {
        assert url[4] == ':' && HTTPS[4] == 's';
      }
    }
  }

  lemma SchemeIsCut(scheme: string, host: string, rest: string)
    requires ':' !in host && rest != "" && rest[0] != '/'
    requires Scheme(scheme)
    ensures CutPrefix(CutPrefix(scheme + host + ":" + rest, HTTPS), HTTP) == host + ":" + rest
  {
    var plain := host + ":" + rest;
    assert scheme + host + ":" + rest == scheme + plain;
    NoScheme(host, rest, HTTP);
    NoScheme(host, rest, HTTPS);
    Cut(scheme, plain);
  }

  // ---------- which URLs are accepted ----------

  /** A URL taken apart: a scheme or two, a name before a colon or none, and a port with or without a plus. */
  datatype Parts = Parts(scheme: string, name: Option<string>, sign: string, digits: string)

  ghost predicate Spells(url: string, p: Parts, host: string, port: int) {
    && Scheme(p.scheme) && (p.sign == "" || p.sign == "+")
    && AllDigits(p.digits) && Value(p.digits) == port && 1 <= port <= 65535
    && (match p.name
        case None => host == "localhost" && url == p.scheme + (p.sign + p.digits)
        case Some(name) =>
          && ':' !in name && host == (if name == "" then "localhost" else name)
          && url == p.scheme + (name + ":" + (p.sign + p.digits)))
  }

  lemma AtoiOf(sign: string, digits: string)
    requires (sign == "" || sign == "+") && AllDigits(digits)
    ensures Atoi(sign + digits) == Some(Value(digits))
    ensures sign + digits != "" && ':' !in sign + digits && (sign + digits)[0] != '/' && (sign + digits)[0] != 'h'
  {
    if sign == "" {
      assert sign + digits == digits;
    } else {
      var s := sign + digits;
      assert s[0] == '+' && s[1..] == digits && !IsDigit(s[0]);
    }
  }

  lemma AtoiPositive(s: string) returns (sign: string, digits: string)
    requires Atoi(s).Some? && Atoi(s).value > 0
    ensures (sign == "" || sign == "+") && AllDigits(digits) && s == sign + digits && Value(digits) == Atoi(s).value
  {
    if AllDigits(s) {
      sign, digits := "", s;
    } else {
      sign, digits := "+", s[1..];
      assert s[0] == '+' ==> s == sign + digits;
    }
  }

  lemma NoColon(s: string)
    requires ':' !in s
    ensures FirstColon(s) == |s|
  {
    var n := FirstColon(s);
    assert forall i :: 0 <= i < |s| ==> s[i] in s;
  }

  lemma BareIsParsed(portStr: string, port: int)
    requires ':' !in portStr && Atoi(portStr) == Some(port) && 1 <= port <= 65535
    ensures HostAndPort(portStr) == Some(("localhost", port))
  {
    NoColon(portStr);
    hide Atoi, FirstColon;
    assert portStr[..|portStr|] == portStr;
  }

  lemma NamedIsParsed(name: string, portStr: string, port: int)
    requires ':' !in name && Atoi(portStr) == Some(port) && 1 <= port <= 65535
    ensures HostAndPort(name + ":" + portStr) == Some((if name == "" then "localhost" else name, port))
  {
    FirstColonAt(name, portStr);
    hide Atoi, FirstColon;
    var s := name + ":" + portStr;
    assert s[..|name|] == name && s[|name| + 1..] == portStr;
  }

  lemma SpelledIsAccepted(url: string, p: Parts, host: string, port: int)
    requires Spells(url, p, host, port)
    ensures ParseCliUrl(url) == Some((host, port))
  {
    var portStr := p.sign + p.digits;
    AtoiOf(p.sign, p.digits);
    hide Atoi, HostAndPort, AllDigits, Value, Scheme, CutPrefix;
    match p.name {
      case None =>
        assert HTTP[0] == 'h' && HTTPS[0] == 'h';
        Cut(p.scheme, portStr);
        BareIsParsed(portStr, port);
      case Some(name) =>
        hide Spells;
        ConcatAssoc(p.scheme, name + ":", portStr);
        ConcatAssoc(p.scheme, name, ":");
        SchemeIsCut(p.scheme, name, portStr);
        NamedIsParsed(name, portStr, port);
    }
  }

  lemma CutOnce(url: string, prefix: string)
    ensures url == (if prefix <= url then prefix else "") + CutPrefix(url, prefix)
  {
  }

  lemma CutScheme(url: string) returns (scheme: string)
    ensures Scheme(scheme) && url == scheme + CutPrefix(CutPrefix(url, HTTPS), HTTP)
  {
    CutOnce(url, HTTPS);
    var rest := CutPrefix(url, HTTPS);
    CutOnce(rest, HTTP);
    hide CutPrefix;
    var first, second := if HTTPS <= url then HTTPS else "", if HTTP <= rest then HTTP else "";
    var plain := CutPrefix(rest, HTTP);
    scheme := first + second;
    ConcatAssoc(first, second, plain);
    assert Scheme(scheme) by {
      assert second == "" ==> scheme == first;
      assert first == "" ==> scheme == second;
    }
  }

  lemma PlainIsSpelled(s: string, host: string, port: int) returns (p: Parts)
    requires HostAndPort(s) == Some((host, port))
    ensures Spells(s, p, host, port) && p.scheme == ""
  {
    hide Value, Atoi, AllDigits;
    var n := FirstColon(s);
    if n < |s| {
      var sign, digits := AtoiPositive(s[n + 1..]);
      assert s == s[..n] + ":" + s[n + 1..];
      p := Parts("", Some(s[..n]), sign, digits);
    } else {
      assert s[..n] == s;
      var sign, digits := AtoiPositive(s);
      p := Parts("", None, sign, digits);
    }
  }

  lemma AcceptedIsSpelled(url: string, host: string, port: int) returns (p: Parts)
    requires ParseCliUrl(url) == Some((host, port))
    ensures Spells(url, p, host, port)
  {
    var scheme := CutScheme(url);
    var s := CutPrefix(CutPrefix(url, HTTPS), HTTP);
    var q := PlainIsSpelled(s, host, port);
    hide CutPrefix, Scheme, HostAndPort, Value, AllDigits;
    p := q.(scheme := scheme);
    var tail := q.sign + q.digits;
    assert "" + tail == tail;
    assert q.name.Some? ==> "" + (q.name.value + ":" + tail) == q.name.value + ":" + tail;
  }

  /** A URL is accepted, with this host and port, if and only if it is spelled like that: an optional scheme, an
      optional colon-free name before a colon, and a decimal port from 1 to 65535 with or without a plus sign.
      Everything else, such as a port that is no number or has a minus sign, is rejected. */
  lemma AcceptedExactly(url: string, host: string, port: int)
    ensures ParseCliUrl(url) == Some((host, port)) <==> exists p :: Spells(url, p, host, port)
  {
    if ParseCliUrl(url) == Some((host, port)) {
      var p := AcceptedIsSpelled(url, host, port);
    }
    if p :| Spells(url, p, host, port) {
      SpelledIsAccepted(url, p, host, port);
    }
  }

  /** Printing a host and port and parsing them gives them back, with "localhost" for an empty host, if and
      only if the host has no colon. */
  lemma RoundTripExactly(scheme: string, host: string, port: int)
    requires scheme in ["", "http://", "https://", "https://http://"] && 1 <= port <= 65535
    ensures ParseCliUrl(scheme + host + ":" + Decimal(port)) == Some((if host == "" then "localhost" else host, port))
      <==> ':' !in host
  {
    var digits := Decimal(port);
    var url := scheme + host + ":" + digits;
    if ':' in host {
      if ParseCliUrl(url).Some? {
        AcceptedUrlIsUsable(url);
      }
    } else {
      SchemeIsCut(scheme, host, digits);
      FirstColonAt(host, digits);
      var s := host + ":" + digits;
      assert s[..|host|] == host && s[|host| + 1..] == digits;
      ValueOfDecimal(port);
    }
  }

  /** A bare port means the local host. */
  lemma BarePort(port: int)
    requires 1 <= port <= 65535
    ensures ParseCliUrl(Decimal(port)) == Some(("localhost", port))
  {
    var s := Decimal(port);
    ValueOfDecimal(port);
    assert !(HTTPS <= s) && !(HTTP <= s) by {
      assert IsDigit(s[0]) && !IsDigit('h');
    }
    var n := FirstColon(s);
    assert n < |s| ==> !IsDigit(s[n]);
    assert s[..|s|] == s;
  }
}
