/** Formatting a URL and parsing it again; how much room formatting needs. */
module UrlText {
  import opened Bytes
  import opened Scan
  import opened Urls

  // ---------- numbers ----------

  /** The number of digits, as bounds on the number. */
  lemma {:induction false} DecimalLength(n: nat)
    ensures |Decimal(n)| == 1 <==> n < 10
    ensures |Decimal(n)| <= 2 <==> n < 100
    ensures |Decimal(n)| <= 3 <==> n < 1000
    ensures |Decimal(n)| <= 4 <==> n < 10000
    ensures |Decimal(n)| <= 5 <==> n < 100000
    ensures |Decimal(n)| <= 6 <==> n < 1000000
    ensures |Decimal(n)| <= 7 <==> n < 10000000
    ensures |Decimal(n)| <= 8 <==> n < 100000000
    ensures |Decimal(n)| <= 9 <==> n < 1000000000
    ensures |Decimal(n)| <= 10 <==> n < 10000000000
  {
    if n >= 10 {
      DecimalLength(n / 10);
    }
  }

  lemma {:induction false} DecimalValue(n: nat)
    ensures ValueOf(Decimal(n)) == n
  {
    if n < 10 {
      assert Decimal(n)[..0] == "";
    } else {
      DecimalValue(n / 10);
      var s := Decimal(n);
      assert s[..|s| - 1] == Decimal(n / 10) && s[|s| - 1] == Digit(n % 10);
    }
  }

  /** Numbers are written in base ten. */
  lemma DecimalIs(n: nat, d: nat)
    requires d < 10
    ensures Decimal(d) == ["0123456789"[d]]
    ensures n > 0 ==> Decimal(10 * n + d) == Decimal(n) + ["0123456789"[d]]
  {
  }

  /** And read in base ten, zeros in front included. */
  lemma ValueIs(digits: string, d: nat)
    requires AllDigits(digits) && d < 10
    ensures ValueOf("") == 0 && ValueOf(digits + ["0123456789"[d]]) == 10 * ValueOf(digits) + d
  {
    var s := digits + ["0123456789"[d]];
    assert s[..|s| - 1] == digits && s[|s| - 1] == "0123456789"[d];
    assert "0123456789"[d] == '0' + (d as char);
  }

  lemma DigitsInIs(s: string, n: nat)
    requires n <= |s| && (forall i :: 0 <= i < n ==> '0' <= s[i] <= '9')
    requires n < |s| ==> !('0' <= s[n] <= '9')
    ensures DigitsIn(s) == n
  {
  }

  predicate IsDigit(c: char) {
    '0' <= c <= '9'
  }

  ghost predicate AllDigits(s: string) {
    forall i :: 0 <= i < |s| ==> IsDigit(s[i])
  }

  /** The characters `isspace` knows. */
  ghost predicate AllSpace(s: string) {
    forall i :: 0 <= i < |s| ==> s[i] == ' ' || s[i] == '\t' || s[i] == '\n' || s[i] == '\U{0B}' || s[i] == '\U{0C}' || s[i] == '\r'
  }

  /** `strtoul` skips white space, takes one sign and then all digits there are. A number that is too large
      becomes the largest, and a minus sign negates modulo the width. */
  lemma StrToUlReads(spaces: string, sign: string, digits: string, tail: string)
    requires AllSpace(spaces) && (sign == "" || sign == "+" || sign == "-")
    requires digits != "" && AllDigits(digits) && (tail != "" ==> !IsDigit(tail[0]))
    ensures var v := ValueOf(digits);
            StrToUl(spaces + (sign + (digits + tail)))
            == (if v >= 0x1_0000_0000_0000_0000 then 0xFFFF_FFFF_FFFF_FFFF
                else if sign == "-" && v > 0 then 0x1_0000_0000_0000_0000 - v else v,
                |spaces| + |sign| + |digits|)
  {
    hide *;
    var rest := digits + tail;
    NoSpaceInFront(sign, digits, tail);
    DigitsThen(digits, tail);
    StrToUlBehind(spaces, sign, rest, digits);
  }

  lemma StrToUlBehind(spaces: string, sign: string, rest: string, digits: string)
    requires AllSpace(spaces) && (sign == "" || sign == "+" || sign == "-")
    requires sign + rest != "" && !IsSpace((sign + rest)[0])
    requires sign == "" ==> rest[0] != '-' && rest[0] != '+'
    requires digits != "" && AllDigits(digits) && DigitsIn(rest) == |digits| && rest[..|digits|] == digits
    ensures var v := ValueOf(digits);
            StrToUl(spaces + (sign + rest))
            == (if v >= 0x1_0000_0000_0000_0000 then 0xFFFF_FFFF_FFFF_FFFF
                else if sign == "-" && v > 0 then 0x1_0000_0000_0000_0000 - v else v,
                |spaces| + |sign| + |digits|)
  {
    hide *;
    SpacesThen(spaces, sign + rest);
    SignThen(spaces, sign, rest);
    StrToUlIs(spaces + (sign + rest), |spaces|, sign, rest, digits);
  }

  lemma NoSpaceInFront(sign: string, digits: string, tail: string)
    requires sign == "" || sign == "+" || sign == "-"
    requires digits != "" && AllDigits(digits)
    ensures !IsSpace((sign + (digits + tail))[0])
    ensures sign == "" ==> (digits + tail)[0] != '-' && (digits + tail)[0] != '+'
  {
    assert (digits + tail)[0] == digits[0];
  }

  /** The steps of `strtoul`: w characters of white space, a sign or none, and the digits in front of the rest. */
  lemma StrToUlIs(s: string, w: nat, sign: string, rest: string, digits: string)
    requires w + |sign| <= |s| && SkipSpace(s) == w && s[w + |sign|..] == rest
    requires sign == "" || sign == "+" || sign == "-"
    requires if sign != "" then w < |s| && s[w] == sign[0] else w < |s| && s[w] != '-' && s[w] != '+'
    requires digits != "" && AllDigits(digits) && DigitsIn(rest) == |digits| && rest[..|digits|] == digits
    ensures var v := ValueOf(digits);
            StrToUl(s) == (if v >= 0x1_0000_0000_0000_0000 then 0xFFFF_FFFF_FFFF_FFFF
                           else if sign == "-" && v > 0 then 0x1_0000_0000_0000_0000 - v else v,
                           w + |sign| + |digits|)
  {
    hide SkipSpace;
    hide DigitsIn;
    hide ValueOf;
  }

  /** Without digits it takes nothing. */
  lemma StrToUlReadsNothing(spaces: string, sign: string, tail: string)
    requires AllSpace(spaces) && (sign == "" || sign == "+" || sign == "-")
    requires tail != "" ==> !IsDigit(tail[0])
    requires sign == "" && tail != "" ==> tail[0] != '+' && tail[0] != '-' && !IsSpace(tail[0])
    ensures StrToUl(spaces + (sign + tail)) == (0, 0)
  {
    hide ValueOf;
    SpacesThen(spaces, sign + tail);
    SignThen(spaces, sign, tail);
    DigitsInIs(tail, 0);
    hide SkipSpace;
    hide DigitsIn;
  }

  lemma SpacesThen(spaces: string, rest: string)
    requires AllSpace(spaces) && (rest != "" ==> !IsSpace(rest[0]))
    ensures SkipSpace(spaces + rest) == |spaces|
  {
    SkipSpaceIs(spaces + rest, |spaces|);
  }

  lemma SignThen(spaces: string, sign: string, rest: string)
    ensures var s, w := spaces + (sign + rest), |spaces|;
            && s[w..] == sign + rest && s[w + |sign|..] == rest
            && (sign != "" ==> w < |s| && s[w] == sign[0])
            && (sign == "" && rest != "" ==> s[w] == rest[0])
  {
  }

  lemma DigitsThen(digits: string, tail: string)
    requires AllDigits(digits) && (tail != "" ==> !IsDigit(tail[0]))
    ensures DigitsIn(digits + tail) == |digits| && (digits + tail)[..|digits|] == digits
  {
    DigitsInIs(digits + tail, |digits|);
  }

  /** An unsigned long becomes the int that is the same modulo its width. */
  lemma ToIntIs(n: nat)
    ensures -0x8000_0000 <= ToInt(n) < 0x8000_0000 && (ToInt(n) - n) % 0x1_0000_0000 == 0
  {
    var low := n % 0x1_0000_0000;
    assert n - low == 0x1_0000_0000 * (n / 0x1_0000_0000);
  }

  /** `strtoul` reads back what `%u` printed. */
  lemma DecimalReadBack(n: nat, tail: string)
    requires n < 0xFFFF_FFFF_FFFF_FFFF && (tail != "" ==> !IsDigit(tail[0]))
    ensures StrToUl(Decimal(n) + tail) == (n, |Decimal(n)|)
  {
    hide StrToUl;
    hide ValueOf;
    hide Decimal;
    DecimalValue(n);
    StrToUlReads("", "", Decimal(n), tail);
    assert "" + ("" + (Decimal(n) + tail)) == Decimal(n) + tail;
  }

  /** Any int, printed as unsigned and read back. */
  lemma PortReadBack(port: int, tail: string)
    requires -0x8000_0000 <= port < 0x8000_0000 && (tail != "" ==> !IsDigit(tail[0]))
    ensures var (v, used) := StrToUl(PrintUnsigned(port) + tail);
            v < 0x1_0000_0000 && ToInt(v) == port && used == |PrintUnsigned(port)|
  {
    hide StrToUl;
    hide Decimal;
    DecimalReadBack(port % 0x1_0000_0000, tail);
    if port < 0 {
      assert port % 0x1_0000_0000 == port + 0x1_0000_0000;
    }
  }

  // ---------- protocols ----------

  /** Protocols are known by name, letter case aside; any other name is a raw one. */
  lemma ProtocolsAreNamed(name: string)
    ensures ProtocolNumber(name) == TLS <==> SameLetters(name, "tls")
    ensures ProtocolNumber(name) == HTTPS <==> SameLetters(name, "https")
    ensures ProtocolNumber(name) == HTTP <==> SameLetters(name, "http")
    ensures ProtocolNumber(name) == WSS <==> SameLetters(name, "wss")
    ensures ProtocolNumber(name) == WS <==> SameLetters(name, "ws")
  {
    SameTextExactlyIf(name, "tls");
    SameTextExactlyIf(name, "https");
    SameTextExactlyIf(name, "http");
    SameTextExactlyIf(name, "wss");
    SameTextExactlyIf(name, "ws");
    hide SameLetters;
    if |name| == 3 && SameText(name, "tls") {
      assert Lower(name[0]) == Lower("tls"[0]) && Lower("tls"[0]) == 't' && Lower("wss"[0]) == 'w';
    }
  }

  function WellKnownPort(name: string): nat {
    if SameLetters(name, "ws") || SameLetters(name, "http") then 80
    else if SameLetters(name, "wss") || SameLetters(name, "https") then 443
    else 0
  }

  lemma DefaultPortIsWellKnown(name: string)
    ensures DefaultPort(ProtocolNumber(name)) == WellKnownPort(name)
  {
    hide ProtocolNumber;
    hide SameLetters;
    ProtocolsAreNamed(name);
  }

  // ---------- the parts of a formatted URL ----------

  lemma SchemeFound(p: string, rest: string)
    requires forall i :: 0 <= i < |p| ==> !IsSchemeAt(p, i)
    ensures FindScheme(p + "://" + rest) == Some(|p|)
  {
    var u := p + "://" + rest;
    forall i | 0 <= i < |p|
      ensures !IsSchemeAt(u, i)
    {
      assert !IsSchemeAt(p, i);
      assert u[i] == p[i] && u[i + 1] == (p + "://")[i + 1] && u[i + 2] == (p + "://")[i + 2];
    }
    FindSchemeIs(u, |p|);
  }

  predicate GoodHost(host: Option<string>) {
    host.Some? && host.value != "" && forall i :: 0 <= i < |host.value| ==> !EndsHost(host.value[i])
  }

  predicate GoodPath(path: Option<string>) {
    path.Some? ==> path.value != "" && path.value[0] == '/'
  }

  predicate PlainHost(host: string) {
    forall i :: 0 <= i < |host| ==> host[i] != ':' && host[i] != '/'
  }

  /** A host without its port, then the path. An empty host is none. */
  lemma HostThenPath(protocol: Option<string>, host: string, path: Option<string>)
    requires PlainHost(host) && GoodPath(path)
    ensures ParseAfterProtocol(protocol, host + OrEmpty(path)) ==
            Url(protocol, if host == "" then None else Some(host),
                if protocol.Some? then WellKnownPort(protocol.value) else -1, path)
  {
    hide ProtocolNumber;
    hide WellKnownPort;
    var u := host + OrEmpty(path);
    HostLengthIs(u, |host|);
    assert u[..|host|] == host && u[|host|..] == OrEmpty(path);
    if protocol.Some? {
      DefaultPortIsWellKnown(protocol.value);
    }
  }

  /** A host, then a port that `strtoul` reads, then the path. A number that is too large counts as 0. */
  lemma HostThenNumber(protocol: Option<string>, host: string, tail: string, v: nat, used: nat)
    requires PlainHost(host) && StrToUl(tail) == (v, used) && used <= |tail|
    ensures ParseAfterProtocol(protocol, host + (":" + tail)) ==
            Url(protocol, if host == "" then None else Some(host),
                if v == 0xFFFF_FFFF_FFFF_FFFF then 0 else ToInt(v), if tail[used..] == "" then None else Some(tail[used..]))
  {
    hide StrToUl;
    hide ToInt;
    hide ProtocolNumber;
    hide HostLength;
    var u := host + (":" + tail);
    HostLengthIs(u, |host|);
    assert u[..|host|] == host && u[|host|..] == ":" + tail;
    assert (":" + tail)[1..] == tail && (":" + tail)[1 + used..] == tail[used..];
  }

  /** Host, port and path, which must not go on with a digit. */
  lemma PortThenAnyPath(protocol: Option<string>, host: string, port: int, path: Option<string>)
    requires GoodHost(Some(host)) && -0x8000_0000 <= port < 0x8000_0000
    ensures ParseAfterProtocol(protocol, host + (":" + (PrintUnsigned(port) + OrEmpty(path)))) ==
            Url(protocol, Some(host), port, path)
            <==> (path.Some? ==> path.value != "" && !IsDigit(path.value[0]))
  {
    hide ParseAfterProtocol;
    hide StrToUl;
    hide PrintUnsigned;
    hide ToInt;
    var digits := PrintUnsigned(port);
    var tail := digits + OrEmpty(path);
    var (v, used) := StrToUl(tail);
    HostThenNumber(protocol, host, tail, v, used);
    if path.Some? && path.value != "" && IsDigit(path.value[0]) {
      UnsignedIsDigits(port);
      TakesMore(digits, path.value);
    } else {
      PortReadBack(port, OrEmpty(path));
      assert tail[|digits|..] == OrEmpty(path);
    }
  }

  lemma UnsignedIsDigits(port: int)
    ensures PrintUnsigned(port) != "" && AllDigits(PrintUnsigned(port))
  {
    hide Decimal;
  }

  /** A URL that is written and read back: a protocol without "://", a host without ':' or '/', a
      port that is not negative, and a path that is absent or starts with '/'. */
  predicate GoodUrl(url: Url) {
    GoodFront(url) && url.port >= 0 && GoodPath(url.path)
  }

  predicate GoodFront(url: Url) {
    && url.protocol.Some? && (forall i :: 0 <= i < |url.protocol.value| ==> !IsSchemeAt(url.protocol.value, i))
    && GoodHost(url.host) && -0x8000_0000 <= url.port < 0x8000_0000
  }

  /** Round trip, default ports left out included. */
  lemma RoundTrip(url: Url)
    requires GoodUrl(url)
    ensures Parse(Format(url)) == url
  {
    hide Parse;
    hide Format;
    hide WellKnownPort;
    PathDecidesRoundTrip(url);
  }

  /** Into a URL that was used before it comes back exactly if it has a path, or that one had none. */
  lemma RoundTripOverExactlyIf(was: Url, url: Url)
    requires GoodUrl(url)
    ensures ParseOver(was, Format(url)) == url <==> url.path.Some? || was.path.None?
  {
    hide Parse;
    hide Format;
    RoundTrip(url);
  }

  /** Which URLs survive: behind such a protocol and host a URL is read back exactly if its port is not
      negative, and its path is absent, or starts with '/', or follows a written port and does not start with a
      digit. The port is written unless it is the well-known one. */
  predicate Survives(url: Url)
    requires url.protocol.Some?
  {
    && url.port >= 0
    && (url.path.Some? ==>
          && url.path.value != ""
          && (url.path.value[0] == '/'
              || (url.port != WellKnownPort(url.protocol.value) && !IsDigit(url.path.value[0]))))
  }

  lemma PathDecidesRoundTrip(url: Url)
    requires GoodFront(url)
    ensures Parse(Format(url)) == url <==> Survives(url)
  {
    hide Parse;
    hide ParseAfterProtocol;
    hide FindScheme;
    hide ProtocolNumber;
    hide WellKnownPort;
    hide PrintUnsigned;
    hide IsSchemeAt;
    var p, host, path := url.protocol.value, url.host.value, OrEmpty(url.path);
    DefaultPortIsWellKnown(p);
    Associate(p + "://", HostAndPort(url), path);
    SchemeFound(p, HostAndPort(url) + path);
    ParsesBehindScheme(p, HostAndPort(url) + path);
    if OmitsPort(url) {
      HostThenAnyPath(url.protocol, host, url.path);
    } else {
      RegroupPort(host, PrintUnsigned(url.port), path);
      PortThenAnyPath(url.protocol, host, url.port, url.path);
    }
  }

  lemma HostThenAnyPath(protocol: Option<string>, host: string, path: Option<string>)
    requires GoodHost(Some(host)) && protocol.Some?
    ensures var url := ParseAfterProtocol(protocol, host + OrEmpty(path));
            GoodPath(path) <==> url.host == Some(host) && url.path == path
    ensures GoodPath(path) ==>
              (ParseAfterProtocol(protocol, host + OrEmpty(path))
               == Url(protocol, Some(host), WellKnownPort(protocol.value), path))
  {
    hide WellKnownPort;
    if GoodPath(path) {
      HostThenPath(protocol, host, path);
    } else if path == Some("") {
      HostThenPath(protocol, host, None);
    } else {
      hide StrToUl;
      hide ProtocolNumber;
      var u := host + path.value;
      assert u[|host|] == path.value[0];
      if path.value[0] == ':' {
        HostLengthIs(u, |host|);
        assert u[|host|..] == path.value;
      }
    }
  }

  /** A digit behind a number is taken for one of its own. */
  lemma TakesMore(digits: string, path: string)
    requires digits != "" && AllDigits(digits) && path != "" && IsDigit(path[0])
    ensures StrToUl(digits + path).1 > |digits|
  {
    var s := digits + path;
    assert s[0] == digits[0] && s[|digits|] == path[0];
    SkipSpaceIs(s, 0);
    assert s[0..] == s;
    hide SkipSpace;
    var n := DigitsIn(s);
    assert forall i :: 0 <= i < |digits| ==> s[i] == digits[i];
    assert n > |digits|;
  }

  lemma RegroupPort(host: string, digits: string, path: string)
    ensures host + ":" + digits + path == host + (":" + (digits + path))
  {
  }

  lemma ParsesBehindScheme(p: string, rest: string)
    requires FindScheme(p + "://" + rest) == Some(|p|)
    ensures Parse(p + "://" + rest) == ParseAfterProtocol(Some(p), rest)
  {
    var u := p + "://" + rest;
    assert u[..|p|] == p && u[|p| + 3..] == rest;
  }

  /** Without a protocol the port is always written, even a negative one, and the URL is read back exactly if
      its path does not contain "://", whose first occurrence is taken for the end of a protocol, and is absent,
      or not empty and does not start with a digit. */
  lemma BareRoundTrip(url: Url)
    requires url.protocol.None? && GoodHost(url.host) && -0x8000_0000 <= url.port < 0x8000_0000
    ensures Parse(Format(url)) == url <==>
            && (forall i :: 0 <= i < |OrEmpty(url.path)| ==> !IsSchemeAt(OrEmpty(url.path), i))
            && (url.path.Some? ==> url.path.value != "" && !IsDigit(url.path.value[0]))
  {
    hide PrintUnsigned;
    hide ParseAfterProtocol;
    hide FindScheme;
    hide IsSchemeAt;
    var host, path := url.host.value, OrEmpty(url.path);
    var front := host + ":" + PrintUnsigned(url.port);
    assert Prefix(url) + HostAndPort(url) + path == front + path;
    RegroupPort(host, PrintUnsigned(url.port), path);
    PortThenAnyPath(None, host, url.port, url.path);
    UnsignedIsDigits(url.port);
    NoSchemeInFront(host, PrintUnsigned(url.port), path);
    SchemeInPath(front, path);
    var k := FindScheme(front + path);
    if k.Some? {
      ProtocolIsKept(Some((front + path)[..k.value]), (front + path)[k.value + 3..]);
    }
  }

  /** A host alone, or nothing, and a path: the port is -1, for none. */
  lemma BareHost(host: string, path: Option<string>)
    requires PlainHost(host) && GoodPath(path)
    requires forall i :: 0 <= i < |OrEmpty(path)| ==> !IsSchemeAt(OrEmpty(path), i)
    ensures Parse(host + OrEmpty(path)) == Url(None, if host == "" then None else Some(host), -1, path)
  {
    hide ParseAfterProtocol;
    hide FindScheme;
    HostThenPath(None, host, path);
    SchemeInPath(host, OrEmpty(path));
  }

  /** A protocol and a host without a port: the port is the well-known one, or 0 if there is none. */
  lemma PortIsFilledIn(protocol: string, host: string, path: Option<string>)
    requires (forall i :: 0 <= i < |protocol| ==> !IsSchemeAt(protocol, i)) && PlainHost(host) && GoodPath(path)
    ensures Parse(protocol + "://" + (host + OrEmpty(path)))
            == Url(Some(protocol), if host == "" then None else Some(host), WellKnownPort(protocol), path)
  {
    hide ParseAfterProtocol;
    hide FindScheme;
    hide WellKnownPort;
    SchemeFound(protocol, host + OrEmpty(path));
    ParsesBehindScheme(protocol, host + OrEmpty(path));
    HostThenPath(Some(protocol), host, path);
  }

  lemma ProtocolIsKept(protocol: Option<string>, u: string)
    ensures ParseAfterProtocol(protocol, u).protocol == protocol
  {
  }

  lemma NoSchemeInFront(host: string, digits: string, path: string)
    requires forall i :: 0 <= i < |host| ==> !EndsHost(host[i])
    requires digits != "" && AllDigits(digits)
    ensures forall i :: 0 <= i < |host + ":" + digits| ==> !IsSchemeAt(host + ":" + digits + path, i)
  {
    var front := host + ":" + digits;
    forall i | 0 <= i < |front|
      ensures !IsSchemeAt(front + path, i)
    {
      assert (front + path)[i] == front[i];
      if i == |host| {
        assert (front + path)[i + 1] == digits[0];
      }
    }
  }

  /** The first "://" is in the path, if it is anywhere. */
  lemma SchemeInPath(front: string, path: string)
    requires forall i :: 0 <= i < |front| ==> !IsSchemeAt(front + path, i)
    ensures FindScheme(front + path) == None <==> forall i :: 0 <= i < |path| ==> !IsSchemeAt(path, i)
  {
    hide FindScheme;
    var u := front + path;
    assert forall i :: 0 <= i < |path| ==> u[|front| + i] == path[i];
    assert forall i :: 0 <= i < |path| ==> IsSchemeAt(u, |front| + i) == IsSchemeAt(path, i);
    if FindScheme(u).Some? {
      var k := FindScheme(u).value;
      assert IsSchemeAt(path, k - |front|);
    }
  }

  // ---------- what is written ----------

  /** Behind a protocol the port is left out exactly if it is the well-known one, or negative. */
  lemma PortIsLeftOutExactlyIf(url: Url)
    requires url.protocol.Some? && url.host.Some?
    ensures Format(url) == url.protocol.value + "://" + url.host.value + OrEmpty(url.path)
            <==> url.port < 0 || url.port == WellKnownPort(url.protocol.value)
  {
    hide ProtocolNumber;
    hide WellKnownPort;
    DefaultPortIsWellKnown(url.protocol.value);
  }

  /** A missing host is written as 0.0.0.0, if there is a protocol, or a port that is not negative. */
  lemma AnyHostIsFilledIn(url: Url)
    requires url.host.None?
    ensures Format(url) == if url.protocol.Some? || url.port >= 0 then Format(url.(host := Some("0.0.0.0")))
                           else OrEmpty(url.path)
  {
    hide ProtocolNumber;
    hide PrintUnsigned;
  }

  /** What is left of the room allocated, or missing. */
  lemma RoomLeft(url: Url)
    ensures Allocated(url) - |Format(url)| - 1 ==
            (if url.host.Some? then 6 else if url.protocol.Some? || url.port >= 0 then -7 else 0)
            - if || (url.protocol.Some? && (url.port < 0 || url.port == WellKnownPort(url.protocol.value)))
                 || (url.protocol.None? && url.host.None? && url.port < 0)
              then 0 else 1 + |Decimal(url.port % 0x1_0000_0000)|
  {
    hide ProtocolNumber;
    hide WellKnownPort;
    hide Decimal;
    if url.protocol.Some? {
      DefaultPortIsWellKnown(url.protocol.value);
    }
  }

  /** The text and its NUL fit what is allocated exactly when a host is given whose port is left out
      or has at most five digits, or when nothing is written for host and port. A host that is
      filled in, and a negative port without protocol, do not fit. */
  lemma FormatFits(url: Url)
    ensures |Format(url)| + 1 <= Allocated(url) <==>
            if url.host.Some? then OmitsPort(url) || url.port % 0x1_0000_0000 < 100000
            else url.protocol.None? && url.port < 0
  {
    hide Decimal;
    DecimalLength(url.port % 0x1_0000_0000);
    hide ProtocolNumber;
  }

  /** So every URL the round trip covers fits, if its port has at most five digits. */
  lemma GoodUrlFits(url: Url)
    requires GoodUrl(url) && url.port < 100000
    ensures |Format(url)| + 1 <= Allocated(url)
  {
    hide Format;
    FormatFits(url);
  }
}
