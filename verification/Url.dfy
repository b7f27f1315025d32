/** URLs (lib/url.c, lib/url.h). C strings are texts without NUL; an absent one is `None`. */
module Urls {
  import opened Bytes
  import opened Scan

  datatype Url = Url(protocol: Option<string>, host: Option<string>, port: int, path: Option<string>)

  // ---------- protocols ----------

  datatype Protocol = WS | WSS | HTTP | HTTPS | RAW | TLS

  const PROTOCOL_NAMES := [("ws", WS), ("wss", WSS), ("http", HTTP), ("https", HTTPS), ("raw", RAW), ("tls", TLS)]

  /** The protocol of this name, letter case aside; RAW for any other name. */
  function ProtocolNumber(name: string): Protocol {
    if SameText(name, "tls") then TLS
    else if SameText(name, "https") then HTTPS
    else if SameText(name, "http") then HTTP
    else if SameText(name, "wss") then WSS
    else if SameText(name, "ws") then WS
    else RAW
  }

  method FindProtocol(name: string) returns (p: Protocol)
    ensures p == ProtocolNumber(name)
  {
    var i := |PROTOCOL_NAMES| - 1;
    while i >= 0
      invariant -1 <= i < |PROTOCOL_NAMES|
      invariant forall k :: i < k < |PROTOCOL_NAMES| ==> !SameText(name, PROTOCOL_NAMES[k].0)
    {
      var same := StrCaseCmp(name, PROTOCOL_NAMES[i].0);
      if same {
        FoundProtocol(name, i);
        return PROTOCOL_NAMES[i].1;
      }
      i := i - 1;
    }
    assert !SameText(name, PROTOCOL_NAMES[0].0) && !SameText(name, PROTOCOL_NAMES[1].0)
        && !SameText(name, PROTOCOL_NAMES[2].0) && !SameText(name, PROTOCOL_NAMES[3].0)
        && !SameText(name, PROTOCOL_NAMES[5].0);
    p := RAW;
  }

  lemma FoundProtocol(name: string, i: nat)
    requires i < |PROTOCOL_NAMES| && SameText(name, PROTOCOL_NAMES[i].0)
    requires forall k :: i < k < |PROTOCOL_NAMES| ==> !SameText(name, PROTOCOL_NAMES[k].0)
    ensures ProtocolNumber(name) == PROTOCOL_NAMES[i].1
  {
    hide SameText;
    assert i < 5 ==> !SameText(name, PROTOCOL_NAMES[5].0);
    assert i < 3 ==> !SameText(name, PROTOCOL_NAMES[3].0);
    assert i < 2 ==> !SameText(name, PROTOCOL_NAMES[2].0);
    assert i < 1 ==> !SameText(name, PROTOCOL_NAMES[1].0);
    if i == 4 {
      RawIsNoOther(name);
    }
  }

  lemma RawIsNoOther(name: string)
    requires SameText(name, "raw")
    ensures !SameText(name, "tls") && !SameText(name, "https") && !SameText(name, "http")
    ensures !SameText(name, "wss") && !SameText(name, "ws")
  {
    assert Lower("raw"[0]) == 'r' && Lower("tls"[0]) == 't' && Lower("wss"[0]) == 'w';
  }

  method StrCaseCmp(a: string, b: string) returns (same: bool)
    ensures same == SameText(a, b)
  {
    same := false;
    if |a| == |b| {
      same := StrNCaseCmp(a, b);
    }
  }

  function DefaultPort(p: Protocol): nat {
    match p
    case WS => 80
    case HTTP => 80
    case WSS => 443
    case HTTPS => 443
    case _ => 0
  }

  // ---------- numbers ----------

  function Digit(d: nat): char
    requires d < 10
  {
    '0' + d as char
  }

  /** `%u` of a number that is not negative. */
  function Decimal(n: nat): (s: string)
    ensures s != "" && forall i :: 0 <= i < |s| ==> '0' <= s[i] <= '9'
  {
    if n < 10 then [Digit(n)] else Decimal(n / 10) + [Digit(n % 10)]
  }

  const UINT32 := 0x1_0000_0000
  const ULONG := 0x1_0000_0000_0000_0000

  /** `%u` of an int. */
  function PrintUnsigned(port: int): string {
    Decimal(port % UINT32)
  }

  function DigitsIn(s: string): (n: nat)
    ensures n <= |s|
    ensures forall i :: 0 <= i < n ==> '0' <= s[i] <= '9'
    ensures n < |s| ==> !('0' <= s[n] <= '9')
  {
    if s != "" && '0' <= s[0] <= '9' then 1 + DigitsIn(s[1..]) else 0
  }

  function ValueOf(digits: string): nat
    requires forall i :: 0 <= i < |digits| ==> '0' <= digits[i] <= '9'
  {
    if digits == "" then 0
    else 10 * ValueOf(digits[..|digits| - 1]) + (digits[|digits| - 1] - '0') as nat
  }

  /** `strtoul` in base ten: the number, and how many characters it took. */
  function StrToUl(s: string): (r: (nat, nat))
    ensures r.1 <= |s|
  {
    var w := SkipSpace(s);
    var signed := w < |s| && (s[w] == '-' || s[w] == '+');
    var start := if signed then w + 1 else w;
    var n := DigitsIn(s[start..]);
    if n == 0 then (0, 0)
    else
      var v := ValueOf(s[start..][..n]);
      (if v >= ULONG then ULONG - 1 else if signed && s[w] == '-' then (ULONG - v) % ULONG else v, start + n)
  }

  /** The conversion of an unsigned long to an int. */
  function ToInt(n: nat): int {
    var low := n % UINT32;
    if low < UINT32 / 2 then low else low - UINT32
  }

  // ---------- parsing ----------

  /** Position of the first "://", none if there is no such text. */
  function FindScheme(u: string): (k: Option<nat>)
    ensures k.Some? ==> k.value + 3 <= |u| && IsSchemeAt(u, k.value)
    ensures forall i :: 0 <= i < (if k.Some? then k.value else |u|) ==> !IsSchemeAt(u, i)
  {
    if u == "" then None
    else if IsSchemeAt(u, 0) then Some(0)
    else
      var k := FindScheme(u[1..]);
      assert forall i :: 0 < i < |u| ==> IsSchemeAt(u, i) == IsSchemeAt(u[1..], i - 1);
      if k.Some? then Some(k.value + 1) else None
  }

  predicate IsSchemeAt(u: string, i: nat) {
    i + 3 <= |u| && u[i] == ':' && u[i + 1] == '/' && u[i + 2] == '/'
  }

  predicate EndsHost(c: char) {
    c == ':' || c == '/'
  }

  function HostLength(u: string): (n: nat)
    ensures n <= |u|
    ensures forall i :: 0 <= i < n ==> !EndsHost(u[i])
    ensures n < |u| ==> EndsHost(u[n])
  {
    if u != "" && !EndsHost(u[0]) then 1 + HostLength(u[1..]) else 0
  }

  function NonEmpty(s: string): Option<string> {
    if s == "" then None else Some(s)
  }

  /** Host, port and path of what follows the protocol. */
  function ParseAfterProtocol(protocol: Option<string>, u: string): Url {
    var n := HostLength(u);
    var rest := u[n..];
    if rest != "" && rest[0] == ':' then
      var (v, used) := StrToUl(rest[1..]);
      Url(protocol, NonEmpty(u[..n]), if v == ULONG - 1 then 0 else ToInt(v), NonEmpty(rest[1 + used..]))
    else
      Url(protocol, NonEmpty(u[..n]),
          if protocol.Some? then DefaultPort(ProtocolNumber(protocol.value)) else -1, NonEmpty(rest))
  }

  /** Parsing into a cleared URL. */
  function Parse(u: string): Url {
    var k := FindScheme(u);
    if k.Some? then ParseAfterProtocol(Some(u[..k.value]), u[k.value + 3..])
    else ParseAfterProtocol(None, u)
  }

  /** Parsing into a URL that was used before: its path stays if the text has none. */
  function ParseOver(was: Url, u: string): Url {
    var url := Parse(u);
    if url.path.Some? then url else url.(path := was.path)
  }

  method UrlParse(was: Url, text: string) returns (url: Url)
    ensures url == ParseOver(was, text)
  {
    hide FindScheme;
    hide ProtocolNumber;
    hide ParseAfterProtocol;
    var at := StrStrScheme(text);
    if at.Some? {
      var number := FindProtocol(text[..at.value]);
      url := ParseRest(was.path, Some(text[..at.value]), number, text[at.value + 3..]);
    } else {
      url := ParseRest(was.path, None, WS, text);
    }
  }

  /** The part of `url_parse` behind the protocol. */
  method ParseRest(path: Option<string>, protocol: Option<string>, number: Protocol, u: string) returns (url: Url)
    requires protocol.Some? ==> number == ProtocolNumber(protocol.value)
    ensures var parsed := ParseAfterProtocol(protocol, u);
            url == if parsed.path.Some? then parsed else parsed.(path := path)
  {
    hide StrToUl;
    hide ToInt;
    hide HostLength;
    hide ProtocolNumber;
    var s := 0;
    while s < |u| && u[s] != ':' && u[s] != '/'
      invariant 0 <= s <= |u| && forall i :: 0 <= i < s ==> !EndsHost(u[i])
    {
      s := s + 1;
    }
    HostLengthIs(u, s);
    var host := if s > 0 then Some(u[..s]) else None;
    var port: int;
    var rest := u[s..];
    if rest != "" && rest[0] == ':' {
      rest := rest[1..];
      var (n, used) := StrToUl(rest);
      port := if n != ULONG - 1 then ToInt(n) else 0;
      rest := rest[used..];
      assert rest == u[s..][1 + used..];
    } else if protocol.Some? {
      port := DefaultPort(number);
    } else {
      port := -1;
    }
    url := Url(protocol, host, port, if rest != "" then Some(rest) else path);
  }

  lemma HostLengthIs(u: string, n: nat)
    requires n <= |u| && (forall i :: 0 <= i < n ==> !EndsHost(u[i])) && (n < |u| ==> EndsHost(u[n]))
    ensures HostLength(u) == n
  {
  }

  /** `strstr(u, "://")`. */
  method StrStrScheme(u: string) returns (at: Option<nat>)
    ensures at == FindScheme(u)
  {
    var i := 0;
    while i < |u|
      invariant i <= |u| && forall j :: 0 <= j < i ==> !IsSchemeAt(u, j)
    {
      if i + 3 <= |u| && u[i] == ':' && u[i + 1] == '/' && u[i + 2] == '/' {
        FindSchemeIs(u, i);
        return Some(i);
      }
      i := i + 1;
    }
    at := None;
  }

  lemma FindSchemeIs(u: string, k: nat)
    requires IsSchemeAt(u, k) && forall i :: 0 <= i < k ==> !IsSchemeAt(u, i)
    ensures FindScheme(u) == Some(k)
  {
  }

  // ---------- formatting ----------

  /** Is the port left out? Only behind a protocol, when it is the default or not given. */
  predicate OmitsPort(url: Url) {
    url.protocol.Some? && (url.port == DefaultPort(ProtocolNumber(url.protocol.value)) || url.port < 0)
  }

  const ANY_HOST := "0.0.0.0"

  function FormattedHost(url: Url): Option<string> {
    if url.host.Some? then url.host
    else if url.protocol.Some? || url.port >= 0 then Some(ANY_HOST)
    else None
  }

  function Prefix(url: Url): string {
    if url.protocol.Some? then url.protocol.value + "://" else ""
  }

  function HostAndPort(url: Url): string {
    match FormattedHost(url)
    case None => ""
    case Some(host) => if OmitsPort(url) then host else host + ":" + PrintUnsigned(url.port)
  }

  function OrEmpty(s: Option<string>): string {
    if s.Some? then s.value else ""
  }

  function Format(url: Url): string {
    Prefix(url) + HostAndPort(url) + OrEmpty(url.path)
  }

  /** The length `url_format` allocates. */
  function Allocated(url: Url): nat {
    (if url.protocol.Some? then |url.protocol.value| + 3 else 0)
    + (if url.host.Some? then |url.host.value| + 1 + 5 else 0)
    + (if url.path.Some? then |url.path.value| else 0) + 1
  }

  /** Writes into what was allocated, which must be enough, see `FormatFits`. */
  method UrlFormat(url: Url) returns (str: array<char>)
    requires |Format(url)| + 1 <= Allocated(url)
    ensures fresh(str) && str.Length == Allocated(url)
    ensures str[..|Format(url)|] == Format(url) && str[|Format(url)|] == '\0'
  {
    hide ProtocolNumber;
    hide PrintUnsigned;
    str := new char[Allocated(url)];
    var pos := 0;
    str[pos] := '\0';
    var omits := false;
    if url.protocol.Some? {
      var number := FindProtocol(url.protocol.value);
      pos := StrCpy(str, pos, url.protocol.value);
      pos := StrCpy(str, pos, "://");
      omits := url.port == DefaultPort(number) || url.port < 0;
    }
    assert str[..pos] == Prefix(url);
    var host := if url.host.Some? then url.host else if pos > 0 || url.port >= 0 then Some(ANY_HOST) else None;
    assert host == FormattedHost(url);
    if host.Some? {
      if omits {
        pos := StrCpy(str, pos, host.value);
      } else {
        pos := StrCpy(str, pos, host.value + ":" + PrintUnsigned(url.port));
      }
    }
    assert str[..pos] == Prefix(url) + HostAndPort(url);
    if url.path.Some? {
      pos := StrCpy(str, pos, url.path.value);
    }
    assert str[..pos] == Format(url);
  }

  /** `strcpy` to a position behind which the text and its NUL fit. */
  method StrCpy(str: array<char>, pos: nat, s: string) returns (end: nat)
    requires pos + |s| + 1 <= str.Length
    modifies str
    ensures end == pos + |s|
    ensures str[..end] == old(str[..pos]) + s && str[end] == '\0'
    ensures str[end + 1..] == old(str[end + 1..])
  {
    for k := 0 to |s|
      invariant str[pos + k..] == old(str[pos + k..])
      invariant str[..pos + k] == old(str[..pos]) + s[..k]
    {
      assert old(str[pos + k + 1..]) == old(str[pos + k..])[1..];
      str[pos + k] := s[k];
      assert str[..pos + k + 1] == str[..pos + k] + [s[k]];
      assert s[..k + 1] == s[..k] + [s[k]];
    }
    end := pos + |s|;
    str[end] := '\0';
    assert s[..|s|] == s;
  }
}
