/** Printing a URL into a buffer of limited size, or only measuring it (lib/url.c). */
module UrlPrinting {
  import opened Bytes
  import opened Scan
  import opened Urls
  import opened UrlText

  predicate IsCString(s: string) {
    '\0' !in s
  }

  predicate IsCUrl(url: Url) {
    && IsCString(OrEmpty(url.protocol)) && IsCString(OrEmpty(url.host)) && IsCString(OrEmpty(url.path))
    && -0x8000_0000 <= url.port < 0x8000_0000
  }

  // ---------- what is printed ----------

  function Scheme(url: Url): string {
    if OrEmpty(url.protocol) != "" then url.protocol.value + "://" else ""
  }

  function PortText(url: Url): string {
    if url.port != 0 then ":" + PrintUnsigned(url.port) else ""
  }

  /** The text of the whole URL; a port of 0 is not printed. */
  function Full(url: Url): string {
    Scheme(url) + OrEmpty(url.host) + PortText(url) + OrEmpty(url.path)
  }

  /** Is there room for the protocol, and for the host, so that printing goes on to the port? */
  predicate PassesHost(size: nat, url: Url) {
    && (Scheme(url) != "" ==> |Scheme(url)| < size)
    && (url.host.Some? ==> |Scheme(url) + url.host.value| < size)
  }

  /** A port is only printed where seven bytes are left. */
  predicate PrintsPort(size: nat, url: Url) {
    PassesHost(size, url) && url.port != 0 && |Scheme(url) + OrEmpty(url.host)| + 7 <= size
  }

  /** The part of the whole text that printing gets to before it gives up. */
  function Attempt(size: nat, url: Url): string {
    if Scheme(url) != "" && |Scheme(url)| > size then url.protocol.value
    else if Scheme(url) != "" && |Scheme(url)| == size then Scheme(url)
    else if !PassesHost(size, url) || (url.port != 0 && !PrintsPort(size, url)) then Scheme(url) + OrEmpty(url.host)
    else Full(url)
  }

  /** Buffer contents after a text was written at `at`. */
  function Overlay(b: string, at: nat, text: string): (r: string)
    requires at + |text| <= |b|
    ensures |r| == |b|
  {
    b[..at] + text + b[at + |text|..]
  }

  /** Buffer contents after a text and its NUL were written at `at`. */
  function Stamp(b: string, at: nat, text: string): (r: string)
    requires at + |text| < |b|
    ensures |r| == |b|
  {
    Overlay(b, at, text + ['\0'])
  }

  /** Buffer contents after printing: as much of the attempted text as leaves room for NUL. Nothing is
      written if no part is printed. */
  function Printed(b: string, size: nat, url: Url): string
    requires size <= |b|
  {
    if size == 0 || !PrintsAny(size, url) then b
    else Stamp(b, 0, Truncated(Attempt(size, url), size))
  }

  predicate PrintsAny(size: nat, url: Url) {
    Scheme(url) != "" || url.host.Some? || (if url.port != 0 then PrintsPort(size, url) else url.path.Some?)
  }

  function Truncated(text: string, size: nat): string
    requires size > 0
  {
    if |text| < size then text else text[..size - 1]
  }

  /** The number of digits the measuring run counts. */
  function CountedDigits(port: int): nat {
    if port > 9999 then 5 else if port > 999 then 4 else if port > 99 then 3 else if port > 9 then 2 else 1
  }

  // ---------- strlcpy ----------

  function CharAt(s: string, i: nat): char
    requires i <= |s|
  {
    if i < |s| then s[i] else '\0'
  }

  /** Copies at most `siz - 1` characters and a NUL to `at`; the result is the length of the source. */
  method StrLCpy(dst: array<char>, at: nat, src: string, siz: nat) returns (length: nat)
    requires IsCString(src) && at + siz <= dst.Length
    modifies dst
    ensures length == |src|
    ensures dst[..at] == old(dst[..at]) && dst[at + siz..] == old(dst[at + siz..])
    ensures siz > 0 ==> var n := if |src| < siz then |src| else siz - 1;
                        dst[at..at + n] == src[..n] && dst[at + n] == '\0'
    ensures dst[..] == if siz == 0 then old(dst[..]) else Stamp(old(dst[..]), at, Truncated(src, siz))
  {
    hide Overlay;
    ghost var before := dst[..];
    var d, s, n := at, 0, siz;
    if n != 0 {
      n := n - 1;
    }
    var ended := false;
    OverlayNothing(before, at);
    while n != 0 && !ended
      invariant !ended ==> s <= |src| && d == at + s && n == (if siz == 0 then 0 else siz - 1 - s)
      invariant siz == 0 ==> s == 0
      invariant !ended ==> at + s <= dst.Length && dst[..] == Overlay(before, at, src[..s])
      invariant ended ==> n != 0 && s == |src| + 1 && |src| < siz && dst[..] == Stamp(before, at, src)
      decreases !ended, n
    {
      OverlayStep(before, at, src[..s], CharAt(src, s));
      dst[d] := CharAt(src, s);
      if s == |src| {
        assert src[..s] == src;
        ended := true;
      } else {
        assert src[..s] + [src[s]] == src[..s + 1];
        n := n - 1;
      }
      d, s := d + 1, s + 1;
    }
    if n == 0 {
      assert siz == 0 ==> src[..s] == "";
      if siz != 0 {
        OverlayStep(before, at, src[..s], '\0');
        dst[d] := '\0';
        assert src[..s] == Truncated(src, siz);
      }
      while CharAt(src, s) != '\0'
        invariant s <= |src|
        decreases |src| - s
      {
        s := s + 1;
      }
      s := s + 1;
    }
    length := s - 1;
    if siz != 0 {
      StampIs(before, at, Truncated(src, siz), dst[..]);
    }
  }

  lemma StampIs(b: string, at: nat, text: string, r: string)
    requires at + |text| < |b| && r == Stamp(b, at, text)
    ensures r[..at] == b[..at] && r[at..at + |text|] == text && r[at + |text|] == '\0'
    ensures r[at + |text| + 1..] == b[at + |text| + 1..]
    ensures forall n :: at + |text| < n <= |b| ==> r[n..] == b[n..]
  {
    assert forall n :: at + |text| < n <= |b| ==> r[n..] == r[at + |text| + 1..][n - at - |text| - 1..];
    assert forall n :: at + |text| < n <= |b| ==> b[n..] == b[at + |text| + 1..][n - at - |text| - 1..];
  }

  lemma OverlayNothing(b: string, at: nat)
    requires at <= |b|
    ensures Overlay(b, at, "") == b
  {
  }

  lemma OverlayStep(b: string, at: nat, text: string, c: char)
    requires at + |text| < |b|
    ensures Overlay(b, at, text)[at + |text| := c] == Overlay(b, at, text + [c])
  {
  }

  // ---------- url_print ----------

  /** Nothing was written yet, or a text that started at the front, and its NUL. */
  ghost predicate Holds(before: string, b: string, text: string) {
    if b == before && text == "" then true else |text| < |before| && b == Stamp(before, 0, text)
  }

  /** Prints or measures one part behind the text printed so far. */
  method Put(buf: array?<char>, pos: nat, part: string, size: nat, ghost before: string, ghost text: string)
    returns (end: nat)
    requires IsCString(part)
    requires buf != null ==> pos == |text| <= size <= buf.Length && Holds(before, buf[..], text)
    requires buf != null && pos == size ==> size == 0 && buf[..] == before
    modifies if buf == null then {} else {buf}
    ensures end == pos + |part|
    ensures buf != null ==> |before| == buf.Length
    ensures buf != null ==> buf[..] == (if size == 0 then before else Stamp(before, 0, Truncated(text + part, size)))
  {
    hide Overlay;
    hide Stamp;
    hide IsCString;
    if buf == null {
      end := |part|;
    } else {
      end := StrLCpy(buf, pos, part, size - pos);
      if size != 0 {
        StampBehind(before, old(buf[..]), text, part, size);
      }
    }
    end := pos + end;
  }

  lemma StampBehind(before: string, b: string, text: string, part: string, size: nat)
    requires |text| < size <= |b| && Holds(before, b, text)
    ensures |b| == |before|
    ensures Stamp(b, |text|, Truncated(part, size - |text|)) == Stamp(before, 0, Truncated(text + part, size))
  {
    var t := Truncated(part, size - |text|);
    assert text + t == Truncated(text + part, size);
    OverlayBehind(before, b, text, t + ['\0']);
    assert text + (t + ['\0']) == text + t + ['\0'];
  }

  lemma OverlayBehind(before: string, b: string, text: string, part: string)
    requires |text| + |part| <= |b| && Holds(before, b, text)
    requires |part| > 0
    ensures |b| == |before|
    ensures Overlay(b, |text|, part) == Overlay(before, 0, text + part)
  {
  }

  /** The length that measuring reports: that of the attempted text, if the port has the digits counted. */
  function Measured(size: nat, url: Url): nat {
    if PrintsPort(size, url) then |Attempt(size, url)| - |PortText(url)| + 1 + CountedDigits(url.port)
    else |Attempt(size, url)|
  }

  /** The parts before the port. `stop` says that printing ends here. */
  method PrintProtocol(buf: array?<char>, size: nat, url: Url) returns (pos: nat, stop: bool)
    requires IsCUrl(url) && (buf != null ==> size <= buf.Length)
    modifies if buf == null then {} else {buf}
    ensures stop <==> Scheme(url) != "" && |Scheme(url)| >= size
    ensures stop ==> pos == |Attempt(size, url)|
    ensures stop && buf != null ==> buf[..] == Printed(old(buf[..]), size, url)
    ensures !stop ==> pos == |Scheme(url)|
    ensures !stop && buf != null ==> Holds(old(buf[..]), buf[..], Scheme(url))
    ensures Scheme(url) == "" && buf != null ==> buf[..] == old(buf[..])
  {
    hide Overlay;
    hide Stamp;
    ghost var before := if buf == null then "" else buf[..];
    pos, stop := 0, false;
    if OrEmpty(url.protocol) != "" {
      pos := Put(buf, 0, url.protocol.value, size, before, "");
      assert "" + url.protocol.value == url.protocol.value;
      if pos + 3 > size {
        return pos, true;
      }
      pos := Put(buf, pos, "://", size, before, url.protocol.value);
      stop := pos >= size;
    }
  }

  method PrintHost(buf: array?<char>, size: nat, url: Url) returns (pos: nat, stop: bool)
    requires IsCUrl(url) && (buf != null ==> size <= buf.Length)
    modifies if buf == null then {} else {buf}
    ensures stop <==> !PassesHost(size, url)
    ensures stop ==> pos == |Attempt(size, url)|
    ensures stop && buf != null ==> buf[..] == Printed(old(buf[..]), size, url)
    ensures !stop ==> pos == |Scheme(url) + OrEmpty(url.host)|
    ensures !stop && buf != null ==> Holds(old(buf[..]), buf[..], Scheme(url) + OrEmpty(url.host))
    ensures !stop && buf != null ==> |Scheme(url) + OrEmpty(url.host)| < buf.Length || buf[..] == old(buf[..])
    ensures !stop && buf != null ==>
              buf[..] == (if Scheme(url) == "" && url.host.None? then old(buf[..])
                          else Stamp(old(buf[..]), 0, Scheme(url) + OrEmpty(url.host)))
  {
    hide Overlay;
    hide Stamp;
    ghost var before := if buf == null then "" else buf[..];
    pos, stop := PrintProtocol(buf, size, url);
    if stop {
      return;
    }
    assert Scheme(url) + "" == Scheme(url);
    if url.host.Some? {
      pos := Put(buf, pos, url.host.value, size, before, Scheme(url));
      stop := pos >= size;
    }
  }

  /** Does the port, if it is printed, leave room for NUL? `ReserveHoldsPort` says for which ports it always does. */
  predicate PortFits(size: nat, url: Url) {
    PrintsPort(size, url) ==> |Scheme(url) + OrEmpty(url.host) + PortText(url)| < size
  }

  /** Prints into the buffer, or only measures if there is none. Printing formats the port without a limit,
      so it has to fit. */
  method UrlPrint(buf: array?<char>, size: nat, url: Url) returns (pos: nat)
    requires IsCUrl(url)
    requires buf != null ==> size <= buf.Length && PortFits(size, url)
    modifies if buf == null then {} else {buf}
    ensures buf == null ==> pos == Measured(size, url)
    ensures buf != null ==> pos == |Attempt(size, url)|
    ensures buf != null ==> buf[..] == Printed(old(buf[..]), size, url)
  {
    hide Overlay;
    hide Stamp;
    hide Scheme;
    hide PrintUnsigned;
    ghost var before := if buf == null then "" else buf[..];
    var stop;
    pos, stop := PrintHost(buf, size, url);
    if stop {
      return;
    }
    ghost var text := Scheme(url) + OrEmpty(url.host);
    assert text + "" == text;
    if url.port != 0 {
      if size - pos < 7 {
        return;
      }
      pos := PrintPort(buf, pos, url, before, text);
    }
    text := text + PortText(url);
    assert text + "" == text;
    if url.path.Some? {
      pos := Put(buf, pos, url.path.value, size, before, text);
    }
  }

  /** `sprintf` of the port, or the digits counted. */
  method PrintPort(buf: array?<char>, pos: nat, url: Url, ghost before: string, ghost text: string)
    returns (end: nat)
    requires url.port != 0
    requires buf != null ==> pos == |text| && pos + |PortText(url)| < buf.Length
    requires buf != null ==> Holds(before, buf[..], text)
    modifies if buf == null then {} else {buf}
    ensures end == pos + (if buf == null then 1 + CountedDigits(url.port) else |PortText(url)|)
    ensures buf != null ==> |before| == buf.Length && buf[..] == Stamp(before, 0, text + PortText(url))
  {
    hide PrintUnsigned;
    if buf == null {
      end := pos + 1 + CountedDigits(url.port);
    } else {
      ghost var b := buf[..];
      end := StrCpy(buf, pos, PortText(url));
      assert buf[..] == buf[..end] + [buf[end]] + buf[end + 1..];
      assert buf[..] == Stamp(b, pos, PortText(url));
      OverlayBehind(before, b, text, PortText(url) + ['\0']);
      assert text + (PortText(url) + ['\0']) == text + PortText(url) + ['\0'];
    }
  }

  // ---------- what printing promises ----------

  /** Printing gives up at the first part that does not fit, which it counts, but none behind it: the protocol
      with its separator has to leave a byte, the host has to leave one, and a port is only started where seven
      bytes are left. */
  lemma GivesUpAtFirst(size: nat, url: Url)
    ensures Attempt(size, url) <= Full(url)
    ensures var p, h := |OrEmpty(url.protocol)|, |OrEmpty(url.host)|; var n := if p == 0 then 0 else p + 3;
            |Attempt(size, url)| ==
            if p > 0 && n > size then p
            else if p > 0 && n == size then n
            else if url.host.Some? && n + h >= size then n + h
            else if url.port != 0 && n + h + 7 > size then n + h
            else |Full(url)|
  {
    hide PrintUnsigned;
    AttemptIsPrefix(size, url);
  }

  /** The buffer afterwards: as much of the attempted text as leaves room for NUL, and NUL, at its front, and
      whatever was there behind. It is not touched exactly if its size is 0, or there is no part to print. */
  lemma NothingBehindSize(b: string, size: nat, url: Url)
    requires size <= |b|
    ensures var r, text := Printed(b, size, url), Attempt(size, url);
            if || size == 0
               || (OrEmpty(url.protocol) == "" && url.host.None?
                   && if url.port != 0 then size < 7 else url.path.None?)
            then r == b
            else var n := if |text| < size then |text| else size - 1;
                 && |r| == |b| && r[..n] == text[..n] && r[n] == '\0' && r[n + 1..] == b[n + 1..]
                 && r[size..] == b[size..]
  {
    hide PrintUnsigned;
    hide Attempt;
    hide Stamp;
    if size > 0 && PrintsAny(size, url) {
      var text := Truncated(Attempt(size, url), size);
      StampIs(b, 0, text, Printed(b, size, url));
      assert Printed(b, size, url)[0..|text|] == Printed(b, size, url)[..|text|];
    }
  }

  lemma AttemptIsPrefix(size: nat, url: Url)
    ensures Attempt(size, url) <= Full(url)
  {
    hide PrintUnsigned;
    assert Scheme(url) != "" ==> url.protocol.value <= Scheme(url);
    assert Scheme(url) <= Scheme(url) + OrEmpty(url.host) <= Full(url);
  }

  // ---------- reading back what was printed ----------

  /** The port is printed behind a colon, except for 0. */
  lemma FullIs(url: Url, protocol: string, host: string)
    requires url.protocol == Some(protocol) && protocol != "" && url.host == Some(host)
    ensures Full(url) == protocol + "://" + (if url.port == 0 then host + OrEmpty(url.path)
                                             else host + (":" + (PrintUnsigned(url.port) + OrEmpty(url.path))))
  {
    hide PrintUnsigned;
    if url.port == 0 {
      Associate(protocol + "://" + host, "", OrEmpty(url.path));
      Associate(protocol + "://", host, OrEmpty(url.path));
      assert "" + OrEmpty(url.path) == OrEmpty(url.path);
    } else {
      Associate(protocol + "://" + host, PortText(url), OrEmpty(url.path));
      Associate(protocol + "://", host, PortText(url) + OrEmpty(url.path));
      Associate(":", PrintUnsigned(url.port), OrEmpty(url.path));
    }
  }

  /** Parts that are absent are printed as empty ones, and an empty protocol without its separator. */
  lemma AbsentPrintsEmpty(url: Url, protocol: string)
    ensures protocol != "" ==> Full(url.(protocol := Some(protocol))) == protocol + "://" + Full(url.(protocol := None))
    ensures Full(url.(protocol := Some(""))) == Full(url.(protocol := None))
    ensures Full(url.(host := None)) == Full(url.(host := Some("")))
    ensures Full(url.(path := None)) == Full(url.(path := Some("")))
  {
    hide PrintUnsigned;
    var scheme, host := protocol + "://", OrEmpty(url.host);
    assert "" + host == host;
    Associate(scheme, host, PortText(url));
    Associate(scheme, host + PortText(url), OrEmpty(url.path));
  }

  /** What was printed in full and is parsed again is the same URL exactly if the port was printed and the path
      is absent, or not empty and does not start with a digit; or it is 0, the protocol has no well-known port,
      and the path is absent or starts with '/'. */
  lemma FullReadBackExactlyIf(url: Url)
    requires GoodFront(url) && url.protocol != Some("")
    ensures Parse(Full(url)) == url <==>
            if url.port != 0 then url.path.Some? ==> url.path.value != "" && !IsDigit(url.path.value[0])
            else WellKnownPort(url.protocol.value) == 0 && (url.path.Some? ==> url.path.value != "" && url.path.value[0] == '/')
  {
    hide Parse;
    hide ParseAfterProtocol;
    hide FindScheme;
    hide WellKnownPort;
    hide PrintUnsigned;
    hide IsSchemeAt;
    var p, host, path := url.protocol.value, url.host.value, OrEmpty(url.path);
    FullIs(url, p, host);
    hide Full;
    var rest := if url.port == 0 then host + path else host + (":" + (PrintUnsigned(url.port) + path));
    SchemeFound(p, rest);
    ParsesBehindScheme(p, rest);
    if url.port == 0 {
      HostThenAnyPath(url.protocol, host, url.path);
    } else {
      PortThenAnyPath(url.protocol, host, url.port, url.path);
    }
  }

  /** Printing and formatting agree, for a protocol and a host, exactly if both write the port or neither does:
      the one leaves out 0, the other the well-known port and negative ones. */
  lemma FullIsFormatExactlyIf(url: Url)
    requires url.protocol.Some? && url.protocol != Some("") && url.host.Some?
    ensures Full(url) == Format(url) <==>
            (url.port == 0 <==> url.port < 0 || url.port == WellKnownPort(url.protocol.value))
  {
    hide WellKnownPort;
    hide ProtocolNumber;
    hide PrintUnsigned;
    var p, host, path := url.protocol.value, url.host.value, OrEmpty(url.path);
    DefaultPortIsWellKnown(p);
    FullIs(url, p, host);
    hide Full;
    if OmitsPort(url) {
      Associate(p + "://", host, path);
    } else {
      RegroupPort(host, PrintUnsigned(url.port), path);
      Associate(p + "://", host + ":" + PrintUnsigned(url.port), path);
    }
  }

  // ---------- measuring ----------

  /** The digits counted are those printed exactly for ports of at most five digits. */
  lemma CountedAsPrinted(port: int)
    requires -0x8000_0000 <= port < 0x8000_0000
    ensures CountedDigits(port) == |PrintUnsigned(port)| <==> 0 <= port < 100000
    ensures |PrintUnsigned(port)| <= 5 <==> 0 <= port < 100000
  {
    hide Decimal;
    DecimalLength(port % 0x1_0000_0000);
    if port < 0 {
      assert port % 0x1_0000_0000 == port + 0x1_0000_0000;
    }
  }

  /** Measuring reports what printing returns, whatever the size, exactly for ports of at most five digits. */
  lemma MeasuringAgrees(url: Url)
    requires IsCUrl(url)
    ensures (forall size: nat :: Measured(size, url) == |Attempt(size, url)|) <==> 0 <= url.port < 100000
  {
    hide PrintUnsigned;
    CountedAsPrinted(url.port);
    var enough := |Scheme(url) + OrEmpty(url.host)| + 7;
    assert url.port != 0 ==> PrintsPort(enough, url);
    assert Measured(enough, url) == |Attempt(enough, url)| || url.port != 0;
  }

  /** Where a port is printed it is counted as at most five digits, and a negative one, which prints ten, as
      one. */
  lemma MeasuredIs(size: nat, url: Url)
    requires IsCUrl(url)
    ensures |Attempt(size, url)| - Measured(size, url) ==
            if !PrintsPort(size, url) then 0
            else if url.port < 0 then 9
            else if url.port >= 100000 then |Decimal(url.port)| - 5 else 0
  {
    hide Decimal;
    var n := url.port % 0x1_0000_0000;
    if url.port < 0 {
      assert n == url.port + 0x1_0000_0000;
    }
    DecimalLength(n);
  }

  /** The seven bytes reserved hold the port and its NUL exactly for ports of at most five digits. */
  lemma ReserveHoldsPort(url: Url)
    requires IsCUrl(url)
    ensures (forall size: nat :: PortFits(size, url)) <==> 0 <= url.port < 100000
  {
    hide PrintUnsigned;
    CountedAsPrinted(url.port);
    var enough := |Scheme(url) + OrEmpty(url.host)| + 7;
    assert url.port != 0 ==> PrintsPort(enough, url);
    assert PortFits(enough, url) || url.port != 0;
  }

  /** Is the whole text printed? */
  predicate PrintsAll(size: nat, url: Url)
    requires size > 0
  {
    Truncated(Attempt(size, url), size) == Full(url)
  }

  /** Exactly when the text and its NUL fit, and seven bytes are left behind the host for a port. */
  lemma PrintsAllExactlyIf(size: nat, url: Url)
    requires size > 0
    ensures PrintsAll(size, url) <==>
            |Full(url)| < size && (url.port != 0 ==> |Scheme(url) + OrEmpty(url.host)| + 7 <= size)
  {
    hide PrintUnsigned;
    AttemptIsPrefix(size, url);
  }

  /** A result below the size does not tell that all was printed: the text is cut, and not reported as cut,
      exactly when the separator behind the protocol or the reserve for the port did not fit. */
  lemma CutUnnoticedExactlyIf(size: nat, url: Url)
    requires size > 0
    ensures |Attempt(size, url)| < size && !PrintsAll(size, url) <==>
            || (Scheme(url) != "" && |Scheme(url)| > size > |url.protocol.value|)
            || (PassesHost(size, url) && url.port != 0 && !PrintsPort(size, url))
  {
    hide PrintUnsigned;
    AttemptIsPrefix(size, url);
  }

  /** A buffer of the measured length and one byte for NUL is enough exactly if there is no port, or the port
      and the path together use up the reserve. */
  lemma MeasuredSizeIsEnoughExactlyIf(url: Url, limit: nat)
    requires IsCUrl(url) && 0 <= url.port < 100000 && |Full(url)| + 7 <= limit
    ensures Measured(limit, url) == |Full(url)|
    ensures PrintsAll(Measured(limit, url) + 1, url) <==>
            url.port == 0 || |PortText(url) + OrEmpty(url.path)| >= 6
  {
    hide PrintUnsigned;
    CountedAsPrinted(url.port);
    PrintsAllExactlyIf(limit, url);
    PrintsAllExactlyIf(Measured(limit, url) + 1, url);
  }
}
