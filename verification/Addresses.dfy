/** SOCKS5 addresses (section 5 of RFC 1928) and their text form (socks5/socks5.go). Texts are
    byte strings, as in Go. Of the library functions that the code calls, decimal numbers,
    dotted IPv4 addresses and host:port pairs are spelled out; the text of an IPv6 address is
    a parameter. */
module Addresses {
  import opened Streams

  type Text = seq<byte>

  const PLUS: byte := 43
  const MINUS: byte := 45
  const DOT: byte := 46
  const ZERO: byte := 48
  const COLON: byte := 58
  const OPEN: byte := 91
  const CLOSE: byte := 93

  const IP4: byte := 1
  const NAME: byte := 3
  const IP6: byte := 4

  // ----- Decimal numbers -----

  predicate IsDigit(b: byte) {
    ZERO <= b < ZERO + 10
  }

  /** `strconv.Itoa` of a natural number. */
  function Itoa(n: nat): (t: Text)
    ensures t != [] && forall i :: 0 <= i < |t| ==> IsDigit(t[i])
  {
    if n < 10 then [ZERO + n] else Itoa(n / 10) + [ZERO + n % 10]
  }

  function Number(t: Text): Option<nat> {
    if t == [] || !IsDigit(t[|t| - 1]) then None
    else
      var d := t[|t| - 1] - ZERO;
      if |t| == 1 then Some(d)
      else
        var n := Number(t[..|t| - 1]);
        if n == None then None else Some(10 * n.value + d)
  }

  /** `strconv.Atoi`: an optional sign, digits, and the range of a 64 bit integer. */
  function Atoi(t: Text): Option<int> {
    var signed := t != [] && (t[0] == PLUS || t[0] == MINUS);
    var n := Number(if signed then t[1..] else t);
    if n == None then None
    else
      var v := if signed && t[0] == MINUS then -(n.value as int) else n.value;
      if -0x8000_0000_0000_0000 <= v < 0x8000_0000_0000_0000 then Some(v) else None
  }

  lemma {:induction false} NumberOfItoa(n: nat)
    ensures Number(Itoa(n)) == Some(n)
  {
    if n >= 10 {
      var t := Itoa(n);
      NumberOfItoa(n / 10);
      assert t[..|t| - 1] == Itoa(n / 10);
    }
  }

  lemma AtoiOfItoa(n: nat)
    ensures Atoi(Itoa(n)) == if n < 0x8000_0000_0000_0000 then Some(n) else None
  {
    NumberOfItoa(n);
    assert IsDigit(Itoa(n)[0]);
  }

  function Pow10(k: nat): nat {
    if k == 0 then 1 else 10 * Pow10(k - 1)
  }

  /** The sum of digit times power of ten. */
  function Value(t: Text): int {
    if t == [] then 0 else (t[0] - ZERO as int) * Pow10(|t| - 1) + Value(t[1..])
  }

  predicate Digits(t: Text) {
    forall i :: 0 <= i < |t| ==> IsDigit(t[i])
  }

  lemma {:induction false} ValueLast(t: Text)
    requires t != []
    ensures Value(t) == 10 * Value(t[..|t| - 1]) + (t[|t| - 1] - ZERO as int)
  {
    if |t| > 1 {
      ValueLast(t[1..]);
      assert t[1..][..|t| - 2] == t[..|t| - 1][1..];
    } else {
      assert t[..0] == [] && t[1..] == [];
    }
  }

  lemma {:induction false} ValueAtLeast(t: Text)
    requires Digits(t)
    ensures Value(t) >= 0
  {
    if t != [] {
      ValueAtLeast(t[1..]);
      assert (t[0] - ZERO as int) * Pow10(|t| - 1) >= 0;
    }
  }

  /** A decimal numeral as everybody writes it. */
  predicate Numeral(t: Text) {
    t != [] && Digits(t) && (|t| > 1 ==> t[0] != ZERO)
  }

  /** A printed number is a numeral, and its value is the number. */
  lemma {:induction false} ItoaIsNumeral(n: nat)
    ensures Numeral(Itoa(n)) && Value(Itoa(n)) == n
    ensures n < 10 ==> Itoa(n) == [ZERO + n]
    ensures n > 0 ==> Itoa(n)[0] != ZERO
  {
    var t := Itoa(n);
    ValueLast(t);
    if n < 10 {
      assert t[..0] == [];
    } else {
      ItoaIsNumeral(n / 10);
      assert t[..|t| - 1] == Itoa(n / 10);
    }
  }

  lemma LeadingDigitCounts(t: Text)
    requires Numeral(t) && |t| > 1
    ensures Value(t) >= 10
  {
    ValueAtLeast(t[1..]);
    PowAtLeast(|t| - 1);
    hide Pow10;
    AtLeastOnce(t[0] - ZERO as int, Pow10(|t| - 1));
  }

  lemma AtLeastOnce(a: int, b: int)
    requires a >= 1 && b >= 0
    ensures a * b >= b
  {
  }

  lemma PowAtLeast(k: nat)
    ensures Pow10(k) >= 1 && (k > 0 ==> Pow10(k) >= 10)
  {
  }

  /** There is only one numeral for a number. */
  lemma {:induction false} NumeralIsItoa(t: Text)
    requires Numeral(t)
    ensures Value(t) >= 0 && t == Itoa(Value(t))
    decreases |t|
  {
    ValueAtLeast(t);
    ValueLast(t);
    if |t| == 1 {
      assert t[..0] == [];
    } else {
      LeadingDigitCounts(t);
      NumeralIsItoa(t[..|t| - 1]);
      var v := Value(t[..|t| - 1]);
      assert Value(t) / 10 == v && Value(t) % 10 == t[|t| - 1] - ZERO as int;
      assert t == t[..|t| - 1] + [t[|t| - 1]];
    }
  }

  // ----- Finding bytes -----

  function Index(t: Text, b: byte): (i: int)
    ensures -1 <= i < |t|
    ensures if i < 0 then b !in t else t[i] == b && forall k :: 0 <= k < i ==> t[k] != b
  {
    if t == [] then -1
    else if t[0] == b then 0
    else
      var i := Index(t[1..], b);
      if i < 0 then -1 else i + 1
  }

  function LastIndex(t: Text, b: byte): (i: int)
    ensures -1 <= i < |t|
    ensures if i < 0 then b !in t else t[i] == b && forall k :: i < k < |t| ==> t[k] != b
  {
    if t == [] then -1
    else if t[|t| - 1] == b then |t| - 1
    else
      assert t == t[..|t| - 1] + [t[|t| - 1]];
      LastIndex(t[..|t| - 1], b)
  }

  // ----- host:port -----

  /** `net.JoinHostPort` */
  function JoinHostPort(host: Text, port: Text): Text {
    if COLON in host then [OPEN] + host + [CLOSE, COLON] + port else host + [COLON] + port
  }

  /** `net.SplitHostPort` */
  function SplitHostPort(t: Text): Result<(Text, Text)> {
    var i := LastIndex(t, COLON);
    if i < 0 then Fail
    else if t[0] == OPEN then
      var end := Index(t, CLOSE);
      if end < 0 || end + 1 != i then Fail
      else if OPEN in t[1..] || CLOSE in t[end + 1..] then Fail
      else Ok((t[1..end], t[i + 1..]))
    else if COLON in t[..i] || OPEN in t || CLOSE in t then Fail
    else Ok((t[..i], t[i + 1..]))
  }

  predicate Plain(t: Text) {
    OPEN !in t && CLOSE !in t
  }

  /** Where the last colon and, if the host has none, the first closing bracket are. */
  lemma BracketsFound(host: Text, port: Text)
    requires Plain(port) && COLON !in port
    ensures var t, n := [OPEN] + host + [CLOSE, COLON] + port, |host|;
            && LastIndex(t, COLON) == n + 2
            && (if CLOSE in host then 0 <= Index(t, CLOSE) <= n else Index(t, CLOSE) == n + 1)
  {
    var t, n := [OPEN] + host + [CLOSE, COLON] + port, |host|;
    assert t[n + 2] == COLON && t[n + 1] == CLOSE && t[0] == OPEN;
    assert forall k :: n + 2 < k < |t| ==> t[k] == port[k - n - 3];
    assert forall k :: 0 < k <= n ==> t[k] == host[k - 1];
    if CLOSE in host {
      var k :| 0 <= k < n && host[k] == CLOSE;
      assert t[k + 1] == CLOSE;
    }
  }

  lemma SplitBracketed(host: Text, port: Text)
    requires Plain(port) && COLON !in port && COLON in host
    ensures SplitHostPort(JoinHostPort(host, port)) == if Plain(host) then Ok((host, port)) else Fail
  {
    hide Index, LastIndex;
    var t, n := JoinHostPort(host, port), |host|;
    BracketsFound(host, port);
    assert t[n + 3..] == port && t[1..n + 1] == host;
    assert t[1..] == host + [CLOSE, COLON] + port;
    assert t[n + 2..] == [COLON] + port;
  }

  lemma SplitBare(host: Text, port: Text)
    requires Plain(port) && COLON !in port && COLON !in host
    ensures var r := SplitHostPort(JoinHostPort(host, port));
            && (r.Ok? ==> Plain(r.value.0) && r.value.1 == port)
            && (r == Ok((host, port)) <==> Plain(host))
  {
    var t := JoinHostPort(host, port);
    var n := |host|;
    assert t[n] == COLON && t[n + 1..] == port && t[..n] == host;
    assert LastIndex(t, COLON) == n by {
      assert forall k :: n < k < |t| ==> t[k] == port[k - n - 1];
    }
    var end := Index(t, CLOSE);
    if t[0] == OPEN && end + 1 == n {
      assert forall k :: 0 < k < end ==> t[1..end][k - 1] == t[k];
      assert forall x :: x in t[1..end] ==> x in t[1..];
    }
  }

  /** A host comes back out of a host:port pair exactly when it has no bracket. */
  lemma SplitJoinExactly(host: Text, port: Text)
    requires Plain(port) && COLON !in port
    ensures var r := SplitHostPort(JoinHostPort(host, port));
            && (r.Ok? ==> Plain(r.value.0) && r.value.1 == port)
            && (r == Ok((host, port)) <==> Plain(host))
  {
    hide SplitHostPort, JoinHostPort;
    if COLON in host {
      SplitBracketed(host, port);
    } else {
      SplitBare(host, port);
    }
  }

  // ----- IP addresses -----

  /** The decimal numbers with dots between them. */
  function Dotted(ip: seq<byte>): Text {
    if ip == [] then []
    else if |ip| == 1 then Itoa(ip[0])
    else Itoa(ip[0]) + [DOT] + Dotted(ip[1..])
  }

  function DigitRun(t: Text): (n: nat)
    ensures n <= |t| && (forall i :: 0 <= i < n ==> IsDigit(t[i])) && (n < |t| ==> !IsDigit(t[n]))
  {
    if t == [] || !IsDigit(t[0]) then 0 else 1 + DigitRun(t[1..])
  }

  /** Reads `n` decimal numbers below 256 with dots between them, and nothing more. Leading
      zeros are accepted. */
  function Octets(t: Text, n: nat): (ip: Option<seq<byte>>)
    ensures ip.Some? ==> |ip.value| == n
    decreases n
  {
    if n == 0 then (if t == [] then Some([]) else None)
    else
      var k := DigitRun(t);
      var v := Number(t[..k]);
      if v == None || v.value > 0xff then None
      else if n == 1 then (if k == |t| then Some([v.value]) else None)
      else if k == |t| || t[k] != DOT then None
      else
        var rest := Octets(t[k + 1..], n - 1);
        if rest == None then None else Some([v.value] + rest.value)
  }

  lemma DigitRunIs(n: nat, t: Text)
    requires t == [] || !IsDigit(t[0])
    ensures DigitRun(Itoa(n) + t) == |Itoa(n)|
  {
    var k := DigitRun(Itoa(n) + t);
    assert forall i :: 0 <= i < |Itoa(n)| ==> (Itoa(n) + t)[i] == Itoa(n)[i];
    assert t != [] ==> (Itoa(n) + t)[|Itoa(n)|] == t[0];
  }

  /** One number and a dot are read off the front. */
  lemma OctetsStep(b: byte, t: Text, n: nat)
    requires n > 1
    ensures Octets(Itoa(b) + [DOT] + t, n) ==
      var rest := Octets(t, n - 1); if rest == None then None else Some([b] + rest.value)
  {
    hide Itoa, Number;
    var first, all := Itoa(b), Itoa(b) + [DOT] + t;
    NumberOfItoa(b);
    assert all == first + ([DOT] + t);
    DigitRunIs(b, [DOT] + t);
    assert all[..|first|] == first && all[|first|] == DOT && all[|first| + 1..] == t;
  }

  lemma OctetsLast(b: byte)
    ensures Octets(Itoa(b), 1) == Some([b])
  {
    hide Itoa, Number;
    NumberOfItoa(b);
    DigitRunIs(b, []);
    assert Itoa(b) + [] == Itoa(b) && Itoa(b)[..|Itoa(b)|] == Itoa(b);
  }

  lemma {:induction false} OctetsOfDotted(ip: seq<byte>)
    requires ip != []
    ensures Octets(Dotted(ip), |ip|) == Some(ip)
  {
    hide Itoa, Octets;
    if |ip| == 1 {
      OctetsLast(ip[0]);
      assert [ip[0]] == ip;
    } else {
      OctetsOfDotted(ip[1..]);
      OctetsStep(ip[0], Dotted(ip[1..]), |ip|);
      assert [ip[0]] + ip[1..] == ip;
    }
  }

  type Ip6 = s: seq<byte> | |s| == 16 witness seq(16, _ => 0)

  const MAPPED: seq<byte> := [0, 0, 0, 0, 0, 0, 0, 0, 0, 0, 0xff, 0xff]

  /** How 16 byte addresses are printed and texts with a colon are parsed. */
  datatype Ip6Text = Ip6Text(render: Ip6 -> Text, parse: Text -> Option<Ip6>)

  /** `IP.To4`: the last four bytes of an address that stands for an IPv4 address. */
  function To4(ip: Ip6): Option<seq<byte>> {
    if ip[..12] == MAPPED then Some(ip[12..]) else None
  }

  /** The first dot or colon decides which kind of address a text can be. */
  function FirstMark(t: Text): Option<byte> {
    if t == [] then None else if t[0] == DOT || t[0] == COLON then Some(t[0]) else FirstMark(t[1..])
  }

  /** `net.ParseIP`; an IPv4 address comes in its 16 byte form. */
  function ParseIP(c: Ip6Text, t: Text): Option<Ip6> {
    match FirstMark(t)
    case None => None
    case Some(b) =>
      if b == COLON then c.parse(t)
      else
        var ip := Octets(t, 4);
        if ip == None then None else Some(MAPPED + ip.value)
  }

  /** `IP.String` */
  function IPText(c: Ip6Text, ip: Ip6): Text {
    if To4(ip).Some? then Dotted(To4(ip).value) else c.render(ip)
  }

  lemma {:induction false} MarkAfterDigits(digits: Text, t: Text)
    requires forall i :: 0 <= i < |digits| ==> IsDigit(digits[i])
    ensures FirstMark(digits + t) == FirstMark(t)
  {
    if digits == [] {
      assert digits + t == t;
    } else {
      assert (digits + t)[0] == digits[0] && (digits + t)[1..] == digits[1..] + t;
      MarkAfterDigits(digits[1..], t);
    }
  }

  lemma {:induction false} DottedPlain(ip: seq<byte>)
    ensures Plain(Dotted(ip)) && COLON !in Dotted(ip)
  {
    if |ip| > 1 {
      DottedPlain(ip[1..]);
    }
  }

  lemma DottedMark(ip: seq<byte>)
    requires |ip| > 1
    ensures FirstMark(Dotted(ip)) == Some(DOT)
  {
    hide Itoa;
    var tail := [DOT] + Dotted(ip[1..]);
    assert Dotted(ip) == Itoa(ip[0]) + tail;
    MarkAfterDigits(Itoa(ip[0]), tail);
  }

  /** A dotted address parses to itself. */
  lemma ParseDotted(c: Ip6Text, ip: seq<byte>)
    requires |ip| == 4
    ensures ParseIP(c, Dotted(ip)) == Some(MAPPED + ip) && To4(MAPPED + ip) == Some(ip)
    ensures IPText(c, MAPPED + ip) == Dotted(ip)
  {
    hide Dotted, Octets, FirstMark;
    DottedMark(ip);
    OctetsOfDotted(ip);
    assert (MAPPED + ip)[..12] == MAPPED && (MAPPED + ip)[12..] == ip;
  }

  // ----- Reading -----

  function ReadHostFrom(c: Ip6Text, s: seq<byte>): Result<(Text, seq<byte>)> {
    var (kind, s1) :- Take(s, 1);
    if kind[0] == IP4 then
      var (ip, rest) :- Take(s1, 4);
      Ok((Dotted(ip), rest))
    else if kind[0] == IP6 then
      var (ip, rest) :- Take(s1, 16);
      Ok((IPText(c, ip), rest))
    else if kind[0] == NAME then
      var (length, s2) :- Take(s1, 1);
      Take(s2, length[0])
    else Fail
  }

  function ReadPortFrom(s: seq<byte>): Result<(Text, seq<byte>)> {
    var (p, rest) :- Take(s, 2);
    Ok((Itoa(p[0] as int * 0x100 + p[1]), rest))
  }

  function ReadAddressFrom(c: Ip6Text, s: seq<byte>): Result<(Text, seq<byte>)> {
    var (host, s1) :- ReadHostFrom(c, s);
    var (port, rest) :- ReadPortFrom(s1);
    Ok((JoinHostPort(host, port), rest))
  }

  method ReadHost(c: Ip6Text, r: Reader) returns (host: Result<Text>)
    modifies r
    ensures host.Ok? == ReadHostFrom(c, old(r.rest)).Ok?
    ensures host.Ok? ==> ReadHostFrom(c, old(r.rest)) == Ok((host.value, r.rest))
  {
    var buf :- r.ReadFull(1);
    var kind := buf[0];
    var length := 0;
    if kind == IP4 {
      length := 4;
    } else if kind == IP6 {
      length := 16;
    } else if kind == NAME {
      buf :- r.ReadFull(1);
      length := buf[0];
    } else {
      return Fail;
    }
    buf :- r.ReadFull(length);
    if kind == NAME {
      host := Ok(buf);
    } else if kind == IP4 {
      host := Ok(Dotted(buf));
    } else {
      host := Ok(IPText(c, buf));
    }
  }

  method ReadPort(r: Reader) returns (port: Result<Text>)
    modifies r
    ensures port.Ok? == ReadPortFrom(old(r.rest)).Ok?
    ensures port.Ok? ==> ReadPortFrom(old(r.rest)) == Ok((port.value, r.rest))
  {
    var buf :- r.ReadFull(2);
    port := Ok(Itoa(buf[0] as int * 0x100 + buf[1]));
  }

  method ReadAddress(c: Ip6Text, r: Reader) returns (addr: Result<Text>)
    modifies r
    ensures addr.Ok? == ReadAddressFrom(c, old(r.rest)).Ok?
    ensures addr.Ok? ==> ReadAddressFrom(c, old(r.rest)) == Ok((addr.value, r.rest))
  {
    var host :- ReadHost(c, r);
    var port :- ReadPort(r);
    addr := Ok(JoinHostPort(host, port));
  }

  // ----- Encoding -----

  function EncodeHost(c: Ip6Text, host: Text): Result<seq<byte>> {
    match ParseIP(c, host)
    case Some(ip) => Ok(if To4(ip).Some? then [IP4] + To4(ip).value else [IP6] + ip)
    case None => if |host| > 0xff then Fail else Ok([NAME, |host|] + host)
  }

  function EncodePort(port: Text): Result<seq<byte>> {
    match Atoi(port)
    case None => Fail
    case Some(p) => if p < 1 || p > 0xffff then Fail else Ok([p / 0x100, p % 0x100])
  }

  function EncodeAddress(c: Ip6Text, addr: Text): Result<seq<byte>> {
    var (host, port) :- SplitHostPort(addr);
    var h :- EncodeHost(c, host);
    var p :- EncodePort(port);
    Ok(h + p)
  }

  // ----- Theorems -----

  /** What a host reads back as. */
  function CanonicalHost(c: Ip6Text, host: Text): Text {
    match ParseIP(c, host)
    case Some(ip) => IPText(c, ip)
    case None => host
  }

  lemma HostEncoded(c: Ip6Text, host: Text, r: seq<byte>)
    ensures EncodeHost(c, host).Fail? <==> ParseIP(c, host).None? && |host| > 0xff
    ensures EncodeHost(c, host).Ok? ==>
      ReadHostFrom(c, EncodeHost(c, host).value + r) == Ok((CanonicalHost(c, host), r))
  {
    hide ParseIP, Dotted;
    var e := EncodeHost(c, host);
    if e.Ok? {
      var s := e.value + r;
      assert s[1..] == e.value[1..] + r;
      match ParseIP(c, host)
      case Some(ip) =>
        var body := e.value[1..];
        assert s[1..][..|body|] == body && s[1..][|body|..] == r;
      case None =>
        assert s[1..][1..] == host + r;
        assert (host + r)[..|host|] == host && (host + r)[|host|..] == r;
    }
  }

  lemma PortEncoded(port: Text, r: seq<byte>)
    ensures EncodePort(port).Ok? <==> Atoi(port).Some? && 1 <= Atoi(port).value <= 0xffff
    ensures EncodePort(port).Ok? ==>
      ReadPortFrom(EncodePort(port).value + r) == Ok((Itoa(Atoi(port).value as nat), r))
  {
    if EncodePort(port).Ok? {
      var s := EncodePort(port).value + r;
      assert s[..2] == EncodePort(port).value && s[2..] == r;
    }
  }

  /** Whatever encodes reads back, off any stream, as its canonical form, and nothing more of
      the stream is read. */
  lemma EncodedReadsBack(c: Ip6Text, addr: Text, r: seq<byte>)
    requires EncodeAddress(c, addr).Ok?
    ensures SplitHostPort(addr).Ok?
    ensures var (host, port) := SplitHostPort(addr).value;
            && Atoi(port).Some? && 1 <= Atoi(port).value <= 0xffff
            && ReadAddressFrom(c, EncodeAddress(c, addr).value + r)
               == Ok((JoinHostPort(CanonicalHost(c, host), Itoa(Atoi(port).value as nat)), r))
  {
    hide SplitHostPort, EncodeHost, EncodePort, ReadHostFrom, ReadPortFrom, JoinHostPort, CanonicalHost;
    var (host, port) := SplitHostPort(addr).value;
    var h, p := EncodeHost(c, host).value, EncodePort(port).value;
    HostEncoded(c, host, p + r);
    PortEncoded(port, r);
    assert (h + p) + r == h + (p + r);
  }

  predicate RoundTrips(c: Ip6Text, addr: Text, r: seq<byte>) {
    EncodeAddress(c, addr).Ok? && ReadAddressFrom(c, EncodeAddress(c, addr).value + r) == Ok((addr, r))
  }

  lemma ItoaPlain(n: nat)
    ensures Plain(Itoa(n)) && COLON !in Itoa(n)
  {
  }

  /** The hosts that are canonical: names that are no IP address and fit a length byte, and
      IP addresses the way they are printed. */
  predicate Canonical(c: Ip6Text, host: Text) {
    Plain(host) &&
    match ParseIP(c, host)
    case None => |host| <= 0xff
    case Some(ip) => host == IPText(c, ip)
  }

  /** What the pair starts with, up to the last colon. */
  function Bracketed(h: Text): Text {
    if COLON in h then [OPEN] + h + [CLOSE] else h
  }

  lemma JoinedAs(h: Text, p: Text)
    requires COLON !in p
    ensures var t := JoinHostPort(h, p);
            var n := |Bracketed(h)|;
            LastIndex(t, COLON) == n && t[..n] == Bracketed(h) && t[n + 1..] == p
  {
    var t, n := JoinHostPort(h, p), |Bracketed(h)|;
    assert t == Bracketed(h) + [COLON] + p;
    assert t[n] == COLON && forall k :: n < k < |t| ==> t[k] == p[k - n - 1];
  }

  lemma BracketedInjective(h: Text, k: Text)
    requires Plain(h) && Bracketed(h) == Bracketed(k)
    ensures h == k
  {
    if COLON in h {
      assert Bracketed(h)[0] == OPEN;
      assert h == Bracketed(h)[1..|h| + 1];
    }
    if COLON in k {
      assert Bracketed(k)[0] == OPEN;
      assert k == Bracketed(k)[1..|k| + 1];
    }
  }

  /** Two pairs with the same text are the same pair, if one of the hosts has no bracket. */
  lemma JoinInjective(h: Text, p: Text, k: Text, q: Text)
    requires Plain(h) && COLON !in p && COLON !in q
    requires JoinHostPort(h, p) == JoinHostPort(k, q)
    ensures h == k && p == q
  {
    hide JoinHostPort, Bracketed;
    JoinedAs(h, p);
    JoinedAs(k, q);
    BracketedInjective(h, k);
  }

  /** What the library promises of IPv6 texts without a zone. */
  ghost predicate Sound(c: Ip6Text) {
    forall ip: Ip6 :: To4(ip).None? ==> Plain(c.render(ip)) && ParseIP(c, c.render(ip)) == Some(ip)
  }

  lemma CanonicalIsCanonical(c: Ip6Text, host: Text)
    requires Sound(c)
    ensures ParseIP(c, host).Some? ==>
      Plain(CanonicalHost(c, host)) && ParseIP(c, CanonicalHost(c, host)) == ParseIP(c, host)
  {
    hide Dotted, FirstMark, Octets;
    if ParseIP(c, host).Some? {
      var ip := ParseIP(c, host).value;
      if To4(ip).Some? {
        assert ip == MAPPED + ip[12..];
        ParseDotted(c, ip[12..]);
        DottedPlain(ip[12..]);
      }
    }
  }

  /** A host and a port number make an address that encodes and reads back as itself exactly
      when the host is canonical and the port is none of 0 and the numbers over 65535. */
  lemma PairRoundTripsExactly(c: Ip6Text, host: Text, n: nat, r: seq<byte>)
    requires Sound(c)
    ensures RoundTrips(c, JoinHostPort(host, Itoa(n)), r) <==> Canonical(c, host) && 1 <= n <= 0xffff
  {
    hide ParseIP, IPText, SplitHostPort, ReadAddressFrom, JoinHostPort, Atoi, Itoa, Sound;
    var addr := JoinHostPort(host, Itoa(n));
    ItoaPlain(n);
    AtoiOfItoa(n);
    SplitJoinExactly(host, Itoa(n));
    if EncodeAddress(c, addr).Ok? {
      EncodedReadsBack(c, addr, r);
      var h := SplitHostPort(addr).value.0;
      CanonicalIsCanonical(c, h);
      HostEncoded(c, h, r);
      if RoundTrips(c, addr, r) {
        JoinInjective(CanonicalHost(c, h), Itoa(n), host, Itoa(n));
      }
    }
  }

  ghost predicate CanonicalAddress(c: Ip6Text, addr: Text) {
    exists host, n: nat :: Canonical(c, host) && 1 <= n <= 0xffff && addr == JoinHostPort(host, Itoa(n))
  }

  /** Of all texts, those come back from the wire unchanged that are a canonical host and a
      port, with any bytes following on the wire. */
  lemma AddressRoundTripsExactly(c: Ip6Text, addr: Text, r: seq<byte>)
    requires Sound(c)
    ensures RoundTrips(c, addr, r) <==> CanonicalAddress(c, addr)
  {
    hide ParseIP, IPText, SplitHostPort, ReadAddressFrom, JoinHostPort, Atoi, Itoa, Sound, EncodeAddress;
    hide Canonical, CanonicalHost;
    if RoundTrips(c, addr, r) {
      EncodedReadsBack(c, addr, r);
      var (host, port) := SplitHostPort(addr).value;
      var n: nat := Atoi(port).value;
      PairRoundTripsExactly(c, CanonicalHost(c, host), n, r);
    }
    if CanonicalAddress(c, addr) {
      var host, n: nat :| Canonical(c, host) && 1 <= n <= 0xffff && addr == JoinHostPort(host, Itoa(n));
      PairRoundTripsExactly(c, host, n, r);
    }
  }

  // ----- From the wire to the text and back -----

  /** What follows an address kind on the wire: a body that the text can stand for. */
  predicate CanonicalWire(c: Ip6Text, s: seq<byte>) {
    && s != [] && ReadHostFrom(c, s).Ok?
    && (s[0] == IP6 ==> To4(s[1..17]).None?)
    && (s[0] == NAME ==> Plain(ReadHostFrom(c, s).value.0) && ParseIP(c, ReadHostFrom(c, s).value.0).None?)
  }

  /** The bytes that reading took off the stream. */
  function Read(s: seq<byte>, rest: seq<byte>): seq<byte> {
    if |rest| <= |s| then s[..|s| - |rest|] else []
  }

  ghost predicate HostReencodes(c: Ip6Text, s: seq<byte>)
    requires ReadHostFrom(c, s).Ok?
  {
    var (host, rest) := ReadHostFrom(c, s).value;
    EncodeHost(c, host) == Ok(Read(s, rest)) && Plain(host)
  }

  lemma Ip4Reencodes(c: Ip6Text, s: seq<byte>)
    requires ReadHostFrom(c, s).Ok? && s[0] == IP4
    ensures HostReencodes(c, s) && CanonicalWire(c, s)
  {
    hide Dotted, ParseIP;
    var ip := s[1..5];
    assert s[1..][..4] == ip && s[1..][4..] == s[5..];
    ParseDotted(c, ip);
    DottedPlain(ip);
    assert Read(s, s[5..]) == [IP4] + ip;
  }

  lemma Ip6ReencodesExactly(c: Ip6Text, s: seq<byte>)
    requires Sound(c) && ReadHostFrom(c, s).Ok? && s[0] == IP6
    ensures HostReencodes(c, s) <==> CanonicalWire(c, s)
  {
    hide Dotted, ParseIP;
    var ip: Ip6 := s[1..17];
    assert s[1..][..16] == ip && s[1..][16..] == s[17..];
    assert Read(s, s[17..]) == [IP6] + ip;
    if To4(ip).Some? {
      var v4 := To4(ip).value;
      ParseDotted(c, v4);
      assert ip == MAPPED + v4;
      assert EncodeHost(c, IPText(c, ip)).value[0] == IP4;
    }
  }

  lemma NameReencodesExactly(c: Ip6Text, s: seq<byte>)
    requires ReadHostFrom(c, s).Ok? && s[0] == NAME
    ensures HostReencodes(c, s) <==> CanonicalWire(c, s)
  {
    hide Plain, ParseIP;
    var (host, rest) := ReadHostFrom(c, s).value;
    assert s[1..][..1] == [s[1]] && s[1..][1..] == s[2..];
    assert Read(s, rest) == [NAME, |host|] + host;
    if EncodeHost(c, host) == Ok(Read(s, rest)) {
      assert EncodeHost(c, host).value[0] == NAME;
    }
  }

  lemma HostReencodesExactly(c: Ip6Text, s: seq<byte>)
    requires Sound(c) && ReadHostFrom(c, s).Ok?
    ensures HostReencodes(c, s) <==> CanonicalWire(c, s)
  {
    hide HostReencodes, CanonicalWire;
    if s[0] == IP4 {
      Ip4Reencodes(c, s);
    } else if s[0] == IP6 {
      Ip6ReencodesExactly(c, s);
    } else {
      NameReencodesExactly(c, s);
    }
  }

  lemma HostSplits(c: Ip6Text, s: seq<byte>)
    requires ReadHostFrom(c, s).Ok?
    ensures var rest := ReadHostFrom(c, s).value.1; s == Read(s, rest) + rest
  {
  }

  lemma PortReencodes(p: seq<byte>)
    requires |p| == 2
    ensures EncodePort(Itoa(p[0] as int * 0x100 + p[1])) == if p == [0, 0] then Fail else Ok(p)
  {
    hide Atoi, Itoa;
    var n := p[0] as int * 0x100 + p[1];
    AtoiOfItoa(n);
    assert n / 0x100 == p[0] && n % 0x100 == p[1] && p == [p[0], p[1]];
  }

  /** If any plain host encodes to what was read then the host that was read does. */
  lemma SameEncoding(c: Ip6Text, s: seq<byte>, h: Text)
    requires Sound(c) && ReadHostFrom(c, s).Ok? && Plain(h)
    requires EncodeHost(c, h) == Ok(Read(s, ReadHostFrom(c, s).value.1))
    ensures HostReencodes(c, s)
  {
    hide Sound, Plain, ParseIP, Itoa, IPText;
    var (host, rest) := ReadHostFrom(c, s).value;
    HostSplits(c, s);
    HostEncoded(c, h, rest);
    CanonicalIsCanonical(c, h);
  }

  /** An address read off the wire encodes to the bytes that it was read from exactly when they
      are canonical: the port is not 0, an IPv6 address is not an IPv4 address in disguise, and
      a name has no bracket and is no IP address in text form. */
  lemma AddressReencodesExactly(c: Ip6Text, s: seq<byte>)
    requires Sound(c) && ReadAddressFrom(c, s).Ok?
    ensures var (addr, rest) := ReadAddressFrom(c, s).value;
            var after := ReadHostFrom(c, s).value.1;
            && s == Read(s, rest) + rest && |after| >= 2
            && (EncodeAddress(c, addr) == Ok(Read(s, rest)) <==>
                  CanonicalWire(c, s) && after[..2] != [0, 0])
  {
    hide SplitHostPort, JoinHostPort, EncodeHost, EncodePort, CanonicalWire, Sound, Itoa, Plain, ReadHostFrom;
    var (host, after) := ReadHostFrom(c, s).value;
    var p := after[..2];
    var (port, rest) := ReadPortFrom(after).value;
    var addr := JoinHostPort(host, port);
    var head := Read(s, after);
    HostSplits(c, s);
    assert Read(s, rest) == head + p && s == head + p + rest;
    HostReencodesExactly(c, s);
    PortReencodes(p);
    ItoaPlain(p[0] as int * 0x100 + p[1]);
    SplitJoinExactly(host, port);
    if EncodeAddress(c, addr) == Ok(head + p) {
      var h := SplitHostPort(addr).value.0;
      assert EncodeHost(c, h).value == head by {
        assert (EncodeHost(c, h).value + p)[..|head|] == head;
        assert EncodeHost(c, h).value == (EncodeHost(c, h).value + p)[..|EncodeHost(c, h).value|];
      }
      SameEncoding(c, s, h);
    }
  }

  // ----- Addresses byte by byte -----

  lemma SmallNumerals()
    ensures Itoa(0) == [48] && Itoa(1) == [49] && Itoa(80) == [56, 48] && Itoa(127) == [49, 50, 55]
    ensures Itoa(443) == [52, 52, 51] && Itoa(8080) == [56, 48, 56, 48]
  {
    assert Itoa(8) == [56] && Itoa(12) == [49, 50] && Itoa(44) == [52, 52];
    assert Itoa(808) == [56, 48, 56];
  }

  const LOOPBACK: Text := [49, 50, 55, 46, 48, 46, 48, 46, 49]

  lemma LoopbackText()
    ensures Dotted([127, 0, 0, 1]) == LOOPBACK && COLON !in LOOPBACK
  {
    SmallNumerals();
    hide Itoa;
    DottedFour(127, 0, 0, 1);
  }

  lemma PortOnTheWire(hi: byte, lo: byte)
    ensures ReadPortFrom([hi, lo]) == Ok((Itoa(hi as int * 0x100 + lo), []))
  {
    assert [hi, lo][..2] == [hi, lo] && [hi, lo][2..] == [];
  }

  /** 127.0.0.1:8080 off the wire, as in section 5 of RFC 1928: kind 1, four bytes, two bytes. */
  lemma Ip4OnTheWire(c: Ip6Text)
    ensures ReadAddressFrom(c, [1, 127, 0, 0, 1, 0x1f, 0x90]) ==
      Ok(([49, 50, 55, 46, 48, 46, 48, 46, 49, 58, 56, 48, 56, 48], []))
  {
    var s: seq<byte> := [1, 127, 0, 0, 1, 0x1f, 0x90];
    SmallNumerals();
    LoopbackText();
    PortOnTheWire(0x1f, 0x90);
    hide Itoa, Dotted;
    assert s[..1] == [1] && s[1..] == [127, 0, 0, 1, 0x1f, 0x90];
    assert s[1..][..4] == [127, 0, 0, 1] && s[1..][4..] == [0x1f, 0x90];
    assert ReadHostFrom(c, s) == Ok((LOOPBACK, [0x1f, 0x90]));
    assert LOOPBACK + [COLON] + [56, 48, 56, 48] == [49, 50, 55, 46, 48, 46, 48, 46, 49, 58, 56, 48, 56, 48];
  }

  lemma DottedFour(a: byte, b: byte, c: byte, d: byte)
    ensures Dotted([a, b, c, d]) == Itoa(a) + [DOT] + Itoa(b) + [DOT] + Itoa(c) + [DOT] + Itoa(d)
  {
    hide Itoa, Dotted;
    DottedMore(a, [b, c, d]);
    DottedMore(b, [c, d]);
    DottedMore(c, [d]);
    DottedLast(d);
    Regroup(Itoa(a), Itoa(b), Itoa(c), Itoa(d));
  }

  lemma Regroup(a: Text, b: Text, c: Text, d: Text)
    ensures a + [DOT] + (b + [DOT] + (c + [DOT] + d)) == a + [DOT] + b + [DOT] + c + [DOT] + d
  {
    RegroupOne(b, c, d);
    RegroupOne(a, b + [DOT] + c, d);
    RegroupOne(a, b, c);
  }

  lemma RegroupOne(a: Text, b: Text, c: Text)
    ensures a + [DOT] + (b + [DOT] + c) == a + [DOT] + b + [DOT] + c
  {
  }

  lemma DottedMore(a: byte, rest: seq<byte>)
    requires rest != []
    ensures Dotted([a] + rest) == Itoa(a) + [DOT] + Dotted(rest)
    ensures |rest| == 3 ==> [a] + rest == [a, rest[0], rest[1], rest[2]]
    ensures |rest| == 2 ==> [a] + rest == [a, rest[0], rest[1]]
    ensures |rest| == 1 ==> [a] + rest == [a, rest[0]]
  {
    hide Itoa;
    assert ([a] + rest)[1..] == rest;
  }

  lemma DottedLast(d: byte)
    ensures Dotted([d]) == Itoa(d)
  {
  }

  /** bo:80 off the wire: kind 3, the length, the name, two bytes. */
  lemma NameOnTheWire(c: Ip6Text)
    ensures ReadAddressFrom(c, [3, 2, 98, 111, 0, 80]) == Ok(([98, 111, 58, 56, 48], []))
  {
    var s: seq<byte> := [3, 2, 98, 111, 0, 80];
    SmallNumerals();
    PortOnTheWire(0, 80);
    hide Itoa;
    assert s[..1] == [3] && s[1..] == [2, 98, 111, 0, 80];
    assert s[1..][..1] == [2] && s[1..][1..] == [98, 111, 0, 80];
    assert s[1..][1..][..2] == [98, 111] && s[1..][1..][2..] == [0, 80];
    assert ReadHostFrom(c, s) == Ok(([98, 111], [0, 80]));
    assert [98, 111] + [COLON] + [56, 48] == [98, 111, 58, 56, 48];
  }

  /** An IPv6 address off the wire: kind 4, sixteen bytes, two bytes; its text is bracketed. */
  lemma Ip6OnTheWire(c: Ip6Text, ip: Ip6)
    requires ip[..12] != [0, 0, 0, 0, 0, 0, 0, 0, 0, 0, 255, 255] && 58 in c.render(ip)
    ensures ReadAddressFrom(c, [4] + ip + [0, 80]) == Ok(([91] + c.render(ip) + [93, 58, 56, 48], []))
  {
    Ip6Host(c, ip);
    SmallNumerals();
    PortOnTheWire(0, 80);
    hide Itoa, ReadHostFrom;
    assert [91] + c.render(ip) + [93, 58] + [56, 48] == [91] + c.render(ip) + [93, 58, 56, 48];
  }

  lemma Ip6Host(c: Ip6Text, ip: Ip6)
    ensures ReadHostFrom(c, [4] + ip + [0, 80]) == Ok((IPText(c, ip), [0, 80]))
  {
    var s: seq<byte> := [4] + ip + [0, 80];
    assert s[..1] == [4] && s[1..] == ip + [0, 80];
    assert s[1..][..16] == ip && s[1..][16..] == [0, 80];
  }

  /** An IPv4 address in the form of an IPv6 address reads as the IPv4 address. */
  lemma MappedOnTheWire(c: Ip6Text)
    ensures ReadAddressFrom(c, [4] + [0, 0, 0, 0, 0, 0, 0, 0, 0, 0, 255, 255, 127, 0, 0, 1] + [0, 80]) ==
      Ok(([49, 50, 55, 46, 48, 46, 48, 46, 49, 58, 56, 48], []))
  {
    var ip: Ip6 := [0, 0, 0, 0, 0, 0, 0, 0, 0, 0, 255, 255, 127, 0, 0, 1];
    assert ip[..12] == MAPPED && ip[12..] == [127, 0, 0, 1];
    LoopbackText();
    Ip6Host(c, ip);
    SmallNumerals();
    PortOnTheWire(0, 80);
    hide Itoa, ReadHostFrom, Dotted;
    assert LOOPBACK + [COLON] + [56, 48] == [49, 50, 55, 46, 48, 46, 48, 46, 49, 58, 56, 48];
  }

  /** There are no other kinds of address. */
  lemma NoOtherKind(c: Ip6Text, s: seq<byte>)
    requires s != [] && s[0] != 1 && s[0] != 3 && s[0] != 4
    ensures ReadAddressFrom(c, s).Fail?
  {
  }

  /** Which port texts encode: signs and leading zeros are accepted, and nothing but digits. */
  lemma PortTexts()
    ensures EncodePort([56, 48]) == EncodePort([43, 56, 48]) == EncodePort([48, 56, 48]) == Ok([0, 80])
    ensures EncodePort([45, 49]).Fail? && EncodePort([]).Fail? && EncodePort([56, 120]).Fail?
    ensures EncodePort([43]).Fail? && EncodePort([48]).Fail?
  {
    assert [43, 56, 48][1..] == [56, 48];
    assert Number([8 + ZERO]) == Some(8) && Number([56, 48]) == Some(80);
    assert [48, 56, 48][..2] == [48, 56] && [48, 56][..1] == [48] && Number([48, 56]) == Some(8);
    assert [45, 49][1..] == [49] && [43][1..] == [];
  }

  /** One number of a dotted address: leading zeros are accepted, more than 255 is not. */
  lemma OctetTexts()
    ensures Octets([48, 49], 1) == Some([1]) && Octets([50, 53, 53], 1) == Some([255])
    ensures Octets([50, 53, 54], 1) == None && Octets([], 1) == None && Octets([49, 120], 1) == None
  {
    RunOf([48, 49]);
    RunOf([50, 53, 53]);
    RunOf([50, 53, 54]);
    hide DigitRun;
    assert [48, 49][..2] == [48, 49] && [48, 49][..1] == [48];
    assert Number([48]) == Some(0) && Number([48, 49]) == Some(1);
    assert [50, 53, 53][..3] == [50, 53, 53] && [50, 53, 53][..2] == [50, 53] && [50, 53][..1] == [50];
    assert [50, 53, 54][..3] == [50, 53, 54] && [50, 53, 54][..2] == [50, 53];
    assert Number([50]) == Some(2) && Number([50, 53]) == Some(25);
    assert Number([50, 53, 53]) == Some(255) && Number([50, 53, 54]) == Some(256);
    var k := DigitRun([49, 120]);
    assert k < 2;
    assert DigitRun([]) == 0;
  }

  lemma RunOf(t: Text)
    requires Digits(t)
    ensures DigitRun(t) == |t|
  {
  }
}
