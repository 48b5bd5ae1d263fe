/**
 The relay's bounded reader of a TLS ClientHello: the grammar of RFC 8446
 (sections 4.1.2, 4.2 and 5.1) and RFC 6066 (section 3) as a printer, and the
 relay's parser proved to be its exact inverse.
 */
module ClientHello {
  import opened Wrappers

  type Byte = x: int | 0 <= x < 256

  type Bytes = seq<Byte>

  function U16(n: nat): (s: Bytes)
    requires n < 0x1_0000
  {
    [n / 256, n % 256]
  }

  function U24(n: nat): (s: Bytes)
    requires n < 0x100_0000
  {
    [n / 0x1_0000, n / 256 % 256, n % 256]
  }

  /** Big-endian 16 bits at `i`. */
  function At16(s: Bytes, i: nat): (n: nat)
    requires i + 2 <= |s|
    ensures n < 0x1_0000 && s[i..i + 2] == U16(n)
  {
    s[i] as int * 256 + s[i + 1] as int
  }

  // --------------------------------------------------------------- hostnames

  const DOT: Byte := 46
  const HYPHEN: Byte := 45

  predicate HostChar(b: Byte) {
    97 <= b <= 122 || IsDigit(b) || b == HYPHEN
  }

  predicate IsDigit(b: Byte) {
    48 <= b <= 57
  }

  /** The dot-separated labels. */
  function Labels(host: Bytes): (r: seq<Bytes>)
    ensures |r| > 0
  {
    if host == [] then [[]]
    else
      var rest := Labels(host[1..]);
      if host[0] == DOT then [[]] + rest else [[host[0]] + rest[0]] + rest[1..]
  }

  predicate ValidLabel(part: Bytes) {
    && 0 < |part| <= 63 && part[0] != HYPHEN && part[|part| - 1] != HYPHEN
    && forall i :: 0 <= i < |part| ==> HostChar(part[i])
  }

  function Decimal(digits: Bytes): (n: int) {
    if digits == [] then 0 else Decimal(digits[..|digits| - 1]) * 10 + digits[|digits| - 1] - 48
  }

  predicate Octet(part: Bytes) {
    && 0 < |part| <= 3 && (part[0] == 48 ==> |part| == 1)
    && (forall i :: 0 <= i < |part| ==> IsDigit(part[i]))
    && Decimal(part) <= 255
  }

  /** Lower-case letters, digits, hyphens and dots, not an address. */
  predicate ValidHostname(host: Bytes) {
    var labels := Labels(host);
    && 0 < |host| <= 253 && |labels| > 1
    && (forall i :: 0 <= i < |labels| ==> ValidLabel(labels[i]))
    && !(|labels| == 4 && forall i :: 0 <= i < 4 ==> Octet(labels[i]))
  }

  // ----------------------------------------------------------------- grammar

  datatype Extension = Extension(kind: nat, body: Bytes)

  datatype Hello = Hello(
    head: Bytes, session: Bytes, ciphers: Bytes, compressions: Bytes, extensions: seq<Extension>)

  predicate Fits(e: Extension) {
    e.kind < 0x1_0000 && |e.body| < 0x1_0000
  }

  predicate AllFit(es: seq<Extension>) {
    forall i :: 0 <= i < |es| ==> Fits(es[i])
  }

  function PrintExtension(e: Extension): (s: Bytes)
    requires Fits(e)
  {
    U16(e.kind) + U16(|e.body|) + e.body
  }

  function PrintExtensions(es: seq<Extension>): (s: Bytes)
    requires AllFit(es)
  {
    if es == [] then [] else PrintExtension(es[0]) + PrintExtensions(es[1..])
  }

  /** Every length field can be printed and keeps the limits of the protocol. */
  predicate Framed(h: Hello) {
    && |h.head| == 34 && h.head[0] == 3
    && |h.session| <= 32
    && 0 < |h.ciphers| < 0x1_0000 && |h.ciphers| % 2 == 0
    && 0 < |h.compressions| < 256
    && AllFit(h.extensions) && |PrintExtensions(h.extensions)| < 0x1_0000
  }

  function Print(h: Hello): (s: Bytes)
    requires Framed(h)
    ensures 43 <= |s| <= 0x2_0200
  {
    h.head + [|h.session|] + h.session + U16(|h.ciphers|) + h.ciphers
    + [|h.compressions|] + h.compressions
    + U16(|PrintExtensions(h.extensions)|) + PrintExtensions(h.extensions)
  }

  /** The server_name extension that carries one host name. */
  function ServerName(name: Bytes): (e: Extension)
    requires |name| <= 253
  {
    Extension(0, U16(|name| + 3) + [0] + U16(|name|) + name)
  }

  predicate DistinctKinds(es: seq<Extension>) {
    forall i, k :: 0 <= i < k < |es| ==> es[i].kind != es[k].kind
  }

  /** A hello with distinct extensions, one of which names `name`. */
  predicate Names(h: Hello, name: Bytes) {
    && Framed(h) && DistinctKinds(h.extensions)
    && ValidHostname(name) && ServerName(name) in h.extensions
  }

  // ------------------------------------------------------------------ parser

  function ParseExtensions(s: Bytes): (r: Option<seq<Extension>>)
    decreases |s|
  {
    if s == [] then Some([])
    else if |s| < 4 || |s| < 4 + At16(s, 2) then None
    else
      var size := At16(s, 2);
      match ParseExtensions(s[4 + size..])
      case None => None
      case Some(rest) => Some([Extension(At16(s, 0), s[4..4 + size])] + rest)
  }

  lemma At16Printed(before: Bytes, n: nat, after: Bytes)
    requires n < 0x1_0000
    ensures At16(before + U16(n) + after, |before|) == n
  {
  }

  lemma PrintedExtensionAt(e: Extension, rest: Bytes)
    requires Fits(e)
    ensures var s := PrintExtension(e) + rest;
            && |s| >= 4 + |e.body| && At16(s, 0) == e.kind && At16(s, 2) == |e.body|
            && s[4..4 + |e.body|] == e.body && s[4 + |e.body|..] == rest
  {
    var s := PrintExtension(e) + rest;
    assert s == [] + U16(e.kind) + (U16(|e.body|) + e.body + rest);
    At16Printed([], e.kind, U16(|e.body|) + e.body + rest);
    assert s == U16(e.kind) + U16(|e.body|) + (e.body + rest);
    At16Printed(U16(e.kind), |e.body|, e.body + rest);
  }

  lemma {:induction false} ParseExtensionsPrinted(es: seq<Extension>)
    requires AllFit(es)
    ensures ParseExtensions(PrintExtensions(es)) == Some(es)
  {
    hide PrintExtension;
    if es != [] {
      ParseExtensionsPrinted(es[1..]);
      PrintedExtensionAt(es[0], PrintExtensions(es[1..]));
      assert es == [es[0]] + es[1..];
    }
  }

  lemma ParsedExtensionAt(s: Bytes)
    requires |s| >= 4 && |s| >= 4 + At16(s, 2)
    ensures var e := Extension(At16(s, 0), s[4..4 + At16(s, 2)]);
            Fits(e) && PrintExtension(e) + s[4 + At16(s, 2)..] == s
  {
    hide At16, U16;
    var size := At16(s, 2);
    assert s == s[0..2] + s[2..4] + s[4..4 + size] + s[4 + size..];
  }

  lemma {:induction false} ParsedExtensionsPrint(s: Bytes)
    requires ParseExtensions(s).Some?
    ensures AllFit(ParseExtensions(s).value) && PrintExtensions(ParseExtensions(s).value) == s
    decreases |s|
  {
    hide At16, U16, PrintExtension;
    if s != [] {
      var size := At16(s, 2);
      ParsedExtensionsPrint(s[4 + size..]);
      ParsedExtensionAt(s);
      assert ParseExtensions(s).value[1..] == ParseExtensions(s[4 + size..]).value;
    }
  }

  /** The name in the server_name extension, if it has the one accepted form. */
  function NameOf(body: Bytes): (r: Option<Bytes>)
    ensures r.Some? <==> exists n: Bytes :: ValidHostname(n) && body == ServerName(n).body
    ensures r.Some? ==> ValidHostname(r.value) && body == ServerName(r.value).body
  {
    if |body| < 5 || At16(body, 0) != |body| - 2 || body[2] != 0 || At16(body, 3) != |body| - 5 then
      assert forall n: Bytes :: ValidHostname(n) ==> body != ServerName(n).body by { NameOfPrinted(body); }
      None
    else if ValidHostname(body[5..]) then
      assert body == body[0..2] + [body[2]] + body[3..5] + body[5..];
      Some(body[5..])
    else
      assert forall n: Bytes :: ValidHostname(n) ==> body != ServerName(n).body by { NameOfPrinted(body); }
      None
  }

  lemma NameOfPrinted(body: Bytes)
    ensures forall n: Bytes :: ValidHostname(n) && body == ServerName(n).body ==>
              && |body| >= 5 && At16(body, 0) == |body| - 2 && body[2] == 0
              && At16(body, 3) == |body| - 5 && body[5..] == n
  {
  }

  function ParseHello(s: Bytes): (r: Option<Hello>) {
    if |s| < 35 || s[0] != 3 then None
    else
      var ciphersAt := 35 + s[34] as int;
      if s[34] > 32 || ciphersAt + 2 > |s| then None
      else
        var ciphers := At16(s, ciphersAt);
        var methodsAt := ciphersAt + 2 + ciphers;
        if ciphers == 0 || ciphers % 2 != 0 || methodsAt >= |s| then None
        else
          var extensionsAt := methodsAt + 1 + s[methodsAt] as int;
          if s[methodsAt] == 0 || extensionsAt + 2 > |s| then None
          else if extensionsAt + 2 + At16(s, extensionsAt) != |s| then None
          else
            match ParseExtensions(s[extensionsAt + 2..])
            case None => None
            case Some(es) =>
              Some(Hello(s[..34], s[35..ciphersAt], s[ciphersAt + 2..methodsAt], s[methodsAt + 1..extensionsAt], es))
  }

  /** Where the parts of a printed hello stand. */
  lemma PrintedSections(h: Hello)
    requires Framed(h)
    ensures var (s, es) := (Print(h), PrintExtensions(h.extensions));
            var a := 35 + |h.session|;
            var b := a + 2 + |h.ciphers|;
            var c := b + 1 + |h.compressions|;
            && c + 2 + |es| == |s|
            && s[..34] == h.head && s[34] == |h.session| && s[35..a] == h.session
            && s[a..a + 2] == U16(|h.ciphers|) && s[a + 2..b] == h.ciphers
            && s[b] == |h.compressions| && s[b + 1..c] == h.compressions
            && s[c..c + 2] == U16(|es|) && s[c + 2..] == es
  {
    hide PrintExtensions;
    assert |U16(|h.ciphers|)| == 2 && |U16(|PrintExtensions(h.extensions)|)| == 2;
    hide U16;
  }

  lemma At16Is(s: Bytes, i: nat, n: nat)
    requires i + 2 <= |s| && n < 0x1_0000 && s[i..i + 2] == U16(n)
    ensures At16(s, i) == n
  {
    assert s[i] == s[i..i + 2][0] && s[i + 1] == s[i..i + 2][1];
  }

  lemma PrintedHelloParses(h: Hello)
    requires Framed(h)
    ensures ParseHello(Print(h)) == Some(h)
  {
    hide Print, PrintExtensions, ParseExtensions, U16, At16;
    PrintedSections(h);
    ParseExtensionsPrinted(h.extensions);
    At16Is(Print(h), 35 + |h.session|, |h.ciphers|);
    At16Is(Print(h), 38 + |h.session| + |h.ciphers| + |h.compressions|, |PrintExtensions(h.extensions)|);
  }

  lemma ParsedHelloPrints(s: Bytes)
    requires ParseHello(s).Some?
    ensures Framed(ParseHello(s).value) && Print(ParseHello(s).value) == s
  {
    hide PrintExtensions, ParseExtensions, U16, At16;
    var ciphersAt := 35 + s[34] as int;
    var methodsAt := ciphersAt + 2 + At16(s, ciphersAt);
    var extensionsAt := methodsAt + 1 + s[methodsAt] as int;
    ParsedExtensionsPrint(s[extensionsAt + 2..]);
    assert s[34..35] == [s[34]] && s[methodsAt..methodsAt + 1] == [s[methodsAt]];
    Pieces(s, ciphersAt, methodsAt, extensionsAt);
  }

  lemma Pieces(s: Bytes, a: nat, b: nat, c: nat)
    requires 35 <= a && a + 2 <= b && b + 1 <= c && c + 2 <= |s|
    ensures s == s[..34] + s[34..35] + s[35..a] + s[a..a + 2] + s[a + 2..b] + s[b..b + 1] + s[b + 1..c]
                 + s[c..c + 2] + s[c + 2..]
  {
    assert s[..35] == s[..34] + s[34..35];
    assert s[..a] == s[..35] + s[35..a];
    assert s[..a + 2] == s[..a] + s[a..a + 2];
    assert s[..b] == s[..a + 2] + s[a + 2..b];
    assert s[..b + 1] == s[..b] + s[b..b + 1];
    assert s[..c] == s[..b + 1] + s[b + 1..c];
    assert s[..c + 2] == s[..c] + s[c..c + 2];
    assert s == s[..c + 2] + s[c + 2..];
  }

  /** What the extension loop makes of the extensions still to come. */
  function NameFrom(es: seq<Extension>, seen: set<nat>, name: Bytes): (r: Option<Bytes>) {
    if es == [] then (if name == [] then None else Some(name))
    else if es[0].kind in seen then None
    else if es[0].kind != 0 then NameFrom(es[1..], seen + {es[0].kind}, name)
    else
      match NameOf(es[0].body)
      case None => None
      case Some(n) => NameFrom(es[1..], seen + {0}, n)
  }

  predicate NamedBy(es: seq<Extension>, seen: set<nat>, name: Bytes, n: Bytes) {
    && DistinctKinds(es) && (forall i :: 0 <= i < |es| ==> es[i].kind !in seen)
    && (|| (ValidHostname(n) && ServerName(n) in es)
        || ((forall i :: 0 <= i < |es| ==> es[i].kind != 0) && n == name && n != []))
  }

  lemma {:induction false} NameFromExact(es: seq<Extension>, seen: set<nat>, name: Bytes, n: Bytes)
    requires name != [] ==> 0 in seen
    ensures NameFrom(es, seen, name) == Some(n) <==> NamedBy(es, seen, name, n)
  {
    if es != [] && es[0].kind !in seen {
      var e, rest := es[0], es[1..];
      assert es == [e] + rest;
      var found := if e.kind == 0 then NameOf(e.body) else Some(name);
      if found.Some? {
        NameFromExact(rest, seen + {e.kind}, found.value, n);
        NamedByFirst(es, seen, name, n);
      }
    }
  }

  lemma NamedByFirst(es: seq<Extension>, seen: set<nat>, name: Bytes, n: Bytes)
    requires es != [] && es[0].kind !in seen
    requires name != [] ==> 0 in seen
    requires es[0].kind == 0 ==> NameOf(es[0].body).Some?
    ensures var next := if es[0].kind == 0 then NameOf(es[0].body).value else name;
            NamedBy(es, seen, name, n) <==> NamedBy(es[1..], seen + {es[0].kind}, next, n)
  {
    assert es == [es[0]] + es[1..];
  }

  /** `clientHelloServerName`. */
  function ServerNameOf(s: Bytes): (r: Option<Bytes>) {
    match ParseHello(s)
    case None => None
    case Some(h) => NameFrom(h.extensions, {}, [])
  }

  /** The parser accepts exactly the printed hellos that name a host, with that
      host. */
  lemma ParserIsExact(s: Bytes, name: Bytes)
    ensures ServerNameOf(s) == Some(name) <==> exists h :: Names(h, name) && Print(h) == s
  {
    if ServerNameOf(s) == Some(name) {
      var h := ParseHello(s).value;
      ParsedHelloPrints(s);
      NameFromExact(h.extensions, {}, [], name);
      assert Names(h, name);
    }
    forall h | Names(h, name) && Print(h) == s ensures ServerNameOf(s) == Some(name) {
      PrintedHelloParses(h);
      NameFromExact(h.extensions, {}, [], name);
    }
  }

  /** What the loop makes of the bytes still to come. */
  function Scan(s: Bytes, seen: set<nat>, name: Bytes): (r: Option<Bytes>) {
    match ParseExtensions(s)
    case None => None
    case Some(es) => NameFrom(es, seen, name)
  }

  method ClientHelloServerName(hello: Bytes) returns (r: Option<Bytes>)
    ensures r == ServerNameOf(hello)
  {
    if |hello| < 35 || hello[0] != 3 {
      return None;
    }
    var p := 34;
    var sessionSize := hello[p] as int;
    if sessionSize > 32 || p + 1 + sessionSize > |hello| || p + 1 + sessionSize + 2 > |hello| {
      return None;
    }
    p := p + 1 + sessionSize;
    var cipherSize := At16(hello, p);
    if cipherSize == 0 || cipherSize % 2 != 0 || p + 2 + cipherSize > |hello| || p + 2 + cipherSize >= |hello| {
      return None;
    }
    p := p + 2 + cipherSize;
    var compressionSize := hello[p] as int;
    if compressionSize == 0 || p + 1 + compressionSize > |hello| || p + 1 + compressionSize + 2 > |hello| {
      return None;
    }
    p := p + 1 + compressionSize;
    var extensionsSize := At16(hello, p);
    p := p + 2;
    if p + extensionsSize != |hello| {
      return None;
    }
    r := ScanExtensions(hello, p);
  }

  lemma TailSlices(s: Bytes, p: nat, size: nat)
    requires p + 4 + size <= |s|
    ensures s[p..][4..4 + size] == s[p + 4..p + 4 + size] && s[p..][4 + size..] == s[p + 4 + size..]
  {
  }

  /** One turn of the extension loop, at `p`. */
  lemma {:induction false} ScanTurn(s: Bytes, p: nat, seen: set<nat>, name: Bytes)
    requires p < |s|
    ensures var answer := Scan(s[p..], seen, name);
            if p + 4 > |s| then answer == None
            else
              var (kind, size) := (At16(s, p), At16(s, p + 2));
              var end := p + 4 + size;
              if kind in seen || end > |s| then answer == None
              else if kind != 0 then answer == Scan(s[end..], seen + {kind}, name)
              else
                match NameOf(s[p + 4..end])
                case None => answer == None
                case Some(n) => answer == Scan(s[end..], seen + {kind}, n)
  {
    var tail := s[p..];
    if |tail| >= 4 {
      assert At16(s, p) == At16(tail, 0) && At16(s, p + 2) == At16(tail, 2);
      if |tail| >= 4 + At16(tail, 2) {
        TailSlices(s, p, At16(tail, 2));
      }
    }
    hide NameOf, At16;
  }

  lemma ScanEnd(s: Bytes, p: nat, seen: set<nat>, name: Bytes)
    requires p == |s|
    ensures Scan(s[p..], seen, name) == if name == [] then None else Some(name)
  {
  }

  method ScanExtensions(hello: Bytes, start: nat) returns (r: Option<Bytes>)
    requires start <= |hello|
    ensures r == Scan(hello[start..], {}, [])
  {
    var p := start;
    var seen: set<nat> := {};
    var hostname: Bytes := [];
    hide Scan, NameOf, At16;
    while p < |hello|
      invariant start <= p <= |hello|
      invariant Scan(hello[start..], {}, []) == Scan(hello[p..], seen, hostname)
    {
      ScanTurn(hello, p, seen, hostname);
      if p + 4 > |hello| {
        return None;
      }
      var kind, size := At16(hello, p), At16(hello, p + 2);
      p := p + 4;
      if kind in seen || p + size > |hello| {
        return None;
      }
      seen := seen + {kind};
      if kind == 0 {
        var named := NameOf(hello[p..p + size]);
        if named.None? {
          return None;
        }
        hostname := named.value;
      }
      p := p + size;
    }
    ScanEnd(hello, p, seen, hostname);
    if hostname == [] {
      return None;
    }
    return Some(hostname);
  }

  // ------------------------------------------------------------------ records

  /** A handshake record of RFC 8446 section 5.1. */
  datatype Record = Record(minor: Byte, payload: Bytes)

  predicate Cut(records: seq<Record>) {
    forall i :: 0 <= i < |records| ==> records[i].minor <= 3 && 0 < |records[i].payload| <= 16384
  }

  function Frame(r: Record): (s: Bytes)
    requires |r.payload| < 0x1_0000
  {
    [22, 3, r.minor] + U16(|r.payload|) + r.payload
  }

  function Frames(records: seq<Record>): (s: Bytes)
    requires Cut(records)
  {
    if records == [] then [] else Frame(records[0]) + Frames(records[1..])
  }

  function Payload(records: seq<Record>): (s: Bytes) {
    if records == [] then [] else records[0].payload + Payload(records[1..])
  }

  /** A ClientHello handshake message. */
  function Handshake(hello: Bytes): (s: Bytes)
    requires |hello| < 0x100_0000
  {
    [1] + U24(|hello|) + hello
  }

  lemma ThreeBytes(a: Byte, b: Byte, c: Byte)
    ensures U24(a as int * 0x1_0000 + b as int * 256 + c as int) == [a, b, c]
  {
    var n := a as int * 0x1_0000 + b as int * 256 + c as int;
    assert n / 256 == a as int * 256 + b as int;
  }

  function At24(s: Bytes): (n: nat)
    requires |s| >= 4
    ensures n < 0x100_0000 && s[1..4] == U24(n)
  {
    ThreeBytes(s[1], s[2], s[3]);
    s[1] as int * 0x1_0000 + s[2] as int * 256 + s[3] as int
  }

  datatype Verdict = More | Refused | Named(name: Bytes)

  /** What the reader decides from the handshake bytes so far. */
  function Judge(handshake: Bytes, maximum: nat): (v: Verdict) {
    if |handshake| < 4 then More
    else
      var size := At24(handshake);
      if handshake[0] != 1 || size < 38 || size + 4 > maximum then Refused
      else if |handshake| < size + 4 then More
      else match ServerNameOf(handshake[4..4 + size]) case None => Refused case Some(name) => Named(name)
  }

  predicate HeaderOk(input: Bytes, maximum: nat, used: nat) {
    && used + 5 <= maximum && |input| >= 5
    && input[0] == 22 && input[1] == 3 && input[2] <= 3
    && 0 < At16(input, 3) <= 16384 && used + 5 + At16(input, 3) <= maximum
    && |input| >= 5 + At16(input, 3)
  }

  function Shift(r: Option<(Bytes, nat)>, n: nat): (t: Option<(Bytes, nat)>) {
    match r case None => None case Some(found) => Some((found.0, n + found.1))
  }

  /** The name and how many bytes of `input` were read, after `used` bytes that
      carried `handshake`. */
  function ReadFrom(input: Bytes, maximum: nat, used: nat, handshake: Bytes): (r: Option<(Bytes, nat)>)
    ensures r.Some? ==> r.value.1 <= |input|
    decreases |input|
  {
    if !HeaderOk(input, maximum, used) then None
    else
      var end := 5 + At16(input, 3);
      var all := handshake + input[5..end];
      match Judge(all, maximum)
      case Refused => None
      case Named(name) => Some((name, end))
      case More => Shift(ReadFrom(input[end..], maximum, used + end, all), end)
  }

  /** The bytes of a connection: what the peer sends before it ends or fails. */
  class Conn {
    const input: Bytes
    var position: nat

    ghost predicate Valid()
      reads this
    {
      position <= |input|
    }

    constructor (input: Bytes)
      ensures this.input == input && position == 0 && Valid()
    {
      this.input := input;
      position := 0;
    }

    /** `io.ReadFull`. */
    method ReadFull(n: nat) returns (r: Option<Bytes>)
      requires Valid()
      modifies this
      ensures Valid()
      ensures if old(position) + n <= |input|
              then position == old(position) + n && r == Some(input[old(position)..position])
              else position == |input| && r == None
    {
      if position + n <= |input| {
        r := Some(input[position..position + n]);
        position := position + n;
      } else {
        r := None;
        position := |input|;
      }
    }
  }

  /** What is still to be answered at `at`, after a read that began at `start`. */
  ghost function Answer(input: Bytes, maximum: nat, start: nat, at: nat, handshake: Bytes): (r: Option<(Bytes, nat)>)
    requires start <= at <= |input|
  {
    Shift(ReadFrom(input[at..], maximum, at - start, handshake), at)
  }

  /** One turn of the loop that reads on. */
  lemma TurnOn(input: Bytes, maximum: nat, start: nat, at: nat, end: nat, handshake: Bytes)
    requires start <= at <= |input| && HeaderOk(input[at..], maximum, at - start)
    requires end == at + 5 + At16(input[at..], 3)
    requires Judge(handshake + input[at + 5..end], maximum) == More
    ensures Answer(input, maximum, start, at, handshake)
            == Answer(input, maximum, start, end, handshake + input[at + 5..end])
  {
    hide HeaderOk, Judge, At16, ReadFrom;
    Unfold(input[at..], maximum, at - start, handshake);
    TailOfTail(input, at, end - at);
  }

  /** One turn of the loop that ends it. */
  lemma TurnLast(input: Bytes, maximum: nat, start: nat, at: nat, end: nat, handshake: Bytes)
    requires start <= at <= |input| && HeaderOk(input[at..], maximum, at - start)
    requires end == at + 5 + At16(input[at..], 3)
    requires Judge(handshake + input[at + 5..end], maximum) != More
    ensures Answer(input, maximum, start, at, handshake) ==
            match Judge(handshake + input[at + 5..end], maximum) case Named(name) => Some((name, end)) case _ => None
  {
    hide HeaderOk, Judge, At16;
    Unfold(input[at..], maximum, at - start, handshake);
    TailOfTail(input, at, end - at);
  }

  lemma Unfold(input: Bytes, maximum: nat, used: nat, handshake: Bytes)
    ensures if !HeaderOk(input, maximum, used) then ReadFrom(input, maximum, used, handshake) == None
            else
              var end := 5 + At16(input, 3);
              end <= |input| &&
              ReadFrom(input, maximum, used, handshake) ==
              match Judge(handshake + input[5..end], maximum)
              case Refused => None
              case Named(name) => Some((name, end))
              case More => Shift(ReadFrom(input[end..], maximum, used + end, handshake + input[5..end]), end)
  {
    hide Judge, At16;
  }

  lemma TailOfTail(s: Bytes, at: nat, end: nat)
    requires 5 <= end && at + end <= |s|
    ensures s[at..][end..] == s[at + end..] && s[at..][5..end] == s[at + 5..at + end]
  {
  }

  /** The next record: its header and its payload. */
  method ReadRecord(conn: Conn, maximum: nat, used: nat) returns (r: Option<(Bytes, Bytes)>)
    requires conn.Valid()
    modifies conn
    ensures conn.Valid()
    ensures var at := old(conn.position);
            if !HeaderOk(conn.input[at..], maximum, used) then r == None
            else
              && conn.position == at + 5 + At16(conn.input[at..], 3)
              && r == Some((conn.input[at..at + 5], conn.input[at + 5..conn.position]))
  {
    hide At16;
    ghost var input := conn.input[conn.position..];
    if used + 5 > maximum {
      return None;
    }
    var header := conn.ReadFull(5);
    if header.None? {
      return None;
    }
    assert header.value == input[..5];
    var size := At16(header.value, 3);
    At16Within(input, header.value, 3);
    if header.value[0] != 22 || header.value[1] != 3 || header.value[2] > 3 || size == 0 || size > 16384
       || used + 5 + size > maximum {
      return None;
    }
    var record := conn.ReadFull(size);
    if record.None? {
      return None;
    }
    return Some((header.value, record.value));
  }

  /** What the handshake bytes so far decide. */
  method Decide(handshake: Bytes, maximum: nat) returns (v: Verdict)
    ensures v == Judge(handshake, maximum)
  {
    if |handshake| < 4 {
      return More;
    }
    var size := At24(handshake);
    if handshake[0] != 1 || size < 38 || size + 4 > maximum {
      return Refused;
    }
    if |handshake| < size + 4 {
      return More;
    }
    var host := ClientHelloServerName(handshake[4..4 + size]);
    return if host.None? then Refused else Named(host.value);
  }

  /** `readServerName`: the name and every byte read. */
  method ReadServerName(conn: Conn, maximum: nat) returns (r: Option<(Bytes, Bytes)>)
    requires conn.Valid()
    modifies conn
    ensures conn.Valid()
    ensures match ReadFrom(conn.input[old(conn.position)..], maximum, 0, [])
            case None => r == None
            case Some(found) =>
              && conn.position == old(conn.position) + found.1
              && r == Some((found.0, conn.input[old(conn.position)..conn.position]))
  {
    hide At16, Judge, ReadFrom, HeaderOk, Answer;
    var original: Bytes, handshake: Bytes := [], [];
    ghost var start := conn.position;
    AnswerFromStart(conn.input, maximum, start);
    while true
      invariant conn.Valid() && start <= conn.position
      invariant original == conn.input[start..conn.position]
      invariant Answer(conn.input, maximum, start, start, [])
             == Answer(conn.input, maximum, start, conn.position, handshake)
      decreases |conn.input| - conn.position
    {
      ghost var (at, before) := (conn.position, handshake);
      var record := ReadRecord(conn, maximum, |original|);
      if record.None? {
        TurnNone(conn.input, maximum, start, at, handshake);
        return None;
      }
      original := original + record.value.0 + record.value.1;
      handshake := handshake + record.value.1;
      var verdict := Decide(handshake, maximum);
      if verdict.More? {
        TurnOn(conn.input, maximum, start, at, conn.position, before);
        continue;
      }
      TurnLast(conn.input, maximum, start, at, conn.position, before);
      if verdict.Refused? {
        return None;
      }
      assert original == conn.input[start..conn.position];
      return Some((verdict.name, original));
    }
  }

  lemma TurnNone(input: Bytes, maximum: nat, start: nat, at: nat, handshake: Bytes)
    requires start <= at <= |input| && !HeaderOk(input[at..], maximum, at - start)
    ensures Answer(input, maximum, start, at, handshake) == None
  {
  }

  lemma AnswerFromStart(input: Bytes, maximum: nat, start: nat)
    requires start <= |input|
    ensures Answer(input, maximum, start, start, []) == Shift(ReadFrom(input[start..], maximum, 0, []), start)
  {
  }

  lemma At16Within(s: Bytes, prefix: Bytes, i: nat)
    requires i + 2 <= |prefix| && prefix <= s
    ensures At16(prefix, i) == At16(s, i)
  {
  }

  // ------------------------------------------------------- whatever the cuts

  /** How many records it takes to carry `n` bytes. */
  function Needed(records: seq<Record>, n: nat): (k: nat)
    requires n <= |Payload(records)|
    ensures k <= |records| && n <= |Payload(records[..k])|
  {
    if n == 0 then 0
    else if n <= |records[0].payload| then
      assert records[..1][1..] == [];
      1
    else
      var k := Needed(records[1..], n - |records[0].payload|);
      assert records[..1 + k][1..] == records[1..][..k];
      1 + k
  }

  lemma {:induction false} FramesAreLonger(records: seq<Record>)
    requires Cut(records)
    ensures |Payload(records)| <= |Frames(records)|
  {
    if records != [] {
      FramesAreLonger(records[1..]);
    }
  }

  /** Before the message is complete the reader waits, then it finds the name. */
  lemma JudgeOnWay(hello: Bytes, name: Bytes, all: Bytes, maximum: nat)
    requires 38 <= |hello| < 0x100_0000 && ServerNameOf(hello) == Some(name)
    requires |Handshake(hello)| <= maximum
    requires all <= Handshake(hello) || Handshake(hello) <= all
    ensures Judge(all, maximum) == if |all| < |Handshake(hello)| then More else Named(name)
  {
    hide ServerNameOf;
    if |all| >= 4 {
      var whole := Handshake(hello);
      assert all[0] == whole[0] && all[1] == whole[1] && all[2] == whole[2] && all[3] == whole[3];
      assert At24(all) == At24(whole) == |hello|;
      if |all| >= |whole| {
        assert all[4..4 + |hello|] == whole[4..] == hello;
      }
    }
  }

  lemma FrameAt(r: Record, rest: Bytes, maximum: nat, used: nat)
    requires r.minor <= 3 && 0 < |r.payload| <= 16384 && used + |Frame(r)| <= maximum
    ensures var input := Frame(r) + rest;
            && HeaderOk(input, maximum, used) && At16(input, 3) == |r.payload|
            && input[5..5 + |r.payload|] == r.payload && input[5 + |r.payload|..] == rest
  {
    var input := Frame(r) + rest;
    assert input == [22, 3, r.minor] + U16(|r.payload|) + (r.payload + rest);
    At16Printed([22, 3, r.minor], |r.payload|, r.payload + rest);
  }

  lemma {:induction false} ReadCut(hello: Bytes, name: Bytes, records: seq<Record>, rest: Bytes,
                                   maximum: nat, used: nat, handshake: Bytes)
    requires 38 <= |hello| < 0x100_0000 && ServerNameOf(hello) == Some(name)
    requires Cut(records) && |handshake| < |Handshake(hello)|
    requires Handshake(hello) <= handshake + Payload(records)
    requires |handshake| <= used
    requires used + |Frames(records[..Needed(records, |Handshake(hello)| - |handshake|)])| <= maximum
    ensures var n := Needed(records, |Handshake(hello)| - |handshake|);
            ReadFrom(Frames(records) + rest, maximum, used, handshake) == Some((name, |Frames(records[..n])|))
    decreases |records|
  {
    hide ServerNameOf, Judge, HeaderOk, At16, At24, Frame, ReadFrom, Handshake;
    var whole := Handshake(hello);
    var n := Needed(records, |whole| - |handshake|);
    FramesAreLonger(records[..n]);
    var r := records[0];
    var input := Frames(records) + rest;
    var after := Frames(records[1..]) + rest;
    assert input == Frame(r) + after;
    assert records[..n][0] == r && records[..n][1..] == records[1..n];
    FrameAt(r, after, maximum, used);
    var all := handshake + r.payload;
    assert handshake + Payload(records) == all + Payload(records[1..]);
    JudgeOnWay(hello, name, all, maximum);
    Unfold(input, maximum, used, handshake);
    FrameSize(r);
    if |all| < |whole| {
      assert records[1..][..n - 1] == records[1..n];
      ReadCut(hello, name, records[1..], rest, maximum, used + |Frame(r)|, all);
    } else {
      assert n == 1 && records[1..1] == [];
    }
  }

  lemma FrameSize(r: Record)
    requires |r.payload| < 0x1_0000
    ensures |Frame(r)| == 5 + |r.payload|
  {
  }

  /** Any hello that names a host, cut into any records, with anything after it
      in the last record and on the wire: the reader finds the host and reads
      exactly the records it takes. */
  lemma AnyCutIsRead(h: Hello, name: Bytes, records: seq<Record>, rest: Bytes, maximum: nat)
    requires Names(h, name) && Cut(records)
    requires Handshake(Print(h)) <= Payload(records)
    requires |Frames(records[..Needed(records, |Handshake(Print(h))|)])| <= maximum
    ensures var n := Needed(records, |Handshake(Print(h))|);
            ReadFrom(Frames(records) + rest, maximum, 0, []) == Some((name, |Frames(records[..n])|))
  {
    hide Print, ServerNameOf, PrintExtensions, ReadFrom;
    ParserIsExact(Print(h), name);
    assert [] + Payload(records) == Payload(records);
    ReadCut(Print(h), name, records, rest, maximum, 0, []);
  }

  // ------------------------------------------------------ and only such input

  /** `bytes` is a whole number of records that carry, after `handshake`, a hello
      that names `name`. */
  ghost predicate Carries(bytes: Bytes, handshake: Bytes, name: Bytes, records: seq<Record>, h: Hello, tail: Bytes) {
    && Cut(records) && Frames(records) == bytes
    && Names(h, name)
    && handshake + Payload(records) == Handshake(Print(h)) + tail
  }

  lemma FramedRecordAt(input: Bytes, maximum: nat, used: nat) returns (r: Record)
    requires HeaderOk(input, maximum, used)
    ensures r.payload == input[5..5 + At16(input, 3)] && r.minor <= 3 && 0 < |r.payload| <= 16384
    ensures Frame(r) == input[..5 + At16(input, 3)]
  {
    var size := At16(input, 3);
    r := Record(input[2], input[5..5 + size]);
    assert input[..5 + size] == [input[0], input[1], input[2]] + input[3..5] + input[5..5 + size];
  }

  lemma PrintedAs(s: Bytes, name: Bytes) returns (h: Hello)
    requires ServerNameOf(s) == Some(name)
    ensures Names(h, name) && Print(h) == s
  {
    ParserIsExact(s, name);
    h :| Names(h, name) && Print(h) == s;
  }

  lemma NamedIsHandshake(all: Bytes, maximum: nat) returns (h: Hello, tail: Bytes)
    requires Judge(all, maximum).Named?
    ensures Names(h, Judge(all, maximum).name)
    ensures all == Handshake(Print(h)) + tail
  {
    hide Print, Names, ServerNameOf, At24, U24;
    var size, name := At24(all), Judge(all, maximum).name;
    h := PrintedAs(all[4..4 + size], name);
    tail := all[4 + size..];
    assert all == [all[0]] + all[1..4] + all[4..4 + size] + tail;
  }

  lemma OneRecord(r: Record)
    requires Cut([r]) && |r.payload| <= 16384
    ensures Frames([r]) == Frame(r) && Payload([r]) == r.payload
  {
    var none: seq<Record> := [];
    assert [r][1..] == none;
    assert Frame(r) + Frames(none) == Frame(r) && r.payload + Payload(none) == r.payload;
  }

  lemma {:induction false} ReadIsCarried(input: Bytes, maximum: nat, used: nat, handshake: Bytes)
    returns (records: seq<Record>, h: Hello, tail: Bytes)
    requires ReadFrom(input, maximum, used, handshake).Some?
    ensures var (name, n) := ReadFrom(input, maximum, used, handshake).value;
            Carries(input[..n], handshake, name, records, h, tail) && used + n <= maximum
    decreases |input|
  {
    hide Print, Names, Handshake, Judge, Frame;
    var r := FramedRecordAt(input, maximum, used);
    var end := 5 + At16(input, 3);
    var all := handshake + r.payload;
    FrameSize(r);
    Unfold(input, maximum, used, handshake);
    assert used + end <= maximum;
    hide HeaderOk, At16, ReadFrom;
    if Judge(all, maximum).Named? {
      h, tail := NamedIsHandshake(all, maximum);
      records := [r];
      OneRecord(r);
    } else {
      var more;
      more, h, tail := ReadIsCarried(input[end..], maximum, used + end, all);
      records := [r] + more;
      assert records[1..] == more;
      var n := ReadFrom(input[end..], maximum, used + end, all).value.1;
      assert input[..end] + input[end..][..n] == input[..end + n];
      assert handshake + Payload(records) == all + Payload(more);
    }
  }

  // ----------------------------------------------------------------- replay

  /** The connection handed on: the bytes already read, then the rest. */
  class PrefixedConn {
    var prefix: Bytes
    const conn: Conn

    ghost predicate Valid()
      reads this, conn
    {
      conn.Valid()
    }

    /** Everything a reader will still get. */
    ghost function Remaining(): (s: Bytes)
      requires Valid()
      reads this, conn
    {
      prefix + conn.input[conn.position..]
    }

    constructor (prefix: Bytes, conn: Conn)
      requires conn.Valid()
      ensures this.prefix == prefix && this.conn == conn && Valid()
    {
      this.prefix := prefix;
      this.conn := conn;
    }

    /** `Read` into a buffer of `size` bytes; the connection has `ready` at hand. */
    method Read(size: nat, ready: nat) returns (data: Bytes)
      requires Valid()
      modifies this, conn
      ensures Valid() && |data| <= size
      ensures data + Remaining() == old(Remaining())
      ensures size > 0 && ready > 0 && old(Remaining()) != [] ==> data != []
    {
      if |prefix| > 0 {
        var n := if size < |prefix| then size else |prefix|;
        data := prefix[..n];
        prefix := prefix[n..];
      } else {
        var left := |conn.input| - conn.position;
        var n := if size < ready then size else ready;
        n := if n < left then n else left;
        data := conn.input[conn.position..conn.position + n];
        conn.position := conn.position + n;
      }
    }
  }

  /** Reading the name and replaying it loses nothing of what the client sent. */
  method Replay(conn: Conn, maximum: nat) returns (r: Option<(Bytes, PrefixedConn)>)
    requires conn.Valid() && conn.position == 0
    modifies conn
    ensures match ReadFrom(conn.input, maximum, 0, [])
            case None => r == None
            case Some(found) =>
              && r.Some? && r.value.0 == found.0
              && r.value.1.conn == conn && r.value.1.Valid() && r.value.1.Remaining() == conn.input
  {
    assert conn.input[0..] == conn.input;
    var read := ReadServerName(conn, maximum);
    if read.None? {
      return None;
    }
    var prefixed := new PrefixedConn(read.value.1, conn);
    return Some((read.value.0, prefixed));
  }
}
