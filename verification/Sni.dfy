/**
 `extract_sni` of scripts/tls-canary.rs: a walk through the bytes of a TLS ClientHello to the host name of
 its server_name extension. The printer follows section 4.1.2 of RFC 8446 and section 3 of RFC 6066. The
 host name is returned as bytes.
 */
module Sni {
  import opened Wrappers

  type byte = x: int | 0 <= x < 256

  type Bytes = seq<byte>

  /** The 16-bit number at `p`, high byte first. */
  function U16(b: Bytes, p: nat): nat
    requires p + 2 <= |b|
  {
    b[p] as int * 256 + b[p + 1] as int
  }

  // ----- what the walk returns, as a function -----

  /** The host name of the server_name extension whose data starts at `p`. */
  function NameAt(body: Bytes, p: nat, extLen: nat): Option<Bytes>
  {
    if extLen < 5 || p + 5 >= |body| || p + 5 + U16(body, p + 3) > |body| then None
    else Some(body[p + 5..p + 5 + U16(body, p + 3)])
  }

  /** The walk over the extensions between `p` and `end`. */
  function FindName(body: Bytes, p: nat, end: nat): Option<Bytes>
    decreases |body| - p
  {
    if p + 4 > end || p + 4 > |body| then None
    else if U16(body, p) == 0 then NameAt(body, p + 4, U16(body, p + 2))
    else FindName(body, p + 4 + U16(body, p + 2), end)
  }

  function AfterCompression(body: Bytes, p: nat): Option<Bytes>
  {
    if p + 2 > |body| then None else FindName(body, p + 2, p + 2 + U16(body, p))
  }

  function AfterCiphers(body: Bytes, p: nat): Option<Bytes>
  {
    if p + 1 > |body| then None else AfterCompression(body, p + 1 + body[p] as int)
  }

  function AfterSession(body: Bytes, p: nat): Option<Bytes>
  {
    if p + 2 > |body| then None else AfterCiphers(body, p + 2 + U16(body, p))
  }

  function SniOf(bytes: Bytes): Option<Bytes>
  {
    if |bytes| < 9 || bytes[0] != 0x16 || bytes[5] != 0x01 || |bytes| < 44 then None
    else AfterSession(bytes[9..], 35 + bytes[43] as int)
  }

  /** The loop over the extensions. */
  method WalkExtensions(body: Bytes, start: nat, extEnd: nat) returns (r: Option<Bytes>)
    ensures r == FindName(body, start, extEnd)
  {
    var p := start;
    while p + 4 <= extEnd && p + 4 <= |body|
      invariant FindName(body, p, extEnd) == FindName(body, start, extEnd)
      decreases |body| - p
    {
      var extType := U16(body, p);
      var extLen := U16(body, p + 2);
      p := p + 4;
      if extType == 0x0000 {
        if extLen < 5 {
          return None;
        }
        var nameOff := p + 5;
        var nameLenOff := p + 3;
        if nameOff >= |body| || nameLenOff + 2 > |body| {
          return None;
        }
        var nameLen := U16(body, nameLenOff);
        if nameOff + nameLen > |body| {
          return None;
        }
        return Some(body[nameOff..nameOff + nameLen]);
      }
      p := p + extLen;
    }
    return None;
  }

  /** In bounds and terminating on every input. */
  method ExtractSni(bytes: Bytes) returns (r: Option<Bytes>)
    ensures r == SniOf(bytes)
  {
    if |bytes| < 5 || bytes[0] != 0x16 {
      return None;
    }
    var payload := bytes[5..];
    if |payload| < 4 || payload[0] != 0x01 {
      return None;
    }
    var body := payload[4..];
    assert body == bytes[9..];
    if |body| < 35 {
      return None;
    }
    var p: nat := 35;
    var sessionIdLen := body[34] as int;
    p := p + sessionIdLen;
    if p + 2 > |body| {
      return None;
    }
    var cipherLen := U16(body, p);
    p := p + 2 + cipherLen;
    if p + 1 > |body| {
      return None;
    }
    var compLen := body[p] as int;
    p := p + 1 + compLen;
    if p + 2 > |body| {
      return None;
    }
    var extTotal := U16(body, p);
    p := p + 2;
    r := WalkExtensions(body, p, p + extTotal);
  }

  // ----- the message -----

  datatype Ext = Ext(kind: nat, data: Bytes)

  /** `record` and `handshake` are the rest of the two headers: a version and lengths the walk does not look at. */
  datatype Hello = Hello(
    record: Bytes, handshake: Bytes, version: Bytes, random: Bytes, session: Bytes, ciphers: Bytes, methods: Bytes,
    extensions: Option<seq<Ext>>)

  function Put16(n: nat): Bytes
    requires n < 0x10000
  {
    [n / 256, n % 256]
  }

  function PutExt(e: Ext): Bytes
    requires e.kind < 0x10000 && |e.data| < 0x10000
  {
    Put16(e.kind) + Put16(|e.data|) + e.data
  }

  predicate ValidExts(exts: seq<Ext>)
  {
    forall e | e in exts :: e.kind < 0x10000 && |e.data| < 0x10000
  }

  function PutExts(exts: seq<Ext>): Bytes
    requires ValidExts(exts)
  {
    if exts == [] then []
    else PutExt(exts[0]) + PutExts(exts[1..])
  }

  predicate Valid(h: Hello)
  {
    && |h.record| == 4 && |h.handshake| == 3 && |h.version| == 2 && |h.random| == 32
    && |h.session| < 256 && |h.ciphers| < 0x10000 && |h.methods| < 256
    && (h.extensions.Some? ==> ValidExts(h.extensions.value) && |PutExts(h.extensions.value)| < 0x10000)
  }

  /** What follows the compression methods. */
  function PutTail(h: Hello): Bytes
    requires Valid(h)
  {
    match h.extensions
    case None => []
    case Some(exts) => Put16(|PutExts(exts)|) + PutExts(exts)
  }

  /** Everything before the length of the session id. */
  function PutFront(h: Hello): Bytes
  {
    [0x16] + h.record + [0x01] + h.handshake + (h.version + h.random)
  }

  function PutSession(h: Hello): Bytes
    requires Valid(h)
  {
    [|h.session|] + h.session
  }

  function PutCiphers(h: Hello): Bytes
    requires Valid(h)
  {
    Put16(|h.ciphers|) + h.ciphers
  }

  function PutMethods(h: Hello): Bytes
    requires Valid(h)
  {
    [|h.methods|] + h.methods
  }

  function PutRest(h: Hello): Bytes
    requires Valid(h)
  {
    PutSession(h) + (PutCiphers(h) + (PutMethods(h) + PutTail(h)))
  }

  function Put(h: Hello): Bytes
    requires Valid(h)
  {
    PutFront(h) + PutRest(h)
  }

  /** What the walk takes for the name in a server_name extension's data, which is followed by `rest`: the first
      entry of the list, checked against the end of the buffer and not of the extension. */
  function NameIn(data: Bytes, rest: Bytes): Option<Bytes>
  {
    var all := data + rest;
    if |data| < 5 || |all| <= 5 || 5 + U16(data, 3) > |all| then None else Some(all[5..5 + U16(data, 3)])
  }

  /** What it takes for the name in these extensions, which are followed by `rest`: only the first server_name
      extension matters. */
  function NameAmong(exts: seq<Ext>, rest: Bytes): Option<Bytes>
    requires ValidExts(exts)
  {
    if exts == [] then None
    else if exts[0].kind == 0 then NameIn(exts[0].data, PutExts(exts[1..]) + rest)
    else NameAmong(exts[1..], rest)
  }

  /** The data of a server_name extension: a list length, the type of the first name, its length and the name. */
  predicate NamesHost(data: Bytes)
  {
    |data| >= 5 && U16(data, 3) > 0 && 5 + U16(data, 3) <= |data|
  }

  function Host(data: Bytes): Bytes
    requires NamesHost(data)
  {
    data[5..5 + U16(data, 3)]
  }

  /** The first server_name extension, if there is one, has a non-empty first name. */
  predicate FirstNamesHost(exts: seq<Ext>)
  {
    exts != [] ==> if exts[0].kind == 0 then NamesHost(exts[0].data) else FirstNamesHost(exts[1..])
  }

  function FirstHost(exts: seq<Ext>): Option<Bytes>
    requires FirstNamesHost(exts)
  {
    if exts == [] then None
    else if exts[0].kind == 0 then Some(Host(exts[0].data))
    else FirstHost(exts[1..])
  }

  // ----- the walk finds the name -----

  predicate At(body: Bytes, p: nat, part: Bytes)
  {
    p + |part| <= |body| && body[p..p + |part|] == part
  }

  lemma AtParts(body: Bytes, p: nat, a: Bytes, b: Bytes)
    requires At(body, p, a + b)
    ensures At(body, p, a) && At(body, p + |a|, b)
  {
    assert (a + b)[..|a|] == a && (a + b)[|a|..] == b;
    assert body[p..p + |a + b|][..|a|] == body[p..p + |a|];
    assert body[p..p + |a + b|][|a|..] == body[p + |a|..p + |a| + |b|];
  }

  lemma U16At(body: Bytes, p: nat, n: nat)
    requires n < 0x10000 && At(body, p, Put16(n))
    ensures U16(body, p) == n
  {
    var two := body[p..p + 2];
    assert two[0] == body[p] && two[1] == body[p + 1];
  }

  lemma AtRest(body: Bytes, p: nat, part: Bytes)
    requires At(body, p, part)
    ensures p + |part| <= |body| && body[p..] == part + body[p + |part|..]
  {
    assert body[p..] == body[p..p + |part|] + body[p + |part|..];
  }

  lemma NameIsFound(body: Bytes, p: nat, data: Bytes)
    requires At(body, p, data)
    ensures p + |data| <= |body| && NameAt(body, p, |data|) == NameIn(data, body[p + |data|..])
  {
    AtRest(body, p, data);
    hide At;
    var all := data + body[p + |data|..];
    if |data| >= 5 {
      assert all[3] == body[p + 3] && all[4] == body[p + 4];
      var n := U16(data, 3);
      assert U16(body, p + 3) == n;
      if 5 + n <= |all| {
        assert all[5..5 + n] == body[p..][5..5 + n] == body[p + 5..p + 5 + n];
      }
    }
  }

  lemma ExtIsRead(body: Bytes, p: nat, e: Ext)
    requires e.kind < 0x10000 && |e.data| < 0x10000 && At(body, p, PutExt(e))
    ensures U16(body, p) == e.kind && U16(body, p + 2) == |e.data| && At(body, p + 4, e.data)
  {
    AtParts(body, p, Put16(e.kind) + Put16(|e.data|), e.data);
    AtParts(body, p, Put16(e.kind), Put16(|e.data|));
    U16At(body, p, e.kind);
    U16At(body, p + 2, |e.data|);
    hide At, U16;
  }

  lemma WalkStep(body: Bytes, p: nat, end: nat)
    requires p + 4 <= end && p + 4 <= |body|
    ensures FindName(body, p, end) ==
            if U16(body, p) == 0 then NameAt(body, p + 4, U16(body, p + 2))
            else FindName(body, p + 4 + U16(body, p + 2), end)
  {
  }

  lemma FirstStep(exts: seq<Ext>, rest: Bytes)
    requires exts != [] && ValidExts(exts)
    ensures exts[0].kind < 0x10000 && |exts[0].data| < 0x10000 && ValidExts(exts[1..])
    ensures PutExts(exts) == PutExt(exts[0]) + PutExts(exts[1..]) && |PutExt(exts[0])| == 4 + |exts[0].data|
    ensures NameAmong(exts, rest) ==
            if exts[0].kind == 0 then NameIn(exts[0].data, PutExts(exts[1..]) + rest) else NameAmong(exts[1..], rest)
  {
    hide NameIn;
  }

  lemma {:induction false} WalkFindsName(body: Bytes, p: nat, exts: seq<Ext>)
    requires ValidExts(exts) && At(body, p, PutExts(exts))
    ensures p + |PutExts(exts)| <= |body|
    ensures FindName(body, p, p + |PutExts(exts)|) == NameAmong(exts, body[p + |PutExts(exts)|..])
    decreases |exts|
  {
    hide *;
    AtFits(body, p, PutExts(exts));
    if exts == [] {
      NoneToWalk(body, p);
    } else {
      WalkFirst(body, p, exts);
      FirstStep(exts, body[p + |PutExts(exts)|..]);
      if exts[0].kind != 0 {
        WalkFindsName(body, p + 4 + |exts[0].data|, exts[1..]);
      }
    }
  }

  lemma NoneToWalk(body: Bytes, p: nat)
    ensures ValidExts([]) && PutExts([]) == [] && FindName(body, p, p) == None
    ensures forall rest :: NameAmong([], rest) == None
  {
  }

  lemma WalkFirst(body: Bytes, p: nat, exts: seq<Ext>)
    requires exts != [] && ValidExts(exts) && At(body, p, PutExts(exts))
    ensures p + |PutExts(exts)| <= |body| && exts[0].kind < 0x10000 && |exts[0].data| < 0x10000
    ensures var e, end, next := exts[0], p + |PutExts(exts)|, p + 4 + |exts[0].data|;
      && ValidExts(exts[1..]) && end == next + |PutExts(exts[1..])| && At(body, next, PutExts(exts[1..]))
      && FindName(body, p, end) ==
         if e.kind == 0 then NameIn(e.data, PutExts(exts[1..]) + body[end..]) else FindName(body, next, end)
  {
    hide *;
    FirstStep(exts, []);
    var e, end := exts[0], p + |PutExts(exts)|;
    AtFits(body, p, PutExts(exts));
    AtParts(body, p, PutExt(e), PutExts(exts[1..]));
    ExtIsRead(body, p, e);
    AtFits(body, p, PutExt(e));
    WalkStep(body, p, end);
    AtRest(body, p + 4 + |e.data|, PutExts(exts[1..]));
    NameIsFound(body, p + 4, e.data);
  }

  lemma AtFits(body: Bytes, p: nat, part: Bytes)
    requires At(body, p, part)
    ensures p + |part| <= |body|
  {
  }

  lemma SkipEquals(body: Bytes, s: nat, c: nat, m: nat)
    requires 37 + s + c < |body|
    requires body[34] == s && U16(body, 35 + s) == c && body[37 + s + c] == m
    ensures AfterSession(body, 35 + s) == AfterCompression(body, 38 + s + c + m)
  {
  }

  /** Where the parts lie. */
  lemma PartsLie(body: Bytes, h: Hello)
    requires Valid(h) && At(body, 34, PutRest(h))
    ensures var q := 37 + |h.session| + |h.ciphers|;
      && At(body, 34, PutSession(h)) && At(body, 35 + |h.session|, Put16(|h.ciphers|))
      && At(body, q, PutMethods(h)) && At(body, q + 1 + |h.methods|, PutTail(h))
  {
    assert |PutSession(h)| == 1 + |h.session| && |PutMethods(h)| == 1 + |h.methods|;
    assert |PutCiphers(h)| == 2 + |h.ciphers|;
    var tail, s, c, m := PutTail(h), PutSession(h), PutCiphers(h), PutMethods(h);
    assert PutRest(h) == s + (c + (m + tail)) && c == Put16(|h.ciphers|) + h.ciphers;
    hide *;
    AtParts(body, 34, s, c + (m + tail));
    AtParts(body, 34 + |s|, c, m + tail);
    AtParts(body, 34 + |s| + |c|, m, tail);
    AtParts(body, 34 + |s|, Put16(|h.ciphers|), h.ciphers);
  }

  /** The walk passes the session id, the cipher suites and the compression methods. */
  lemma BlocksAreSkipped(body: Bytes, h: Hello)
    requires Valid(h) && At(body, 34, PutRest(h))
    ensures var q := 38 + |h.session| + |h.ciphers| + |h.methods|;
      && 34 < |body| && body[34] == |h.session| && At(body, q, PutTail(h))
      && AfterSession(body, 35 + |h.session|) == AfterCompression(body, q)
  {
    assert PutSession(h)[0] == |h.session| && PutMethods(h)[0] == |h.methods|;
    assert |h.ciphers| < 0x10000;
    hide *;
    PartsLie(body, h);
    FirstByte(body, 34, PutSession(h));
    FirstByte(body, 37 + |h.session| + |h.ciphers|, PutMethods(h));
    U16At(body, 35 + |h.session|, |h.ciphers|);
    SkipEquals(body, |h.session|, |h.ciphers|, |h.methods|);
  }

  lemma FirstByte(body: Bytes, p: nat, part: Bytes)
    requires part != [] && At(body, p, part)
    ensures p < |body| && body[p] == part[0]
  {
    assert body[p..p + |part|][0] == body[p];
  }

  lemma FrontIsSkipped(bytes: Bytes, h: Hello)
    requires Valid(h) && Put(h) <= bytes
    ensures |bytes| >= 44 && bytes[0] == 0x16 && bytes[5] == 0x01 && At(bytes[9..], 34, PutRest(h))
    ensures |bytes| == 43 + |PutRest(h)| + (|bytes| - |Put(h)|)
  {
    assert |PutFront(h)| == 43 && PutFront(h)[0] == 0x16 && PutFront(h)[5] == 0x01;
    assert bytes[0] == Put(h)[0] && bytes[5] == Put(h)[5];
    assert bytes[9..][34..34 + |PutRest(h)|] == bytes[..|Put(h)|][43..] == PutRest(h);
    hide PutTail, Put16, PutFront;
  }

  function TailAt(h: Hello): nat
  {
    38 + |h.session| + |h.ciphers| + |h.methods|
  }

  lemma HelloWalk(bytes: Bytes, h: Hello)
    requires Valid(h) && Put(h) <= bytes
    ensures |bytes| >= 44 && SniOf(bytes) == AfterCompression(bytes[9..], TailAt(h))
    ensures At(bytes[9..], TailAt(h), PutTail(h))
  {
    hide *;
    FrontIsSkipped(bytes, h);
    BlocksAreSkipped(bytes[9..], h);
    HeadersAreRead(bytes, |h.session|);
    TailIndex(h);
  }

  lemma HeadersAreRead(bytes: Bytes, s: nat)
    requires |bytes| >= 44 && bytes[0] == 0x16 && bytes[5] == 0x01 && bytes[43] == s
    ensures SniOf(bytes) == AfterSession(bytes[9..], 35 + s)
  {
  }

  lemma TailIndex(h: Hello)
    ensures TailAt(h) == 38 + |h.session| + |h.ciphers| + |h.methods|
  {
  }

  lemma PutLength(h: Hello)
    requires Valid(h)
    ensures |Put(h)| == 9 + TailAt(h) + |PutTail(h)|
  {
    hide PutTail;
  }

  /** Every ClientHello with an extensions block, whatever its session id, cipher suites, compression methods and other
      extensions and whatever follows it in the buffer, gives what its first server_name extension holds. */
  lemma NameIsExtracted(bytes: Bytes, h: Hello)
    requires Valid(h) && Put(h) <= bytes && h.extensions.Some?
    ensures SniOf(bytes) == NameAmong(h.extensions.value, bytes[|Put(h)|..])
  {
    hide *;
    TailOf(h);
    PutLength(h);
    HelloWalk(bytes, h);
    var exts, body, q := h.extensions.value, bytes[9..], TailAt(h);
    var n := |PutExts(exts)|;
    AtParts(body, q, Put16(n), PutExts(exts));
    AtFits(body, q, Put16(n));
    U16At(body, q, n);
    ExtensionsAreWalked(body, q);
    WalkFindsName(body, q + 2, exts);
    assert bytes[9..][q + 2 + n..] == bytes[|Put(h)|..];
  }

  /** If that extension names a host properly, it is this name. */
  lemma HostIsExtracted(bytes: Bytes, h: Hello)
    requires Valid(h) && Put(h) <= bytes && h.extensions.Some? && FirstNamesHost(h.extensions.value)
    ensures SniOf(bytes) == FirstHost(h.extensions.value)
  {
    NameIsExtracted(bytes, h);
    HostIsName(h.extensions.value, bytes[|Put(h)|..]);
    hide *;
  }

  lemma {:induction false} HostIsName(exts: seq<Ext>, rest: Bytes)
    requires ValidExts(exts) && FirstNamesHost(exts)
    ensures NameAmong(exts, rest) == FirstHost(exts)
    decreases |exts|
  {
    if exts == [] {
    } else {
      if exts[0].kind == 0 {
        ProperNameIsIn(exts[0].data, PutExts(exts[1..]) + rest);
      } else {
        HostIsName(exts[1..], rest);
      }
      hide NameIn, NamesHost, Host;
    }
  }

  lemma ProperNameIsIn(data: Bytes, rest: Bytes)
    requires NamesHost(data)
    ensures NameIn(data, rest) == Some(Host(data))
  {
    assert (data + rest)[5..5 + U16(data, 3)] == data[5..5 + U16(data, 3)];
  }

  /** The name stays inside its extension, whatever follows, exactly when the length it gives fits there. */
  lemma NameStaysInsideIff(data: Bytes)
    requires |data| >= 5
    ensures (forall rest, name | NameIn(data, rest) == Some(name) :: name <= data[5..]) <==>
            5 + U16(data, 3) <= |data|
  {
    var n := U16(data, 3);
    if 5 + n <= |data| {
      forall rest, name | NameIn(data, rest) == Some(name)
        ensures name <= data[5..]
      {
        assert (data + rest)[5..5 + n] == data[5..][..n];
      }
    } else {
      var rest: Bytes := seq(n + 1, _ => 0);
      var name := (data + rest)[5..5 + n];
      assert NameIn(data, rest) == Some(name) && |name| > |data[5..]|;
    }
  }

  lemma TailOf(h: Hello)
    requires Valid(h) && h.extensions.Some?
    ensures ValidExts(h.extensions.value) && |PutExts(h.extensions.value)| < 0x10000
    ensures PutTail(h) == Put16(|PutExts(h.extensions.value)|) + PutExts(h.extensions.value)
    ensures |Put16(|PutExts(h.extensions.value)|)| == 2
  {
  }

  lemma ExtensionsAreWalked(body: Bytes, p: nat)
    requires p + 2 <= |body|
    ensures AfterCompression(body, p) == FindName(body, p + 2, p + 2 + U16(body, p))
  {
  }

  /** A ClientHello without extensions has no name. */
  lemma NoExtensionsNoName(h: Hello)
    requires Valid(h) && h.extensions.None?
    ensures SniOf(Put(h)) == None
  {
    HelloWalk(Put(h), h);
    FrontIsSkipped(Put(h), h);
  }
}
