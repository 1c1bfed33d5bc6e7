/** ClientHellos as clients write them: the record layer of section 5.1 of RFC 8446, the handshake message of
    its section 4.1.2 and the server_name extension of section 3 of RFC 6066. The fence's parser inverts it. */
module ClientHello {
  import opened Share
  import opened ServerName

  datatype HostName = HostName(kind: byte, name: Bytes)

  datatype Extension = ServerNames(names: seq<HostName>) | Other(kind: nat, data: Bytes)

  datatype Hello = Hello(recordVersion: (byte, byte), version: (byte, byte), random: Bytes, session: Bytes,
                         suites: Bytes, compression: Bytes, extensions: seq<Extension>)

  function Put16(n: nat): (p: Bytes)
    requires n < 65536
    ensures |p| == 2 && U16(p, 0) == n
  {
    [n / 256, n % 256]
  }

  function Put24(n: nat): (p: Bytes)
    requires n < 65536 * 256
    ensures |p| == 3
  {
    [n / 65536, n / 256 % 256, n % 256]
  }

  predicate NamesFit(names: seq<HostName>) {
    forall i :: 0 <= i < |names| ==> |names[i].name| < 65536
  }

  function PutName(h: HostName): Bytes
    requires |h.name| < 65536
  {
    [h.kind] + Long(h.name)
  }

  function PutNames(names: seq<HostName>): Bytes
    requires NamesFit(names)
  {
    if names == [] then [] else PutName(names[0]) + PutNames(names[1..])
  }

  predicate ExtensionFits(e: Extension) {
    match e
    case ServerNames(names) => NamesFit(names) && |PutNames(names)| + 2 < 65536
    case Other(kind, data) => 0 < kind < 65536 && |data| < 65536
  }

  function ExtensionData(e: Extension): (d: Bytes)
    requires ExtensionFits(e)
    ensures |d| < 65536
  {
    match e
    case ServerNames(names) => Long(PutNames(names))
    case Other(_, data) => data
  }

  function KindOf(e: Extension): nat {
    if e.ServerNames? then 0 else e.kind
  }

  function PutExtension(e: Extension): Bytes
    requires ExtensionFits(e)
  {
    Put16(KindOf(e)) + Long(ExtensionData(e))
  }

  predicate ExtensionsFit(es: seq<Extension>) {
    forall i :: 0 <= i < |es| ==> ExtensionFits(es[i])
  }

  function PutExtensions(es: seq<Extension>): Bytes
    requires ExtensionsFit(es)
  {
    if es == [] then [] else PutExtension(es[0]) + PutExtensions(es[1..])
  }

  predicate Fits(h: Hello) {
    && |h.random| == 32 && |h.session| < 256 && |h.suites| < 65536 && |h.compression| < 256
    && ExtensionsFit(h.extensions) && |PutExtensions(h.extensions)| < 65536
    && |Message(h)| + 4 < 65536
  }

  function Message(h: Hello): Bytes
    requires |h.session| < 256 && |h.suites| < 65536 && |h.compression| < 256
    requires ExtensionsFit(h.extensions) && |PutExtensions(h.extensions)| < 65536
  {
    [h.version.0, h.version.1] + h.random + Vectors(h.session, h.suites, h.compression, PutExtensions(h.extensions))
  }

  /** A field with its length in one byte, and in two. */
  function Short(x: Bytes): Bytes
    requires |x| < 256
  {
    [|x|] + x
  }

  function Long(x: Bytes): Bytes
    requires |x| < 65536
  {
    Put16(|x|) + x
  }

  function Vectors(session: Bytes, suites: Bytes, compression: Bytes, extensions: Bytes): Bytes
    requires |session| < 256 && |suites| < 65536 && |compression| < 256 && |extensions| < 65536
  {
    Short(session) + Long(suites) + Short(compression) + Long(extensions)
  }

  /** The record's and the message's headers, for a message of `n` bytes. */
  function Headers(version: (byte, byte), n: nat): (p: Bytes)
    requires n + 4 < 65536
    ensures |p| == 9 && p[0] == 0x16 && U16(p, 3) == n + 4
  {
    [0x16, version.0, version.1] + Put16(n + 4) + [1] + Put24(n)
  }

  /** The whole record. */
  function Encode(h: Hello): Bytes
    requires Fits(h)
  {
    Headers(h.recordVersion, |Message(h)|) + Message(h)
  }

  // ---- what the message says ----

  /** The first host name listed. */
  function HostOf(names: seq<HostName>): Option<Bytes> {
    if names == [] then None
    else if names[0].kind == 0 then Some(if Ascii(names[0].name) then names[0].name else [])
    else HostOf(names[1..])
  }

  /** The first host name of the first server-name extension that has one. */
  function HostIn(es: seq<Extension>): Bytes {
    if es == [] then []
    else if es[0].ServerNames? && HostOf(es[0].names).Some? then HostOf(es[0].names).value
    else HostIn(es[1..])
  }

  // ---- the parser finds it ----

  /** Fields read back where they were written. */
  lemma ShortAt(b: Bytes, at: nat, x: Bytes, rest: Bytes)
    requires |x| < 256 && at <= |b| && b[at..] == Short(x) + rest
    ensures at + 1 + |x| <= |b| && U8(b, at) == |x| && b[at + 1 + |x|..] == rest
  {
    assert b[at..][1 + |x|..] == rest;
    assert b[at] == b[at..][0];
  }

  lemma LongAt(b: Bytes, at: nat, x: Bytes, rest: Bytes)
    requires |x| < 65536 && at <= |b| && b[at..] == Long(x) + rest
    ensures at + 2 + |x| <= |b| && U16(b, at) == |x| && b[at + 2..at + 2 + |x|] == x && b[at + 2 + |x|..] == rest
  {
    var p := Put16(|x|);
    var tail := b[at..];
    assert tail[2..2 + |x|] == x && tail[2 + |x|..] == rest;
    assert b[at] == tail[0] == p[0] && b[at + 1] == tail[1] == p[1];
  }

  /** A name lies at `c`, and an extension at `at`. */
  ghost predicate NameLies(b: Bytes, c: nat, h: HostName) {
    c + 3 + |h.name| <= |b| && b[c] == h.kind && U16(b, c + 1) == |h.name| && b[c + 3..c + 3 + |h.name|] == h.name
  }

  ghost predicate ExtensionLies(b: Bytes, at: nat, kind: nat, d: Bytes) {
    at + 4 + |d| <= |b| && U16(b, at) == kind && U16(b, at + 2) == |d| && b[at + 4..at + 4 + |d|] == d
  }

  ghost predicate NamesLie(b: Bytes, c: nat, names: seq<HostName>)
    decreases |names|
  {
    if names == [] then c == |b| else NameLies(b, c, names[0]) && NamesLie(b, c + 3 + |names[0].name|, names[1..])
  }

  ghost predicate ExtensionsLie(b: Bytes, at: nat, es: seq<Extension>)
    requires ExtensionsFit(es)
    decreases |es|
  {
    if es == [] then at == |b|
    else
      var d := ExtensionData(es[0]);
      ExtensionLies(b, at, KindOf(es[0]), d) && ExtensionsLie(b, at + 4 + |d|, es[1..])
  }

  // where they were written

  lemma NameAt(b: Bytes, c: nat, kind: byte, name: Bytes, rest: Bytes)
    requires |name| < 65536 && c <= |b| && b[c..] == [kind] + Long(name) + rest
    ensures NameLies(b, c, HostName(kind, name)) && b[c + 3 + |name|..] == rest
  {
    assert b[c] == b[c..][0];
    assert b[c + 1..] == b[c..][1..] == Long(name) + rest;
    LongAt(b, c + 1, name, rest);
  }

  lemma PutNamesStep(names: seq<HostName>)
    requires names != [] && NamesFit(names)
    ensures PutNames(names) == [names[0].kind] + Long(names[0].name) + PutNames(names[1..])
  {
  }

  lemma PutExtensionsStep(es: seq<Extension>)
    requires es != [] && ExtensionsFit(es)
    ensures PutExtensions(es) == Put16(KindOf(es[0])) + Long(ExtensionData(es[0])) + PutExtensions(es[1..])
  {
  }

  lemma {:induction false} NamesWritten(b: Bytes, c: nat, names: seq<HostName>)
    requires NamesFit(names) && c <= |b| && b[c..] == PutNames(names)
    ensures NamesLie(b, c, names)
    decreases |names|
  {
    if names != [] {
      PutNamesStep(names);
      NameAt(b, c, names[0].kind, names[0].name, PutNames(names[1..]));
      NamesWritten(b, c + 3 + |names[0].name|, names[1..]);
    }
  }

  lemma ExtensionAt(b: Bytes, at: nat, kind: nat, d: Bytes, rest: Bytes)
    requires kind < 65536 && |d| < 65536 && at <= |b| && b[at..] == Put16(kind) + Long(d) + rest
    ensures ExtensionLies(b, at, kind, d) && b[at + 4 + |d|..] == rest
  {
    var p := Put16(kind);
    assert b[at] == b[at..][0] == p[0] && b[at + 1] == b[at..][1] == p[1];
    assert b[at + 2..] == b[at..][2..] == Long(d) + rest;
    LongAt(b, at + 2, d, rest);
  }

  lemma ExtensionFirst(b: Bytes, at: nat, es: seq<Extension>) returns (next: nat)
    requires es != [] && ExtensionsFit(es) && at <= |b| && b[at..] == PutExtensions(es)
    ensures ExtensionsFit(es[1..]) && next == at + 4 + |ExtensionData(es[0])| <= |b|
    ensures ExtensionLies(b, at, KindOf(es[0]), ExtensionData(es[0])) && b[next..] == PutExtensions(es[1..])
  {
    PutExtensionsStep(es);
    ExtensionAt(b, at, KindOf(es[0]), ExtensionData(es[0]), PutExtensions(es[1..]));
    next := at + 4 + |ExtensionData(es[0])|;
  }

  lemma {:induction false} ExtensionsWritten(b: Bytes, at: nat, es: seq<Extension>)
    requires ExtensionsFit(es) && at <= |b| && b[at..] == PutExtensions(es)
    ensures ExtensionsLie(b, at, es)
    decreases |es|
  {
    if es != [] {
      var next := ExtensionFirst(b, at, es);
      ExtensionsWritten(b, next, es[1..]);
    }
  }

  // they are found

  lemma {:induction false} NamesFound(b: Bytes, c: nat, names: seq<HostName>)
    requires NamesLie(b, c, names)
    ensures InNames(b, c) == HostOf(names)
    decreases |names|
  {
    if names != [] {
      NamesFound(b, c + 3 + |names[0].name|, names[1..]);
    }
  }

  lemma DataNames(e: Extension)
    requires ExtensionFits(e) && e.ServerNames?
    ensures InNames(ExtensionData(e), 2) == HostOf(e.names)
  {
    assert ExtensionData(e)[2..] == PutNames(e.names);
    NamesWritten(ExtensionData(e), 2, e.names);
    NamesFound(ExtensionData(e), 2, e.names);
  }

  lemma ExtensionStep(b: Bytes, at: nat, kind: nat, d: Bytes)
    requires ExtensionLies(b, at, kind, d)
    ensures InExtensions(b, at) ==
            if kind == 0 && InNames(d, 2).Some? then InNames(d, 2).value else InExtensions(b, at + 4 + |d|)
  {
  }

  lemma {:induction false} ExtensionsFound(b: Bytes, at: nat, es: seq<Extension>)
    requires ExtensionsFit(es) && ExtensionsLie(b, at, es)
    ensures InExtensions(b, at) == HostIn(es)
    decreases |es|
  {
    if es != [] {
      var d := ExtensionData(es[0]);
      ExtensionStep(b, at, KindOf(es[0]), d);
      if es[0].ServerNames? {
        DataNames(es[0]);
      }
      ExtensionsFound(b, at + 4 + |d|, es[1..]);
    }
  }

  /** The parser steps over everything before the extensions. */
  lemma VectorsSkipped(b: Bytes, session: Bytes, suites: Bytes, compression: Bytes, extensions: Bytes)
    requires |session| < 256 && |suites| < 65536 && |compression| < 256 && |extensions| < 65536
    requires 43 <= |b| && b[43..] == Vectors(session, suites, compression, extensions)
    ensures ToExtensions(b).Some? && ToExtensions(b).value <= |b| && b[ToExtensions(b).value..] == extensions
  {
    var l, c, x := Long(suites), Short(compression), Long(extensions);
    assert b[43..] == Short(session) + (l + c + x);
    ShortAt(b, 43, session, l + c + x);
    SuitesOn(b, 43 + 1 + |session|, suites, compression, extensions);
  }

  /** From the cipher suites on. */
  lemma SuitesOn(b: Bytes, at: nat, suites: Bytes, compression: Bytes, extensions: Bytes)
    requires |suites| < 65536 && |compression| < 256 && |extensions| < 65536
    requires at <= |b| && b[at..] == Long(suites) + Short(compression) + Long(extensions)
    ensures var j := at + 2 + |suites|;
            var k := j + 1 + |compression|;
            && k + 2 <= |b| && U16(b, at) == |suites| && U8(b, j) == |compression| && b[k + 2..] == extensions
  {
    var c, x := Short(compression), Long(extensions);
    assert b[at..] == Long(suites) + (c + x);
    LongAt(b, at, suites, c + x);
    var j := at + 2 + |suites|;
    ShortAt(b, j, compression, x);
    assert b[j + 1 + |compression|..] == x;
    assert x[2..] == extensions;
  }

  lemma HelloVectors(h: Hello)
    requires Fits(h)
    ensures 43 <= |Encode(h)|
    ensures Encode(h)[43..] == Vectors(h.session, h.suites, h.compression, PutExtensions(h.extensions))
  {
    var head: Bytes := Headers(h.recordVersion, |Message(h)|) + [h.version.0, h.version.1] + h.random;
    assert |head| == 43;
    assert Encode(h) == head + Vectors(h.session, h.suites, h.compression, PutExtensions(h.extensions));
  }

  lemma NameFrom(b: Bytes)
    requires 5 <= |b| && b[0] == 0x16 && 5 + U16(b, 3) == |b|
    ensures ToExtensions(b).Some? ==> Name(b) == InExtensions(b, ToExtensions(b).value)
  {
    assert Record(b) == b;
  }

  lemma VectorsFound(b: Bytes, session: Bytes, suites: Bytes, compression: Bytes, es: seq<Extension>)
    requires |session| < 256 && |suites| < 65536 && |compression| < 256 && ExtensionsFit(es)
    requires |PutExtensions(es)| < 65536
    requires 43 <= |b| && b[43..] == Vectors(session, suites, compression, PutExtensions(es))
    requires b[0] == 0x16 && 5 + U16(b, 3) == |b|
    ensures Name(b) == HostIn(es)
  {
    NameFrom(b);
    VectorsSkipped(b, session, suites, compression, PutExtensions(es));
    ExtensionsWritten(b, ToExtensions(b).value, es);
    ExtensionsFound(b, ToExtensions(b).value, es);
  }

  lemma WholeRecord(h: Hello)
    requires Fits(h)
    ensures |Encode(h)| >= 9 && Encode(h)[0] == 0x16 && 5 + U16(Encode(h), 3) == |Encode(h)|
  {
    var p := Headers(h.recordVersion, |Message(h)|);
    assert Encode(h)[3] == p[3] && Encode(h)[4] == p[4];
  }

  /** The parser inverts the encoder: it finds the host name wherever its extension sits. */
  lemma ParserInvertsEncoder(h: Hello)
    requires Fits(h)
    ensures Name(Encode(h)) == HostIn(h.extensions)
  {
    WholeRecord(h);
    HelloVectors(h);
    VectorsFound(Encode(h), h.session, h.suites, h.compression, h.extensions);
  }

  lemma {:induction false} HostBehind(before: seq<Extension>, name: Bytes, after: seq<Extension>)
    requires forall i :: 0 <= i < |before| ==> before[i].Other?
    ensures HostIn(before + [ServerNames([HostName(0, name)])] + after) == if Ascii(name) then name else []
    decreases |before|
  {
    var all := before + [ServerNames([HostName(0, name)])] + after;
    if before != [] {
      assert all[1..] == before[1..] + [ServerNames([HostName(0, name)])] + after;
      HostBehind(before[1..], name, after);
    }
  }

  /** A hello with one ASCII host name gives that name; cut anywhere it gives the name or nothing; and nothing
      sent after it changes the name. */
  lemma HelloNamed(h: Hello, before: seq<Extension>, name: Bytes, after: seq<Extension>, k: nat, more: Bytes)
    requires Fits(h) && h.extensions == before + [ServerNames([HostName(0, name)])] + after
    requires (forall i :: 0 <= i < |name| ==> name[i] < 128) && forall i :: 0 <= i < |before| ==> before[i].Other?
    requires k <= |Encode(h)|
    ensures Name(Encode(h)) == name
    ensures Name(Encode(h)[..k]) in {[], name}
    ensures Name(Encode(h) + more) == name
  {
    ParserInvertsEncoder(h);
    HostBehind(before, name, after);
    PrefixSafe(Encode(h), k);
    WholeRecord(h);
    TrailingIgnored(Encode(h), more);
  }

  /** A host name with a byte that is not ASCII is no name: nothing is found, not even a later name. */
  lemma HelloUnreadable(h: Hello, before: seq<Extension>, name: Bytes, after: seq<Extension>, i: nat)
    requires Fits(h) && h.extensions == before + [ServerNames([HostName(0, name)])] + after
    requires i < |name| && 128 <= name[i] && forall k :: 0 <= k < |before| ==> before[k].Other?
    ensures Name(Encode(h)) == []
  {
    ParserInvertsEncoder(h);
    HostBehind(before, name, after);
  }
}
