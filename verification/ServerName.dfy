/** The server-name parser of the network fence (internal/fence/proxy.go:75-134) against an encoder of the
    ClientHello it reads (section 4.1.2 of RFC 8446, section 3 of RFC 6066). */
module ServerName {
  import opened Share

  type byte = n: int | 0 <= n < 256

  type Bytes = seq<byte>

  function U8(b: Bytes, i: nat): (n: nat)
    requires i < |b|
    ensures n < 256
  {
    b[i]
  }

  function U16(b: Bytes, i: nat): (n: nat)
    requires i + 2 <= |b|
    ensures n < 65536
  {
    U8(b, i) * 256 + U8(b, i + 1)
  }

  /** Where the extensions start: after the session id, the cipher suites and the compression methods. */
  function ToExtensions(body: Bytes): Option<nat> {
    var at: nat := 5 + 4 + 2 + 32;
    if |body| < at + 1 then None
    else
      var suites := at + 1 + U8(body, at);
      if |body| < suites + 2 then None
      else
        var compression := suites + 2 + U16(body, suites);
        if |body| < compression + 1 then None else Some(compression + 1 + U8(body, compression) + 2)
  }

  predicate Ascii(name: Bytes) {
    forall i :: 0 <= i < |name| ==> name[i] < 128
  }

  /** The first host name of a name list, from place `c` on; a name that is not ASCII is no name. */
  function InNames(chunk: Bytes, c: nat): Option<Bytes>
    decreases |chunk| - c
  {
    if |chunk| < c + 3 then None
    else
      var n := U16(chunk, c + 1);
      if chunk[c] == 0 && c + 3 + n <= |chunk| then
        var name := chunk[c + 3..c + 3 + n];
        Some(if Ascii(name) then name else [])
      else InNames(chunk, c + 3 + n)
  }

  /** The first host name in the extensions from place `at` on. */
  function InExtensions(body: Bytes, at: nat): Bytes
    decreases |body| - at
  {
    if |body| < at + 4 then []
    else
      var next := at + 4 + U16(body, at + 2);
      if U16(body, at) != 0 || |body| < next then InExtensions(body, next)
      else
        match InNames(body[at + 4..next], 2)
        case Some(name) => name
        case None => InExtensions(body, next)
  }

  /** What is looked at: the first record, as far as it is there. */
  function Record(b: Bytes): Bytes
    requires 5 <= |b|
  {
    b[..if 5 + U16(b, 3) < |b| then 5 + U16(b, 3) else |b|]
  }

  function NameIn(body: Bytes): Bytes {
    match ToExtensions(body)
    case None => []
    case Some(at) => InExtensions(body, at)
  }

  /** The name the fence sees; empty for none. */
  function Name(b: Bytes): Bytes {
    if |b| < 5 || b[0] != 0x16 then [] else NameIn(Record(b))
  }

  // ---- the parser ----

  /** A number of `n` bytes, if they are there. */
  method Get(body: Bytes, at: nat, n: nat) returns (v: nat, ok: bool)
    requires n <= 2
    ensures ok <==> at + n <= |body|
    ensures ok ==> (n == 1 ==> v == U8(body, at)) && (n == 2 ==> v == U16(body, at))
  {
    if |body| < at + n {
      return 0, false;
    }
    v, ok := 0, true;
    var i := 0;
    while i < n
      invariant 0 <= i <= n
      invariant v == if i == 0 then 0 else if i == 1 then U8(body, at) else U16(body, at)
    {
      v := v * 256 + U8(body, at + i);
      i := i + 1;
    }
  }

  /** The server name in a ClientHello, or nothing. */
  method SNI(b: Bytes) returns (name: Bytes)
    ensures name == Name(b)
  {
    if |b| < 5 || b[0] != 0x16 {
      return [];
    }
    var end := 5 + U16(b, 3);
    if end > |b| {
      end := |b|;
    }
    var body := b[..end];
    var at, ok := Skip(body);
    if !ok {
      return [];
    }
    name := Walk(body, at);
  }

  /** Moves past the fixed part, the session id, the cipher suites and the compression methods. */
  method Skip(body: Bytes) returns (at: nat, ok: bool)
    ensures ok <==> ToExtensions(body).Some?
    ensures ok ==> at == ToExtensions(body).value
  {
    at := 5 + 4 + 2 + 32;
    var l;
    l, ok := Get(body, at, 1);
    if !ok {
      return;
    }
    at := at + 1 + l;
    l, ok := Get(body, at, 2);
    if !ok {
      return;
    }
    at := at + 2 + l;
    l, ok := Get(body, at, 1);
    if !ok {
      return;
    }
    at := at + 1 + l;
    at := at + 2;
  }

  /** Looks through the extensions. */
  method Walk(body: Bytes, first: nat) returns (name: Bytes)
    ensures name == InExtensions(body, first)
  {
    var at := first;
    while at + 4 <= |body|
      invariant InExtensions(body, first) == InExtensions(body, at)
      decreases |body| - at
    {
      var kind := U16(body, at);
      var size := U16(body, at + 2);
      var start := at + 4;
      at := start + size;
      if kind != 0 || at > |body| {
        continue;
      }
      var found := FindHost(body[start..at]);
      if found.Some? {
        return found.value;
      }
    }
    return [];
  }

  /** The first host name of a server-name extension. */
  method FindHost(chunk: Bytes) returns (found: Option<Bytes>)
    ensures found == InNames(chunk, 2)
  {
    var c := 2;
    while c + 3 <= |chunk|
      invariant InNames(chunk, 2) == InNames(chunk, c)
      decreases |chunk| - c
    {
      var n := U16(chunk, c + 1);
      if chunk[c] == 0 && c + 3 + n <= |chunk| {
        var name := chunk[c + 3..c + 3 + n];
        var i := 0;
        while i < |name|
          invariant 0 <= i <= |name| && forall k :: 0 <= k < i ==> name[k] < 128
        {
          if name[i] > 127 {
            return Some([]);
          }
          i := i + 1;
        }
        return Some(name);
      }
      c := c + 3 + n;
    }
    return None;
  }

  // ---- cut short, or followed by more ----

  /** In a shorter copy of the same bytes the same name is found, or none. */
  lemma {:induction false} ExtensionsPrefix(body: Bytes, k: nat, at: nat)
    requires k <= |body|
    ensures InExtensions(body[..k], at) == [] || InExtensions(body[..k], at) == InExtensions(body, at)
    decreases |body| - at
  {
    var cut := body[..k];
    if at + 4 <= k {
      var next := at + 4 + U16(body, at + 2);
      assert U16(cut, at) == U16(body, at) && U16(cut, at + 2) == U16(body, at + 2);
      if next <= k {
        assert cut[at + 4..next] == body[at + 4..next];
      }
      ExtensionsPrefix(body, k, next);
    }
  }

  lemma HeadPrefix(body: Bytes, k: nat)
    requires k <= |body| && ToExtensions(body[..k]).Some?
    ensures ToExtensions(body[..k]) == ToExtensions(body)
  {
  }

  /** A truncated stream gives the name the whole one gives, or none; never another. */
  lemma PrefixSafe(b: Bytes, k: nat)
    requires k <= |b|
    ensures Name(b[..k]) == [] || Name(b[..k]) == Name(b)
  {
    var cut := b[..k];
    if 5 <= k && b[0] == 0x16 {
      assert U16(cut, 3) == U16(b, 3);
      var body := Record(b);
      var j := if |body| < k then |body| else k;
      assert Record(cut) == body[..j];
      if ToExtensions(body[..j]).Some? {
        HeadPrefix(body, j);
        ExtensionsPrefix(body, j, ToExtensions(body).value);
      }
    }
  }

  /** What follows the first record never matters. */
  lemma TrailingIgnored(b: Bytes, more: Bytes)
    requires 5 <= |b| && 5 + U16(b, 3) <= |b|
    ensures Name(b + more) == Name(b)
  {
    assert U16(b + more, 3) == U16(b, 3);
    assert Record(b + more) == Record(b);
  }
}
