/** Reading the start of a connection (internal/fence/proxy.go:255-273): whatever pieces a ClientHello arrives
    in, the name found is the same. */
module HeadReader {
  import opened ServerName
  import CH = ClientHello

  const LIMIT: nat := 16384

  /** What one read of the connection brings. */
  datatype Read = Read(data: Bytes, failed: bool)

  predicate BlankLine(b: Bytes) {
    exists i :: 0 <= i <= |b| - 4 && b[i] == 13 && b[i + 1] == 10 && b[i + 2] == 13 && b[i + 3] == 10
  }

  /** A whole TLS record, or a whole set of HTTP headers. */
  predicate Whole(b: Bytes) {
    if 5 <= |b| && b[0] == 0x16 then 5 + U16(b, 3) <= |b| else BlankLine(b)
  }

  /** What is read from a connection, and whether it failed first; after its last piece a connection fails. */
  function Head(pieces: seq<Read>, buf: Bytes): (Bytes, bool)
    decreases |pieces|
  {
    if LIMIT <= |buf| then (buf, false)
    else
      var r := if pieces == [] then Read([], true) else pieces[0];
      var all := buf + r.data;
      if Whole(all) then (all, false)
      else if r.failed then (all, true)
      else Head(pieces[1..], all)
  }

  method ReadHead(pieces: seq<Read>) returns (buf: Bytes, failed: bool)
    ensures (buf, failed) == Head(pieces, [])
  {
    buf := [];
    var i := 0;
    assert pieces[0..] == pieces;
    while |buf| < LIMIT
      invariant 0 <= i <= |pieces| && Head(pieces, []) == Head(pieces[i..], buf)
      decreases |pieces| - i
    {
      var r := if i == |pieces| then Read([], true) else pieces[i];
      buf := buf + r.data;
      if |buf| >= 5 && buf[0] == 0x16 {
        if |buf| >= 5 + U16(buf, 3) {
          return buf, false;
        }
      } else if BlankLine(buf) {
        return buf, false;
      }
      if r.failed {
        return buf, true;
      }
      assert pieces[i..][1..] == pieces[i + 1..];
      i := i + 1;
    }
    return buf, false;
  }

  /** Everything the client sends until the connection fails. */
  function Sent(pieces: seq<Read>): Bytes {
    if pieces == [] then []
    else if pieces[0].failed then pieces[0].data
    else pieces[0].data + Sent(pieces[1..])
  }

  /** What is read is the start of what is sent, and is all of it, a whole head, or as much as is ever read. */
  lemma {:induction false} HeadCovers(pieces: seq<Read>, buf: Bytes)
    ensures var head := Head(pieces, buf).0;
            && head <= buf + Sent(pieces)
            && (head == buf + Sent(pieces) || 16384 <= |head| || Whole(head))
    decreases |pieces|
  {
    if |buf| < LIMIT && pieces != [] {
      var all := buf + pieces[0].data;
      if !pieces[0].failed {
        assert buf + Sent(pieces) == all + Sent(pieces[1..]);
        HeadCovers(pieces[1..], all);
      }
    }
  }

  /** A whole head: a TLS record as long as its header says, or, of what does not start as one, a blank line. */
  ghost predicate HeadEnds(b: Bytes) {
    if 5 <= |b| && b[0] == 22 then 5 + 256 * (b[3] as int) + b[4] as int <= |b|
    else exists i: nat, j: nat :: i + 4 == j <= |b| && b[i..j] == [13, 10, 13, 10]
  }

  lemma WholeIs(b: Bytes)
    ensures Whole(b) <==> HeadEnds(b)
  {
    if BlankLine(b) {
      var i :| 0 <= i <= |b| - 4 && b[i] == 13 && b[i + 1] == 10 && b[i + 2] == 13 && b[i + 3] == 10;
      assert b[i..i + 4] == [13, 10, 13, 10];
    }
    if i: nat, j: nat :| i + 4 == j <= |b| && b[i..j] == [13, 10, 13, 10] {
      assert b[i..j][0] == b[i] && b[i..j][1] == b[i + 1] && b[i..j][2] == b[i + 2] && b[i..j][3] == b[i + 3];
    }
  }

  /** Nothing is waited for once a whole head is there: what comes later changes nothing, and the reading succeeds. */
  lemma {:induction false} ReadsNoMore(pieces: seq<Read>, more: seq<Read>, buf: Bytes)
    requires pieces != [] && (forall i :: 0 <= i < |pieces| ==> !pieces[i].failed)
    requires HeadEnds(buf + Sent(pieces)) || 16384 <= |buf + Sent(pieces)|
    ensures Head(pieces + more, buf) == Head(pieces, buf) && !Head(pieces, buf).1
    decreases |pieces|
  {
    var all := buf + pieces[0].data;
    assert (pieces + more)[0] == pieces[0] && (pieces + more)[1..] == pieces[1..] + more;
    if |pieces| == 1 {
      assert Sent(pieces[1..]) == [];
      assert buf + Sent(pieces) == all;
      WholeIs(all);
      if |buf| < LIMIT && !Whole(all) {
        assert Head(pieces[1..] + more, all) == (all, false) == Head(pieces[1..], all);
      }
    } else {
      assert buf + Sent(pieces) == all + Sent(pieces[1..]);
      ReadsNoMore(pieces[1..], more, all);
    }
  }

  /** The record a stream starts with is within what is ever read. */
  predicate Small(s: Bytes) {
    5 <= |s| && s[0] == 0x16 ==> 5 + U16(s, 3) <= 16384
  }

  lemma RecordCovered(head: Bytes, s: Bytes)
    requires head <= s && 5 <= |head| && head[0] == 0x16 && 5 + U16(head, 3) <= |head|
    ensures Name(head) == Name(s)
  {
    var rest := s[|head|..];
    assert s == head + rest;
    TrailingIgnored(head, rest);
  }

  /** A short start that is whole is no hello. */
  lemma NoHello(head: Bytes, s: Bytes)
    requires head <= s && Whole(head) && (|head| < 5 || head[0] != 0x16)
    ensures Name(head) == [] == Name(s)
  {
    var i :| 0 <= i <= |head| - 4 && head[i] == 13 && head[i + 1] == 10 && head[i + 2] == 13 && head[i + 3] == 10;
    assert s[0] == head[0];
  }

  /** The name in what was read is the name in what was sent. */
  lemma NameSurvives(pieces: seq<Read>)
    requires Small(Sent(pieces))
    ensures Name(Head(pieces, []).0) == Name(Sent(pieces))
  {
    var head, s := Head(pieces, []).0, Sent(pieces);
    HeadCovers(pieces, []);
    assert [] + s == s;
    SameName(head, s);
  }

  lemma SameName(head: Bytes, s: Bytes)
    requires head <= s && (head == s || LIMIT <= |head| || Whole(head)) && Small(s)
    ensures Name(head) == Name(s)
  {
    if head != s {
      if 5 <= |head| && head[0] == 0x16 {
        assert U16(head, 3) == U16(s, 3) && s[0] == head[0];
        RecordCovered(head, s);
      } else if Whole(head) {
        NoHello(head, s);
      } else {
        assert s[0] == head[0];
      }
    }
  }

  /** However a stream arrives, the name is the same. */
  lemma ChunksIrrelevant(a: seq<Read>, b: seq<Read>)
    requires Sent(a) == Sent(b) && Small(Sent(a))
    ensures Name(Head(a, []).0) == Name(Head(b, []).0)
  {
    NameSurvives(a);
    NameSurvives(b);
  }

  /** Even a record too large to be read whole never yields another name. */
  lemma NeverAnotherName(pieces: seq<Read>)
    ensures Name(Head(pieces, []).0) in {[], Name(Sent(pieces))}
  {
    HeadCovers(pieces, []);
    assert [] + Sent(pieces) == Sent(pieces);
    var head := Head(pieces, []).0;
    assert head == Sent(pieces)[..|head|];
    PrefixSafe(Sent(pieces), |head|);
  }

  /** From encoder to fence: a client's hello, in any pieces and with anything after it, gives its host name. */
  lemma HelloArrives(h: CH.Hello, before: seq<CH.Extension>, name: Bytes, after: seq<CH.Extension>, more: Bytes,
                     pieces: seq<Read>)
    requires CH.Fits(h) && |CH.Encode(h)| <= 16384
    requires h.extensions == before + [CH.ServerNames([CH.HostName(0, name)])] + after
    requires (forall i :: 0 <= i < |name| ==> name[i] < 128) && forall i :: 0 <= i < |before| ==> before[i].Other?
    requires Sent(pieces) == CH.Encode(h) + more
    ensures Name(Head(pieces, []).0) == name
  {
    CH.HelloNamed(h, before, name, after, 0, more);
    CH.WholeRecord(h);
    assert U16(Sent(pieces), 3) == U16(CH.Encode(h), 3);
    NameSurvives(pieces);
  }
}
