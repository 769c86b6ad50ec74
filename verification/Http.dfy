/**
 * HTTP/1.1 framing on a kept-alive connection (net/http.rs): heads, bodies by
 * length, chunked and up to the end, read through a buffer that the socket
 * fills in pieces of any size. How a head or a chunk's size line is read is a
 * parameter.
 */
module Http {
  import opened Options

  type Bytes = seq<int>

  const MAX_HEAD: nat := 65536
  const CRLF: Bytes := [13, 10]
  const HEAD_END: Bytes := [13, 10, 13, 10]

  // ------------------------------------------------------------------
  // Finding a terminator
  // ------------------------------------------------------------------

  predicate At(s: Bytes, i: nat, pat: Bytes) { i + |pat| <= |s| && s[i..i + |pat|] == pat }

  /** The first place of pat in s from i on. */
  function FindFrom(s: Bytes, pat: Bytes, i: nat): (r: Option<nat>)
    requires pat != []
    ensures r.Some? ==> i <= r.value && At(s, r.value, pat) && forall k | i <= k < r.value :: !At(s, k, pat)
    ensures r.None? ==> forall k | i <= k :: !At(s, k, pat)
    decreases |s| - i
  {
    if i + |pat| > |s| then None else if At(s, i, pat) then Some(i) else FindFrom(s, pat, i + 1)
  }

  function Find(s: Bytes, pat: Bytes): Option<nat>
    requires pat != []
  {
    FindFrom(s, pat, 0)
  }

  lemma AtPrefix(a: Bytes, b: Bytes, i: nat, pat: Bytes)
    requires i + |pat| <= |a|
    ensures At(a + b, i, pat) == At(a, i, pat)
  {
    assert (a + b)[i..i + |pat|] == a[i..i + |pat|];
  }

  /** What is found does not depend on what has not arrived. */
  lemma FindMore(a: Bytes, b: Bytes, pat: Bytes)
    requires pat != []
    ensures Find(a, pat).Some? ==> Find(a + b, pat) == Find(a, pat)
    ensures Find(a, pat).None? && Find(a + b, pat).Some? ==> Find(a + b, pat).value + |pat| > |a|
  {
    var r, w := Find(a, pat), Find(a + b, pat);
    if r.Some? {
      AtPrefix(a, b, r.value, pat);
      forall k | 0 <= k < r.value ensures !At(a + b, k, pat) { AtPrefix(a, b, k, pat); }
    } else if w.Some? && w.value + |pat| <= |a| {
      AtPrefix(a, b, w.value, pat);
    }
  }

  function Flat(incoming: seq<Bytes>): Bytes {
    if incoming == [] then [] else incoming[0] + Flat(incoming[1..])
  }

  // ------------------------------------------------------------------
  // Reference decoding of a whole stream
  // ------------------------------------------------------------------

  datatype Framing = Chunked | Length(n: nat) | ToEnd

  /** What a head says: the status, how the body is framed, and whether the server closes. */
  datatype Head = Head(status: nat, framing: Framing, close: bool)

  datatype Reader = Reader(head: Bytes -> Option<Head>, size: Bytes -> Option<nat>)

  predicate HasBody(status: nat) { !(100 <= status <= 199 || status == 204 || status == 304) }

  predicate Redirect(status: nat) { status in {301, 302, 303, 307, 308} }

  // A reader stops looking for a terminator that is not within MAX_HEAD bytes
  // once it has more than that; where it stops depends on the reads. So the
  // decodings have a limit: within MAX_HEAD a reader must succeed, and what it
  // gives is always a decoding without one.

  /** A line that ends within the limit, and what follows it. */
  function LineOf(s: Bytes, limit: nat): Option<(Bytes, Bytes)> {
    match Find(s, CRLF)
    case None => None
    case Some(i) => if i + 2 <= limit then Some((s[..i], s[i + 2..])) else None
  }

  lemma LineShorter(s: Bytes, limit: nat)
    ensures LineOf(s, limit).Some? ==> |LineOf(s, limit).value.1| < |s|
  {}

  /** Lines up to an empty one. */
  function Trailers(s: Bytes, limit: nat): Option<Bytes>
    decreases |s|
  {
    LineShorter(s, limit);
    match LineOf(s, limit)
    case None => None
    case Some((line, rest)) => if line == [] then Some(rest) else Trailers(rest, limit)
  }

  /** Section 7.1 of RFC 9112: a chunked body and what follows it. */
  function Dechunk(reader: Reader, s: Bytes, limit: nat): Option<(Bytes, Bytes)>
    decreases |s|
  {
    LineShorter(s, limit);
    match LineOf(s, limit)
    case None => None
    case Some((line, rest)) =>
      match reader.size(line)
      case None => None
      case Some(n) =>
        if n == 0 then (match Trailers(rest, limit) case None => None case Some(after) => Some(([], after)))
        else if n > |rest| then None
        else
          LineShorter(rest[n..], limit);
          match LineOf(rest[n..], limit)
          case None => None
          case Some((_, more)) =>
            match Dechunk(reader, more, limit)
            case None => None
            case Some((body, after)) => Some((rest[..n] + body, after))
  }

  /** A response's body and what follows it. */
  function BodyOf(reader: Reader, head: Head, s: Bytes, limit: nat): Option<(Bytes, Bytes)> {
    if !HasBody(head.status) then Some(([], s))
    else
      match head.framing
      case Chunked => Dechunk(reader, s, limit)
      case Length(n) => if n <= |s| then Some((s[..n], s[n..])) else None
      case ToEnd => Some((s, []))
  }

  /** A whole response: its head, its body as the caller's sink gets it, and what follows. */
  function ResponseOf(reader: Reader, s: Bytes, limit: nat): Option<(Head, Bytes, Bytes)> {
    match Find(s, HEAD_END)
    case None => None
    case Some(i) =>
      if i + 4 > limit then None
      else
        match reader.head(s[..i])
        case None => None
        case Some(head) =>
          match BodyOf(reader, head, s[i + 4..], limit)
          case None => None
          case Some((body, after)) => Some((head, if Redirect(head.status) then [] else body, after))
  }

  // ------------------------------------------------------------------
  // The connection
  // ------------------------------------------------------------------

  class Connection {
    const reader: Reader
    /** Bytes received and not yet used, and the pieces to come. */
    var buf: Bytes
    var incoming: seq<Bytes>
    var closing: bool

    constructor (reader: Reader, incoming: seq<Bytes>)
      requires forall r | r in incoming :: r != []
      ensures Valid() && this.reader == reader && Rest() == Flat(incoming) && !closing
    {
      this.reader, this.incoming, this.buf, this.closing := reader, incoming, [], false;
    }

    ghost predicate Valid()
      reads this
    {
      forall r | r in incoming :: r != []
    }

    /** Everything the server will have sent that no response has used. */
    ghost function Rest(): Bytes
      reads this
    {
      buf + Flat(incoming)
    }

    /** Reads more bytes into the buffer; none at the end of the connection. */
    method Fill() returns (n: nat)
      requires Valid()
      modifies this`buf, this`incoming
      ensures Valid() && Rest() == old(Rest())
      ensures n == 0 ==> incoming == [] && buf == old(buf)
      ensures n > 0 ==> |incoming| < old(|incoming|) && |buf| > old(|buf|) && old(buf) <= buf
    {
      if incoming == [] {
        return 0;
      }
      assert incoming[0] in incoming;
      assert forall r | r in incoming[1..] :: r in incoming;
      n := |incoming[0]|;
      buf := buf + incoming[0];
      incoming := incoming[1..];
    }

    /** The bytes before a terminator, which is used up; None when it is missing or too far. */
    method Until(pat: Bytes) returns (r: Option<Bytes>)
      requires Valid() && pat != [] && |pat| <= MAX_HEAD
      modifies this`buf, this`incoming
      ensures Valid()
      ensures r.Some? ==> Find(old(Rest()), pat) == Some(|r.value|) && r.value == old(Rest())[..|r.value|] && Rest() == old(Rest())[|r.value| + |pat|..]
      ensures r.None? ==> Rest() == old(Rest()) && (Find(old(Rest()), pat).None? || Find(old(Rest()), pat).value + |pat| > MAX_HEAD)
    {
      hide FindFrom;
      ghost var whole := Rest();
      while true
        invariant Valid() && Rest() == whole
        decreases |incoming|
      {
        FindMore(buf, Flat(incoming), pat);
        var i := Find(buf, pat);
        if i.Some? {
          FindIn(buf, pat);
          var end := i.value;
          r := Some(buf[..end]);
          ghost var before := buf;
          buf := buf[end + |pat|..];
          assert before[..end] == whole[..end];
          assert Rest() == whole[end + |pat|..];
          return;
        }
        if |buf| > MAX_HEAD {
          return None;
        }
        var n := Fill();
        if n == 0 {
          assert whole == buf + [];
          assert buf + [] == buf;
          return None;
        }
      }
    }

    /** Hands n bytes to the sink. */
    method Exact(n: nat) returns (ok: bool, out: Bytes)
      requires Valid()
      modifies this`buf, this`incoming
      ensures Valid() && ok == (n <= |old(Rest())|)
      ensures ok ==> out == old(Rest())[..n] && Rest() == old(Rest())[n..]
    {
      ghost var whole := Rest();
      var left: nat := n;
      out := [];
      while left > 0
        invariant Valid() && left <= n && |out| == n - left <= |whole|
        invariant whole == out + Rest()
        decreases left, |incoming|
      {
        if buf == [] {
          var got := Fill();
          if got == 0 {
            assert Rest() == [];
            return false, out;
          }
        }
        var take := if |buf| < left then |buf| else left;
        Shift(out, buf, Flat(incoming), take);
        out := out + buf[..take];
        buf := buf[take..];
        left := left - take;
      }
      ok := true;
      CutAt(out, Rest());
    }

    /** A line: any within the limit; on an error nothing is used. */
    method Line() returns (r: Option<Bytes>)
      requires Valid()
      modifies this`buf, this`incoming
      ensures Valid()
      ensures r.Some? ==> LineOf(old(Rest()), |old(Rest())|) == Some((r.value, Rest())) && |Rest()| < old(|Rest()|)
      ensures r.None? ==> LineOf(old(Rest()), MAX_HEAD).None? && Rest() == old(Rest())
    {
      r := Until(CRLF);
    }

    /** Lines up to an empty one. */
    method SkipTrailers(ghost limit: nat) returns (ok: bool)
      requires Valid() && |Rest()| <= limit
      modifies this`buf, this`incoming
      ensures Valid()
      ensures ok ==> Trailers(old(Rest()), limit) == Some(Rest())
      ensures Trailers(old(Rest()), MAX_HEAD).Some? ==> ok && Trailers(old(Rest()), MAX_HEAD) == Some(Rest())
    {
      hide LineOf;
      ghost var strict, lax := Trailers(Rest(), MAX_HEAD), Trailers(Rest(), limit);
      while true
        invariant Valid() && |Rest()| <= limit
        invariant Trailers(Rest(), limit) == lax && (strict.Some? ==> Trailers(Rest(), MAX_HEAD) == strict)
        decreases |Rest()|
      {
        ghost var s := Rest();
        var line := Line();
        LineLimits(s, limit);
        if line.None? {
          return false;
        }
        if line.value == [] {
          return true;
        }
      }
    }

    /**
     * Hands a chunked body to the sink. What it accepts is a chunked body, and
     * what is one with every line within the limit is accepted.
     */
    method ReadChunks() returns (ok: bool, out: Bytes)
      requires Valid()
      modifies this`buf, this`incoming
      ensures Valid()
      ensures ok ==> Dechunk(reader, old(Rest()), |old(Rest())|) == Some((out, Rest()))
      ensures Dechunk(reader, old(Rest()), MAX_HEAD).Some? ==> ok && Dechunk(reader, old(Rest()), MAX_HEAD) == Some((out, Rest()))
    {
      hide LineOf, Trailers, Dechunk;
      out := [];
      ghost var limit := |Rest()|;
      ghost var strict, lax := Dechunk(reader, Rest(), MAX_HEAD), Dechunk(reader, Rest(), limit);
      assert strict.Some? ==> [] + strict.value.0 == strict.value.0;
      assert lax.Some? ==> [] + lax.value.0 == lax.value.0;
      while true
        invariant Valid() && |Rest()| <= limit
        invariant Needs(strict, out, Dechunk(reader, Rest(), MAX_HEAD)) && Allows(lax, out, Dechunk(reader, Rest(), limit))
        decreases |Rest()|
      {
        ghost var s := Rest();
        Stops(reader, s, MAX_HEAD);
        var line := Line();
        LineLimits(s, limit);
        if line.None? {
          return false, out;
        }
        var size := reader.size(line.value);
        if size.None? {
          return false, out;
        }
        ghost var text, rest := line.value, Rest();
        if size.value == 0 {
          assert out + [] == out;
          ok := SkipTrailers(limit);
          LastChunk(reader, s, text, rest, limit);
          return;
        }
        var whole, piece := Exact(size.value);
        if !whole {
          return false, out;
        }
        LineLimits(Rest(), limit);
        line := Line();
        if line.None? {
          return false, out;
        }
        Advance(reader, s, text, rest, size.value, Rest(), strict, out, MAX_HEAD);
        Advance(reader, s, text, rest, size.value, Rest(), lax, out, limit);
        out := out + piece;
      }
    }

    /** Hands everything up to the end of the connection to the sink. */
    method UntilClosed() returns (out: Bytes)
      requires Valid()
      modifies this
      ensures Valid() && out == old(Rest()) && Rest() == [] && closing
    {
      closing := true;
      out := [];
      ghost var whole := Rest();
      while true
        invariant Valid() && closing && whole == out + Rest()
        decreases |incoming|
      {
        Shift(out, buf, Flat(incoming), |buf|);
        out := out + buf;
        buf := [];
        assert [] + Flat(incoming) == Flat(incoming);
        var n := Fill();
        if n == 0 {
          assert Rest() == [];
          return;
        }
      }
    }

    /**
     * One request's answer: its head, and its body for the sink (a redirect's
     * is dropped). However the bytes arrived, the sink gets exactly the body
     * and exactly the bytes after the response are left; an error means that
     * no response is there, or not within the limit.
     */
    method Get() returns (head: Option<Head>, out: Bytes)
      requires Valid()
      modifies this
      ensures Valid()
      ensures head.Some? ==> ResponseOf(reader, old(Rest()), |old(Rest())|) == Some((head.value, out, Rest()))
      ensures ResponseOf(reader, old(Rest()), MAX_HEAD).Some? ==>
        head.Some? && ResponseOf(reader, old(Rest()), MAX_HEAD) == Some((head.value, out, Rest()))
      ensures head.Some? ==>
        (closing <==>
           || head.value.close
           || (head.value.framing == ToEnd && !(100 <= head.value.status < 200) && head.value.status != 204 && head.value.status != 304))
    {
      hide Dechunk, FindFrom;
      out := [];
      ghost var whole := Rest();
      var text := Until(HEAD_END);
      if text.None? {
        return None, [];
      }
      head := reader.head(text.value);
      if head.None? {
        return None, [];
      }
      closing := head.value.close;
      if HasBody(head.value.status) {
        var ok: bool;
        match head.value.framing {
          case Chunked =>
            ghost var rest := Rest();
            ok, out := ReadChunks();
            if ok { LimitEnough(reader, rest, |rest|, |whole|); }
          case Length(n) => ok, out := Exact(n);
          case ToEnd => out := UntilClosed(); ok := true;
        }
        if !ok {
          return None, out;
        }
        if Redirect(head.value.status) {
          out := [];
        }
      }
    }
  }

  type Decoded = Option<(Bytes, Bytes)>

  /** If the whole decodes, then what is left does, to the rest of it. */
  predicate Needs(whole: Decoded, out: Bytes, left: Decoded) {
    whole.Some? ==> left.Some? && whole.value == (out + left.value.0, left.value.1)
  }

  /** If what is left decodes, then the whole does, to what is out and that. */
  predicate Allows(whole: Decoded, out: Bytes, left: Decoded) {
    left.Some? ==> whole == Some((out + left.value.0, left.value.1))
  }

  /** What a chunked body needs at its start. */
  lemma Stops(reader: Reader, s: Bytes, limit: nat)
    ensures Dechunk(reader, s, limit).Some? ==>
      LineOf(s, limit).Some? && var (line, rest) := LineOf(s, limit).value;
      reader.size(line).Some? && var n := reader.size(line).value;
      if n == 0 then Trailers(rest, limit).Some? && Dechunk(reader, s, limit) == Some(([], Trailers(rest, limit).value))
      else n <= |rest| && LineOf(rest[n..], limit).Some?
  {
    hide LineOf, Trailers;
  }

  lemma LastChunk(reader: Reader, s: Bytes, line: Bytes, rest: Bytes, limit: nat)
    requires LineOf(s, limit) == Some((line, rest)) && reader.size(line) == Some(0)
    ensures Trailers(rest, limit).Some? ==> Dechunk(reader, s, limit) == Some(([], Trailers(rest, limit).value))
  {
    hide LineOf, Trailers;
  }

  lemma Advance(reader: Reader, s: Bytes, line: Bytes, rest: Bytes, n: nat, more: Bytes, whole: Decoded, out: Bytes, limit: nat)
    requires LineOf(s, |s|) == Some((line, rest)) && reader.size(line) == Some(n) && 0 < n <= |rest|
    requires LineOf(rest[n..], |rest[n..]|).Some? && LineOf(rest[n..], |rest[n..]|).value.1 == more
    ensures Needs(whole, out, Dechunk(reader, s, limit)) ==> Needs(whole, out + rest[..n], Dechunk(reader, more, limit))
    ensures |s| <= limit && Allows(whole, out, Dechunk(reader, s, limit)) ==> Allows(whole, out + rest[..n], Dechunk(reader, more, limit))
  {
    hide LineOf, Trailers;
    LineOnce(s, limit);
    LineOnce(rest[n..], limit);
    LineShorter(s, |s|);
    var d := Dechunk(reader, more, limit);
    assert d.Some? ==> (out + rest[..n]) + d.value.0 == out + (rest[..n] + d.value.0);
  }

  /** A line within the limit is the line. */
  lemma LineOnce(s: Bytes, limit: nat)
    ensures LineOf(s, limit).Some? ==> LineOf(s, limit) == LineOf(s, |s|)
    ensures |s| <= limit ==> LineOf(s, limit) == LineOf(s, |s|)
  {}

  lemma LineLimits(s: Bytes, limit: nat)
    ensures |s| <= limit ==> LineOf(s, limit) == LineOf(s, |s|)
    ensures LineOf(s, MAX_HEAD).Some? ==> LineOf(s, MAX_HEAD) == LineOf(s, |s|)
  {
    LineOnce(s, limit);
    LineOnce(s, MAX_HEAD);
  }

  lemma {:induction false} TrailersEnough(s: Bytes, a: nat, b: nat)
    requires |s| <= a && |s| <= b
    ensures Trailers(s, a) == Trailers(s, b)
    decreases |s|
  {
    hide LineOf;
    LineLimits(s, a);
    LineLimits(s, b);
    LineShorter(s, a);
    if LineOf(s, a).Some? {
      TrailersEnough(LineOf(s, a).value.1, a, b);
    }
  }

  /** A limit of all there is, is none. */
  lemma {:induction false} LimitEnough(reader: Reader, s: Bytes, a: nat, b: nat)
    requires |s| <= a && |s| <= b
    ensures Dechunk(reader, s, a) == Dechunk(reader, s, b)
    decreases |s|
  {
    hide LineOf, Trailers;
    LineLimits(s, a);
    LineLimits(s, b);
    LineShorter(s, a);
    if LineOf(s, a).Some? {
      var (line, rest) := LineOf(s, a).value;
      TrailersEnough(rest, a, b);
      if reader.size(line).Some? && 0 < reader.size(line).value <= |rest| {
        var data := rest[reader.size(line).value..];
        LineLimits(data, a);
        LineLimits(data, b);
        LineShorter(data, a);
        if LineOf(data, a).Some? {
          LimitEnough(reader, LineOf(data, a).value.1, a, b);
        }
      }
    }
  }

  lemma Shift(out: Bytes, buf: Bytes, more: Bytes, take: nat)
    requires take <= |buf|
    ensures out + (buf + more) == (out + buf[..take]) + (buf[take..] + more)
  {}

  lemma CutAt(a: Bytes, b: Bytes)
    ensures (a + b)[..|a|] == a && (a + b)[|a|..] == b
  {}

  lemma FindIn(s: Bytes, pat: Bytes)
    requires pat != [] && Find(s, pat).Some?
    ensures Find(s, pat).value + |pat| <= |s|
  {}

  // ------------------------------------------------------------------
  // Well-formed responses
  // ------------------------------------------------------------------

  /** A line that ends at its first CRLF, within the limit. */
  predicate Plain(line: Bytes) { Find(line + CRLF, CRLF) == Some(|line|) && |line| + 2 <= MAX_HEAD }

  datatype Chunk = Chunk(line: Bytes, data: Bytes)

  predicate ChunkOk(reader: Reader, c: Chunk) {
    Plain(c.line) && |c.data| > 0 && reader.size(c.line) == Some(|c.data|)
  }

  function EncodeTrailers(trailers: seq<Bytes>): Bytes {
    if trailers == [] then CRLF else trailers[0] + CRLF + EncodeTrailers(trailers[1..])
  }

  function EncodeChunks(chunks: seq<Chunk>, last: Bytes, trailers: seq<Bytes>): Bytes {
    if chunks == [] then last + CRLF + EncodeTrailers(trailers)
    else chunks[0].line + CRLF + chunks[0].data + CRLF + EncodeChunks(chunks[1..], last, trailers)
  }

  function Data(chunks: seq<Chunk>): Bytes {
    if chunks == [] then [] else chunks[0].data + Data(chunks[1..])
  }

  lemma PlainLine(line: Bytes, tail: Bytes)
    requires Plain(line)
    ensures LineOf(line + CRLF + tail, MAX_HEAD) == Some((line, tail))
  {
    hide FindFrom;
    FindMore(line + CRLF, tail, CRLF);
    var s := line + CRLF + tail;
    assert s[..|line|] == line && s[|line| + 2..] == tail;
  }

  lemma EmptyLine(tail: Bytes)
    ensures LineOf(CRLF + tail, MAX_HEAD) == Some(([], tail))
  {
    assert At([] + CRLF, 0, CRLF);
    assert [] + CRLF + tail == CRLF + tail;
    PlainLine([], tail);
  }

  lemma {:induction false} TrailersEncode(trailers: seq<Bytes>, tail: Bytes)
    requires forall t | t in trailers :: Plain(t) && t != []
    ensures Trailers(EncodeTrailers(trailers) + tail, MAX_HEAD) == Some(tail)
    decreases |trailers|
  {
    hide LineOf, Plain;
    if trailers == [] {
      EmptyLine(tail);
    } else {
      assert trailers[0] in trailers;
      var rest := EncodeTrailers(trailers[1..]) + tail;
      assert EncodeTrailers(trailers) + tail == trailers[0] + CRLF + rest;
      PlainLine(trailers[0], rest);
      TrailersEncode(trailers[1..], tail);
    }
  }

  /** Section 7.1 of RFC 9112: a chunked body decodes to its data, whatever its extensions and trailers. */
  lemma {:induction false} DechunkEncode(reader: Reader, chunks: seq<Chunk>, last: Bytes, trailers: seq<Bytes>, tail: Bytes)
    requires (forall c | c in chunks :: ChunkOk(reader, c)) && Plain(last) && reader.size(last) == Some(0)
    requires forall t | t in trailers :: Plain(t) && t != []
    ensures Dechunk(reader, EncodeChunks(chunks, last, trailers) + tail, MAX_HEAD) == Some((Data(chunks), tail))
    decreases |chunks|
  {
    hide LineOf, Plain, Trailers;
    if chunks == [] {
      var rest := EncodeTrailers(trailers) + tail;
      assert EncodeChunks(chunks, last, trailers) + tail == last + CRLF + rest;
      PlainLine(last, rest);
      TrailersEncode(trailers, tail);
    } else {
      var c := chunks[0];
      assert c in chunks;
      var more := EncodeChunks(chunks[1..], last, trailers) + tail;
      var rest := c.data + (CRLF + more);
      assert EncodeChunks(chunks, last, trailers) + tail == c.line + CRLF + rest;
      PlainLine(c.line, rest);
      CutAt(c.data, CRLF + more);
      EmptyLine(more);
      DechunkEncode(reader, chunks[1..], last, trailers, tail);
      DechunkStep(reader, c.line + CRLF + rest, c.line, rest, |c.data|, more);
    }
  }

  /** One chunk further. */
  lemma DechunkStep(reader: Reader, s: Bytes, line: Bytes, rest: Bytes, n: nat, more: Bytes)
    requires LineOf(s, MAX_HEAD) == Some((line, rest)) && reader.size(line) == Some(n) && 0 < n <= |rest|
    requires LineOf(rest[n..], MAX_HEAD).Some? && LineOf(rest[n..], MAX_HEAD).value.1 == more
    ensures Dechunk(reader, more, MAX_HEAD).Some? ==>
      Dechunk(reader, s, MAX_HEAD) == Some((rest[..n] + Dechunk(reader, more, MAX_HEAD).value.0, Dechunk(reader, more, MAX_HEAD).value.1))
  {
    hide LineOf;
  }

  datatype Body = ByLength(data: Bytes) | InChunks(chunks: seq<Chunk>, last: Bytes, trailers: seq<Bytes>) | NoBody

  /** A response as a server sends it. */
  datatype Answer = Answer(text: Bytes, head: Head, body: Body)

  /** A response that the client can frame by itself; whether it has a body is for its status to say. */
  predicate AnswerOk(reader: Reader, a: Answer) {
    && Find(a.text + HEAD_END, HEAD_END) == Some(|a.text|) && |a.text| + 4 <= MAX_HEAD
    && reader.head(a.text) == Some(a.head)
    && match a.body
       case NoBody => 100 <= a.head.status < 200 || a.head.status == 204 || a.head.status == 304
       case ByLength(data) => 200 <= a.head.status && a.head.status != 204 && a.head.status != 304 && a.head.framing == Length(|data|)
       case InChunks(chunks, last, trailers) =>
         && 200 <= a.head.status && a.head.status != 204 && a.head.status != 304 && a.head.framing == Chunked
         && (forall c | c in chunks :: ChunkOk(reader, c)) && Plain(last) && reader.size(last) == Some(0)
         && (forall t | t in trailers :: Plain(t) && t != [])
  }

  function EncodeBody(b: Body): Bytes {
    match b
    case NoBody => []
    case ByLength(data) => data
    case InChunks(chunks, last, trailers) => EncodeChunks(chunks, last, trailers)
  }

  function BodyData(b: Body): Bytes {
    match b
    case NoBody => []
    case ByLength(data) => data
    case InChunks(chunks, _, _) => Data(chunks)
  }

  /** What the sink gets of it: its data, or nothing of a redirect's. */
  function Delivered(a: Answer): Bytes {
    if a.head.status in {301, 302, 303, 307, 308} then [] else BodyData(a.body)
  }

  function Encode(a: Answer): Bytes { a.text + HEAD_END + EncodeBody(a.body) }

  /** Section 6.3 of RFC 9112: a response decodes to its own body, and leaves what follows it. */
  lemma ResponseEncode(reader: Reader, a: Answer, tail: Bytes)
    requires AnswerOk(reader, a)
    ensures ResponseOf(reader, Encode(a) + tail, MAX_HEAD) == Some((a.head, Delivered(a), tail))
  {
    hide FindFrom, Dechunk, Plain;
    var rest := EncodeBody(a.body) + tail;
    var s := a.text + HEAD_END + rest;
    assert Encode(a) + tail == s;
    FindMore(a.text + HEAD_END, rest, HEAD_END);
    assert s[..|a.text|] == a.text && s[|a.text| + 4..] == rest;
    match a.body
    case NoBody => assert [] + tail == tail;
    case ByLength(data) => CutAt(data, tail);
    case InChunks(chunks, last, trailers) => DechunkEncode(reader, chunks, last, trailers, tail);
  }

  function EncodeAll(answers: seq<Answer>): Bytes {
    if answers == [] then [] else Encode(answers[0]) + EncodeAll(answers[1..])
  }

  /**
   * Any number of well-formed responses on one kept-alive connection, cut into
   * reads in any way: each get hands over exactly its own body, and what
   * follows the last response is left.
   */
  method GetAll(c: Connection, answers: seq<Answer>, ghost tail: Bytes) returns (bodies: seq<Bytes>)
    requires c.Valid() && c.Rest() == EncodeAll(answers) + tail && forall a | a in answers :: AnswerOk(c.reader, a)
    modifies c
    ensures c.Valid() && c.Rest() == tail && |bodies| == |answers|
    ensures forall i | 0 <= i < |answers| :: bodies[i] == Delivered(answers[i])
  {
    hide Encode, AnswerOk, ResponseOf;
    bodies := [];
    assert answers[0..] == answers;
    for i := 0 to |answers|
      invariant c.Valid() && c.Rest() == EncodeAll(answers[i..]) + tail && |bodies| == i
      invariant forall j | 0 <= j < i :: bodies[j] == Delivered(answers[j])
    {
      assert answers[i] in answers;
      ghost var rest := EncodeAll(answers[i + 1..]) + tail;
      assert answers[i..][1..] == answers[i + 1..];
      assert c.Rest() == Encode(answers[i]) + rest;
      ResponseEncode(c.reader, answers[i], rest);
      var _, body := c.Get();
      bodies := bodies + [body];
    }
    assert [] + tail == tail;
  }
}
