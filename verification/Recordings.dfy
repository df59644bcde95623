// Recorded and replayed HTTP exchanges: tools/catalogues/_recording.py.
module Recordings {
  import opened Wrappers
  import Utf8
  import Base64

  type Bytes = seq<Utf8.Byte>

  // ------------------------------------------------------------------ bodies

  /** A stored body: its text, or base 64 when it is not UTF-8. */
  datatype Body = Text(text: string) | InBase64(text: string)

  function EncodeBody(content: Bytes): Body {
    match Utf8.Decode(content)
    case Some(text) => Text(text)
    case None => InBase64(Base64.Encode(content))
  }

  /** `None` stands for base 64 that does not decode. */
  function DecodeBody(body: Body): Option<Bytes> {
    match body
    case Text(text) => Some(Utf8.Encode(text))
    case InBase64(text) => Base64.Decode(text)
  }

  /** Every byte string comes back from its record. */
  lemma BodyRoundTrip(content: Bytes)
    ensures DecodeBody(EncodeBody(content)) == Some(content)
  {
    if Utf8.Decode(content).Some? { Utf8.DecodedEncodes(content); } else { Base64.RoundTrip(content); }
  }

  /** A body is stored as text exactly when it is the encoding of some text. */
  lemma TextExactlyWhenUtf8(content: Bytes)
    ensures EncodeBody(content).Text? <==> exists text :: Utf8.Encode(text) == content
  {
    if EncodeBody(content).Text? { Utf8.DecodedEncodes(content); }
    if text :| Utf8.Encode(text) == content { Utf8.EncodedDecodes(text); }
  }

  // ------------------------------------------------------------------ keys

  datatype Request = Request(verb: string, url: string, body: Bytes)

  /** `str.upper` on the letters HTTP methods use. */
  function Upper(text: string): (upper: string)
    ensures |upper| == |text|
  {
    seq(|text|, i requires 0 <= i < |text| =>
      if 'a' <= text[i] <= 'z' then (text[i] as int - 'a' as int + 'A' as int) as char else text[i])
  }

  /** What is hashed. */
  function Frame(r: Request): Bytes {
    Utf8.Encode(Upper(r.verb)) + [0] + (Utf8.Encode(r.url) + [0] + r.body)
  }

  /** The hash, in hexadecimal, and the readable part of a file name. */
  datatype Naming = Naming(digest: Bytes -> string, slug: string -> string)

  datatype Path = Path(slug: string, prefix: string)

  function Shortened(digest: string): string {
    if |digest| < 12 then digest else digest[..12]
  }

  function PathOf(n: Naming, r: Request): Path {
    Path(n.slug(r.url), Shortened(n.digest(Frame(r))))
  }

  /** The same method but for its case, URL and body. */
  predicate Same(a: Request, b: Request) {
    Upper(a.verb) == Upper(b.verb) && a.url == b.url && a.body == b.body
  }

  predicate WithoutNul(r: Request) {
    '\0' !in r.verb && '\0' !in r.url
  }

  lemma FirstNulSplits(a: Bytes, x: Bytes, b: Bytes, y: Bytes)
    requires 0 !in a && 0 !in b && a + [0] + x == b + [0] + y
    ensures a == b && x == y
  {
    var all := a + [0] + x;
    assert all[|a|] == 0 && (b + [0] + y)[|b|] == 0;
    assert all[..|a|] == a && (b + [0] + y)[..|b|] == b;
    assert all[|a| + 1..] == x && (b + [0] + y)[|b| + 1..] == y;
  }

  lemma UpperWithoutNul(text: string)
    requires '\0' !in text
    ensures '\0' !in Upper(text)
  {}

  /** Without NUL in the method and the URL, two requests are hashed alike exactly when they are the same. */
  lemma FramesAreInjective(a: Request, b: Request)
    requires WithoutNul(a) && WithoutNul(b)
    ensures Frame(a) == Frame(b) <==> Same(a, b)
  {
    if Frame(a) == Frame(b) {
      UpperWithoutNul(a.verb);
      UpperWithoutNul(b.verb);
      Utf8.EncodeWithoutNul(Upper(a.verb));
      Utf8.EncodeWithoutNul(Upper(b.verb));
      Utf8.EncodeWithoutNul(a.url);
      Utf8.EncodeWithoutNul(b.url);
      FirstNulSplits(Utf8.Encode(Upper(a.verb)), Utf8.Encode(a.url) + [0] + a.body,
                     Utf8.Encode(Upper(b.verb)), Utf8.Encode(b.url) + [0] + b.body);
      FirstNulSplits(Utf8.Encode(a.url), a.body, Utf8.Encode(b.url), b.body);
      Utf8.EncodeInjective(Upper(a.verb), Upper(b.verb));
      Utf8.EncodeInjective(a.url, b.url);
    }
  }

  /** With NUL in the URL they can be hashed alike and differ. */
  lemma FramesCollide()
    ensures var a, b := Request("A", "b\0c", []), Request("A", "b", [99, 0]);
            Frame(a) == Frame(b) && !Same(a, b)
  {
    var a, b := Request("A", "b\0c", []), Request("A", "b", [99, 0]);
    assert "b\0c"[1..] == "\0c" && "\0c"[1..] == "c" && "c"[1..] == "" && "b"[1..] == "";
    assert Utf8.Encode("c") == [99];
    assert Utf8.Encode("\0c") == [0, 99];
    assert Utf8.Encode("b\0c") == [98, 0, 99] && Utf8.Encode("b") == [98];
    assert Utf8.Encode(a.url) + [0] + a.body == Utf8.Encode(b.url) + [0] + b.body;
  }

  /** Letters become capitals; every other character stays. */
  lemma UpperTells(text: string, i: nat, n: nat)
    requires i < |text| && n < 26
    ensures var small, capital := "abcdefghijklmnopqrstuvwxyz", "ABCDEFGHIJKLMNOPQRSTUVWXYZ";
            && (text[i] == small[n] ==> Upper(text)[i] == capital[n])
            && (text[i] !in small ==> Upper(text)[i] == text[i])
  {
    var small, capital := "abcdefghijklmnopqrstuvwxyz", "ABCDEFGHIJKLMNOPQRSTUVWXYZ";
    assert small[n] == ('a' as int + n) as char && capital[n] == ('A' as int + n) as char;
    if 'a' <= text[i] <= 'z' { assert small[text[i] as int - 'a' as int] == text[i]; }
  }

  /** Two requests share a file name exactly when their URLs read alike in it and their hashes agree in the first twelve
      digits. */
  lemma PathsAgree(n: Naming, a: Request, b: Request)
    requires |n.digest(Frame(a))| >= 12 && |n.digest(Frame(b))| >= 12
    ensures PathOf(n, a) == PathOf(n, b) <==>
              && n.slug(a.url) == n.slug(b.url)
              && forall i :: 0 <= i < 12 ==> n.digest(Frame(a))[i] == n.digest(Frame(b))[i]
  {
    var x, y := n.digest(Frame(a)), n.digest(Frame(b));
    assert forall i :: 0 <= i < 12 ==> x[..12][i] == x[i] && y[..12][i] == y[i];
  }

  // ------------------------------------------------------------------ recording and replaying

  datatype Header = Header(name: string, value: string)

  datatype Response = Response(status: int, headers: seq<Header>, content: Bytes)

  /** A stored exchange. */
  datatype Record = Record(verb: string, url: string, status: int, headers: seq<Header>, body: Body)

  function Lower(text: string): string {
    seq(|text|, i requires 0 <= i < |text| =>
      if 'A' <= text[i] <= 'Z' then (text[i] as int - 'A' as int + 'a' as int) as char else text[i])
  }

  /** Only the content type is kept. */
  function KeptHeaders(headers: seq<Header>): seq<Header> {
    if headers == [] then []
    else
      var last := headers[|headers| - 1];
      KeptHeaders(headers[..|headers| - 1]) + if Lower(last.name) == "content-type" then [last] else []
  }

  /** A header that names the content type, in capitals or not. */
  predicate NamesContentType(h: Header) {
    && |h.name| == 12
    && forall i :: 0 <= i < 12 ==> h.name[i] == "content-type"[i] || h.name[i] == "CONTENT-TYPE"[i]
  }

  lemma LowerNames(h: Header)
    ensures Lower(h.name) == "content-type" <==> NamesContentType(h)
  {
    var name, small, capital := h.name, "content-type", "CONTENT-TYPE";
    if |name| == 12 {
      forall i | 0 <= i < 12 ensures Lower(name)[i] == small[i] <==> name[i] == small[i] || name[i] == capital[i] {}
      assert Lower(name) == small <==> forall i :: 0 <= i < 12 ==> Lower(name)[i] == small[i];
    }
  }

  /** The headers at these places. */
  predicate HeadersAt(headers: seq<Header>, at: seq<nat>, kept: seq<Header>) {
    && |at| == |kept| && (forall j :: 0 <= j < |at| ==> at[j] < |headers| && kept[j] == headers[at[j]])
    && (forall j, k :: 0 <= j < k < |at| ==> at[j] < at[k])
  }

  lemma KeptNext(headers: seq<Header>)
    requires headers != []
    ensures var last := headers[|headers| - 1];
            KeptHeaders(headers) ==
              KeptHeaders(headers[..|headers| - 1]) + if NamesContentType(last) then [last] else []
  {
    LowerNames(headers[|headers| - 1]);
  }

  /** What is kept is every header that names the content type and no other, in order: `at` lists their places. */
  lemma {:induction false} KeptHeadersAre(headers: seq<Header>) returns (at: seq<nat>)
    ensures HeadersAt(headers, at, KeptHeaders(headers))
    ensures forall i: nat :: i in at <==> i < |headers| && NamesContentType(headers[i])
  {
    if headers == [] {
      at := [];
    } else {
      var n := |headers| - 1;
      at := KeptHeadersAre(headers[..n]);
      KeptNext(headers);
      hide KeptHeaders, NamesContentType;
      if NamesContentType(headers[n]) { at := at + [n]; }
    }
  }

  function RecordOf(r: Request, response: Response): Record {
    Record(r.verb, r.url, response.status, KeptHeaders(response.headers), EncodeBody(response.content))
  }

  type Files = map<Path, Record>

  /** Writes what came back, and passes it on. */
  class RecordTransport {
    const naming: Naming
    var files: Files
    var recorded: set<Path>

    constructor (naming: Naming, files: Files)
      ensures this.naming == naming && this.files == files && recorded == {}
    {
      this.naming, this.files, recorded := naming, files, {};
    }

    /** `response` is what the inner transport answered. */
    method HandleRequest(request: Request, response: Response) returns (answer: Response)
      modifies this
      ensures files == old(files)[PathOf(naming, request) := RecordOf(request, response)]
      ensures recorded == old(recorded) + {PathOf(naming, request)}
      ensures answer == response
    {
      var path := PathOf(naming, request);
      files := files[path := RecordOf(request, response)];
      recorded := recorded + {path};
      answer := response;
    }
  }

  /** Answers from recordings only; `None` is a miss, or a record whose body does not decode. */
  function Replay(n: Naming, files: Files, r: Request): Option<Response> {
    if PathOf(n, r) !in files then None
    else
      var record := files[PathOf(n, r)];
      match DecodeBody(record.body)
      case None => None
      case Some(content) => Some(Response(record.status, record.headers, content))
  }

  datatype Exchange = Exchange(request: Request, response: Response)

  /** The files after these exchanges, recorded in order. */
  function RecordAll(n: Naming, files: Files, exchanges: seq<Exchange>): Files {
    if exchanges == [] then files
    else
      var last := exchanges[|exchanges| - 1];
      var before := RecordAll(n, files, exchanges[..|exchanges| - 1]);
      before[PathOf(n, last.request) := RecordOf(last.request, last.response)]
  }

  /** What the last exchange of this request brought. */
  function LastFor(exchanges: seq<Exchange>, r: Request): Option<Response> {
    if exchanges == [] then None
    else
      var last := exchanges[|exchanges| - 1];
      if Same(last.request, r) then Some(last.response) else LastFor(exchanges[..|exchanges| - 1], r)
  }

  /** No recorded request shares the file name of `r` by chance: the shortened hashes of the two differ, or the hashed
      bytes are the same. */
  predicate NoCollision(n: Naming, exchanges: seq<Exchange>, r: Request) {
    forall i :: 0 <= i < |exchanges| && PathOf(n, exchanges[i].request) == PathOf(n, r) ==>
      Frame(exchanges[i].request) == Frame(r)
  }

  lemma SamePath(n: Naming, a: Request, b: Request)
    requires WithoutNul(a) && WithoutNul(b) && (PathOf(n, a) == PathOf(n, b) ==> Frame(a) == Frame(b))
    ensures PathOf(n, a) == PathOf(n, b) <==> Same(a, b)
  {
    FramesAreInjective(a, b);
  }

  /** After any recordings over any files, a replay answers what the last recording of that request brought, its status
      and body whole and its content type; for a request not recorded since, it answers what it did before. */
  lemma {:induction false} ReplaysTheLast(n: Naming, files: Files, exchanges: seq<Exchange>, r: Request)
    requires NoCollision(n, exchanges, r) && WithoutNul(r)
    requires forall i :: 0 <= i < |exchanges| ==> WithoutNul(exchanges[i].request)
    ensures var replayed, last := Replay(n, RecordAll(n, files, exchanges), r), LastFor(exchanges, r);
            if last.None? then replayed == Replay(n, files, r)
            else replayed == Some(Response(last.value.status, KeptHeaders(last.value.headers), last.value.content))
  {
    if exchanges != [] {
      var front, last := exchanges[..|exchanges| - 1], exchanges[|exchanges| - 1];
      assert NoCollision(n, front, r) by {
        assert forall i :: 0 <= i < |front| ==> front[i] == exchanges[i];
      }
      ReplaysTheLast(n, files, front, r);
      SamePath(n, last.request, r);
      BodyRoundTrip(last.response.content);
    }
  }

  /** From an empty directory a request never recorded is a miss. */
  lemma NeverRecordedIsAMiss(n: Naming, exchanges: seq<Exchange>, r: Request)
    requires NoCollision(n, exchanges, r) && WithoutNul(r) && LastFor(exchanges, r).None?
    requires forall i :: 0 <= i < |exchanges| ==> WithoutNul(exchanges[i].request)
    ensures Replay(n, RecordAll(n, map[], exchanges), r) == None
  {
    ReplaysTheLast(n, map[], exchanges, r);
  }
}
