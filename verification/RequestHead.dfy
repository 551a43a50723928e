/** The request head that the proxy prints for the origin (`build_request_head`), read
    back as the origin reads it, with the body length that RFC 9112 section 6.3 gives it. */
module RequestHead {
  import opened Options
  import opened Octets
  import opened Http1
  import opened Shapes

  // ── Target ──

  /** Position of the first occurrence of `needle`. */
  function Find(s: Bytes, needle: Bytes): (r: Option<nat>)
    ensures r.Some? ==> At(s, r.value, needle)
  {
    if |needle| <= |s| && s[..|needle|] == needle then Some(0)
    else if s == [] then None
    else match Find(s[1..], needle)
      case None => None
      case Some(i) => assert s[i + 1..i + 1 + |needle|] == s[1..][i..i + |needle|]; Some(i + 1)
  }

  const SCHEME_END: Bytes := "://"

  function ExtractPath(dest: Bytes): (r: Bytes)
    ensures r != [] && r[0] == '/'
  {
    match Find(dest, SCHEME_END)
    case Some(i) =>
      var rest := dest[i + 3..];
      (match IndexOf(rest, '/')
       case Some(slash) => rest[slash..]
       case None => "/")
    case None => if dest != [] && dest[0] == '/' then dest else "/"
  }

  lemma {:induction false} FindSchemeEnd(scheme: Bytes, rest: Bytes)
    requires ':' !in scheme
    ensures Find(scheme + SCHEME_END + rest, SCHEME_END) == Some(|scheme|)
  {
    var s := scheme + SCHEME_END + rest;
    if scheme == [] {
      assert s[..3] == SCHEME_END;
    } else {
      assert s[..3][0] == scheme[0];
      assert s[1..] == scheme[1..] + SCHEME_END + rest;
      FindSchemeEnd(scheme[1..], rest);
    }
  }

  /** From the first slash on, or `/` if there is none. */
  function FromSlash(s: Bytes): Bytes { if IndexOf(s, '/').Some? then s[IndexOf(s, '/').value..] else "/" }

  lemma ExtractPathBehindScheme(scheme: Bytes, authority: Bytes, suffix: Bytes)
    requires ':' !in scheme && '/' !in authority
    ensures ExtractPath(scheme + SCHEME_END + (authority + suffix)) == FromSlash(suffix)
  {
    var s, rest := scheme + SCHEME_END + (authority + suffix), authority + suffix;
    FindSchemeEnd(scheme, rest);
    assert s[|scheme| + 3..] == rest;
    match IndexOf(suffix, '/')
    case Some(k) =>
      assert rest == (authority + suffix[..k]) + ['/'] + suffix[k + 1..];
      IndexOfSplit(authority + suffix[..k], '/', suffix[k + 1..]);
      assert rest[|authority| + k..] == suffix[k..];
    case None =>
      assert '/' !in rest;
  }

  /** The target of a URL's request, by section 3.2.1 of RFC 9112: path and query, and `/` for an empty path. */
  function UrlTarget(suffix: Bytes): Bytes {
    if suffix == [] then "/" else if suffix[0] == '/' then suffix else ['/'] + suffix
  }

  /** The exact condition: for a URL of a scheme, an authority and what follows it, a path or a query or nothing,
      the target is the URL's path and query if and only if it has a path or nothing follows at all. */
  lemma ExtractPathOfUrl(scheme: Bytes, authority: Bytes, suffix: Bytes)
    requires ':' !in scheme && '/' !in authority && '?' !in authority && '#' !in authority
    requires suffix == [] || suffix[0] == '/' || suffix[0] == '?'
    ensures ExtractPath(scheme + SCHEME_END + (authority + suffix)) == UrlTarget(suffix)
       <==> suffix == [] || suffix[0] == '/'
  {
    ExtractPathBehindScheme(scheme, authority, suffix);
    hide ExtractPath;
    if suffix != [] && suffix[0] == '/' {
      assert suffix == [] + ['/'] + suffix[1..];
      IndexOfSplit([], '/', suffix[1..]);
    }
    if suffix != [] && suffix[0] == '?' { assert |FromSlash(suffix)| <= |suffix|; }
  }

  /** What a query right behind the authority is turned into: nothing, or, from the first slash in it on, the path
      of another resource. */
  lemma BareQuery(scheme: Bytes, authority: Bytes, query: Bytes)
    requires ':' !in scheme && '/' !in authority && '?' !in authority && '#' !in authority
    ensures ExtractPath(scheme + SCHEME_END + (authority + (['?'] + query)))
         == if IndexOf(query, '/').Some? then query[IndexOf(query, '/').value..] else "/"
  {
    ExtractPathBehindScheme(scheme, authority + ['?'], query);
    assert authority + ['?'] + query == authority + (['?'] + query);
  }

  /** For `http://a?next=/b` the origin is asked for `/b`. */
  lemma OtherResource(dest: Bytes)
    requires dest == "http" + SCHEME_END + ("a" + (['?'] + ("next=" + ['/'] + "b")))
    ensures ExtractPath(dest) == ['/'] + "b"
  {
    hide ExtractPath, IndexOf, Find;
    var name, value := "next=", "b";
    var query := name + ['/'] + value;
    BareQuery("http", "a", query);
    IndexOfSplit(name, '/', value);
    assert query[|name|..] == ['/'] + value;
  }

  lemma {:induction false} FindIfThere(s: Bytes, needle: Bytes, i: nat)
    requires At(s, i, needle)
    ensures Find(s, needle).Some? && Find(s, needle).value <= i
    decreases |s|
  {
    if i > 0 && !(|needle| <= |s| && s[..|needle|] == needle) {
      assert s[1..][i - 1..i - 1 + |needle|] == s[i..i + |needle|];
      FindIfThere(s[1..], needle, i - 1);
    }
  }

  /** A target that is given as a path is kept if and only if `://` does not occur in it, as it may in a query. What is
      neither a path nor has `://` in it, becomes `/`. */
  lemma PathKept(dest: Bytes)
    ensures dest != [] && dest[0] == '/' ==> (ExtractPath(dest) == dest <==> !Contains(dest, "://"))
    ensures (dest == [] || dest[0] != '/') && !Contains(dest, "://") ==> ExtractPath(dest) == "/"
  {
    hide IndexOf;
    if i :| 0 <= i <= |dest| - 3 && At(dest, i, "://") { FindIfThere(dest, SCHEME_END, i); }
    if Find(dest, SCHEME_END).Some? { assert At(dest, Find(dest, SCHEME_END).value, "://"); }
  }

  // ── Printing ──

  function OrElse(v: Option<Bytes>, d: Bytes): Bytes { if v.Some? then v.value else d }

  function Method(req: ConnectRequest): Bytes { OrElse(Meta(req.metadata, HTTP_METHOD_KEY), "GET") }

  function HostFields(req: ConnectRequest): seq<Field> {
    var host := OrElse(Meta(req.metadata, HTTP_HOST_KEY), "");
    if host != [] then [Field("Host", host)] else []
  }

  predicate IsHost(name: Bytes) { Lower(name) == "host" }

  function WithoutHost(fs: seq<Field>): seq<Field> {
    if fs == [] then []
    else WithoutHost(fs[..|fs| - 1]) + if IsHost(fs[|fs| - 1].name) then [] else [fs[|fs| - 1]]
  }

  /** The header fields that go out as they came in. */
  function Copied(req: ConnectRequest): seq<Field> { WithoutHost(HeaderFields(req.metadata)) }

  function ConnectionField(keepAlive: bool): Field {
    Field("Connection", if keepAlive then "keep-alive" else "close")
  }

  /** All header fields of the printed head, in order. */
  function SentFields(req: ConnectRequest, keepAlive: bool): seq<Field> {
    HostFields(req) + Copied(req) + if Has(Copied(req), Connection) then [] else [ConnectionField(keepAlive)]
  }

  function RequestLineText(method_: Bytes, target: Bytes): Bytes { method_ + [' '] + (target + [' '] + "HTTP/1.1") }

  function HeadFor(req: ConnectRequest, keepAlive: bool): Bytes {
    PrintHead(RequestLineText(Method(req), ExtractPath(req.dest)), SentFields(req, keepAlive))
  }

  function CopiedUpTo(req: ConnectRequest, i: nat): seq<Field>
    requires i <= |req.metadata|
  {
    WithoutHost(HeaderFields(req.metadata[..i]))
  }

  /** `head` is the request line followed by the lines of `sent`. */
  ghost predicate Written(req: ConnectRequest, head: Bytes, sent: seq<Field>) {
    head == RequestLineText(Method(req), ExtractPath(req.dest)) + CRLF + PrintFields(sent)
  }

  lemma CopiedStep(req: ConnectRequest, i: nat)
    requires i < |req.metadata|
    ensures CopiedUpTo(req, i + 1)
         == if IsHeader(req.metadata[i].0) && !IsHost(HeaderOf(req.metadata[i]).name)
            then CopiedUpTo(req, i) + [HeaderOf(req.metadata[i])]
            else CopiedUpTo(req, i)
  {
    HeaderFieldsStep(req.metadata, i);
    var fs := HeaderFields(req.metadata[..i]);
    if IsHeader(req.metadata[i].0) {
      var all := fs + [HeaderOf(req.metadata[i])];
      assert all[..|all| - 1] == fs;
    } else {
      assert fs + [] == fs;
    }
  }

  /** The lines written once the first `i` entries of the metadata are done. */
  ghost predicate Progress(req: ConnectRequest, i: nat, head: Bytes, sawConnection: bool) {
    && i <= |req.metadata|
    && Written(req, head, HostFields(req) + CopiedUpTo(req, i))
    && (sawConnection <==> Has(CopiedUpTo(req, i), Connection))
  }

  method BuildRequestHead(req: ConnectRequest, keepAlive: bool) returns (head: Bytes)
    ensures head == HeadFor(req, keepAlive)
  {
    head := BeginHead(req);
    var sawConnection := false;
    for i := 0 to |req.metadata|
      invariant Progress(req, i, head, sawConnection)
    {
      head, sawConnection := CopyEntry(req, i, head, sawConnection);
    }
    assert req.metadata[..|req.metadata|] == req.metadata;
    head := EndHead(req, keepAlive, head, sawConnection);
  }

  lemma ProgressByCopy(req: ConnectRequest, i: nat, head: Bytes, saw: bool, f: Field, r: Bytes)
    requires Progress(req, i, head, saw) && i < |req.metadata|
    requires CopiedUpTo(req, i + 1) == CopiedUpTo(req, i) + [f]
    requires Written(req, r, HostFields(req) + CopiedUpTo(req, i) + [f])
    ensures Progress(req, i + 1, r, saw || RoleOf(f.name) == Connection)
  {
    var copied := CopiedUpTo(req, i);
    SaysSnoc(copied, f, Connection, "close");
    assert HostFields(req) + copied + [f] == HostFields(req) + (copied + [f]);
  }

  /** The loop body: copy one header, except Host, and notice a Connection header. */
  method CopyEntry(req: ConnectRequest, i: nat, head: Bytes, saw: bool) returns (r: Bytes, sawConnection: bool)
    requires i < |req.metadata| && Progress(req, i, head, saw)
    ensures Progress(req, i + 1, r, sawConnection)
  {
    CopiedStep(req, i);
    r, sawConnection := head, saw;
    var (key, value) := req.metadata[i];
    if IsHeader(key) && !IsHost(key[|HEADER_PREFIX|..]) {
      var name := key[|HEADER_PREFIX|..];
      if RoleOf(name) == Connection { sawConnection := true; }
      r := AppendField(req, head, name, value, HostFields(req) + CopiedUpTo(req, i));
      ProgressByCopy(req, i, head, saw, Field(name, value), r);
    }
  }

  /** The request line and the Host line. */
  method BeginHead(req: ConnectRequest) returns (head: Bytes)
    ensures Progress(req, 0, head, false)
  {
    head := Method(req);
    head := head + [' '];
    head := head + ExtractPath(req.dest);
    head := head + " HTTP/1.1\r\n";
    assert Written(req, head, []);
    var host := OrElse(Meta(req.metadata, HTTP_HOST_KEY), "");
    if host != [] {
      head := AppendField(req, head, "Host", host, []);
      assert [] + [Field("Host", host)] == HostFields(req);
    }
    assert CopiedUpTo(req, 0) == [] && HostFields(req) + [] == HostFields(req);
  }

  /** The pushes of one field line. */
  method AppendField(req: ConnectRequest, head: Bytes, name: Bytes, value: Bytes, ghost sent: seq<Field>)
    returns (r: Bytes)
    requires Written(req, head, sent)
    ensures Written(req, r, sent + [Field(name, value)])
  {
    PrintFieldsSnoc(sent, Field(name, value));
    r := head + name;
    r := r + ": ";
    r := r + value;
    r := r + CRLF;
    assert r == head + PrintField(Field(name, value));
  }

  /** The Connection line, unless one was copied, and the empty line. */
  method EndHead(req: ConnectRequest, keepAlive: bool, head: Bytes, sawConnection: bool)
    returns (r: Bytes)
    requires Written(req, head, HostFields(req) + Copied(req))
    requires sawConnection <==> Has(Copied(req), Connection)
    ensures r == HeadFor(req, keepAlive)
  {
    r := head;
    ghost var all := HostFields(req) + Copied(req);
    if !sawConnection {
      var f := ConnectionField(keepAlive);
      r := AppendField(req, r, f.name, f.value, all);
      all := all + [f];
    }
    assert all == SentFields(req, keepAlive);
    r := r + CRLF;
    assert r == PrintHead(RequestLineText(Method(req), ExtractPath(req.dest)), all);
  }

  // ── Reading the printed head back ──

  /** The request that the edge sends is one that HTTP/1.1 can carry. */
  predicate Printable(req: ConnectRequest, keepAlive: bool) {
    && Token(Method(req))
    && Target(ExtractPath(req.dest))
    && forall f | f in SentFields(req, keepAlive) :: PrintableField(f)
  }

  lemma RequestLineHasNoCr(m: Bytes, t: Bytes)
    requires Token(m) && Target(t)
    ensures '\r' !in RequestLineText(m, t)
  {
    assert '\r' !in m && '\r' !in t && '\r' !in "HTTP/1.1";
    assert '\r' !in t + [' '] + "HTTP/1.1";
  }

  lemma ParseRequestLine(m: Bytes, t: Bytes)
    requires Token(m) && Target(t)
    ensures ParseStart(Request, RequestLineText(m, t)) == Some(RequestLine(m, t))
  {
    var line := RequestLineText(m, t);
    var rest := t + [' '] + "HTTP/1.1";
    IndexOfSplit(m, ' ', rest);
    assert line[..|m|] == m && line[|m| + 1..] == rest;
    IndexOfSplit(t, ' ', "HTTP/1.1");
    assert rest[..|t|] == t && rest[|t| + 1..] == "HTTP/1.1";
  }

  // ── Body length ──

  /** What RFC 9112 section 6.3 makes of a request's body, as far as a Content-Length decides it.
      `Unframed` covers a transfer coding and every invalid or contradictory Content-Length. */
  datatype Framing = Fixed(length: nat) | Unframed

  predicate AllLengths(fs: seq<Field>, n: nat) {
    forall f | f in fs && RoleOf(f.name) == ContentLength :: IsNumeral(f.value) && DigitsValue(f.value) == n
  }

  /** Section 6.3: `n` octets of body follow a head with these fields. */
  predicate Frames(fs: seq<Field>, n: nat) {
    !Has(fs, TransferEncoding) && if Has(fs, ContentLength) then AllLengths(fs, n) else n == 0
  }

  function BodyFraming(fs: seq<Field>): (r: Framing)
    ensures forall n: nat :: r == Fixed(n) <==> Frames(fs, n)
  {
    if Has(fs, TransferEncoding) then Unframed
    else match LastLength(fs)
      case None => Fixed(0)
      case Some(v) => if IsNumeral(v) && AllLengths(fs, DigitsValue(v)) then Fixed(DigitsValue(v)) else Unframed
  }

  /** The body octets that the pooled path forwards for a request of this shape. */
  function ForwardedLength(shape: Shape): nat {
    if shape.contentLength.Some? then shape.contentLength.value else 0
  }

  /** A caller's check: no transfer coding, and every Content-Length is one and the same numeral below 2^64. */
  predicate LengthsInOrder(fs: seq<Field>) {
    && !Has(fs, TransferEncoding)
    && forall f, g | f in fs && g in fs && RoleOf(f.name) == RoleOf(g.name) == ContentLength ::
         && IsNumeral(f.value) && IsNumeral(g.value)
         && DigitsValue(f.value) < TWO_64 && DigitsValue(f.value) == DigitsValue(g.value)
  }

  /** The origin waits for exactly the octets that the proxy forwards if and only if the lengths are in order. */
  lemma FramingAgreement(fs: seq<Field>)
    ensures Frames(fs, ForwardedLength(ShapeOf(fs, false))) <==> LengthsInOrder(fs)
  {
    if LastLength(fs).Some? && !Has(fs, TransferEncoding) {
      var v := LastLength(fs).value;
      var last :| last in fs && RoleOf(last.name) == ContentLength && last.value == v;
      if IsNumeral(v) {
        assert IsDigit(v[0]);
      }
    }
  }

  lemma {:induction false} WithoutHostMembers(fs: seq<Field>, f: Field)
    ensures f in WithoutHost(fs) <==> f in fs && !IsHost(f.name)
  {
    if fs != [] {
      var n := |fs| - 1;
      assert fs == fs[..n] + [fs[n]];
      WithoutHostMembers(fs[..n], f);
    }
  }

  lemma RolesOfAddedFields(keepAlive: bool, f: Field)
    ensures RoleOf("Host") == Other && RoleOf(ConnectionField(keepAlive).name) == Connection
    ensures IsHost(f.name) ==> RoleOf(f.name) == Other
  {
    assert Lower("Host") == "host" && Lower("Connection") == "connection";
  }

  /** What the proxy adds and leaves out does not touch the body length. */
  lemma SentFraming(req: ConnectRequest, keepAlive: bool, n: nat)
    ensures Frames(SentFields(req, keepAlive), n) <==> Frames(HeaderFields(req.metadata), n)
  {
    var sent, given := SentFields(req, keepAlive), HeaderFields(req.metadata);
    forall f: Field | RoleOf(f.name) == ContentLength || RoleOf(f.name) == TransferEncoding
      ensures f in sent <==> f in given
    {
      WithoutHostMembers(given, f);
      RolesOfAddedFields(keepAlive, f);
    }
  }

  /** Round trip with framing: the printed head of a request parses to its method, target, Host and other
      headers in order, and its body length is the number of octets forwarded exactly when the request's
      lengths are in order. */
  lemma RequestRoundTrip(req: ConnectRequest, keepAlive: bool, after: Bytes)
    requires Printable(req, keepAlive)
    ensures ParseHead(Request, HeadFor(req, keepAlive) + after)
         == Complete(Head(RequestLine(Method(req), ExtractPath(req.dest)), SentFields(req, keepAlive)),
                     |HeadFor(req, keepAlive)|)
    ensures Frames(SentFields(req, keepAlive), ForwardedLength(ShapeOf(HeaderFields(req.metadata), false)))
        <==> LengthsInOrder(HeaderFields(req.metadata))
  {
    var m, t := Method(req), ExtractPath(req.dest);
    ParseRequestLine(m, t);
    RequestLineHasNoCr(m, t);
    PrintedHeadParses(Request, RequestLineText(m, t), RequestLine(m, t), SentFields(req, keepAlive), after);
    SentFraming(req, keepAlive, ForwardedLength(ShapeOf(HeaderFields(req.metadata), false)));
    FramingAgreement(HeaderFields(req.metadata));
  }

  /** The printed head has a Host field, as section 3.2 of RFC 9112 wants it, if and only if the metadata has a host
      of its own: a Host among the headers is dropped and does not stand in for it. */
  lemma HostIsSent(req: ConnectRequest, keepAlive: bool)
    ensures (exists f | f in SentFields(req, keepAlive) :: IsHost(f.name))
       <==> OrElse(Meta(req.metadata, HTTP_HOST_KEY), "") != []
  {
    var connection := ConnectionField(keepAlive);
    assert Lower("Host") == "host" && Lower("Connection") == "connection" && "connection" != "host";
    assert !IsHost(connection.name);
    forall f | f in Copied(req) ensures !IsHost(f.name) { WithoutHostMembers(HeaderFields(req.metadata), f); }
    if OrElse(Meta(req.metadata, HTTP_HOST_KEY), "") != [] {
      assert HostFields(req)[0] in SentFields(req, keepAlive);
    }
  }

  /** Rust accepts a leading plus sign that RFC 9110 does not: five octets are forwarded for a request
      whose framing is invalid. */
  lemma PlusSignDisagrees(f: Field)
    requires f == Field("Content-Length", "+5")
    ensures ForwardedLength(ShapeOf([f], false)) == 5 && BodyFraming([f]) == Unframed
  {
    assert Lower("Content-Length") == "content-length";
    assert "+5"[1..] == ['5'] && ['5'][..0] == [];
    assert f in [f] && !IsDigit(f.value[0]);
    assert ParseU64("+5") == Some(5);
    assert LastLength([f]) == Some("+5");
  }
}
