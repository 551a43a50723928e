/** What the proxy reads out of a list of header fields before it picks a path
    (`analyse_request` and `analyse_response`). */
module Shapes {
  import opened Options
  import opened Octets
  import opened Http1

  /** The field names that the analysis tells apart. */
  datatype Role = ContentLength | TransferEncoding | Upgrade | Connection | Other

  function RoleOf(name: Bytes): Role {
    var l := Lower(name);
    if l == "content-length" then ContentLength
    else if l == "transfer-encoding" then TransferEncoding
    else if l == "upgrade" then Upgrade
    else if l == "connection" then Connection
    else Other
  }

  predicate Mentions(value: Bytes, word: Bytes) { Contains(Lower(value), word) }

  datatype Shape = Shape(contentLength: Option<nat>, isChunked: bool, isUpgrade: bool, wantsClose: bool)

  predicate PoolableRequest(s: Shape) { !s.isChunked && !s.isUpgrade && !s.wantsClose }

  predicate PoolableResponse(s: Shape) {
    s.contentLength.Some? && !s.isChunked && !s.isUpgrade && !s.wantsClose
  }

  // ── What the shape of a field list is ──

  predicate Has(fs: seq<Field>, role: Role) { exists f | f in fs :: RoleOf(f.name) == role }

  predicate Says(fs: seq<Field>, role: Role, word: Bytes) {
    exists f | f in fs :: RoleOf(f.name) == role && Mentions(f.value, word)
  }

  /** The value of the last Content-Length field: a later one overrides an earlier one. */
  function LastLength(fs: seq<Field>): (r: Option<Bytes>)
    ensures r.None? <==> !Has(fs, ContentLength)
    ensures r.Some? ==> exists f | f in fs :: RoleOf(f.name) == ContentLength && f.value == r.value
  {
    if fs == [] then None
    else
      var f := fs[|fs| - 1];
      assert forall g :: g in fs <==> g in fs[..|fs| - 1] || g == f;
      if RoleOf(f.name) == ContentLength then Some(f.value) else LastLength(fs[..|fs| - 1])
  }

  function ShapeOf(fs: seq<Field>, switching: bool): Shape {
    Shape(if LastLength(fs).Some? then ParseU64(LastLength(fs).value) else None,
          Says(fs, TransferEncoding, "chunked"),
          switching || Has(fs, Upgrade) || Says(fs, Connection, "upgrade"),
          Says(fs, Connection, "close"))
  }

  /** One round of the analysis loops. */
  function Noted(s: Shape, f: Field): Shape {
    match RoleOf(f.name)
    case ContentLength => s.(contentLength := ParseU64(f.value))
    case TransferEncoding => if Mentions(f.value, "chunked") then s.(isChunked := true) else s
    case Upgrade => s.(isUpgrade := true)
    case Connection =>
      s.(isUpgrade := s.isUpgrade || Mentions(f.value, "upgrade"),
         wantsClose := s.wantsClose || Mentions(f.value, "close"))
    case Other => s
  }

  lemma SaysSnoc(fs: seq<Field>, f: Field, role: Role, word: Bytes)
    ensures Says(fs + [f], role, word) <==> Says(fs, role, word) || (RoleOf(f.name) == role && Mentions(f.value, word))
    ensures Has(fs + [f], role) <==> Has(fs, role) || RoleOf(f.name) == role
  {
    assert forall g :: g in fs + [f] <==> g in fs || g == f;
  }

  lemma ShapeOfSnoc(fs: seq<Field>, f: Field, switching: bool)
    ensures ShapeOf(fs + [f], switching) == Noted(ShapeOf(fs, switching), f)
  {
    hide Mentions, RoleOf, ParseU64, Says, Has;
    SaysSnoc(fs, f, TransferEncoding, "chunked");
    SaysSnoc(fs, f, Connection, "upgrade");
    SaysSnoc(fs, f, Connection, "close");
    SaysSnoc(fs, f, Upgrade, "close");
    assert (fs + [f])[..|fs|] == fs && (fs + [f])[|fs|] == f;
  }

  method AnalyseResponse(status: nat, headers: seq<Field>) returns (shape: Shape)
    ensures shape == ShapeOf(headers, status == 101)
  {
    shape := Shape(None, false, status == 101, false);
    for i := 0 to |headers|
      invariant shape == ShapeOf(headers[..i], status == 101)
    {
      var f := headers[i];
      match RoleOf(f.name) {
        case ContentLength => shape := shape.(contentLength := ParseU64(f.value));
        case TransferEncoding => if Mentions(f.value, "chunked") { shape := shape.(isChunked := true); }
        case Connection =>
          if Mentions(f.value, "close") { shape := shape.(wantsClose := true); }
          if Mentions(f.value, "upgrade") { shape := shape.(isUpgrade := true); }
        case Upgrade => shape := shape.(isUpgrade := true);
        case Other =>
      }
      ShapeOfSnoc(headers[..i], f, status == 101);
      assert headers[..i + 1] == headers[..i] + [f];
    }
    assert headers[..|headers|] == headers;
  }

  // ── The request's metadata ──

  const HTTP_METHOD_KEY: Bytes := "HttpMethod"
  const HTTP_HOST_KEY: Bytes := "HttpHost"
  const HEADER_PREFIX: Bytes := "HttpHeader:"

  datatype ConnectRequest = ConnectRequest(dest: Bytes, metadata: seq<(Bytes, Bytes)>)

  /** The value under the first entry with this key. */
  function Meta(metadata: seq<(Bytes, Bytes)>, key: Bytes): Option<Bytes> {
    if metadata == [] then None
    else if metadata[0].0 == key then Some(metadata[0].1)
    else Meta(metadata[1..], key)
  }

  predicate IsHeader(key: Bytes) { HEADER_PREFIX <= key }

  function HeaderOf(entry: (Bytes, Bytes)): Field
    requires IsHeader(entry.0)
  {
    Field(entry.0[|HEADER_PREFIX|..], entry.1)
  }

  /** The header fields that the metadata carries, in order. */
  function HeaderFields(metadata: seq<(Bytes, Bytes)>): seq<Field> {
    if metadata == [] then []
    else
      var last := metadata[|metadata| - 1];
      HeaderFields(metadata[..|metadata| - 1]) + if IsHeader(last.0) then [HeaderOf(last)] else []
  }

  lemma HeaderFieldsStep(metadata: seq<(Bytes, Bytes)>, i: nat)
    requires i < |metadata|
    ensures HeaderFields(metadata[..i + 1])
         == HeaderFields(metadata[..i]) + if IsHeader(metadata[i].0) then [HeaderOf(metadata[i])] else []
  {
    assert metadata[..i + 1][..i] == metadata[..i];
  }

  method AnalyseRequest(req: ConnectRequest) returns (shape: Shape)
    ensures shape == ShapeOf(HeaderFields(req.metadata), false)
  {
    shape := Shape(None, false, false, false);
    for i := 0 to |req.metadata|
      invariant shape == ShapeOf(HeaderFields(req.metadata[..i]), false)
    {
      HeaderFieldsStep(req.metadata, i);
      if IsHeader(req.metadata[i].0) {
        var f := HeaderOf(req.metadata[i]);
        ShapeOfSnoc(HeaderFields(req.metadata[..i]), f, false);
        match RoleOf(f.name) {
          case ContentLength => shape := shape.(contentLength := ParseU64(f.value));
          case TransferEncoding => if Mentions(f.value, "chunked") { shape := shape.(isChunked := true); }
          case Upgrade => shape := shape.(isUpgrade := true);
          case Connection =>
            if Mentions(f.value, "upgrade") { shape := shape.(isUpgrade := true); }
            if Mentions(f.value, "close") { shape := shape.(wantsClose := true); }
          case Other =>
        }
      } else {
        assert HeaderFields(req.metadata[..i + 1]) == HeaderFields(req.metadata[..i]);
      }
    }
    assert req.metadata[..|req.metadata|] == req.metadata;
  }
}
