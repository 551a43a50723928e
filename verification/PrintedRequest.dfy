/** What the head that is printed for a request says, in terms of the metadata's entries and their octets. */
module PrintedRequest {
  import opened Options
  import opened Octets
  import opened Http1
  import opened Shapes
  import opened RequestHead
  import opened Poolable

  /** The value of the first entry with this key, or `d` if there is none. */
  ghost predicate FirstOr(metadata: seq<(Bytes, Bytes)>, key: Bytes, v: Bytes, d: Bytes) {
    || ((forall j | 0 <= j < |metadata| :: metadata[j].0 != key) && v == d)
    || exists i :: 0 <= i < |metadata| && metadata[i] == (key, v) && forall j | 0 <= j < i :: metadata[j].0 != key
  }

  lemma {:induction false} MetaIsFirst(metadata: seq<(Bytes, Bytes)>, key: Bytes, d: Bytes)
    ensures FirstOr(metadata, key, OrElse(Meta(metadata, key), d), d)
    decreases |metadata|
  {
    if metadata != [] && metadata[0].0 != key {
      var rest, v := metadata[1..], OrElse(Meta(metadata[1..], key), d);
      MetaIsFirst(rest, key, d);
      if i :| 0 <= i < |rest| && rest[i] == (key, v) && forall j | 0 <= j < i :: rest[j].0 != key {
        assert metadata[i + 1] == (key, v);
        forall j | 0 <= j < i + 1 ensures metadata[j].0 != key { if j > 0 { assert rest[j - 1] == metadata[j]; } }
      } else {
        forall j | 0 <= j < |metadata| ensures metadata[j].0 != key { if j > 0 { assert rest[j - 1] == metadata[j]; } }
      }
    } else if metadata != [] {
      assert metadata[0] == (key, metadata[0].1);
    }
  }

  /** The entry is a header to copy: any but Host, in whatever case. */
  predicate Goes(entry: (Bytes, Bytes)) {
    "HttpHeader:" <= entry.0 && !SameText(entry.0[11..], "Host")
  }

  /** The fields `kept` are those of the entries at `at`: all that go, each once, in their order. */
  ghost predicate Picked(metadata: seq<(Bytes, Bytes)>, kept: seq<Field>, at: seq<nat>) {
    && |at| == |kept|
    && (forall k | 0 <= k < |at| :: at[k] < |metadata|)
    && (forall k, l | 0 <= k < l < |at| :: at[k] < at[l])
    && (forall k | 0 <= k < |at| ::
          metadata[at[k]] == ("HttpHeader:" + kept[k].name, kept[k].value) && !SameText(kept[k].name, "Host"))
    && (forall i | 0 <= i < |metadata| && Goes(metadata[i]) :: i in at)
  }

  lemma HostName(name: Bytes)
    ensures IsHost(name) <==> SameText(name, "Host")
  {
    assert Lower("Host") == "host";
    LowerIsSame(name, "Host");
    hide SameText;
  }

  lemma PrefixLength(entry: (Bytes, Bytes))
    ensures Goes(entry) <==> IsHeader(entry.0) && !IsHost(HeaderOf(entry).name)
    ensures IsHeader(entry.0) ==> entry == ("HttpHeader:" + HeaderOf(entry).name, HeaderOf(entry).value)
  {
    hide SameText, IsHost;
    if IsHeader(entry.0) {
      HostName(entry.0[11..]);
      assert entry.0 == HEADER_PREFIX + entry.0[|HEADER_PREFIX|..];
    }
  }

  lemma {:induction false} CopiedIsPicked(req: ConnectRequest, n: nat) returns (at: seq<nat>)
    requires n <= |req.metadata|
    ensures Picked(req.metadata[..n], CopiedUpTo(req, n), at)
  {
    hide SameText, IsHost, IsHeader, CopiedUpTo;
    at := [];
    if n == 0 {
      NoneCopied(req);
    } else {
      at := CopiedIsPicked(req, n - 1);
      var entry := req.metadata[n - 1];
      CopiedStep(req, n - 1);
      PrefixLength(entry);
      var before, kept := req.metadata[..n - 1], CopiedUpTo(req, n - 1);
      assert req.metadata[..n] == before + [entry];
      if Goes(entry) {
        PickMore(before, kept, at, entry, HeaderOf(entry));
        at := at + [n - 1];
      } else {
        PickNoMore(before, kept, at, entry);
      }
    }
  }

  lemma NoneCopied(req: ConnectRequest)
    ensures CopiedUpTo(req, 0) == []
  {
  }

  lemma PickMore(metadata: seq<(Bytes, Bytes)>, kept: seq<Field>, at: seq<nat>, entry: (Bytes, Bytes), f: Field)
    requires Picked(metadata, kept, at) && entry == ("HttpHeader:" + f.name, f.value) && !SameText(f.name, "Host")
    ensures Picked(metadata + [entry], kept + [f], at + [|metadata|])
  {
    hide SameText;
    assert forall i | i in at :: i in at + [|metadata|];
    assert (at + [|metadata|])[|at|] == |metadata|;
  }

  lemma PickNoMore(metadata: seq<(Bytes, Bytes)>, kept: seq<Field>, at: seq<nat>, entry: (Bytes, Bytes))
    requires Picked(metadata, kept, at) && !Goes(entry)
    ensures Picked(metadata + [entry], kept, at)
  {
    hide SameText, Goes;
  }

  // ── The head ──

  /** The request is one that HTTP/1.1 can carry: a method, and header lines and a host without line breaks. */
  ghost predicate Carried(req: ConnectRequest) {
    && (forall m | FirstOr(req.metadata, "HttpMethod", m, "GET") :: Token(m))
    && Target(ExtractPath(req.dest))
    && (forall h | FirstOr(req.metadata, "HttpHost", h, "") :: FieldText(h) && Trimmed(h))
    && (forall i | 0 <= i < |req.metadata| && Goes(req.metadata[i]) ::
          Token(req.metadata[i].0[11..]) && FieldText(req.metadata[i].1) && Trimmed(req.metadata[i].1))
  }

  /** The whole head. It parses to the first `HttpMethod`, or GET, and the target; the fields are the first `HttpHost`
      as Host, unless it is missing or empty, then the header entries but Host in their order, each once, and then,
      unless one of these is a Connection, one that asks to keep the socket alive or to close it. */
  lemma PrintedHead(req: ConnectRequest, keepAlive: bool, after: Bytes)
    returns (method_: Bytes, host: Bytes, kept: seq<Field>, at: seq<nat>, connection: seq<Field>)
    requires Carried(req)
    ensures FirstOr(req.metadata, "HttpMethod", method_, "GET") && FirstOr(req.metadata, "HttpHost", host, "")
    ensures Picked(req.metadata, kept, at)
    ensures connection == if exists f | f in kept :: SameText(f.name, "Connection") then []
                          else [Field("Connection", if keepAlive then "keep-alive" else "close")]
    ensures var head := HeadFor(req, keepAlive);
            var fields := (if host == "" then [] else [Field("Host", host)]) + kept + connection;
            (ParseHead(Request, head + after)
             == Complete(Head(RequestLine(method_, ExtractPath(req.dest)), fields), |head|))
  {
    method_, host := Method(req), OrElse(Meta(req.metadata, HTTP_HOST_KEY), "");
    kept := Copied(req);
    connection := if Has(kept, Connection) then [] else [ConnectionField(keepAlive)];
    MetaIsFirst(req.metadata, "HttpMethod", "GET");
    MetaIsFirst(req.metadata, "HttpHost", "");
    at := CopiedIsPicked(req, |req.metadata|);
    assert req.metadata[..|req.metadata|] == req.metadata;
    forall f | f in kept ensures RoleOf(f.name) == Connection <==> SameText(f.name, "Connection") {
      RoleIsName(f.name);
    }
    CarriedIsPrintable(req, keepAlive, at);
    RequestRoundTrip(req, keepAlive, after);
  }

  lemma KeptIsPrintable(req: ConnectRequest, kept: seq<Field>, at: seq<nat>, k: nat)
    requires Carried(req) && Picked(req.metadata, kept, at) && k < |kept|
    ensures PrintableField(kept[k])
  {
    hide Token, FieldText, Trimmed, Target, SameText;
    var entry := req.metadata[at[k]];
    assert entry == ("HttpHeader:" + kept[k].name, kept[k].value);
    assert |"HttpHeader:"| == 11 && entry.0[11..] == kept[k].name;
    assert "HttpHeader:" <= entry.0;
    assert Goes(entry);
  }

  lemma HostIsPrintable(host: Bytes)
    requires FieldText(host) && Trimmed(host)
    ensures PrintableField(Field("Host", host))
  {
    hide FieldText, Trimmed;
    assert forall c | c in "Host" :: 'A' <= c <= 'Z' || 'a' <= c <= 'z';
  }

  lemma ConnectionIsToken()
    ensures Token("Connection")
  {
    assert forall c | c in "Connection" :: 'A' <= c <= 'Z' || 'a' <= c <= 'z';
  }

  lemma KeepAliveIsText()
    ensures FieldText("keep-alive") && Trimmed("keep-alive")
  {
    assert forall c | c in "keep-alive" :: '-' <= c <= 'z';
  }

  lemma CloseIsText()
    ensures FieldText("close") && Trimmed("close")
  {
    assert forall c | c in "close" :: 'a' <= c <= 'z';
  }

  lemma ConnectionIsPrintable(keepAlive: bool)
    ensures PrintableField(ConnectionField(keepAlive))
  {
    hide Token, FieldText, Trimmed;
    ConnectionIsToken();
    KeepAliveIsText();
    CloseIsText();
  }

  lemma CarriedIsPrintable(req: ConnectRequest, keepAlive: bool, at: seq<nat>)
    requires Carried(req) && Picked(req.metadata, Copied(req), at)
    ensures Printable(req, keepAlive)
  {
    hide PrintableField, Copied, FirstOr, Picked, Token, FieldText, Trimmed, Target;
    MetaIsFirst(req.metadata, "HttpMethod", "GET");
    MetaIsFirst(req.metadata, "HttpHost", "");
    var host := OrElse(Meta(req.metadata, HTTP_HOST_KEY), "");
    HostIsPrintable(host);
    ConnectionIsPrintable(keepAlive);
    forall k | 0 <= k < |Copied(req)| ensures PrintableField(Copied(req)[k]) {
      KeptIsPrintable(req, Copied(req), at, k);
    }
  }
}
