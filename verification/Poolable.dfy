/** What the analysis of requests and responses comes to, in terms of their octets: which of them are poolable, and
    which length they have. Names and words are compared here letter by letter, in either case. */
module Poolable {
  import opened Options
  import opened Octets
  import opened Http1
  import opened Shapes
  import opened Proxy

  // ── Letters in either case ──

  predicate SameLetter(a: char, b: char) {
    || a == b
    || ('A' <= a <= 'Z' && b as int == a as int + 32)
    || ('A' <= b <= 'Z' && a as int == b as int + 32)
  }

  predicate SameText(a: Bytes, b: Bytes) { |a| == |b| && forall i | 0 <= i < |a| :: SameLetter(a[i], b[i]) }

  predicate SameAt(s: Bytes, i: nat, word: Bytes) { i + |word| <= |s| && SameText(s[i..i + |word|], word) }

  /** `word` stands somewhere in `s`. */
  ghost predicate HasText(s: Bytes, word: Bytes) { exists i: nat :: SameAt(s, i, word) }

  lemma LowerIsSame(a: Bytes, b: Bytes)
    ensures Lower(a) == Lower(b) <==> SameText(a, b)
  {
    if Lower(a) == Lower(b) {
      forall i | 0 <= i < |a| ensures SameLetter(a[i], b[i]) { assert Lower(a)[i] == Lower(b)[i]; }
    }
    if SameText(a, b) {
      forall i | 0 <= i < |a| ensures Lower(a)[i] == Lower(b)[i] { assert SameLetter(a[i], b[i]); }
    }
  }

  lemma LowerOfPart(s: Bytes, i: nat, j: nat)
    requires i <= j <= |s|
    ensures Lower(s)[i..j] == Lower(s[i..j])
  {
  }

  lemma MentionsIsHasText(s: Bytes, word: Bytes)
    requires Lower(word) == word
    ensures Mentions(s, word) <==> HasText(s, word)
  {
    forall i: nat ensures At(Lower(s), i, word) <==> SameAt(s, i, word) { AtIsSameAt(s, i, word); }
    hide SameAt, Lower, At;
    if Mentions(s, word) {
      var i :| 0 <= i <= |Lower(s)| - |word| && At(Lower(s), i, word);
      assert SameAt(s, i, word);
    }
    if i: nat :| SameAt(s, i, word) {
      assert At(Lower(s), i, word);
      AtFits(Lower(s), i, word);
    }
  }

  lemma AtIsSameAt(s: Bytes, i: nat, word: Bytes)
    requires Lower(word) == word
    ensures At(Lower(s), i, word) <==> SameAt(s, i, word)
  {
    if i + |word| <= |s| {
      LowerOfPart(s, i, i + |word|);
      LowerIsSame(s[i..i + |word|], word);
    }
  }

  lemma AtFits(s: Bytes, i: nat, word: Bytes)
    requires At(s, i, word)
    ensures 0 <= i <= |s| - |word|
  {
  }

  lemma LowerNames()
    ensures Lower("Content-Length") == "content-length" && Lower("Transfer-Encoding") == "transfer-encoding"
    ensures Lower("Upgrade") == "upgrade" && Lower("Connection") == "connection"
  {
  }

  lemma LowerWords()
    ensures Lower("chunked") == "chunked" && Lower("upgrade") == "upgrade" && Lower("close") == "close"
  {
  }

  lemma NamesDiffer()
    ensures |"content-length"| == 14 && |"transfer-encoding"| == 17 && |"upgrade"| == 7 && |"connection"| == 10
  {
  }

  lemma RoleIsName(name: Bytes)
    ensures RoleOf(name) == ContentLength <==> SameText(name, "Content-Length")
    ensures RoleOf(name) == TransferEncoding <==> SameText(name, "Transfer-Encoding")
    ensures RoleOf(name) == Upgrade <==> SameText(name, "Upgrade")
    ensures RoleOf(name) == Connection <==> SameText(name, "Connection")
  {
    LowerNames();
    NamesDiffer();
    LowerIsSame(name, "Content-Length");
    LowerIsSame(name, "Transfer-Encoding");
    LowerIsSame(name, "Upgrade");
    LowerIsSame(name, "Connection");
    hide Lower, SameText;
  }

  // ── The shape of a field list ──

  /** The field keeps a message on the pooled path. */
  ghost predicate Keeps(f: Field) {
    && !(SameText(f.name, "Transfer-Encoding") && HasText(f.value, "chunked"))
    && !SameText(f.name, "Upgrade")
    && !(SameText(f.name, "Connection") && (HasText(f.value, "upgrade") || HasText(f.value, "close")))
  }

  lemma WordsOf(v: Bytes)
    ensures Mentions(v, "chunked") <==> HasText(v, "chunked")
    ensures Mentions(v, "upgrade") <==> HasText(v, "upgrade")
    ensures Mentions(v, "close") <==> HasText(v, "close")
  {
    hide Mentions, HasText, Lower;
    LowerWords();
    MentionsIsHasText(v, "chunked");
    MentionsIsHasText(v, "upgrade");
    MentionsIsHasText(v, "close");
  }

  /** What one field means to the analysis. */
  lemma FieldMeans(f: Field)
    ensures RoleOf(f.name) == ContentLength <==> SameText(f.name, "Content-Length")
    ensures Keeps(f) <==>
              && !(RoleOf(f.name) == TransferEncoding && Mentions(f.value, "chunked"))
              && RoleOf(f.name) != Upgrade
              && !(RoleOf(f.name) == Connection && (Mentions(f.value, "upgrade") || Mentions(f.value, "close")))
  {
    hide RoleOf, SameText, Mentions, HasText;
    RoleIsName(f.name);
    WordsOf(f.value);
  }

  /** The shape lets a message be pooled, its length apart, if and only if every field does and no switch is made. */
  lemma ShapeMeans(fs: seq<Field>, switching: bool)
    ensures PoolableRequest(ShapeOf(fs, switching)) <==> !switching && forall f | f in fs :: Keeps(f)
  {
    forall f | f in fs
      ensures Keeps(f) <==>
                && !(RoleOf(f.name) == TransferEncoding && Mentions(f.value, "chunked"))
                && RoleOf(f.name) != Upgrade
                && !(RoleOf(f.name) == Connection && (Mentions(f.value, "upgrade") || Mentions(f.value, "close")))
    {
      FieldMeans(f);
    }
    hide RoleOf, Keeps, Mentions, LastLength;
  }

  /** The `i`th field is the last Content-Length. */
  predicate LastLengthAt(fs: seq<Field>, i: nat) {
    && i < |fs| && SameText(fs[i].name, "Content-Length")
    && forall j | i < j < |fs| :: !SameText(fs[j].name, "Content-Length")
  }

  lemma {:induction false} LastLengthMeans(fs: seq<Field>)
    ensures forall i: nat | LastLengthAt(fs, i) :: LastLength(fs) == Some(fs[i].value)
    ensures LastLength(fs).Some? ==> exists i: nat :: LastLengthAt(fs, i)
    decreases |fs|
  {
    hide SameText, RoleOf;
    if fs != [] {
      var n := |fs| - 1;
      RoleIsName(fs[n].name);
      LastLengthMeans(fs[..n]);
      if SameText(fs[n].name, "Content-Length") {
        assert LastLengthAt(fs, n);
      } else {
        forall i: nat ensures LastLengthAt(fs, i) <==> LastLengthAt(fs[..n], i) { LengthInFront(fs, n, i); }
      }
    }
  }

  lemma LengthInFront(fs: seq<Field>, n: nat, i: nat)
    requires n + 1 == |fs| && !SameText(fs[n].name, "Content-Length")
    ensures LastLengthAt(fs, i) <==> LastLengthAt(fs[..n], i)
    ensures i < n ==> fs[..n][i] == fs[i]
  {
    hide SameText;
    if LastLengthAt(fs[..n], i) {
      forall j | i < j < |fs| ensures !SameText(fs[j].name, "Content-Length") {
        if j < n { assert fs[..n][j] == fs[j]; }
      }
    }
    if LastLengthAt(fs, i) {
      forall j | i < j < n ensures !SameText(fs[..n][j].name, "Content-Length") { assert fs[..n][j] == fs[j]; }
    }
  }

  /** The length of a field list is what the last Content-Length parses to, if there is one. */
  lemma LengthMeans(fs: seq<Field>, switching: bool, n: nat)
    ensures ShapeOf(fs, switching).contentLength == Some(n)
       <==> exists i: nat :: LastLengthAt(fs, i) && ParseU64(fs[i].value) == Some(n)
  {
    hide ParseU64, LastLengthAt, LastLength, Says, Has;
    LastLengthMeans(fs);
  }

  /** What parses as a length: digits, perhaps behind a plus sign, of a value below 2^64. */
  lemma LengthParses(s: Bytes, d: Bytes)
    requires s == d || s == ['+'] + d
    ensures d != [] && (forall c | c in d :: '0' <= c <= '9') && DigitsValue(d) < 0x1_0000_0000_0000_0000 ==>
              ParseU64(s) == Some(DigitsValue(d))
  {
    if s == ['+'] + d { assert s[1..] == d; }
    if d != [] { assert d[0] in d; }
  }

  lemma LengthOnlyParses(s: Bytes) returns (d: Bytes)
    requires ParseU64(s).Some?
    ensures (s == d || s == ['+'] + d) && d != [] && forall c | c in d :: '0' <= c <= '9'
    ensures ParseU64(s) == Some(DigitsValue(d)) && DigitsValue(d) < 0x1_0000_0000_0000_0000
  {
    d := if s[0] == '+' then s[1..] else s;
  }

  // ── Requests and responses ──

  lemma {:induction false} HeaderFieldIn(metadata: seq<(Bytes, Bytes)>, f: Field)
    ensures f in HeaderFields(metadata) <==> ("HttpHeader:" + f.name, f.value) in metadata
    decreases |metadata|
  {
    if metadata != [] {
      var n := |metadata| - 1;
      var last := metadata[n];
      HeaderFieldIn(metadata[..n], f);
      assert metadata == metadata[..n] + [last];
      HeaderIs(last, f);
    }
  }

  lemma HeaderIs(entry: (Bytes, Bytes), f: Field)
    ensures IsHeader(entry.0) && HeaderOf(entry) == f <==> entry == ("HttpHeader:" + f.name, f.value)
  {
    if IsHeader(entry.0) { assert entry.0 == HEADER_PREFIX + entry.0[|HEADER_PREFIX|..]; }
    if entry == ("HttpHeader:" + f.name, f.value) { assert entry.0[|HEADER_PREFIX|..] == f.name; }
  }

  /** A request is poolable if and only if none of the header fields in its metadata is a Transfer-Encoding that says
      chunked, an Upgrade, or a Connection that says upgrade or close, in whatever case. */
  lemma RequestPoolable(req: ConnectRequest)
    ensures PoolableRequest(ShapeOf(HeaderFields(req.metadata), false))
       <==> forall f: Field | ("HttpHeader:" + f.name, f.value) in req.metadata :: Keeps(f)
  {
    hide Keeps, ShapeOf, PoolableRequest, HeaderFields;
    ShapeMeans(HeaderFields(req.metadata), false);
    forall f: Field ensures f in HeaderFields(req.metadata) <==> ("HttpHeader:" + f.name, f.value) in req.metadata {
      HeaderFieldIn(req.metadata, f);
    }
  }

  /** A response is poolable if and only if it is no 101, all its fields keep it so, and its last Content-Length parses;
      and that is then its length. */
  lemma ResponsePoolable(head: Head, n: nat)
    ensures PoolableResponse(ResponseShape(head)) && ResponseShape(head).contentLength == Some(n)
       <==> && Status(head) != 101 && (forall f | f in head.fields :: Keeps(f))
            && exists i: nat :: LastLengthAt(head.fields, i) && ParseU64(head.fields[i].value) == Some(n)
  {
    hide Keeps, LastLengthAt, ParseU64, Says, Has, LastLength;
    ShapeMeans(head.fields, Status(head) == 101);
    LengthMeans(head.fields, Status(head) == 101, n);
  }
}
