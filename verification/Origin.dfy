/** The origin at the other end of a keep-alive socket, as far as message boundaries go: when octets ask for
    an answer, and when an answer is complete. */
module Origin {
  import opened Options
  import opened Octets
  import opened Http1
  import opened Shapes
  import opened RequestHead
  import opened Proxy

  // ── Requests ──

  /** How many request heads the octets `b` hold, read by the framing of RFC 9112 section 6.3; `None` when
      a head without a Content-Length framing leaves that open. */
  function Heads(b: Bytes): Option<nat>
    decreases |b|
  {
    match ParseHead(Request, b)
    case Partial => Some(0)
    case Bad => Some(0)
    case Complete(head, c) =>
      match BodyFraming(head.fields)
      case Unframed => None
      case Fixed(n) => if c + n <= |b| then OneMore(Heads(b[c + n..])) else Some(1)
  }

  function OneMore(n: Option<nat>): Option<nat> { More(n, 1) }

  function More(n: Option<nat>, k: nat): Option<nat> { if n.Some? then Some(n.value + k) else None }

  /** Having begun `k` answers the origin is asked for another one. */
  predicate Asked(b: Bytes, k: nat) {
    match Heads(b)
    case None => true
    case Some(n) => k < n
  }

  /** A request of which the head and all but the last `left` octets of the body are there. */
  predicate OpenRequest(m: Bytes, left: nat) {
    match ParseHead(Request, m)
    case Complete(head, c) => BodyFraming(head.fields) == Fixed(|m| - c + left)
    case _ => false
  }

  /** A complete request. */
  predicate Message(m: Bytes) { OpenRequest(m, 0) }

  predicate Messages(msgs: seq<Bytes>) { forall m | m in msgs :: Message(m) }

  /** A complete request in front asks for exactly one answer. */
  lemma HeadsFirst(m: Bytes, rest: Bytes, b: Bytes)
    requires Message(m) && b == m + rest
    ensures Heads(b) == OneMore(Heads(rest))
  {
    hide ParseHead, BodyFraming;
    ParseStable(Request, m, rest);
    assert b[|m|..] == rest;
  }

  lemma FlatRest(msgs: seq<Bytes>, tail: Bytes, b: Bytes) returns (rest: Bytes)
    requires msgs != [] && b == Flat(msgs) + tail
    ensures rest == Flat(msgs[1..]) + tail && b == msgs[0] + rest
  {
    rest := Flat(msgs[1..]) + tail;
  }

  /** Complete requests in front ask for one answer each. */
  lemma {:induction false} HeadsAfter(msgs: seq<Bytes>, tail: Bytes, b: Bytes)
    requires Messages(msgs) && b == Flat(msgs) + tail
    ensures Heads(b) == More(Heads(tail), |msgs|)
    decreases |msgs|
  {
    hide Heads, ParseHead, BodyFraming, Message;
    if msgs == [] {
      assert Flat(msgs) == [] && [] + tail == tail;
    } else {
      var rest := FlatRest(msgs, tail, b);
      HeadsFirst(msgs[0], rest, b);
      HeadsAfter(msgs[1..], tail, rest);
    }
  }

  /** A request whose body is under way, or just complete, asks for one answer. */
  lemma HeadsOnce(m: Bytes, left: nat)
    requires OpenRequest(m, left)
    ensures Heads(m) == Some(1)
  {
    if left == 0 {
      assert m[|m|..] == [];
      assert Heads([]) == Some(0);
    }
  }

  lemma OpenRequestGrows(m: Bytes, left: nat, chunk: Bytes)
    requires OpenRequest(m, left) && |chunk| <= left
    ensures OpenRequest(m + chunk, left - |chunk|)
  {
    hide ParseHead, BodyFraming;
    ParseStable(Request, m, chunk);
  }

  // ── Answers ──

  /** The length that a head declares for its body, if the proxy takes it for poolable. */
  function DeclaredLength(head: Head): Option<nat> {
    if PoolableResponse(ResponseShape(head)) then ResponseShape(head).contentLength else None
  }

  /** Section 6.3 of RFC 9112, rule 1: no body, whatever the fields say. */
  predicate Bodyless(method_: Bytes, status: nat) {
    method_ == "HEAD" || 100 <= status < 200 || status == 204 || status == 304
  }

  /** Rule 2: what follows is a tunnel. */
  predicate Tunnels(method_: Bytes, status: nat) { method_ == "CONNECT" && 200 <= status < 300 }

  /** What section 6.3 makes of the body of a response to a request of this method. `Unframed` covers a tunnel, a
      transfer coding, every invalid or contradictory Content-Length, and a body that ends with the connection. */
  function ResponseFraming(method_: Bytes, status: nat, fs: seq<Field>): Framing {
    if Bodyless(method_, status) then Fixed(0)
    else if Tunnels(method_, status) || !Has(fs, ContentLength) then Unframed
    else BodyFraming(fs)
  }

  /** The length that the proxy reads off a poolable response is that of section 6.3 if and only if it is zero where
      there can be no body, and otherwise the lengths are in order and it is no tunnel. */
  lemma ResponseFramingAgreement(method_: Bytes, head: Head)
    requires DeclaredLength(head).Some?
    ensures ResponseFraming(method_, Status(head), head.fields) == Fixed(DeclaredLength(head).value)
       <==> if Bodyless(method_, Status(head)) then DeclaredLength(head).value == 0
            else !Tunnels(method_, Status(head)) && LengthsInOrder(head.fields)
  {
    hide LengthsInOrder, Frames;
    FramingAgreement(head.fields);
  }

  /** A transfer coding other than chunked does not keep the proxy from pooling by the length beside it. */
  lemma CodedLengthIsPooled(head: Head, coding: Field, length: Field, n: nat)
    requires RoleOf(coding.name) == TransferEncoding && !Mentions(coding.value, "chunked")
    requires RoleOf(length.name) == ContentLength && ParseU64(length.value) == Some(n)
    requires head == Head(StatusLine(200), [coding, length])
    ensures DeclaredLength(head) == Some(n)
    ensures forall m :: !Bodyless(m, 200) ==> ResponseFraming(m, 200, head.fields) == Unframed
  {
    hide RoleOf, Mentions, ParseU64, Bodyless;
    assert coding in head.fields;
    assert LastLength(head.fields) == Some(length.value);
  }

  /** The octets `w` sent in answer to one request are no more than their head declares. */
  predicate Within(w: Bytes) {
    match ParseHead(Response, w)
    case Complete(head, c) => DeclaredLength(head).None? || |w| <= c + DeclaredLength(head).value
    case _ => true
  }

  /** `w` is one answer, complete: its head, of `c` octets, and the declared number of body octets. */
  predicate Answer(w: Bytes, head: Head, c: nat) {
    && ParseHead(Response, w) == Complete(head, c)
    && DeclaredLength(head).Some? && |w| == c + DeclaredLength(head).value
  }

  /** After a complete answer there is nothing more to send. */
  lemma AnswerIsFinal(w: Bytes, head: Head, c: nat, chunk: Bytes)
    requires Answer(w, head, c) && chunk != []
    ensures !Within(w + chunk)
  {
    hide ParseHead, DeclaredLength;
    ParseStable(Response, w, chunk);
  }

  /** A reader that has the head of what is being sent sees the head that the whole answer has. */
  lemma WithinHead(w: Bytes, mid: nat, head: Head, c: nat)
    requires mid <= |w| && Within(w) && ParseHead(Response, w[..mid]) == Complete(head, c)
    requires DeclaredLength(head).Some?
    ensures ParseHead(Response, w) == Complete(head, c) && |w| <= c + DeclaredLength(head).value
  {
    hide ParseHead, DeclaredLength;
    var p, q := w[..mid], w[mid..];
    assert w == p + q;
    ParseStable(Response, p, q);
  }
}
