/** Discovery of the edge's addresses, and their rotation (`discover`, `resolve_srv`, `shuffled`). */
module Edge {
  import opened Options

  datatype Ip = Ipv4(v4: nat) | Ipv6(v6: nat)

  datatype IpVersionFilter = Auto | V4Only | V6Only

  datatype EdgeIpVersion = V4 | V6

  datatype EdgeAddr = EdgeAddr(ip: Ip, port: nat, version: EdgeIpVersion)

  function FromIp(ip: Ip, port: nat): EdgeAddr { EdgeAddr(ip, port, if ip.Ipv4? then V4 else V6) }

  predicate Matches(e: EdgeAddr, filter: IpVersionFilter) {
    match (filter, e.version)
    case (Auto, _) => true
    case (V4Only, V4) => true
    case (V6Only, V6) => true
    case _ => false
  }

  /** Which addresses a filter takes: all, or those of one family. */
  lemma MatchesByFamily(ip: Ip, port: nat, filter: IpVersionFilter)
    ensures Matches(FromIp(ip, port), filter)
       <==> filter == Auto || (filter == V4Only && ip.Ipv4?) || (filter == V6Only && ip.Ipv6?)
    ensures FromIp(ip, port).ip == ip && FromIp(ip, port).port == port && (FromIp(ip, port).version == V4 <==> ip.Ipv4?)
  {
  }

  /** An SRV record: its port, and what the lookup of its target gives, if it succeeds. */
  datatype Record = Record(port: nat, ips: Option<seq<Ip>>)

  /** What a resolver answers to the SRV lookup. */
  type Answer = Option<seq<Record>>

  // ── Resolving ──

  function Kept(ips: seq<Ip>, port: nat, filter: IpVersionFilter): seq<EdgeAddr>
    decreases |ips|
  {
    if ips == [] then []
    else
      var n := |ips| - 1;
      Kept(ips[..n], port, filter) + if Matches(FromIp(ips[n], port), filter) then [FromIp(ips[n], port)] else []
  }

  function OfRecord(r: Record, filter: IpVersionFilter): seq<EdgeAddr> {
    if r.ips.Some? then Kept(r.ips.value, r.port, filter) else []
  }

  function Resolved(records: seq<Record>, filter: IpVersionFilter): seq<EdgeAddr>
    decreases |records|
  {
    if records == [] then []
    else Resolved(records[..|records| - 1], filter) + OfRecord(records[|records| - 1], filter)
  }

  /** Targets whose lookup fails are skipped. */
  method ResolveSrv(answer: Answer, filter: IpVersionFilter) returns (r: Option<seq<EdgeAddr>>)
    ensures r == if answer.Some? then Some(Resolved(answer.value, filter)) else None
  {
    if answer.None? { return None; }
    var records := answer.value;
    var edges: seq<EdgeAddr> := [];
    for i := 0 to |records|
      invariant edges == Resolved(records[..i], filter)
    {
      assert records[..i + 1][..i] == records[..i];
      if records[i].ips.Some? { edges := PushMatching(edges, records[i].ips.value, records[i].port, filter); }
    }
    assert records[..|records|] == records;
    r := Some(edges);
  }

  /** The inner loop. */
  method PushMatching(edges: seq<EdgeAddr>, ips: seq<Ip>, port: nat, filter: IpVersionFilter) returns (r: seq<EdgeAddr>)
    ensures r == edges + Kept(ips, port, filter)
  {
    r := edges;
    for k := 0 to |ips|
      invariant r == edges + Kept(ips[..k], port, filter)
    {
      assert ips[..k + 1][..k] == ips[..k];
      var edge := FromIp(ips[k], port);
      if Matches(edge, filter) { r := r + [edge]; }
    }
    assert ips[..|ips|] == ips;
  }

  lemma {:induction false} KeptExactly(ips: seq<Ip>, port: nat, filter: IpVersionFilter, e: EdgeAddr)
    ensures e in Kept(ips, port, filter)
       <==> Matches(e, filter) && exists k :: 0 <= k < |ips| && e == FromIp(ips[k], port)
    decreases |ips|
  {
    if ips != [] {
      var n := |ips| - 1;
      KeptExactly(ips[..n], port, filter, e);
      if k :| 0 <= k < |ips| && e == FromIp(ips[k], port) {
        if k < n { assert ips[..n][k] == ips[k]; }
      }
    }
  }

  predicate Gives(r: Record, e: EdgeAddr) {
    r.ips.Some? && exists k :: 0 <= k < |r.ips.value| && e == FromIp(r.ips.value[k], r.port)
  }

  lemma ResolvedUnfolds(records: seq<Record>, filter: IpVersionFilter)
    ensures records == [] ==> Resolved(records, filter) == []
    ensures records != [] ==>
              var n := |records| - 1;
              Resolved(records, filter) == Resolved(records[..n], filter) + OfRecord(records[n], filter)
  {
  }

  /** Resolving gives exactly the addresses of the records that match. */
  lemma {:induction false} ResolvedExactly(records: seq<Record>, filter: IpVersionFilter, e: EdgeAddr)
    ensures e in Resolved(records, filter)
       <==> Matches(e, filter) && exists i :: 0 <= i < |records| && Gives(records[i], e)
    decreases |records|
  {
    hide Gives, Matches, OfRecord, Resolved;
    ResolvedUnfolds(records, filter);
    if records != [] {
      var n := |records| - 1;
      ResolvedExactly(records[..n], filter, e);
      RecordExactly(records[n], filter, e);
      if i :| 0 <= i < |records| && Gives(records[i], e) {
        if i < n { assert records[..n][i] == records[i]; }
      }
    }
  }

  lemma RecordExactly(r: Record, filter: IpVersionFilter, e: EdgeAddr)
    ensures e in OfRecord(r, filter) <==> Matches(e, filter) && Gives(r, e)
  {
    hide Matches, Kept;
    if r.ips.Some? { KeptExactly(r.ips.value, r.port, filter, e); }
  }

  /** Resolving goes through the records, and through the addresses of each, in order, and keeps each address that is
      wanted, as often as it comes. */
  lemma ResolvedInOrder(records: seq<Record>, port: nat, ips: seq<Ip>, ip: Ip, filter: IpVersionFilter)
    ensures Resolved([], filter) == []
    ensures Resolved(records + [Record(port, None)], filter) == Resolved(records, filter)
    ensures Resolved(records + [Record(port, Some([]))], filter) == Resolved(records, filter)
    ensures Resolved(records + [Record(port, Some(ips + [ip]))], filter)
         == Resolved(records + [Record(port, Some(ips))], filter)
            + if filter == Auto || (filter == V4Only && ip.Ipv4?) || (filter == V6Only && ip.Ipv6?)
              then [EdgeAddr(ip, port, if ip.Ipv4? then V4 else V6)] else []
  {
    hide Resolved, Kept, Matches;
    LastRecord(records, Record(port, None), filter);
    LastRecord(records, Record(port, Some([])), filter);
    LastRecord(records, Record(port, Some(ips)), filter);
    LastRecord(records, Record(port, Some(ips + [ip])), filter);
    KeptInOrder(ips, ip, port, filter);
    ResolvedUnfolds([], filter);
  }

  lemma LastRecord(records: seq<Record>, r: Record, filter: IpVersionFilter)
    ensures Resolved(records + [r], filter) == Resolved(records, filter) + OfRecord(r, filter)
  {
    hide OfRecord;
    assert (records + [r])[..|records|] == records;
  }

  lemma KeptInOrder(ips: seq<Ip>, ip: Ip, port: nat, filter: IpVersionFilter)
    ensures Kept([], port, filter) == []
    ensures Kept(ips + [ip], port, filter)
         == Kept(ips, port, filter)
            + if filter == Auto || (filter == V4Only && ip.Ipv4?) || (filter == V6Only && ip.Ipv6?)
              then [EdgeAddr(ip, port, if ip.Ipv4? then V4 else V6)] else []
  {
    hide Matches;
    MatchesByFamily(ip, port, filter);
    assert (ips + [ip])[..|ips|] == ips;
  }

  // ── Discovery ──

  /** The system resolver's edges, or else those of the DoT resolver, or an error. */
  function Discovery(primary: Answer, dot: Answer, filter: IpVersionFilter): Option<seq<EdgeAddr>> {
    if primary.Some? && Resolved(primary.value, filter) != [] then Some(Resolved(primary.value, filter))
    else if dot.Some? && Resolved(dot.value, filter) != [] then Some(Resolved(dot.value, filter))
    else None
  }

  method Discover(primary: Answer, dot: Answer, filter: IpVersionFilter) returns (r: Option<seq<EdgeAddr>>)
    ensures r == Discovery(primary, dot, filter)
  {
    var first := ResolveSrv(primary, filter);
    if first.Some? && first.value != [] { return first; }
    var second := ResolveSrv(dot, filter);
    if second.None? || second.value == [] { return None; }
    return second;
  }

  predicate Offers(a: Answer, e: EdgeAddr) {
    a.Some? && exists i :: 0 <= i < |a.value| && Gives(a.value[i], e)
  }

  /** Discovery succeeds exactly when one of the resolvers offers a matching address; then it gives some, and
      only matching ones that were offered. */
  lemma DiscoverySound(primary: Answer, dot: Answer, filter: IpVersionFilter)
    ensures Discovery(primary, dot, filter).Some? <==>
              exists e :: Matches(e, filter) && (Offers(primary, e) || Offers(dot, e))
    ensures Discovery(primary, dot, filter).Some? ==>
              var edges := Discovery(primary, dot, filter).value;
              edges != [] && forall e <- edges :: Matches(e, filter) && (Offers(primary, e) || Offers(dot, e))
  {
    hide Matches, Gives, Resolved;
    forall e
      ensures primary.Some? ==> (e in Resolved(primary.value, filter) <==> Matches(e, filter) && Offers(primary, e))
      ensures dot.Some? ==> (e in Resolved(dot.value, filter) <==> Matches(e, filter) && Offers(dot, e))
    {
      if primary.Some? { ResolvedExactly(primary.value, filter, e); }
      if dot.Some? { ResolvedExactly(dot.value, filter, e); }
    }
    if Discovery(primary, dot, filter).Some? {
      assert Discovery(primary, dot, filter).value[0] in Discovery(primary, dot, filter).value;
    }
  }

  /** An address that the resolver gives for some record, and that is of a family that the filter takes. */
  ghost predicate Wanted(a: Answer, filter: IpVersionFilter, e: EdgeAddr) {
    && (filter == Auto || (filter == V4Only && e.ip.Ipv4?) || (filter == V6Only && e.ip.Ipv6?))
    && e.version == (if e.ip.Ipv4? then V4 else V6)
    && a.Some? && exists i :: 0 <= i < |a.value| && Names(a.value[i], e)
  }

  /** The record has the address's port, and its target the address. */
  predicate Names(r: Record, e: EdgeAddr) { r.port == e.port && r.ips.Some? && e.ip in r.ips.value }

  lemma GivesIsNames(r: Record, e: EdgeAddr)
    ensures Gives(r, e) <==> Names(r, e) && e.version == if e.ip.Ipv4? then V4 else V6
  {
    if Names(r, e) {
      var k :| 0 <= k < |r.ips.value| && r.ips.value[k] == e.ip;
    }
  }

  lemma WantedIsResolved(a: Answer, filter: IpVersionFilter, e: EdgeAddr)
    requires a.Some?
    ensures e in Resolved(a.value, filter) <==> Wanted(a, filter, e)
  {
    hide Gives, Names, Resolved;
    ResolvedExactly(a.value, filter, e);
    forall i | 0 <= i < |a.value|
      ensures Gives(a.value[i], e) <==> Names(a.value[i], e) && e.version == if e.ip.Ipv4? then V4 else V6
    {
      GivesIsNames(a.value[i], e);
    }
  }

  /** The system resolver goes first: if it gives any address that is wanted, the result is exactly those that it gives;
      only if it gives none, the result is exactly those of the fallback; and if that gives none either, there is an
      error. */
  lemma DiscoveryInTurn(primary: Answer, dot: Answer, filter: IpVersionFilter)
    ensures var r := Discovery(primary, dot, filter);
            && ((exists e :: Wanted(primary, filter, e)) ==>
                  r.Some? && forall e :: e in r.value <==> Wanted(primary, filter, e))
            && (!(exists e :: Wanted(primary, filter, e)) && (exists e :: Wanted(dot, filter, e)) ==>
                  r.Some? && forall e :: e in r.value <==> Wanted(dot, filter, e))
            && (!(exists e :: Wanted(primary, filter, e)) && !(exists e :: Wanted(dot, filter, e)) ==> r == None)
  {
    hide Wanted, Resolved;
    WantedAll(primary, filter);
    WantedAll(dot, filter);
  }

  lemma WantedAll(a: Answer, filter: IpVersionFilter)
    ensures a.Some? ==> forall e :: e in Resolved(a.value, filter) <==> Wanted(a, filter, e)
    ensures (exists e :: Wanted(a, filter, e)) <==> a.Some? && Resolved(a.value, filter) != []
  {
    if a.Some? {
      forall e ensures e in Resolved(a.value, filter) <==> Wanted(a, filter, e) { WantedIsResolved(a, filter, e); }
      if Resolved(a.value, filter) != [] { assert Resolved(a.value, filter)[0] in Resolved(a.value, filter); }
    }
  }

  // ── Rotation ──

  function Rotated(edges: seq<EdgeAddr>, offset: nat): seq<EdgeAddr>
    requires offset <= |edges|
  {
    edges[offset..] + edges[..offset]
  }

  /** `hash` is what the hash of the clock comes to. */
  method Shuffled(input: seq<EdgeAddr>, hash: nat) returns (out: seq<EdgeAddr>)
    ensures out == Rotated(input, Offset(input, hash))
  {
    var n := if |input| > 1 then |input| else 1;
    var offset := hash % n;
    out := [];
    out := out + input[offset..];
    out := out + input[..offset];
  }

  function Offset(edges: seq<EdgeAddr>, hash: nat): (o: nat)
    ensures o <= |edges| && (edges != [] ==> o < |edges|)
  {
    if |edges| > 1 then hash % |edges| else 0
  }

  /** The first address out is the one that the hash picks. */
  lemma HashPicksFirst(edges: seq<EdgeAddr>, hash: nat)
    requires edges != []
    ensures Rotated(edges, Offset(edges, hash))[0] == edges[hash % |edges|]
  {
    if |edges| == 1 { assert hash % 1 == 0; }
  }

  /** A rotation has the same addresses, each as often, in the same cyclic order. */
  ghost predicate IsRotation(a: seq<EdgeAddr>, b: seq<EdgeAddr>) {
    && |a| == |b| && multiset(a) == multiset(b)
    && exists o: nat :: TurnedBy(a, b, o)
  }

  ghost predicate TurnedBy(a: seq<EdgeAddr>, b: seq<EdgeAddr>, o: nat) {
    && o <= |a| == |b|
    && forall k | 0 <= k < |a| :: b[k] == a[if k + o < |a| then k + o else k + o - |a|]
  }

  lemma RotatedIsRotation(edges: seq<EdgeAddr>, offset: nat)
    requires offset <= |edges|
    ensures IsRotation(edges, Rotated(edges, offset))
  {
    var b := Rotated(edges, offset);
    assert edges == edges[..offset] + edges[offset..];
    assert multiset(edges) == multiset(b);
    forall k | 0 <= k < |edges|
      ensures b[k] == edges[if k + offset < |edges| then k + offset else k + offset - |edges|]
    {
      if k + offset < |edges| {
        assert b[k] == edges[offset..][k];
      } else {
        assert b[k] == edges[..offset][k - (|edges| - offset)];
      }
    }
    assert TurnedBy(edges, b, offset);
  }
}
