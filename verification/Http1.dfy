/** HTTP/1.1 message heads (RFC 9112 sections 2 to 5), parsed one line at a time
    from a growing buffer, as the `httparse` crate does for the proxy and as the
    origin does for the heads that the proxy prints. */
module Http1 {
  import opened Options
  import opened Octets

  datatype Field = Field(name: Bytes, value: Bytes)

  datatype Kind = Request | Response

  datatype Start =
    | RequestLine(method_: Bytes, target: Bytes)
    | StatusLine(status: nat)

  datatype Head = Head(start: Start, fields: seq<Field>)

  datatype Parsed =
    | Partial
    | Bad
    | Complete(head: Head, consumed: nat)

  /** `httparse::EMPTY_HEADER; 64` */
  const MAX_RESPONSE_FIELDS := 64

  const CRLF: Bytes := "\r\n"

  // ── Character classes ──

  /** `tchar` of RFC 9110 section 5.6.2 */
  predicate TokenChar(c: char) {
    c == '!' || '#' <= c <= '\'' || c == '*' || c == '+' || c == '-' || c == '.' || IsDigit(c)
    || 'A' <= c <= 'Z' || '^' <= c <= 'z' || c == '|' || c == '~'
  }

  predicate Token(s: Bytes) { s != [] && forall c | c in s :: TokenChar(c) }

  predicate TextChar(c: char) { c == '\t' || (' ' <= c && c as int != 127) }

  predicate FieldText(s: Bytes) { forall c | c in s :: TextChar(c) }

  predicate Target(s: Bytes) { s != [] && forall c | c in s :: '!' <= c && c as int != 127 }

  predicate Ows(c: char) { c == ' ' || c == '\t' }

  predicate Trimmed(s: Bytes) { s != [] ==> !Ows(s[0]) && !Ows(s[|s| - 1]) }

  function Trim(s: Bytes): (r: Bytes)
    ensures Trimmed(r)
  {
    if s != [] && Ows(s[0]) then Trim(s[1..])
    else if s != [] && Ows(s[|s| - 1]) then Trim(s[..|s| - 1])
    else s
  }

  // ── Parsing ──

  /** Position of the first CRLF at or after `from`. */
  function LineEnd(b: Bytes, from: nat): (r: Option<nat>)
    requires from <= |b|
    ensures r.Some? ==> from <= r.value && r.value + 2 <= |b| && b[r.value..r.value + 2] == CRLF
    decreases |b| - from
  {
    if from + 2 > |b| then None
    else if b[from] == '\r' && b[from + 1] == '\n' then Some(from)
    else LineEnd(b, from + 1)
  }

  function ParseStart(kind: Kind, line: Bytes): Option<Start> {
    match kind
    case Request =>
      (match IndexOf(line, ' ')
       case None => None
       case Some(i) =>
         var rest := line[i + 1..];
         match IndexOf(rest, ' ')
         case None => None
         case Some(j) =>
           if Token(line[..i]) && Target(rest[..j]) && rest[j + 1..] == "HTTP/1.1"
           then Some(RequestLine(line[..i], rest[..j]))
           else None)
    case Response =>
      if |line| >= 12 && (line[..9] == "HTTP/1.1 " || line[..9] == "HTTP/1.0 ")
         && AllDigits(line[9..12]) && (|line| == 12 || line[12] == ' ') && FieldText(line[12..])
      then Some(StatusLine(DigitsValue(line[9..12])))
      else None
  }

  function ParseField(line: Bytes): Option<Field> {
    match IndexOf(line, ':')
    case None => None
    case Some(i) =>
      if Token(line[..i]) && FieldText(line[i + 1..])
      then Some(Field(line[..i], Trim(line[i + 1..])))
      else None
  }

  /** What the next line of a field section turns out to be; `next` is where the line after it begins. */
  datatype Line = Unfinished | Malformed | Blank(next: nat) | FieldLine(field: Field, next: nat)

  function NextLine(kind: Kind, b: Bytes, from: nat, count: nat): (r: Line)
    requires from <= |b|
    ensures r.Blank? || r.FieldLine? ==> from + 2 <= r.next <= |b|
  {
    match LineEnd(b, from)
    case None => Unfinished
    case Some(e) =>
      if e == from then Blank(e + 2)
      else if kind.Response? && count >= MAX_RESPONSE_FIELDS then Malformed
      else match ParseField(b[from..e])
        case None => Malformed
        case Some(f) => FieldLine(f, e + 2)
  }

  /** The field lines from `from` on, up to and including the empty line. */
  function ParseFields(kind: Kind, start: Start, b: Bytes, from: nat, acc: seq<Field>): (r: Parsed)
    requires from <= |b|
    ensures r.Complete? ==> from + 2 <= r.consumed <= |b|
    decreases |b| - from
  {
    match NextLine(kind, b, from, |acc|)
    case Unfinished => Partial
    case Malformed => Bad
    case Blank(next) => Complete(Head(start, acc), next)
    case FieldLine(f, next) => ParseFields(kind, start, b, next, acc + [f])
  }

  function ParseHead(kind: Kind, b: Bytes): (r: Parsed)
    ensures r.Complete? ==> 0 < r.consumed <= |b|
  {
    match LineEnd(b, 0)
    case None => Partial
    case Some(e) =>
      match ParseStart(kind, b[..e])
      case None => Bad
      case Some(start) => ParseFields(kind, start, b, e + 2, [])
  }

  // ── A verdict never changes as the buffer grows ──

  lemma {:induction false} LineEndStable(p: Bytes, q: Bytes, from: nat)
    requires from <= |p| && LineEnd(p, from).Some?
    ensures LineEnd(p + q, from) == LineEnd(p, from)
    decreases |p| - from
  {
    if !(p[from] == '\r' && p[from + 1] == '\n') {
      LineEndStable(p, q, from + 1);
    }
  }

  lemma NextLineStable(kind: Kind, p: Bytes, q: Bytes, from: nat, count: nat)
    requires from <= |p| && !NextLine(kind, p, from, count).Unfinished?
    ensures NextLine(kind, p + q, from, count) == NextLine(kind, p, from, count)
  {
    hide LineEnd, ParseField;
    LineEndStable(p, q, from);
    var e := LineEnd(p, from).value;
    assert (p + q)[from..e] == p[from..e];
  }

  lemma {:induction false} FieldsStable(kind: Kind, start: Start, p: Bytes, q: Bytes, from: nat, acc: seq<Field>)
    requires from <= |p| && !ParseFields(kind, start, p, from, acc).Partial?
    ensures ParseFields(kind, start, p + q, from, acc) == ParseFields(kind, start, p, from, acc)
    decreases |p| - from
  {
    hide NextLine, LineEnd;
    NextLineStable(kind, p, q, from, |acc|);
    match NextLine(kind, p, from, |acc|)
    case FieldLine(f, next) => FieldsStable(kind, start, p, q, next, acc + [f]);
    case _ =>
  }

  lemma ParseStable(kind: Kind, p: Bytes, q: Bytes)
    requires !ParseHead(kind, p).Partial?
    ensures ParseHead(kind, p + q) == ParseHead(kind, p)
  {
    hide LineEnd, NextLine, ParseStart, ParseFields;
    LineEndStable(p, q, 0);
    var e := LineEnd(p, 0).value;
    assert (p + q)[..e] == p[..e];
    if ParseStart(kind, p[..e]).Some? {
      FieldsStable(kind, ParseStart(kind, p[..e]).value, p, q, e + 2, []);
    }
  }

  // ── A complete head depends on its own octets only ──

  lemma {:induction false} LineEndCut(p: Bytes, q: Bytes, from: nat)
    requires from <= |p| && LineEnd(p + q, from).Some? && LineEnd(p + q, from).value + 2 <= |p|
    ensures LineEnd(p, from) == LineEnd(p + q, from)
    decreases |p| - from
  {
    if !(p[from] == '\r' && p[from + 1] == '\n') {
      LineEndCut(p, q, from + 1);
    }
  }

  lemma NextLineCut(kind: Kind, p: Bytes, q: Bytes, from: nat, count: nat)
    requires from <= |p|
    requires var l := NextLine(kind, p + q, from, count); (l.Blank? || l.FieldLine?) && l.next <= |p|
    ensures NextLine(kind, p, from, count) == NextLine(kind, p + q, from, count)
  {
    hide LineEnd, ParseField;
    LineEndCut(p, q, from);
    NextLineStable(kind, p, q, from, count);
  }

  lemma {:induction false} FieldsCut(kind: Kind, start: Start, p: Bytes, q: Bytes, from: nat, acc: seq<Field>)
    requires from <= |p| && ParseFields(kind, start, p + q, from, acc).Complete?
    requires ParseFields(kind, start, p + q, from, acc).consumed <= |p|
    ensures !ParseFields(kind, start, p, from, acc).Partial?
    decreases |p| - from
  {
    hide NextLine, LineEnd;
    NextLineCut(kind, p, q, from, |acc|);
    match NextLine(kind, p + q, from, |acc|)
    case FieldLine(f, next) => FieldsCut(kind, start, p, q, next, acc + [f]);
    case _ =>
  }

  lemma ParseCut(kind: Kind, p: Bytes, q: Bytes)
    requires ParseHead(kind, p + q).Complete? && ParseHead(kind, p + q).consumed <= |p|
    ensures ParseHead(kind, p) == ParseHead(kind, p + q)
  {
    hide LineEnd, NextLine, ParseStart, ParseFields;
    var e := LineEnd(p + q, 0).value;
    LineEndCut(p, q, 0);
    assert (p + q)[..e] == p[..e];
    FieldsCut(kind, ParseStart(kind, p[..e]).value, p, q, e + 2, []);
    ParseStable(kind, p, q);
  }

  /** A buffer that holds a head is cut anywhere: before the end of the head the parser asks
      for more, and from there on it gives the head. */
  lemma ParseOfPrefix(kind: Kind, p: Bytes, q: Bytes)
    requires ParseHead(kind, p + q).Complete?
    ensures ParseHead(kind, p) == if |p| < ParseHead(kind, p + q).consumed then Partial else ParseHead(kind, p + q)
  {
    hide ParseHead;
    if |p| < ParseHead(kind, p + q).consumed {
      if !ParseHead(kind, p).Partial? {
        ParseStable(kind, p, q);
      }
    } else {
      ParseCut(kind, p, q);
    }
  }

  // ── Printing field lines, and reading them back ──

  function PrintField(f: Field): Bytes { f.name + ": " + f.value + CRLF }

  function FieldLines(fs: seq<Field>): seq<Bytes> { seq(|fs|, i requires 0 <= i < |fs| => PrintField(fs[i])) }

  function PrintFields(fs: seq<Field>): Bytes { Flat(FieldLines(fs)) }

  predicate PrintableField(f: Field) { Token(f.name) && FieldText(f.value) && Trimmed(f.value) }

  lemma PrintFieldsSnoc(fs: seq<Field>, f: Field)
    ensures PrintFields(fs + [f]) == PrintFields(fs) + PrintField(f)
  {
    assert FieldLines(fs + [f]) == FieldLines(fs) + [PrintField(f)];
    FlatSnoc(FieldLines(fs), PrintField(f));
  }

  lemma PrintFieldsCons(fs: seq<Field>)
    requires fs != []
    ensures PrintFields(fs) == PrintField(fs[0]) + PrintFields(fs[1..])
  {
    assert FieldLines(fs)[1..] == FieldLines(fs[1..]);
  }

  lemma {:induction false} LineEndAt(b: Bytes, from: nat, e: nat)
    requires from <= e && e + 2 <= |b|
    requires '\r' !in b[from..e] && b[e] == '\r' && b[e + 1] == '\n'
    ensures LineEnd(b, from) == Some(e)
    decreases e - from
  {
    if from < e {
      assert b[from] == b[from..e][0];
      assert b[from + 1..e] == b[from..e][1..];
      LineEndAt(b, from + 1, e);
    }
  }

  lemma TrimOnce(s: Bytes)
    requires Trimmed(s)
    ensures Trim([' '] + s) == s
  {
    assert ([' '] + s)[1..] == s;
  }

  lemma ParsePrintedField(f: Field, line: Bytes)
    requires PrintableField(f) && line == f.name + [':'] + ([' '] + f.value)
    ensures ParseField(line) == Some(f) && '\r' !in line
  {
    IndexOfSplit(f.name, ':', [' '] + f.value);
    assert line[..|f.name|] == f.name;
    assert line[|f.name| + 1..] == [' '] + f.value;
    TrimOnce(f.value);
  }

  lemma AtSplit(b: Bytes, i: nat, x: Bytes, y: Bytes)
    requires At(b, i, x + y)
    ensures At(b, i, x) && At(b, i + |x|, y)
  {
    assert b[i..i + |x|] == b[i..i + |x + y|][..|x|];
    assert b[i + |x|..i + |x| + |y|] == b[i..i + |x + y|][|x|..];
  }

  /** A line without a carriage return, standing at `from` and ended by CRLF. */
  lemma LineAt(b: Bytes, from: nat, line: Bytes)
    requires '\r' !in line && At(b, from, line + CRLF)
    ensures LineEnd(b, from) == Some(from + |line|) && b[from..from + |line|] == line
  {
    var e := from + |line|;
    AtSplit(b, from, line, CRLF);
    assert b[e] == b[e..e + 2][0] && b[e + 1] == b[e..e + 2][1];
    LineEndAt(b, from, e);
  }

  lemma PrintFieldIsLine(f: Field, line: Bytes)
    requires line == f.name + [':'] + ([' '] + f.value)
    ensures PrintField(f) == line + CRLF && line != []
  {
    assert ": " == [':'] + [' '];
  }

  lemma NextLineOf(kind: Kind, b: Bytes, from: nat, count: nat, e: nat, f: Field)
    requires from < e <= |b| && LineEnd(b, from) == Some(e) && ParseField(b[from..e]) == Some(f)
    requires kind.Response? ==> count < MAX_RESPONSE_FIELDS
    ensures NextLine(kind, b, from, count) == FieldLine(f, e + 2)
  {
    hide LineEnd, ParseField;
  }

  /** A printed field line read at `from`. */
  lemma NextLinePrinted(kind: Kind, b: Bytes, from: nat, f: Field, count: nat)
    requires PrintableField(f) && (kind.Response? ==> count < MAX_RESPONSE_FIELDS)
    requires At(b, from, PrintField(f))
    ensures NextLine(kind, b, from, count) == FieldLine(f, from + |PrintField(f)|)
  {
    hide PrintField, ParseField, PrintableField, LineEnd, NextLine;
    var line := f.name + [':'] + ([' '] + f.value);
    PrintFieldIsLine(f, line);
    ParsePrintedField(f, line);
    hide At;
    LineAt(b, from, line);
    NextLineOf(kind, b, from, count, from + |line|, f);
  }

  lemma NextLineEmpty(kind: Kind, b: Bytes, from: nat)
    requires At(b, from, CRLF)
    ensures forall count: nat :: NextLine(kind, b, from, count) == Blank(from + 2)
  {
    assert b[from] == CRLF[0] && b[from + 1] == CRLF[1];
  }

  /** The lines of `fs` stand in `b` from `from` on, and the section ends with an empty line at `end`. */
  ghost predicate Printed(b: Bytes, from: nat, fs: seq<Field>, end: nat) {
    At(b, from, PrintFields(fs)) && end == from + |PrintFields(fs)| && At(b, end, CRLF)
  }

  lemma PrintedFirst(kind: Kind, b: Bytes, from: nat, fs: seq<Field>, end: nat, count: nat)
    requires kind.Response? ==> count < MAX_RESPONSE_FIELDS
    requires fs != [] && PrintableField(fs[0]) && Printed(b, from, fs, end)
    ensures var next := from + |PrintField(fs[0])|;
            NextLine(kind, b, from, count) == FieldLine(fs[0], next) && Printed(b, next, fs[1..], end)
  {
    hide PrintField, PrintFields, NextLine;
    PrintFieldsCons(fs);
    AtSplit(b, from, PrintField(fs[0]), PrintFields(fs[1..]));
    NextLinePrinted(kind, b, from, fs[0], count);
  }

  lemma PrintedNone(kind: Kind, b: Bytes, from: nat, end: nat)
    requires Printed(b, from, [], end)
    ensures end == from <= |b| && forall count: nat :: NextLine(kind, b, from, count) == Blank(end + 2)
  {
    hide NextLine;
    assert PrintFields([]) == [];
    NextLineEmpty(kind, b, from);
  }

  lemma PrintedInside(b: Bytes, from: nat, fs: seq<Field>, end: nat)
    requires Printed(b, from, fs, end)
    ensures from <= |b|
  {
  }

  lemma {:induction false} ParsePrintedFields(kind: Kind, start: Start, b: Bytes, from: nat, acc: seq<Field>,
                                              fs: seq<Field>, end: nat, all: seq<Field>)
    requires kind.Response? ==> |all| <= MAX_RESPONSE_FIELDS
    requires forall f | f in fs :: PrintableField(f)
    requires Printed(b, from, fs, end) && all == acc + fs
    ensures from <= |b| && ParseFields(kind, start, b, from, acc) == Complete(Head(start, all), end + 2)
    decreases |fs|
  {
    hide NextLine, Printed, PrintField, PrintableField;
    PrintedInside(b, from, fs, end);
    if fs == [] {
      PrintedNone(kind, b, from, end);
    } else {
      PrintedFirst(kind, b, from, fs, end, |acc|);
      ParsePrintedFields(kind, start, b, from + |PrintField(fs[0])|, acc + [fs[0]], fs[1..], end, all);
    }
  }

  /** A start line, field lines and the empty line. */
  function PrintHead(line: Bytes, fs: seq<Field>): Bytes { line + CRLF + (PrintFields(fs) + CRLF) }

  lemma PrintedParts(b: Bytes, line: Bytes, fs: seq<Field>, after: Bytes)
    requires b == PrintHead(line, fs) + after
    ensures At(b, 0, line + CRLF)
    ensures Printed(b, |line| + 2, fs, |line| + 2 + |PrintFields(fs)|)
  {
    assert At(b, 0, PrintHead(line, fs));
    AtSplit(b, 0, line + CRLF, PrintFields(fs) + CRLF);
    AtSplit(b, |line| + 2, PrintFields(fs), CRLF);
  }

  /** Printer and parser agree: whatever follows, a printed head parses to its start line and fields. */
  lemma PrintedHeadParses(kind: Kind, line: Bytes, start: Start, fs: seq<Field>, after: Bytes)
    requires ParseStart(kind, line) == Some(start) && '\r' !in line
    requires forall f | f in fs :: PrintableField(f)
    requires kind.Response? ==> |fs| <= MAX_RESPONSE_FIELDS
    ensures ParseHead(kind, PrintHead(line, fs) + after) == Complete(Head(start, fs), |PrintHead(line, fs)|)
  {
    hide ParseStart, LineEnd, At, Printed, PrintFields, NextLine, ParseFields;
    var b := PrintHead(line, fs) + after;
    PrintedParts(b, line, fs, after);
    LineAt(b, 0, line);
    ParsePrintedFields(kind, start, b, |line| + 2, [], fs, |line| + 2 + |PrintFields(fs)|, fs);
  }

  /** A status line of either version gives its three digits, whatever reason it states. */
  lemma StatusParses(version: Bytes, x: char, y: char, z: char, reason: Bytes)
    requires version == "HTTP/1.1 " || version == "HTTP/1.0 "
    requires IsDigit(x) && IsDigit(y) && IsDigit(z)
    requires reason == [] || (reason[0] == ' ' && FieldText(reason))
    ensures ParseStart(Response, version + [x, y, z] + reason)
         == Some(StatusLine(100 * (x as int - '0' as int) + 10 * (y as int - '0' as int) + (z as int - '0' as int)))
  {
    var line := version + [x, y, z] + reason;
    assert |version| == 9;
    assert line[..9] == version && line[9..12] == [x, y, z] && line[12..] == reason;
    ThreeDigits(x, y, z);
    hide DigitsValue;
  }

  lemma ThreeDigits(x: char, y: char, z: char)
    requires IsDigit(x) && IsDigit(y) && IsDigit(z)
    ensures AllDigits([x, y, z])
    ensures DigitsValue([x, y, z]) == 100 * DigitValue(x) + 10 * DigitValue(y) + DigitValue(z)
  {
    assert [x, y, z][..2] == [x, y] && [x, y][..1] == [x] && [x][..0] == [];
    assert DigitsValue([x]) == DigitValue(x);
    assert DigitsValue([x, y]) == 10 * DigitsValue([x]) + DigitValue(y);
  }

  lemma {:induction false} TooManyPrinted(start: Start, b: Bytes, from: nat, acc: seq<Field>, fs: seq<Field>, end: nat)
    requires |acc| <= 64 < |acc| + |fs| && Printed(b, from, fs, end)
    requires forall f | f in fs :: PrintableField(f)
    ensures from <= |b| && ParseFields(Response, start, b, from, acc) == Bad
    decreases |fs|
  {
    hide NextLine, Printed, PrintField, PrintableField;
    PrintedInside(b, from, fs, end);
    if |acc| == 64 {
      NextLineTooMany(b, from, fs, end);
    } else {
      PrintedFirst(Response, b, from, fs, end, |acc|);
      TooManyPrinted(start, b, from + |PrintField(fs[0])|, acc + [fs[0]], fs[1..], end);
    }
  }

  lemma NextLineTooMany(b: Bytes, from: nat, fs: seq<Field>, end: nat)
    requires fs != [] && PrintableField(fs[0]) && Printed(b, from, fs, end) && from <= |b|
    ensures NextLine(Response, b, from, 64) == Malformed
  {
    hide PrintField, PrintFields, ParseField, PrintableField, LineEnd;
    var f := fs[0];
    var line := f.name + [':'] + ([' '] + f.value);
    PrintFieldIsLine(f, line);
    PrintFieldsCons(fs);
    AtSplit(b, from, PrintField(f), PrintFields(fs[1..]));
    ParsePrintedField(f, line);
    LineAt(b, from, line);
  }

  /** A response head of more than 64 fields is refused. */
  lemma TooManyFields(line: Bytes, start: Start, fs: seq<Field>, after: Bytes)
    requires ParseStart(Response, line) == Some(start) && '\r' !in line && 64 < |fs|
    requires forall f | f in fs :: PrintableField(f)
    ensures ParseHead(Response, PrintHead(line, fs) + after) == Bad
  {
    hide ParseStart, LineEnd, At, Printed, PrintFields, NextLine, ParseFields, PrintableField;
    var b := PrintHead(line, fs) + after;
    PrintedParts(b, line, fs, after);
    LineAt(b, 0, line);
    TooManyPrinted(start, b, |line| + 2, [], fs, |line| + 2 + |PrintFields(fs)|);
  }
}
