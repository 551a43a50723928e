/** Octet strings and the few text operations the proxy uses on them.

    An octet is a `char`, so that a header name or a head can be written as a
    string literal; a text in UTF-8 is the sequence of its octets. */
module Octets {
  import opened Options

  type Bytes = seq<char>

  const TWO_64: nat := 0x1_0000_0000_0000_0000

  function LowerChar(c: char): char {
    if 'A' <= c <= 'Z' then (c as int + 32) as char else c
  }

  /** `to_ascii_lowercase` */
  function Lower(s: Bytes): (r: Bytes)
    ensures |r| == |s|
  {
    seq(|s|, i requires 0 <= i < |s| => LowerChar(s[i]))
  }

  predicate At(hay: Bytes, i: nat, needle: Bytes) {
    i + |needle| <= |hay| && hay[i..i + |needle|] == needle
  }

  predicate Contains(hay: Bytes, needle: Bytes) {
    exists i :: 0 <= i <= |hay| - |needle| && At(hay, i, needle)
  }

  /** Position of the first `c` in `s`. */
  function IndexOf(s: Bytes, c: char): (r: Option<nat>)
    ensures r.Some? ==> r.value < |s| && s[r.value] == c && c !in s[..r.value]
    ensures r.None? ==> c !in s
  {
    if s == [] then None
    else if s[0] == c then Some(0)
    else match IndexOf(s[1..], c)
      case None => None
      case Some(i) => assert s[..i + 1] == [s[0]] + s[1..][..i]; Some(i + 1)
  }

  lemma IndexOfSplit(a: Bytes, c: char, b: Bytes)
    requires c !in a
    ensures IndexOf(a + [c] + b, c) == Some(|a|)
  {
    var s := a + [c] + b;
    assert s[|a|] == c;
    forall k | 0 <= k < |a| ensures s[k] != c {
      assert s[k] == a[k];
    }
    forall k | |a| < k <= |s| ensures c in s[..k] {
      assert s[..k][|a|] == c;
    }
  }

  /** Concatenation of pieces. */
  function Flat(pieces: seq<Bytes>): Bytes {
    if pieces == [] then [] else pieces[0] + Flat(pieces[1..])
  }

  lemma {:induction false} FlatSnoc(pieces: seq<Bytes>, last: Bytes)
    ensures Flat(pieces + [last]) == Flat(pieces) + last
  {
    if pieces == [] {
      assert Flat([last]) == last + Flat([]);
    } else {
      FlatSnoc(pieces[1..], last);
      assert (pieces + [last])[1..] == pieces[1..] + [last];
    }
  }

  lemma {:induction false} FlatSplit(pieces: seq<Bytes>, n: nat)
    requires n <= |pieces|
    ensures Flat(pieces) == Flat(pieces[..n]) + Flat(pieces[n..])
    decreases n
  {
    if n == 0 {
      assert pieces[0..] == pieces;
    } else {
      FlatSplit(pieces[1..], n - 1);
      assert pieces[1..][..n - 1] == pieces[..n][1..] && pieces[1..][n - 1..] == pieces[n..];
    }
  }

  predicate IsDigit(c: char) { '0' <= c <= '9' }

  predicate AllDigits(s: Bytes) { forall c | c in s :: IsDigit(c) }

  function DigitValue(c: char): nat
    requires IsDigit(c)
  {
    c as int - '0' as int
  }

  function DigitsValue(s: Bytes): nat
    requires AllDigits(s)
  {
    if s == [] then 0 else 10 * DigitsValue(s[..|s| - 1]) + DigitValue(s[|s| - 1])
  }

  /** The numerals `1*DIGIT` of RFC 9110 section 8.6. */
  predicate IsNumeral(s: Bytes) { s != [] && AllDigits(s) }

  /** Rust's `str::parse::<u64>`: one optional `+`, at least one digit, no overflow. */
  function ParseU64(s: Bytes): Option<nat> {
    var digits := if s != [] && s[0] == '+' then s[1..] else s;
    if IsNumeral(digits) && DigitsValue(digits) < TWO_64 then Some(DigitsValue(digits)) else None
  }
}
