/** The length-prefixed message a fingerprint is computed over, and the decoder that shows nothing is lost in it. */
module Fingerprint {
  import opened Basics

  newtype byte = x: int | 0 <= x < 256

  type bytes = seq<byte>

  const ZERO: byte := 48
  const COLON: byte := 58
  const BAR: byte := 124

  function Digit(d: int): byte
    requires 0 <= d < 10
  {
    ZERO + d as byte
  }

  function Decimal(n: nat): bytes {
    if n < 10 then [Digit(n)] else Decimal(n / 10) + [Digit(n % 10)]
  }

  function Field(item: bytes): bytes {
    Decimal(|item|) + [COLON] + item + [BAR]
  }

  function Canonicalize(items: seq<bytes>): bytes {
    if items == [] then [] else Field(items[0]) + Canonicalize(items[1..])
  }

  // ----- reading it back -----

  predicate IsDigit(b: byte) {
    ZERO <= b < COLON
  }

  predicate AllDigits(ds: bytes) {
    forall i :: 0 <= i < |ds| ==> IsDigit(ds[i])
  }

  /** A number as `Decimal` writes it: at least one digit and no leading zero. */
  predicate IsNumeral(ds: bytes) {
    ds != [] && AllDigits(ds) && (|ds| > 1 ==> ds[0] != ZERO)
  }

  function ValueOf(ds: bytes): nat
    requires AllDigits(ds)
  {
    if ds == [] then 0 else 10 * ValueOf(ds[..|ds| - 1]) + (ds[|ds| - 1] - ZERO) as int
  }

  function IndexOf(bs: bytes, b: byte): nat
    ensures IndexOf(bs, b) <= |bs|
  {
    if bs == [] || bs[0] == b then 0 else 1 + IndexOf(bs[1..], b)
  }

  /** The first field of an encoding and what follows it. */
  function TakeField(bs: bytes): Option<(bytes, bytes)> {
    var k := IndexOf(bs, COLON);
    if k == |bs| || !IsNumeral(bs[..k]) then None
    else
      var n := ValueOf(bs[..k]);
      if k + 1 + n >= |bs| || bs[k + 1 + n] != BAR then None
      else Some((bs[k + 1..k + 1 + n], bs[k + n + 2..]))
  }

  lemma TakeFieldShrinks(bs: bytes)
    ensures TakeField(bs).Some? ==> |TakeField(bs).value.1| < |bs|
  {
  }

  function Decode(bs: bytes): Option<seq<bytes>>
    decreases |bs|
  {
    if bs == [] then Some([])
    else
      var first := TakeField(bs);
      if first.None? then None
      else
        TakeFieldShrinks(bs);
        var rest := Decode(first.value.1);
        if rest.None? then None else Some([first.value.0] + rest.value)
  }

  // ----- numerals -----

  lemma {:induction false} DecimalIsNumeral(n: nat)
    ensures IsNumeral(Decimal(n)) && ValueOf(Decimal(n)) == n && (n > 0 ==> Decimal(n)[0] != ZERO)
  {
    if n >= 10 {
      DecimalIsNumeral(n / 10);
      assert Decimal(n)[..|Decimal(n)| - 1] == Decimal(n / 10);
      assert (Digit(n % 10) - ZERO) as int == n % 10;
    } else {
      assert Decimal(n)[..0] == [];
    }
  }

  lemma {:induction false} NumeralIsDecimal(ds: bytes)
    requires IsNumeral(ds)
    ensures Decimal(ValueOf(ds)) == ds && (ds[0] != ZERO ==> ValueOf(ds) > 0)
  {
    var rest, last := ds[..|ds| - 1], ds[|ds| - 1];
    assert ds == rest + [last];
    if rest != [] {
      assert rest[0] == ds[0];
      NumeralIsDecimal(rest);
      assert ValueOf(ds) / 10 == ValueOf(rest) && ValueOf(ds) % 10 == (last - ZERO) as int;
    }
  }

  lemma {:induction false} IndexAfter(ds: bytes, b: byte, rest: bytes)
    requires forall i :: 0 <= i < |ds| ==> ds[i] != b
    ensures IndexOf(ds + [b] + rest, b) == |ds|
  {
    var all := ds + [b] + rest;
    if ds != [] {
      assert all[0] == ds[0] && all[1..] == ds[1..] + [b] + rest;
      IndexAfter(ds[1..], b, rest);
    }
  }

  lemma {:induction false} IndexFinds(bs: bytes, b: byte)
    ensures IndexOf(bs, b) < |bs| ==> bs[IndexOf(bs, b)] == b
  {
    if bs != [] && bs[0] != b {
      IndexFinds(bs[1..], b);
    }
  }

  // ----- one field -----

  /** Whatever an item contains, reading a field gives it back and leaves the rest. */
  lemma FieldIsTaken(item: bytes, rest: bytes)
    ensures TakeField(Field(item) + rest) == Some((item, rest))
  {
    var ds := Decimal(|item|);
    var all := Field(item) + rest;
    DecimalIsNumeral(|item|);
    assert all == ds + [COLON] + (item + [BAR] + rest);
    IndexAfter(ds, COLON, item + [BAR] + rest);
    assert all[..|ds|] == ds;
    assert all[|ds| + 1 + |item|] == BAR;
    assert all[|ds| + 1..|ds| + 1 + |item|] == item;
    assert all[|ds| + |item| + 2..] == rest;
  }

  /** And nothing else is read as that field. */
  lemma TakenIsField(bs: bytes)
    requires TakeField(bs).Some?
    ensures bs == Field(TakeField(bs).value.0) + TakeField(bs).value.1
  {
    var k := IndexOf(bs, COLON);
    var ds := bs[..k];
    var n := ValueOf(ds);
    IndexFinds(bs, COLON);
    NumeralIsDecimal(ds);
    var item := bs[k + 1..k + 1 + n];
    assert bs == ds + [COLON] + item + [BAR] + bs[k + n + 2..];
  }

  // ----- the whole message -----

  lemma DecodeStep(bs: bytes, first: bytes, rest: bytes, items: seq<bytes>)
    requires TakeField(bs) == Some((first, rest)) && Decode(rest) == Some(items)
    ensures Decode(bs) == Some([first] + items)
  {
    TakeFieldShrinks(bs);
  }

  lemma FieldDecodes(item: bytes, rest: bytes, items: seq<bytes>)
    requires Decode(rest) == Some(items)
    ensures Decode(Field(item) + rest) == Some([item] + items)
  {
    FieldIsTaken(item, rest);
    DecodeStep(Field(item) + rest, item, rest, items);
  }

  /** A decoder recovers the fields from their encoding. */
  lemma {:induction false} RoundTrip(items: seq<bytes>)
    ensures Decode(Canonicalize(items)) == Some(items)
  {
    if items != [] {
      RoundTrip(items[1..]);
      FieldDecodes(items[0], Canonicalize(items[1..]), items[1..]);
      assert items == [items[0]] + items[1..];
    }
  }

  /** And it accepts nothing but encodings. */
  lemma {:induction false} DecodedIsEncoding(bs: bytes)
    requires Decode(bs).Some?
    ensures Canonicalize(Decode(bs).value) == bs
    decreases |bs|
  {
    if bs != [] {
      TakenIsField(bs);
      TakeFieldShrinks(bs);
      var first := TakeField(bs).value;
      DecodedIsEncoding(first.1);
      var items := [first.0] + Decode(first.1).value;
      assert items[1..] == Decode(first.1).value;
    }
  }

  /** Encoding and decoding are inverse to each other. */
  lemma DecodeIff(bs: bytes, items: seq<bytes>)
    ensures Decode(bs) == Some(items) <==> Canonicalize(items) == bs
  {
    RoundTrip(items);
    if Decode(bs).Some? {
      DecodedIsEncoding(bs);
    }
  }

  /** No two field lists share a message, whatever digits, colons or bars the fields contain. */
  lemma CanonicalizeIsInjective(a: seq<bytes>, b: seq<bytes>)
    ensures Canonicalize(a) == Canonicalize(b) <==> a == b
  {
    RoundTrip(a);
    RoundTrip(b);
  }

  // ----- the identity it carries -----

  datatype Locator = Locator(connectorType: string, resourceId: string, subResource: Option<string>)

  function CanonicalParts(l: Locator): seq<string> {
    [l.connectorType, l.resourceId, if l.subResource.Some? then l.subResource.value else ""]
  }

  /** `normal` is Unicode normalisation followed by encoding. */
  function Encoded(parts: seq<string>, normal: string -> bytes): seq<bytes> {
    seq(|parts|, i requires 0 <= i < |parts| => normal(parts[i]))
  }

  function Message(l: Locator, ruleId: string, secretHash: string, normal: string -> bytes): bytes {
    Canonicalize(Encoded(CanonicalParts(l) + [ruleId, secretHash], normal))
  }

  /**
   Two findings share a message exactly when every normalised component is the same, where a
   missing sub-resource and an empty one are the same component.
   */
  lemma SameMessageIff(l: Locator, ruleId: string, hash: string, m: Locator, otherRule: string, otherHash: string,
                       normal: string -> bytes)
    ensures Message(l, ruleId, hash, normal) == Message(m, otherRule, otherHash, normal) <==>
            && normal(l.connectorType) == normal(m.connectorType) && normal(l.resourceId) == normal(m.resourceId)
            && normal(CanonicalParts(l)[2]) == normal(CanonicalParts(m)[2])
            && normal(ruleId) == normal(otherRule) && normal(hash) == normal(otherHash)
  {
    var a := Encoded(CanonicalParts(l) + [ruleId, hash], normal);
    var b := Encoded(CanonicalParts(m) + [otherRule, otherHash], normal);
    CanonicalizeIsInjective(a, b);
    assert a == [normal(l.connectorType), normal(l.resourceId), normal(CanonicalParts(l)[2]), normal(ruleId),
        normal(hash)];
    assert b == [normal(m.connectorType), normal(m.resourceId), normal(CanonicalParts(m)[2]), normal(otherRule),
        normal(otherHash)];
    assert a == b <==> a[0] == b[0] && a[1] == b[1] && a[2] == b[2] && a[3] == b[3] && a[4] == b[4];
  }
}
