/** Element names of beam-beam encounters: label, side tag, IR number, beam and
    the zero-padded magnitude of the signed identifier. The name is the key every
    later stage joins on, so the lemmas here show it determines the identifier. */
module Naming {
  import opened Common

  predicate IsDigit(c: char) { '0' <= c <= '9' }

  predicate AllDigits(s: string) { forall i :: 0 <= i < |s| ==> IsDigit(s[i]) }

  function DigitChar(d: nat): (c: char)
    requires d < 10
    ensures IsDigit(c) && c as int - '0' as int == d
  {
    ('0' as int + d) as char
  }

  /** Decimal digits of n, most significant first, no leading zeros. */
  function Decimal(n: nat): (s: string)
    ensures 1 <= |s| && AllDigits(s)
    decreases n
  {
    if n < 10 then [DigitChar(n)] else Decimal(n / 10) + [DigitChar(n % 10)]
  }

  /** Python's format spec `02` for a non-negative integer: at least two
      characters, padded on the left with '0'. */
  function Pad2(n: nat): (s: string)
    ensures 2 <= |s| && AllDigits(s)
  {
    if n < 10 then "0" + Decimal(n) else Decimal(n)
  }

  /** The number a digit string denotes (the inverse of Decimal and Pad2). */
  function ValueOf(s: string): nat
    requires AllDigits(s)
  {
    if s == [] then 0 else ValueOf(s[..|s| - 1]) * 10 + (s[|s| - 1] as int - '0' as int)
  }

  lemma {:induction false} DecimalRoundTrip(n: nat)
    ensures ValueOf(Decimal(n)) == n
    decreases n
  {
    if n >= 10 {
      var s := Decimal(n);
      assert s[..|s| - 1] == Decimal(n / 10);
      DecimalRoundTrip(n / 10);
    }
  }

  lemma {:induction false} LeadingZero(s: string)
    requires AllDigits(s)
    ensures ValueOf("0" + s) == ValueOf(s)
    decreases |s|
  {
    if s != [] {
      assert ("0" + s)[..|"0" + s| - 1] == "0" + s[..|s| - 1];
      LeadingZero(s[..|s| - 1]);
    }
  }

  /** Reading back a padded number gives the number. */
  lemma Pad2RoundTrip(n: nat)
    ensures ValueOf(Pad2(n)) == n
  {
    DecimalRoundTrip(n);
    if n < 10 { LeadingZero(Decimal(n)); }
  }

  function Abs(i: int): nat { if i < 0 then -i else i }

  /** Side tag: right of the IP for positive identifiers, left for negative,
      centre for zero. */
  function SideTag(identifier: int): string {
    if identifier > 0 then ".r" else if identifier < 0 then ".l" else ".c"
  }

  /** Python's `ip_name.replace('ip', '')`: every non-overlapping occurrence of
      "ip", scanning left to right, is removed. */
  function StripIp(s: string): (r: string)
    ensures |r| <= |s|
  {
    if |s| < 2 then s
    else if s[..2] == "ip" then StripIp(s[2..])
    else [s[0]] + StripIp(s[1..])
  }

  lemma {:induction false} StripIpKeepsDigits(d: string)
    requires AllDigits(d)
    ensures StripIp(d) == d
    decreases |d|
  {
    if |d| >= 2 {
      assert d[0] != 'i';
      StripIpKeepsDigits(d[1..]);
    }
  }

  /** An IP called "ip" followed by digits has those digits as its IR number. */
  lemma IrNumberOfIpName(d: string)
    requires AllDigits(d)
    ensures StripIp("ip" + d) == d
  {
    var s := "ip" + d;
    if |s| >= 2 {
      assert s[..2] == "ip" && s[2..] == d;
    }
    StripIpKeepsDigits(d);
  }

  /** The element name of one encounter. */
  function ElementName(labelName: string, irNumber: string, beam: string, identifier: int): string {
    labelName + SideTag(identifier) + irNumber + beam + "_" + Pad2(Abs(identifier))
  }

  /** Parses a name produced for the given label, IR number and beam back into
      the signed identifier; None when the name does not have that shape. */
  function DecodeIdentifier(name: string, labelName: string, irNumber: string, beam: string): Option<int> {
    var head := |labelName| + 2;
    var fixed := head + |irNumber| + |beam| + 1;
    if |name| < fixed || name[..|labelName|] != labelName || name[head..fixed] != irNumber + beam + "_" then None
    else
      var digits := name[fixed..];
      var tag := name[|labelName|..head];
      if !AllDigits(digits) then None
      else if tag == ".r" then Some(ValueOf(digits))
      else if tag == ".l" then Some(0 - ValueOf(digits))
      else if tag == ".c" then Some(0)
      else None
  }

  lemma ElementNameShape(labelName: string, irNumber: string, beam: string, identifier: int)
    ensures var name := ElementName(labelName, irNumber, beam, identifier);
      var head := |labelName| + 2;
      var fixed := head + |irNumber| + |beam| + 1;
      && |name| == fixed + |Pad2(Abs(identifier))|
      && name[..|labelName|] == labelName
      && name[|labelName|..head] == SideTag(identifier)
      && name[head..fixed] == irNumber + beam + "_"
      && name[fixed..] == Pad2(Abs(identifier))
  {
  }

  /** The name round-trips to its identifier. */
  lemma ElementNameDecodes(labelName: string, irNumber: string, beam: string, identifier: int)
    ensures DecodeIdentifier(ElementName(labelName, irNumber, beam, identifier), labelName, irNumber, beam) == Some(identifier)
  {
    ElementNameShape(labelName, irNumber, beam, identifier);
    Pad2RoundTrip(Abs(identifier));
  }

  /** The two characters after the label tell the identifier's sign. */
  lemma ElementNameSide(labelName: string, irNumber: string, beam: string, identifier: int)
    ensures var tag := ElementName(labelName, irNumber, beam, identifier)[|labelName|..|labelName| + 2];
      && (tag == ".r" <==> identifier > 0)
      && (tag == ".l" <==> identifier < 0)
      && (tag == ".c" <==> identifier == 0)
  {
    ElementNameShape(labelName, irNumber, beam, identifier);
  }

  /** For a fixed IR number and beam, labels of one length and identifiers are
      both recovered from the name: distinct encounters get distinct names. */
  lemma ElementNameInjective(labelName1: string, labelName2: string, irNumber: string, beam: string, id1: int, id2: int)
    requires |labelName1| == |labelName2|
    requires ElementName(labelName1, irNumber, beam, id1) == ElementName(labelName2, irNumber, beam, id2)
    ensures labelName1 == labelName2 && id1 == id2
  {
    ElementNameShape(labelName1, irNumber, beam, id1);
    ElementNameShape(labelName2, irNumber, beam, id2);
    ElementNameDecodes(labelName1, irNumber, beam, id1);
    ElementNameDecodes(labelName2, irNumber, beam, id2);
  }
}
