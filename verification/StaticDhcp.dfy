/** Static DHCP leases: one NVRAM text of `<`-separated rows of `>`-separated columns, in two column
    layouts, raw or with both delimiters entity-encoded. */
module StaticDhcp {
  import opened Text
  import opened Delimited

  datatype Layout = Legacy | Modern

  datatype Lease = Lease(mac: string, ip: string, dns: string, hostname: string, layout: Layout)

  /** Lease equality: the layout does not take part. */
  predicate SameLease(a: Lease, b: Lease) {
    a.(layout := Modern) == b.(layout := Modern)
  }

  // ---- addresses ----------------------------------------------------------------------------

  predicate IsOctet(p: string) {
    1 <= |p| <= 3 && AllDigits(p) && (p == "0" || p[0] != '0') && Digits(p) <= 255
  }

  predicate IsIpv4(s: string) {
    var parts := Split(s, ".");
    |parts| == 4 && forall i | 0 <= i < 4 :: IsOctet(parts[i])
  }

  /** A dotted quad without leading zeros is its own normal form; nothing else is an IPv4 address. */
  function NormalizeIpv4(s: string): Option<string> {
    if IsIpv4(Strip(s)) then Some(Strip(s)) else None
  }

  function Upper(c: char): char {
    if 'a' <= c <= 'f' then (c as int - 32) as char else c
  }

  function HexOnly(s: string): string {
    if s == "" then "" else if IsHex(s[0]) then [s[0]] + HexOnly(s[1..]) else HexOnly(s[1..])
  }

  function UpperAll(s: string): (r: string)
    ensures |r| == |s|
  {
    seq(|s|, i requires 0 <= i < |s| => Upper(s[i]))
  }

  /** Pairs of digits joined by colons. */
  function Pairs(digits: string): string {
    if |digits| <= 2 then digits else digits[..2] + ":" + Pairs(digits[2..])
  }

  function HexDigit(v: nat): char
    requires v < 16
  {
    if v < 10 then ('0' as int + v) as char else ('A' as int + v - 10) as char
  }

  function ToHex(v: nat, width: nat): (r: string)
    ensures |r| == width
  {
    if width == 0 then "" else ToHex(v / 16, width - 1) + [HexDigit(v % 16)]
  }

  /** `normalize_static_dhcp_mac` on text: twelve hexadecimal digits anywhere in it, or else a number. */
  function NormalizeMac(s: string, lenient: string -> Option<int>): Option<string> {
    var compact := HexOnly(s);
    if |compact| == 12 then Some(Pairs(UpperAll(compact)))
    else match SafeInt(s, lenient, None)
      case Some(v) => if 0 <= v < 0x1_0000_0000_0000 then Some(Pairs(ToHex(v, 12))) else None
      case None => None
  }

  // ---- one lease ----------------------------------------------------------------------------

  predicate IsPlain(s: string) {
    Free(s, LT) && Free(s, GT) && Free(s, LT_ENTITY) && Free(s, GT_ENTITY)
  }

  /** `normalize_static_dhcp_lease`; None where it raises. */
  function Normalize(l: Lease, lenient: string -> Option<int>): Option<Lease> {
    var mac := NormalizeMac(l.mac, lenient);
    var ip := NormalizeIpv4(l.ip);
    var dns := if l.dns == "" then Some("") else NormalizeIpv4(l.dns);
    if mac.None? || ip.None? || dns.None? then None
    else if l.layout == Legacy && dns.value != "" then None
    else if !(IsPlain(mac.value) && IsPlain(ip.value) && IsPlain(dns.value) && IsPlain(l.hostname)) then None
    else Some(Lease(mac.value, ip.value, dns.value, l.hostname, l.layout))
  }

  predicate Normal(l: Lease, lenient: string -> Option<int>) {
    Normalize(l, lenient) == Some(l)
  }

  /** `_parse_row` */
  function ParseRow(row: string, lenient: string -> Option<int>): Option<Lease> {
    var columns := Split(row, GT);
    if |columns| !in {2, 3, 4} || columns[0] == "" || columns[1] == "" then None
    else if |columns| == 2 then
      Normalize(Lease(columns[0], columns[1], "", "", Modern), lenient)
    else if |columns| == 3 then
      if columns[2] == "" then Normalize(Lease(columns[0], columns[1], "", "", Modern), lenient)
      else match NormalizeIpv4(columns[2])
        case Some(dns) => Normalize(Lease(columns[0], columns[1], dns, "", Modern), lenient)
        case None => Normalize(Lease(columns[0], columns[1], "", columns[2], Legacy), lenient)
    else
      Normalize(Lease(columns[0], columns[1], columns[2], columns[3], Modern), lenient)
  }

  /** All results, or None as soon as one is None. */
  function Traverse<A, B>(xs: seq<A>, f: A -> Option<B>): Option<seq<B>> {
    if xs == [] then Some([])
    else if f(xs[0]).None? then None
    else
      var rest := Traverse(xs[1..], f);
      if rest.None? then None else Some([f(xs[0]).value] + rest.value)
  }

  function NonEmptyRows(rows: seq<string>): seq<string> {
    if rows == [] then [] else (if rows[0] == "" then [] else [rows[0]]) + NonEmptyRows(rows[1..])
  }

  function RowParser(lenient: string -> Option<int>): string -> Option<Lease> {
    row => ParseRow(row, lenient)
  }

  function ParseRows(rows: seq<string>, lenient: string -> Option<int>): Option<seq<Lease>> {
    Traverse(NonEmptyRows(rows), RowParser(lenient))
  }

  /** `parse_static_dhcp_leases`; None where it raises. */
  function Parse(content: string, lenient: string -> Option<int>): Option<seq<Lease>> {
    if content == "" then Some([]) else ParseRows(Split(DecodeRowsFirst(content), LT), lenient)
  }

  function Fields(l: Lease): seq<string> {
    if l.layout == Legacy then
      [l.mac, l.ip] + (if l.hostname != "" then [l.hostname] else [])
    else
      [l.mac, l.ip] + (if l.dns != "" || l.hostname != "" then [l.dns] else [])
                    + (if l.hostname != "" then [l.hostname] else [])
  }

  /** `_serialize_lease` */
  function Serialize(l: Lease): string {
    LT + Join(Fields(l), GT)
  }

  method SerializeLease(l: Lease) returns (s: string)
    ensures s == Serialize(l)
  {
    var fields := [l.mac, l.ip];
    if l.layout == Legacy {
      if l.hostname != "" {
        fields := fields + [l.hostname];
      }
    } else {
      if l.dns != "" || l.hostname != "" {
        fields := fields + [l.dns];
      }
      if l.hostname != "" {
        fields := fields + [l.hostname];
      }
    }
    assert fields == Fields(l);
    s := LT + Join(fields, GT);
  }

  function SerializeAll(ls: seq<Lease>): string {
    if ls == [] then "" else Serialize(ls[0]) + SerializeAll(ls[1..])
  }

  // ---- normal forms -------------------------------------------------------------------------

  predicate OctetChar(c: char) {
    IsDigit(c) || c == '.'
  }

  lemma {:induction false} JoinChars(parts: seq<string>, sep: string)
    requires forall i, c | 0 <= i < |parts| && c in parts[i] :: OctetChar(c)
    requires forall c | c in sep :: OctetChar(c)
    ensures forall c | c in Join(parts, sep) :: OctetChar(c)
  {
    if |parts| > 1 {
      JoinChars(parts[1..], sep);
    }
  }

  lemma PlainByHeads(s: string)
    requires forall c | c in s :: c != '<' && c != '>' && c != '&'
    ensures IsPlain(s)
  {
    FreeByHead(s, LT);
    FreeByHead(s, GT);
    FreeByHead(s, LT_ENTITY);
    FreeByHead(s, GT_ENTITY);
  }

  /** A normalised address holds no delimiter, is not empty, and normalises to itself. */
  lemma Ipv4NormalForm(s: string)
    requires IsIpv4(s)
    ensures s != "" && IsPlain(s) && NormalizeIpv4(s) == Some(s)
  {
    var parts := Split(s, ".");
    JoinSplit(s, ".");
    JoinChars(parts, ".");
    PlainByHeads(s);
    assert s == parts[0] + "." + Join(parts[1..], ".");
    assert s[0] == parts[0][0];
    assert IsOctet(parts[0]);
    assert forall c | c in s :: !IsSpace(c) && c != BYTE_ORDER_MARK;
    assert s[|s| - 1] in s;
    CleanStringKeeps(s);
  }

  predicate UpperHex(c: char) {
    '0' <= c <= '9' || 'A' <= c <= 'F'
  }

  predicate AllUpperHex(s: string) {
    forall c | c in s :: UpperHex(c)
  }

  lemma {:induction false} HexOnlyIsHex(s: string)
    ensures forall c | c in HexOnly(s) :: IsHex(c)
  {
    if s != "" {
      HexOnlyIsHex(s[1..]);
    }
  }

  lemma {:induction false} ToHexUpper(v: nat, width: nat)
    ensures AllUpperHex(ToHex(v, width))
  {
    if width > 0 {
      ToHexUpper(v / 16, width - 1);
    }
  }

  lemma {:induction false} HexOnlyConcat(a: string, b: string)
    ensures HexOnly(a + b) == HexOnly(a) + HexOnly(b)
  {
    if a == "" {
      assert a + b == b;
    } else {
      HexOnlyConcat(a[1..], b);
      assert (a + b)[1..] == a[1..] + b;
    }
  }

  lemma {:induction false} HexOnlyKeeps(s: string)
    requires AllUpperHex(s)
    ensures HexOnly(s) == s && UpperAll(s) == s
  {
    if s != "" {
      assert s[0] in s;
      HexOnlyKeeps(s[1..]);
    }
    assert forall i | 0 <= i < |s| :: s[i] in s;
  }

  lemma {:induction false} PairsFacts(d: string)
    requires AllUpperHex(d)
    ensures HexOnly(Pairs(d)) == d
    ensures forall c | c in Pairs(d) :: UpperHex(c) || c == ':'
    ensures d != "" ==> Pairs(d) != ""
  {
    if |d| <= 2 {
      HexOnlyKeeps(d);
    } else {
      PairsFacts(d[2..]);
      HexOnlyKeeps(d[..2]);
      HexOnlyConcat(d[..2] + ":", Pairs(d[2..]));
      HexOnlyConcat(d[..2], ":");
      assert d == d[..2] + d[2..];
    }
  }

  /** A normalised MAC holds no delimiter, is not empty, and normalises to itself. */
  lemma MacNormalForm(s: string, lenient: string -> Option<int>)
    requires NormalizeMac(s, lenient).Some?
    ensures var m := NormalizeMac(s, lenient).value;
            m != "" && IsPlain(m) && NormalizeMac(m, lenient) == Some(m)
  {
    var compact := HexOnly(s);
    var digits := if |compact| == 12 then UpperAll(compact) else ToHex(SafeInt(s, lenient, None).value, 12);
    HexOnlyIsHex(s);
    if |compact| == 12 {
      assert forall i | 0 <= i < 12 :: compact[i] in compact;
    } else {
      ToHexUpper(SafeInt(s, lenient, None).value, 12);
    }
    PairsFacts(digits);
    HexOnlyKeeps(digits);
    PlainByHeads(Pairs(digits));
  }

  lemma NormalizeIdempotent(l: Lease, lenient: string -> Option<int>)
    requires Normalize(l, lenient).Some?
    ensures Normal(Normalize(l, lenient).value, lenient)
  {
    MacNormalForm(l.mac, lenient);
    Ipv4NormalForm(Strip(l.ip));
    if l.dns != "" {
      Ipv4NormalForm(Strip(l.dns));
    }
  }

  lemma NormalFacts(l: Lease, lenient: string -> Option<int>)
    requires Normal(l, lenient)
    ensures l.mac != "" && l.ip != "" && IsPlain(l.mac) && IsPlain(l.ip) && IsPlain(l.dns) && IsPlain(l.hostname)
    ensures l.dns != "" ==> NormalizeIpv4(l.dns) == Some(l.dns)
    ensures l.layout == Legacy ==> l.dns == ""
  {
    MacNormalForm(l.mac, lenient);
    Ipv4NormalForm(Strip(l.ip));
    if l.dns != "" {
      Ipv4NormalForm(Strip(l.dns));
    }
  }

  // ---- what the addresses are ------------------------------------------------------------------

  lemma {:induction false} NumeralOf(p: string)
    requires p != "" && AllDigits(p) && (p == "0" || p[0] != '0')
    ensures Digits(p) >= 0 && p == ShowNat(Digits(p)) && (p != "0" ==> Digits(p) > 0)
    decreases |p|
  {
    var front := p[..|p| - 1];
    assert p[|p| - 1] in p && IsDigit(p[|p| - 1]);
    if front == "" {
      assert Digits(front) == 0;
    } else {
      assert front[0] == p[0];
      NumeralOf(front);
      assert p == front + [p[|p| - 1]];
    }
  }

  /** A part of an address is the numeral of a number up to 255. */
  lemma OctetIff(p: string)
    ensures IsOctet(p) <==> exists n: nat :: n <= 255 && p == ShowNat(n)
  {
    if IsOctet(p) {
      NumeralOf(p);
      assert Digits(p) <= 255 && p == ShowNat(Digits(p));
    }
    if n: nat :| n <= 255 && p == ShowNat(n) {
      ShowNatDigits(n);
      ShortNumeral(n);
    }
  }

  lemma ShortNumeral(n: nat)
    requires n <= 255
    ensures 1 <= |ShowNat(n)| <= 3 && (ShowNat(n) == "0" || ShowNat(n)[0] != '0')
  {
    ShowNatDigits(n);
    assert n >= 10 ==> |ShowNat(n)| == |ShowNat(n / 10)| + 1;
    assert n >= 100 ==> |ShowNat(n / 10)| == |ShowNat(n / 100)| + 1;
  }

  ghost predicate Quad(s: string, parts: seq<nat>) {
    |parts| == 4 && (forall i | 0 <= i < 4 :: parts[i] <= 255)
    && s == Join([ShowNat(parts[0]), ShowNat(parts[1]), ShowNat(parts[2]), ShowNat(parts[3])], ".")
  }

  /** An address is four numbers up to 255 in decimal with dots in between; white space around it is taken off. */
  lemma Ipv4Iff(s: string)
    ensures NormalizeIpv4(s).Some? <==> exists parts :: Quad(Strip(s), parts)
    ensures NormalizeIpv4(s).Some? ==> NormalizeIpv4(s).value == Strip(s)
  {
    if NormalizeIpv4(s).Some? {
      var parts := QuadOf(Strip(s));
    }
    if parts :| Quad(Strip(s), parts) {
      QuadIsAddress(Strip(s), parts);
    }
  }

  lemma QuadOf(s: string) returns (parts: seq<nat>)
    requires IsIpv4(s)
    ensures Quad(s, parts)
  {
    var texts := Split(s, ".");
    JoinSplit(s, ".");
    OctetIff(texts[0]);
    OctetIff(texts[1]);
    OctetIff(texts[2]);
    OctetIff(texts[3]);
    var a: nat :| a <= 255 && texts[0] == ShowNat(a);
    var b: nat :| b <= 255 && texts[1] == ShowNat(b);
    var c: nat :| c <= 255 && texts[2] == ShowNat(c);
    var d: nat :| d <= 255 && texts[3] == ShowNat(d);
    parts := [a, b, c, d];
    assert texts == [ShowNat(a), ShowNat(b), ShowNat(c), ShowNat(d)];
  }

  lemma QuadIsAddress(s: string, parts: seq<nat>)
    requires Quad(s, parts)
    ensures IsIpv4(s)
  {
    var texts := [ShowNat(parts[0]), ShowNat(parts[1]), ShowNat(parts[2]), ShowNat(parts[3])];
    forall i | 0 <= i < 4 ensures IsOctet(texts[i]) && Free(texts[i], ".") {
      OctetIff(texts[i]);
      assert texts[i] == ShowNat(parts[i]);
      FreeByHead(texts[i], ".");
    }
    SplitJoin(texts, ".");
  }

  /** The number a hexadecimal digit stands for. */
  function HexValue(c: char): nat {
    if '0' <= c <= '9' then c as int - '0' as int
    else if 'A' <= c <= 'F' then c as int - 'A' as int + 10
    else if 'a' <= c <= 'f' then c as int - 'a' as int + 10
    else 0
  }

  function HexNumber(s: string): nat {
    if s == "" then 0 else 16 * HexNumber(s[..|s| - 1]) + HexValue(s[|s| - 1])
  }

  lemma {:induction false} UpperSameNumber(s: string)
    ensures HexNumber(UpperAll(s)) == HexNumber(s)
  {
    if s != "" {
      UpperSameNumber(s[..|s| - 1]);
      assert UpperAll(s)[..|s| - 1] == UpperAll(s[..|s| - 1]);
    }
  }

  function Power(k: nat): nat {
    if k == 0 then 1 else 16 * Power(k - 1)
  }

  lemma {:induction false} ToHexNumber(v: nat, width: nat)
    requires v < Power(width)
    ensures HexNumber(ToHex(v, width)) == v
  {
    if width > 0 {
      ToHexNumber(v / 16, width - 1);
      assert ToHex(v, width)[..width - 1] == ToHex(v / 16, width - 1);
    }
  }

  lemma {:induction false} PairsPlaces(d: string)
    requires |d| % 2 == 0 && d != ""
    ensures |Pairs(d)| == |d| / 2 * 3 - 1
    ensures forall i | 0 <= i < |Pairs(d)| :: Pairs(d)[i] == if i % 3 == 2 then ':' else d[i / 3 * 2 + i % 3]
  {
    if |d| > 2 {
      var rest := Pairs(d[2..]);
      PairsPlaces(d[2..]);
      forall i | 3 <= i < |Pairs(d)| ensures Pairs(d)[i] == if i % 3 == 2 then ':' else d[i / 3 * 2 + i % 3] {
        assert Pairs(d)[i] == rest[i - 3] && (i - 3) % 3 == i % 3 && (i - 3) / 3 == i / 3 - 1;
      }
    }
  }

  /** Which texts are MACs: twelve hexadecimal digits with anything in between, or a number of 48 bits. */
  lemma MacIff(s: string, lenient: string -> Option<int>)
    ensures NormalizeMac(s, lenient).Some? <==>
            |HexOnly(s)| == 12 || (SafeInt(s, lenient, None).Some? && 0 <= SafeInt(s, lenient, None).value < 0x1_0000_0000_0000)
  {
  }

  /** The normal form of a MAC: six pairs of capital digits with colons in between, standing for the same number. */
  lemma MacDenotes(s: string, lenient: string -> Option<int>)
    requires NormalizeMac(s, lenient).Some?
    ensures var m := NormalizeMac(s, lenient).value;
            && |m| == 17
            && (forall i | 0 <= i < 17 :: if i % 3 == 2 then m[i] == ':' else '0' <= m[i] <= '9' || 'A' <= m[i] <= 'F')
            && HexNumber(HexOnly(m)) == if |HexOnly(s)| == 12 then HexNumber(HexOnly(s)) else SafeInt(s, lenient, None).value
  {
    var compact := HexOnly(s);
    HexOnlyIsHex(s);
    if |compact| == 12 {
      forall i | 0 <= i < 12 ensures IsHex(compact[i]) {
        assert compact[i] in compact;
      }
      UpperSameNumber(compact);
      DigitsDenote(UpperAll(compact));
    } else {
      var v := SafeInt(s, lenient, None).value;
      ToHexUpper(v, 12);
      PowerTwelve();
      ToHexNumber(v, 12);
      DigitsDenote(ToHex(v, 12));
    }
  }

  lemma PowerTwelve()
    ensures Power(12) == 0x1_0000_0000_0000
  {
    assert Power(4) == 0x1_0000;
    assert Power(8) == 0x1_0000_0000;
  }

  lemma DigitsDenote(digits: string)
    requires |digits| == 12 && AllUpperHex(digits)
    ensures var m := Pairs(digits);
            && |m| == 17
            && (forall i | 0 <= i < 17 :: if i % 3 == 2 then m[i] == ':' else UpperHex(m[i]))
            && HexOnly(m) == digits
  {
    PairsFacts(digits);
    PairsPlaces(digits);
    forall i | 0 <= i < 17 && i % 3 != 2 ensures UpperHex(Pairs(digits)[i]) {
      assert digits[i / 3 * 2 + i % 3] in digits;
    }
  }

  /** The digits of a text, place by place. */
  lemma HexOnlyOne(c: char)
    ensures HexOnly([c]) == if '0' <= c <= '9' || 'A' <= c <= 'F' || 'a' <= c <= 'f' then [c] else ""
  {
    assert [c][1..] == "";
    assert HexOnly("") == "";
  }

  // ---- the round trip -----------------------------------------------------------------------

  /** What reading makes of a written lease. */
  function ReadBack(l: Lease): Lease {
    if l.layout == Modern then l
    else if l.hostname == "" then l.(layout := Modern)
    else match NormalizeIpv4(l.hostname)
      case Some(address) => Lease(l.mac, l.ip, address, "", Modern)
      case None => l
  }

  /** A legacy row has one optional column: an address in it is taken for the DNS server. */
  predicate Ambiguous(l: Lease) {
    l.layout == Legacy && NormalizeIpv4(l.hostname).Some?
  }

  lemma AmbiguousIff(l: Lease)
    ensures SameLease(ReadBack(l), l) <==> !Ambiguous(l)
  {
    if l.layout == Legacy && l.hostname == "" {
      assert Strip("") == "" && Split("", ".") == [""];
    }
    if Ambiguous(l) {
      Ipv4NormalForm(Strip(l.hostname));
    }
  }

  lemma QuadIsIpv4(parts: seq<string>)
    requires |parts| == 4 && forall i | 0 <= i < 4 :: IsOctet(parts[i])
    ensures NormalizeIpv4(Join(parts, ".")) == Some(Join(parts, ".")) && IsPlain(Join(parts, "."))
  {
    forall i | 0 <= i < 4 ensures Free(parts[i], ".") {
      FreeByHead(parts[i], ".");
    }
    SplitJoin(parts, ".");
    Ipv4NormalForm(Join(parts, "."));
  }

  lemma FieldsPlain(l: Lease, lenient: string -> Option<int>)
    requires Normal(l, lenient)
    ensures forall i | 0 <= i < |Fields(l)| :: IsPlain(Fields(l)[i])
    ensures Fields(l)[0] == l.mac && l.mac != ""
  {
    NormalFacts(l, lenient);
  }

  /** The row of a lease, less its leading delimiter, holds no other, and splits into its columns. */
  ghost predicate RowPlain(l: Lease) {
    var row := Join(Fields(l), GT);
    && row != "" && Free(row, LT) && Free(row, LT_ENTITY) && Free(row, GT_ENTITY)
    && Split(row, GT) == Fields(l)
  }

  lemma RowFacts(l: Lease, lenient: string -> Option<int>)
    requires Normal(l, lenient)
    ensures RowPlain(l)
  {
    FieldsPlain(l, lenient);
    var fields := Fields(l);
    FreeJoin(fields, GT, LT);
    FreeJoin(fields, GT, LT_ENTITY);
    FreeJoin(fields, GT, GT_ENTITY);
    SplitJoin(fields, GT);
  }

  lemma RowRoundTrip(l: Lease, lenient: string -> Option<int>)
    requires Normal(l, lenient)
    ensures ParseRow(Join(Fields(l), GT), lenient) == Some(ReadBack(l))
  {
    RowFacts(l, lenient);
    NormalFacts(l, lenient);
    if Ambiguous(l) {
      Ipv4NormalForm(Strip(l.hostname));
    }
  }

  ghost predicate AllNormal(ls: seq<Lease>, lenient: string -> Option<int>) {
    forall i | 0 <= i < |ls| :: Normal(ls[i], lenient)
  }

  function RowTexts(ls: seq<Lease>): (r: seq<string>)
    ensures |r| == |ls|
  {
    seq(|ls|, i requires 0 <= i < |ls| => Join(Fields(ls[i]), GT))
  }

  function ReadBackAll(ls: seq<Lease>): (r: seq<Lease>)
    ensures |r| == |ls|
  {
    seq(|ls|, i requires 0 <= i < |ls| => ReadBack(ls[i]))
  }

  lemma {:induction false} SerializeAllIsJoin(ls: seq<Lease>)
    requires ls != []
    ensures SerializeAll(ls) == LT + Join(RowTexts(ls), LT)
  {
    var first := Join(Fields(ls[0]), GT);
    assert RowTexts(ls) == [first] + RowTexts(ls[1..]);
    if |ls| > 1 {
      SerializeAllIsJoin(ls[1..]);
      JoinCons(first, RowTexts(ls[1..]), LT);
      assert LT + first + (LT + Join(RowTexts(ls[1..]), LT)) == LT + (first + LT + Join(RowTexts(ls[1..]), LT));
    }
  }

  lemma {:induction false} TraverseEach<A, B>(xs: seq<A>, ys: seq<B>, f: A -> Option<B>)
    requires |xs| == |ys| && forall i | 0 <= i < |xs| :: f(xs[i]) == Some(ys[i])
    ensures Traverse(xs, f) == Some(ys)
  {
    if xs != [] {
      TraverseEach(xs[1..], ys[1..], f);
      assert ys == [ys[0]] + ys[1..];
    }
  }

  lemma {:induction false} TraverseParts<A, B>(xs: seq<A>, f: A -> Option<B>)
    requires Traverse(xs, f).Some?
    ensures var ys := Traverse(xs, f).value;
            |xs| == |ys| && forall i | 0 <= i < |xs| :: f(xs[i]) == Some(ys[i])
  {
    if xs != [] {
      TraverseParts(xs[1..], f);
    }
  }

  lemma {:induction false} NonEmptyKept(rows: seq<string>)
    requires forall i | 0 <= i < |rows| :: rows[i] != ""
    ensures NonEmptyRows(rows) == rows
  {
    if rows != [] {
      NonEmptyKept(rows[1..]);
    }
  }

  lemma AllRowsPlain(ls: seq<Lease>, lenient: string -> Option<int>)
    requires AllNormal(ls, lenient)
    ensures forall i | 0 <= i < |ls| :: RowPlain(ls[i])
  {
    forall i | 0 <= i < |ls| ensures RowPlain(ls[i]) {
      RowFacts(ls[i], lenient);
    }
  }

  lemma ParseRowsBack(ls: seq<Lease>, lenient: string -> Option<int>)
    requires AllNormal(ls, lenient)
    ensures ParseRows(RowTexts(ls), lenient) == Some(ReadBackAll(ls))
  {
    AllRowsPlain(ls, lenient);
    NonEmptyKept(RowTexts(ls));
    forall i | 0 <= i < |ls| ensures RowParser(lenient)(RowTexts(ls)[i]) == Some(ReadBackAll(ls)[i]) {
      RowRoundTrip(ls[i], lenient);
    }
    TraverseEach(RowTexts(ls), ReadBackAll(ls), RowParser(lenient));
  }

  /** The text holds no entity, so the router may return it raw or encoded. */
  predicate EntityFree(s: string) {
    Free(s, LT_ENTITY) && Free(s, GT_ENTITY)
  }

  lemma RowTextsFree(ls: seq<Lease>, tok: string)
    requires tok in {LT, LT_ENTITY, GT_ENTITY} && forall i | 0 <= i < |ls| :: RowPlain(ls[i])
    ensures AllFree([""] + RowTexts(ls), tok)
  {
    var parts := [""] + RowTexts(ls);
    forall i | 0 <= i < |parts| ensures Free(parts[i], tok) {
      if i > 0 {
        assert RowPlain(ls[i - 1]);
      }
    }
  }

  lemma SerializeAllSplits(ls: seq<Lease>, lenient: string -> Option<int>)
    requires AllNormal(ls, lenient) && ls != []
    ensures var s := SerializeAll(ls);
            s != "" && EntityFree(s) && Split(s, LT) == [""] + RowTexts(ls)
  {
    var parts := [""] + RowTexts(ls);
    SerializeAllIsJoin(ls);
    JoinCons("", RowTexts(ls), LT);
    assert LT + Join(RowTexts(ls), LT) == "" + LT + Join(RowTexts(ls), LT);
    AllRowsPlain(ls, lenient);
    RowTextsFree(ls, LT);
    RowTextsFree(ls, LT_ENTITY);
    RowTextsFree(ls, GT_ENTITY);
    FreeJoin(parts, LT, LT_ENTITY);
    FreeJoin(parts, LT, GT_ENTITY);
    SplitJoin(parts, LT);
  }

  /** Parsing what was serialised, raw or entity-encoded, gives every lease back in order. */
  lemma SerializeThenParse(ls: seq<Lease>, lenient: string -> Option<int>)
    requires AllNormal(ls, lenient)
    ensures EntityFree(SerializeAll(ls))
    ensures Parse(SerializeAll(ls), lenient) == Some(ReadBackAll(ls))
    ensures Parse(EntityEncode(SerializeAll(ls)), lenient) == Some(ReadBackAll(ls))
  {
    if ls == [] {
      assert EntityEncode("") == "";
    } else {
      var s := SerializeAll(ls);
      SerializeAllSplits(ls, lenient);
      EntityRoundTrip(s);
      ParseRowsBack(ls, lenient);
      assert ([""] + RowTexts(ls))[1..] == RowTexts(ls);
      assert NonEmptyRows([""] + RowTexts(ls)) == NonEmptyRows(RowTexts(ls));
      assert DecodeRowsFirst("") == "";
    }
  }

  /** Lease for lease the same list comes back exactly when no legacy host name reads as an address. */
  lemma SerializeThenParseIff(ls: seq<Lease>, lenient: string -> Option<int>)
    requires AllNormal(ls, lenient)
    ensures var back := Parse(EntityEncode(SerializeAll(ls)), lenient);
            && back == Parse(SerializeAll(ls), lenient)
            && back.Some? && |back.value| == |ls|
            && ((forall i | 0 <= i < |ls| :: SameLease(back.value[i], ls[i])) <==>
                (forall i | 0 <= i < |ls| :: !Ambiguous(ls[i])))
  {
    SerializeThenParse(ls, lenient);
    forall i | 0 <= i < |ls|
      ensures SameLease(ReadBackAll(ls)[i], ls[i]) <==> !Ambiguous(ls[i])
    {
      AmbiguousIff(ls[i]);
    }
  }

  lemma PairsAreMac(digits: string, lenient: string -> Option<int>)
    requires |digits| == 12 && AllUpperHex(digits)
    ensures NormalizeMac(Pairs(digits), lenient) == Some(Pairs(digits)) && IsPlain(Pairs(digits))
  {
    PairsFacts(digits);
    HexOnlyKeeps(digits);
    PlainByHeads(Pairs(digits));
  }

  lemma LegacyIsNormal(mac: string, ip: string, hostname: string, lenient: string -> Option<int>)
    requires NormalizeMac(mac, lenient) == Some(mac) && IsPlain(mac)
    requires NormalizeIpv4(ip) == Some(ip) && IsPlain(ip) && IsPlain(hostname)
    ensures Normal(Lease(mac, ip, "", hostname, Legacy), lenient)
  {
    PlainByHeads("");
  }

  predicate NormalAddresses(mac: string, address: string, lenient: string -> Option<int>) {
    && NormalizeMac(mac, lenient) == Some(mac) && IsPlain(mac)
    && NormalizeIpv4(address) == Some(address) && IsPlain(address)
  }

  /** A list of one legacy lease whose host name is an address: it comes back as DNS server. */
  lemma AddressHostNameLost(mac: string, address: string, lenient: string -> Option<int>)
    requires NormalAddresses(mac, address, lenient)
    ensures var l := Lease(mac, address, "", address, Legacy);
            && Normal(l, lenient) && Ambiguous(l)
            && Parse(SerializeAll([l]), lenient) == Some([Lease(mac, address, address, "", Modern)])
  {
    var l := Lease(mac, address, "", address, Legacy);
    LegacyIsNormal(mac, address, address, lenient);
    SerializeThenParse([l], lenient);
    assert ReadBackAll([l]) == [ReadBack(l)];
  }

  /** Such addresses: AA:BB:CC:DD:EE:FF and 10.0.0.9. */
  lemma ExampleAddresses(lenient: string -> Option<int>)
    ensures NormalAddresses(Pairs("AABBCCDDEEFF"), Join(["10", "0", "0", "9"], "."), lenient)
  {
    OctetsOfExample();
    QuadIsIpv4(["10", "0", "0", "9"]);
    PairsAreMac("AABBCCDDEEFF", lenient);
  }

  lemma OctetsOfExample()
    ensures IsOctet("10") && IsOctet("0") && IsOctet("9")
  {
    assert "10"[..1] == "1" && "1"[..0] == "" && "0"[..0] == "" && "9"[..0] == "";
    assert Digits("1") == 1 && Digits("10") == 10 && Digits("0") == 0 && Digits("9") == 9;
  }

  // ---- what a row tells ------------------------------------------------------------------------

  /** Why a lease is refused, and what becomes of one that is not. */
  lemma NormalizeIff(l: Lease, lenient: string -> Option<int>)
    ensures Normalize(l, lenient).Some? <==>
            && NormalizeMac(l.mac, lenient).Some? && NormalizeIpv4(l.ip).Some? && (l.dns == "" || NormalizeIpv4(l.dns).Some?)
            && !(l.layout == Legacy && l.dns != "") && IsPlain(l.hostname)
    ensures Normalize(l, lenient).Some? ==>
              var n := Normalize(l, lenient).value;
              && Some(n.mac) == NormalizeMac(l.mac, lenient) && Some(n.ip) == NormalizeIpv4(l.ip)
              && (if l.dns == "" then n.dns == "" else Some(n.dns) == NormalizeIpv4(l.dns))
              && n.hostname == l.hostname && n.layout == l.layout
  {
    if NormalizeMac(l.mac, lenient).Some? && NormalizeIpv4(l.ip).Some? && (l.dns == "" || NormalizeIpv4(l.dns).Some?) {
      MacNormalForm(l.mac, lenient);
      Ipv4NormalForm(Strip(l.ip));
      PlainByHeads("");
      if l.dns != "" {
        Ipv4NormalForm(Strip(l.dns));
      }
    }
  }

  /** Text without any of the four delimiters. */
  lemma PlainIff(s: string)
    ensures IsPlain(s) <==>
            forall i | 0 <= i < |s| :: s[i] != '<' && s[i] != '>' && !("&#60" <= s[i..]) && !("&#62" <= s[i..])
  {
    FreeIff(s, LT);
    FreeIff(s, GT);
    FreeIff(s, LT_ENTITY);
    FreeIff(s, GT_ENTITY);
    assert forall i | 0 <= i < |s| :: (LT <= s[i..] <==> s[i] == '<') && (GT <= s[i..] <==> s[i] == '>');
  }

  lemma EmptyNoAddress()
    ensures NormalizeIpv4("").None?
  {
    assert Strip("") == "" && Split("", ".") == [""];
  }

  /** Which rows are read: two to four columns, the first two a MAC and an address, a fourth column only behind an
      empty one or an address, and a host name without delimiters. */
  lemma RowReadIff(columns: seq<string>, lenient: string -> Option<int>)
    requires |columns| > 0 && AllFree(columns, GT)
    ensures ParseRow(Join(columns, GT), lenient).Some? <==>
            && 2 <= |columns| <= 4 && columns[0] != "" && columns[1] != ""
            && NormalizeMac(columns[0], lenient).Some? && NormalizeIpv4(columns[1]).Some?
            && (|columns| == 3 ==> NormalizeIpv4(columns[2]).Some? || IsPlain(columns[2]))
            && (|columns| == 4 ==> (columns[2] == "" || NormalizeIpv4(columns[2]).Some?) && IsPlain(columns[3]))
  {
    SplitJoin(columns, GT);
    PlainByHeads("");
    if 2 <= |columns| <= 4 && columns[0] != "" && columns[1] != "" {
      EachNormalizes(columns, lenient);
    }
  }

  lemma EachNormalizes(columns: seq<string>, lenient: string -> Option<int>)
    requires 2 <= |columns| <= 4
    ensures var mac, ip := columns[0], columns[1];
            var ok := NormalizeMac(mac, lenient).Some? && NormalizeIpv4(ip).Some?;
            && (Normalize(Lease(mac, ip, "", "", Modern), lenient).Some? <==> ok)
            && (|columns| == 3 ==>
                  && (NormalizeIpv4(columns[2]).Some? ==>
                        (Normalize(Lease(mac, ip, NormalizeIpv4(columns[2]).value, "", Modern), lenient).Some? <==> ok))
                  && (Normalize(Lease(mac, ip, "", columns[2], Legacy), lenient).Some? <==> ok && IsPlain(columns[2])))
            && (|columns| == 4 ==>
                  (Normalize(Lease(mac, ip, columns[2], columns[3], Modern), lenient).Some? <==>
                   ok && (columns[2] == "" || NormalizeIpv4(columns[2]).Some?) && IsPlain(columns[3])))
  {
    PlainByHeads("");
    NormalizeIff(Lease(columns[0], columns[1], "", "", Modern), lenient);
    if |columns| == 3 {
      NormalizeIff(Lease(columns[0], columns[1], "", columns[2], Legacy), lenient);
      if NormalizeIpv4(columns[2]).Some? {
        Ipv4NormalForm(Strip(columns[2]));
        NormalizeIff(Lease(columns[0], columns[1], Strip(columns[2]), "", Modern), lenient);
      }
    } else if |columns| == 4 {
      NormalizeIff(Lease(columns[0], columns[1], columns[2], columns[3], Modern), lenient);
    }
  }

  /** What a row that is read tells, column by column. A third and last column is the DNS server if it is an address,
      and a legacy host name otherwise. */
  lemma RowTold(columns: seq<string>, lenient: string -> Option<int>)
    requires |columns| > 0 && AllFree(columns, GT) && ParseRow(Join(columns, GT), lenient).Some?
    ensures var l := ParseRow(Join(columns, GT), lenient).value;
            && |columns| >= 2 && Some(l.mac) == NormalizeMac(columns[0], lenient) && Some(l.ip) == NormalizeIpv4(columns[1])
            && (|columns| == 2 ==> l.dns == "" && l.hostname == "" && l.layout == Modern)
            && (|columns| == 3 && columns[2] == "" ==> l.dns == "" && l.hostname == "" && l.layout == Modern)
            && (|columns| == 3 && NormalizeIpv4(columns[2]).Some? ==>
                  Some(l.dns) == NormalizeIpv4(columns[2]) && l.hostname == "" && l.layout == Modern)
            && (|columns| == 3 && columns[2] != "" && NormalizeIpv4(columns[2]).None? ==>
                  l.dns == "" && l.hostname == columns[2] && l.layout == Legacy)
            && (|columns| == 4 ==>
                  l.hostname == columns[3] && l.layout == Modern
                  && if columns[2] == "" then l.dns == "" else Some(l.dns) == NormalizeIpv4(columns[2]))
  {
    SplitJoin(columns, GT);
    EmptyNoAddress();
    if |columns| == 3 && NormalizeIpv4(columns[2]).Some? {
      Ipv4NormalForm(Strip(columns[2]));
    }
  }

  /** What is written for a lease: no more columns than it has something to say in, an empty one only in front of a
      modern host name. */
  lemma LeaseWritten(l: Lease)
    ensures var row := "<" + l.mac + ">" + l.ip;
            Serialize(l) ==
            if l.layout == Legacy then if l.hostname == "" then row else row + ">" + l.hostname
            else if l.hostname != "" then row + ">" + l.dns + ">" + l.hostname
            else if l.dns != "" then row + ">" + l.dns
            else row
  {
    var fields := Fields(l);
    assert fields[0] == l.mac && fields[1] == l.ip && fields[1..][0] == l.ip;
    if |fields| == 2 {
      JoinCons(l.mac, [l.ip], GT);
      assert fields == [l.mac] + [l.ip];
    } else if |fields| == 3 {
      JoinCons(l.ip, [fields[2]], GT);
      JoinCons(l.mac, [l.ip] + [fields[2]], GT);
      assert fields == [l.mac] + ([l.ip] + [fields[2]]);
    } else {
      JoinCons(l.dns, [l.hostname], GT);
      JoinCons(l.ip, [l.dns] + [l.hostname], GT);
      JoinCons(l.mac, [l.ip] + ([l.dns] + [l.hostname]), GT);
      assert fields == [l.mac] + ([l.ip] + ([l.dns] + [l.hostname]));
    }
  }

  lemma {:induction false} TraverseOneMore<A, B>(xs: seq<A>, x: A, f: A -> Option<B>)
    ensures Traverse(xs + [x], f) ==
            if Traverse(xs, f).Some? && f(x).Some? then Some(Traverse(xs, f).value + [f(x).value]) else None
  {
    if xs == [] {
      assert xs + [x] == [x] && [x][1..] == [];
      assert Traverse([], f) == Some([]) && Traverse(xs, f) == Some([]);
      if f(x).Some? {
        assert [f(x).value] + [] == [] + [f(x).value];
      }
    } else {
      TraverseOneMore(xs[1..], x, f);
      assert (xs + [x])[1..] == xs[1..] + [x];
      if f(xs[0]).Some? && Traverse(xs[1..], f).Some? && f(x).Some? {
        var first, rest, last := [f(xs[0]).value], Traverse(xs[1..], f).value, [f(x).value];
        assert first + (rest + last) == (first + rest) + last;
      }
    }
  }

  lemma {:induction false} NonEmptyOneMore(rows: seq<string>, row: string)
    ensures NonEmptyRows(rows + [row]) == NonEmptyRows(rows) + if row == "" then [] else [row]
  {
    if rows == [] {
      assert rows + [row] == [row] && [row][1..] == [];
    } else {
      NonEmptyOneMore(rows[1..], row);
      assert (rows + [row])[1..] == rows[1..] + [row];
    }
  }

  ghost predicate RowsFree(rows: seq<string>) {
    AllFree(rows, LT) && AllFree(rows, LT_ENTITY) && AllFree(rows, GT_ENTITY)
  }

  lemma ParseText(text: string, rows: seq<string>, lenient: string -> Option<int>)
    requires Split(DecodeRowsFirst(text), LT) == rows
    ensures Parse(text, lenient) == ParseRows(rows, lenient)
  {
    if text == "" {
      assert DecodeRowsFirst("") == "" && Split("", LT) == [""];
      assert [""][1..] == [] && NonEmptyRows([""]) == [];
    }
  }

  lemma ListIsRows(rows: seq<string>, lenient: string -> Option<int>)
    requires |rows| > 0 && RowsFree(rows)
    ensures var text := Join(rows, LT);
            Parse(text, lenient) == ParseRows(rows, lenient) == Parse(EntityEncode(text), lenient)
  {
    var text := Join(rows, LT);
    RowsDecoded(rows);
    ParseText(text, rows, lenient);
    ParseText(EntityEncode(text), rows, lenient);
  }

  lemma RowsDecoded(rows: seq<string>)
    requires |rows| > 0 && RowsFree(rows)
    ensures var text := Join(rows, LT);
            Split(DecodeRowsFirst(text), LT) == rows == Split(DecodeRowsFirst(EntityEncode(text)), LT)
  {
    FreeJoin(rows, LT, LT_ENTITY);
    FreeJoin(rows, LT, GT_ENTITY);
    EntityRoundTrip(Join(rows, LT));
    SplitJoin(rows, LT);
  }

  /** A list read row by row: an empty row says nothing, any other one lease, and one that cannot be read spoils the
      whole list. */
  lemma ListTold(rows: seq<string>, row: string, lenient: string -> Option<int>)
    requires |rows| > 0 && RowsFree(rows) && Free(row, LT) && Free(row, LT_ENTITY) && Free(row, GT_ENTITY)
    ensures var before, after := Parse(Join(rows, LT), lenient), Parse(Join(rows + [row], LT), lenient);
            && (row == "" ==> after == before)
            && (row != "" ==> (after.Some? <==> before.Some? && ParseRow(row, lenient).Some?))
            && (row != "" && after.Some? ==> after.value == before.value + [ParseRow(row, lenient).value])
  {
    assert RowsFree(rows + [row]);
    ListIsRows(rows, lenient);
    ListIsRows(rows + [row], lenient);
    NonEmptyOneMore(rows, row);
    TraverseOneMore(NonEmptyRows(rows), row, RowParser(lenient));
    assert NonEmptyRows(rows) + [] == NonEmptyRows(rows);
  }

  /** The leases the parser can produce. */
  predicate Parsed(l: Lease, lenient: string -> Option<int>) {
    Normal(l, lenient) && ReadBack(l) == l
  }

  lemma ParseRowIsParsed(row: string, lenient: string -> Option<int>)
    requires ParseRow(row, lenient).Some?
    ensures Parsed(ParseRow(row, lenient).value, lenient)
  {
    var columns := Split(row, GT);
    var l := ParseRow(row, lenient).value;
    if |columns| == 3 && columns[2] != "" {
      match NormalizeIpv4(columns[2])
      case Some(dns) => NormalizeIdempotent(Lease(columns[0], columns[1], dns, "", Modern), lenient);
      case None => NormalizeIdempotent(Lease(columns[0], columns[1], "", columns[2], Legacy), lenient);
    } else if |columns| == 4 {
      NormalizeIdempotent(Lease(columns[0], columns[1], columns[2], columns[3], Modern), lenient);
    } else {
      NormalizeIdempotent(Lease(columns[0], columns[1], "", "", Modern), lenient);
    }
  }

  ghost predicate AllParsed(ls: seq<Lease>, lenient: string -> Option<int>) {
    forall i | 0 <= i < |ls| :: Parsed(ls[i], lenient)
  }

  lemma ParseRowsParsed(rows: seq<string>, lenient: string -> Option<int>)
    requires ParseRows(rows, lenient).Some?
    ensures AllParsed(ParseRows(rows, lenient).value, lenient)
  {
    var kept, ls := NonEmptyRows(rows), ParseRows(rows, lenient).value;
    TraverseParts(kept, RowParser(lenient));
    forall i | 0 <= i < |ls| ensures Parsed(ls[i], lenient) {
      assert RowParser(lenient)(kept[i]) == Some(ls[i]);
      ParseRowIsParsed(kept[i], lenient);
    }
  }

  /** On anything the parser produced, serialise-then-parse is the identity, layouts included. */
  lemma ParsedIsFixed(content: string, lenient: string -> Option<int>)
    requires Parse(content, lenient).Some?
    ensures var ls := Parse(content, lenient).value;
            && AllParsed(ls, lenient)
            && Parse(SerializeAll(ls), lenient) == Some(ls) == Parse(EntityEncode(SerializeAll(ls)), lenient)
  {
    var ls := Parse(content, lenient).value;
    if content != "" {
      ParseRowsParsed(Split(DecodeRowsFirst(content), LT), lenient);
    }
    SerializeThenParse(ls, lenient);
    assert ReadBackAll(ls) == ls;
  }
}
