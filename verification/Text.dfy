/** Optional values, results, and the text cleaning shared by every reader of router data. */
module Text {

  datatype Option<+T> = None | Some(value: T)
  datatype Result<+T> = Ok(value: T) | Fail(reason: string)

  function OrEmpty(s: Option<string>): string {
    if s.Some? then s.value else ""
  }

  const BYTE_ORDER_MARK := '\U{FEFF}'

  /** The characters `str.strip` removes. */
  predicate IsSpace(c: char) {
    var n := c as int;
    || 0x09 <= n <= 0x0D || 0x1C <= n <= 0x20 || n == 0x85 || n == 0xA0 || n == 0x1680
    || 0x2000 <= n <= 0x200A || n == 0x2028 || n == 0x2029 || n == 0x202F || n == 0x205F || n == 0x3000
  }

  /** One by one: the ASCII ones, next line, no-break space, the Ogham mark, the quads and spaces of U+2000, both
      separators, the narrow, mathematical and ideographic ones. */
  lemma SpacesListed(c: char)
    ensures IsSpace(c) <==> c in "\U{9}\U{A}\U{B}\U{C}\U{D}\U{1C}\U{1D}\U{1E}\U{1F} \U{85}\U{A0}\U{1680}"
                                 + "\U{2000}\U{2001}\U{2002}\U{2003}\U{2004}\U{2005}\U{2006}\U{2007}\U{2008}\U{2009}\U{200A}"
                                 + "\U{2028}\U{2029}\U{202F}\U{205F}\U{3000}"
  {
  }

  function StripLeft(s: string): string {
    if s != "" && IsSpace(s[0]) then StripLeft(s[1..]) else s
  }

  function StripRight(s: string): string {
    if s != "" && IsSpace(s[|s| - 1]) then StripRight(s[..|s| - 1]) else s
  }

  function Strip(s: string): string {
    StripRight(StripLeft(s))
  }

  /** `clean_string`: stripped, without a leading byte order mark, and never empty. */
  function CleanString(s: string): Option<string> {
    var t := Strip(s);
    var u := if t != "" && t[0] == BYTE_ORDER_MARK then t[1..] else t;
    if u == "" then None else Some(u)
  }

  /** Nothing to clean: no white space at either end and no mark in front. */
  predicate IsClean(s: string) {
    s != "" && !IsSpace(s[0]) && !IsSpace(s[|s| - 1]) && s[0] != BYTE_ORDER_MARK
  }

  lemma CleanStringKeeps(s: string)
    requires IsClean(s)
    ensures Strip(s) == s && CleanString(s) == Some(s)
  {
  }

  lemma {:induction false} StripLeftShrinks(s: string)
    ensures |StripLeft(s)| <= |s|
    ensures s != "" && IsSpace(s[0]) ==> |StripLeft(s)| < |s|
  {
    if s != "" && IsSpace(s[0]) {
      StripLeftShrinks(s[1..]);
    }
  }

  lemma {:induction false} StripRightShrinks(s: string)
    ensures |StripRight(s)| <= |s|
    ensures s != "" && IsSpace(s[|s| - 1]) ==> |StripRight(s)| < |s|
  {
    if s != "" && IsSpace(s[|s| - 1]) {
      StripRightShrinks(s[..|s| - 1]);
    }
  }

  /** A byte order mark in front of text is taken off as well. */
  lemma MarkCleaned(s: string)
    requires s == "" || !IsSpace(s[|s| - 1])
    ensures CleanString([BYTE_ORDER_MARK] + s) == if s == "" then None else Some(s)
  {
    assert ([BYTE_ORDER_MARK] + s)[1..] == s;
  }

  ghost predicate AllSpace(s: string) {
    forall i | 0 <= i < |s| :: IsSpace(s[i])
  }

  lemma {:induction false} StripLeftCuts(s: string) returns (front: string)
    ensures s == front + StripLeft(s) && AllSpace(front)
    ensures StripLeft(s) == "" || !IsSpace(StripLeft(s)[0])
  {
    front := "";
    if s != "" && IsSpace(s[0]) {
      var more := StripLeftCuts(s[1..]);
      front := [s[0]] + more;
    }
  }

  lemma {:induction false} StripRightCuts(s: string) returns (back: string)
    ensures s == StripRight(s) + back && AllSpace(back)
    ensures StripRight(s) == "" || !IsSpace(StripRight(s)[|StripRight(s)| - 1])
  {
    back := "";
    if s != "" && IsSpace(s[|s| - 1]) {
      var front, last := s[..|s| - 1], s[|s| - 1];
      var more := StripRightCuts(front);
      back := more + [last];
      assert s == front + [last] && StripRight(s) == StripRight(front);
      assert StripRight(front) + (more + [last]) == (StripRight(front) + more) + [last];
    }
  }

  /** Stripping takes white space off both ends, all of it and nothing else. */
  lemma StripCuts(s: string) returns (front: string, back: string)
    ensures s == front + Strip(s) + back && AllSpace(front) && AllSpace(back)
    ensures Strip(s) == "" || (!IsSpace(Strip(s)[0]) && !IsSpace(Strip(s)[|Strip(s)| - 1]))
  {
    front := StripLeftCuts(s);
    back := StripRightCuts(StripLeft(s));
    if Strip(s) != "" {
      assert StripLeft(s)[0] == Strip(s)[0];
    }
  }

  lemma StripBlank(s: string)
    ensures Strip(s) == "" <==> AllSpace(s)
  {
    var front, back := StripCuts(s);
    if Strip(s) == "" {
      assert s == front + back;
    } else {
      assert s[|front|] == Strip(s)[0];
    }
  }

  lemma {:induction false} StripLeftPadded(front: string, s: string)
    requires AllSpace(front) && (s == "" || !IsSpace(s[0]))
    ensures StripLeft(front + s) == s
  {
    if front == "" {
      assert front + s == s;
    } else {
      StripLeftPadded(front[1..], s);
      assert (front + s)[1..] == front[1..] + s;
    }
  }

  lemma {:induction false} StripRightPadded(s: string, back: string)
    requires AllSpace(back) && (s == "" || !IsSpace(s[|s| - 1]))
    ensures StripRight(s + back) == s
  {
    if back == "" {
      assert s + back == s;
    } else {
      StripRightPadded(s, back[..|back| - 1]);
      assert (s + back)[..|s + back| - 1] == s + back[..|back| - 1];
    }
  }

  /** White space around clean text is all that cleaning takes away. */
  lemma CleanStringPadded(front: string, s: string, back: string)
    requires AllSpace(front) && IsClean(s) && AllSpace(back)
    ensures CleanString(front + s + back) == Some(s)
  {
    assert front + s + back == front + (s + back);
    StripLeftPadded(front, s + back);
    StripRightPadded(s, back);
  }

  /** Cleaning returns the very text it was given exactly when there was nothing to clean. */
  lemma CleanStringFixpoint(s: string)
    ensures CleanString(s) == Some(s) <==> IsClean(s)
  {
    StripLeftShrinks(s);
    StripRightShrinks(StripLeft(s));
    if IsClean(s) {
      CleanStringKeeps(s);
    }
  }

  predicate IsDigit(c: char) {
    '0' <= c <= '9'
  }

  predicate IsHex(c: char) {
    '0' <= c <= '9' || 'A' <= c <= 'F' || 'a' <= c <= 'f'
  }

  predicate AllDigits(s: string) {
    forall c | c in s :: IsDigit(c)
  }

  /** The numeral without its minus sign. */
  function Magnitude(s: string): string {
    if s != "" && s[0] == '-' then s[1..] else s
  }

  predicate IsDecimal(s: string) {
    Magnitude(s) != "" && AllDigits(Magnitude(s))
  }

  function Digits(s: string): int
    requires AllDigits(s)
  {
    if s == "" then 0 else 10 * Digits(s[..|s| - 1]) + (s[|s| - 1] as int - '0' as int)
  }

  function Decimal(s: string): int
    requires IsDecimal(s)
  {
    if s[0] == '-' then -Digits(Magnitude(s)) else Digits(Magnitude(s))
  }

  /** `safe_int` on text. `lenient` stands for whatever `int` and `float` make of text that is not a
      plain decimal numeral, so a statement that holds for every `lenient` does not depend on it. */
  function SafeInt(s: string, lenient: string -> Option<int>, default: Option<int>): Option<int> {
    match CleanString(s)
    case None => default
    case Some(t) =>
      if IsDecimal(t) then Some(Decimal(t))
      else if lenient(t).Some? then lenient(t)
      else default
  }

  // ---- numerals --------------------------------------------------------------------------------

  function ShowNat(n: nat): string {
    if n < 10 then [('0' as int + n) as char] else ShowNat(n / 10) + [('0' as int + n % 10) as char]
  }

  /** `str` of an int. */
  function Show(n: int): string {
    if n < 0 then "-" + ShowNat(-n) else ShowNat(n)
  }

  lemma {:induction false} ShowNatDigits(n: nat)
    ensures ShowNat(n) != "" && AllDigits(ShowNat(n)) && Digits(ShowNat(n)) == n
    ensures n > 0 ==> ShowNat(n)[0] != '0'
  {
    var s := ShowNat(n);
    if n >= 10 {
      ShowNatDigits(n / 10);
      assert s[..|s| - 1] == ShowNat(n / 10);
    } else {
      assert s[..0] == "";
    }
  }

  /** A number in decimal, white space around it or not, is read as that number. */
  lemma SafeIntReads(front: string, n: int, back: string, lenient: string -> Option<int>, default: Option<int>)
    requires AllSpace(front) && AllSpace(back)
    ensures SafeInt(front + Show(n) + back, lenient, default) == Some(n)
  {
    var s := Show(n);
    ShowNatDigits(if n < 0 then -n else n);
    assert Magnitude(s) == ShowNat(if n < 0 then -n else n) by {
      assert ShowNat(if n < 0 then -n else n)[0] in ShowNat(if n < 0 then -n else n);
    }
    assert s[|s| - 1] == Magnitude(s)[|Magnitude(s)| - 1] && Magnitude(s)[|Magnitude(s)| - 1] in Magnitude(s);
    assert s[0] == '-' || s[0] in Magnitude(s);
    CleanStringPadded(front, s, back);
  }

  /** Text that is no plain numeral is left to the parameter, and is the default where that makes nothing of it. */
  lemma SafeIntOther(s: string, lenient: string -> Option<int>, default: Option<int>)
    requires CleanString(s).Some? && !IsDecimal(CleanString(s).value)
    ensures lenient(CleanString(s).value).Some? ==> SafeInt(s, lenient, default) == lenient(CleanString(s).value)
    ensures lenient(CleanString(s).value).None? ==> SafeInt(s, lenient, default) == default
  {
  }

  /** Text of white space only is read as the default. */
  lemma SafeIntBlank(s: string, lenient: string -> Option<int>, default: Option<int>)
    requires AllSpace(s)
    ensures SafeInt(s, lenient, default) == default
  {
    StripBlank(s);
  }
}
