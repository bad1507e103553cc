/** The order on firmware versions, compared layer by layer. */
module Firmware {
  import opened Delimited
  import opened Text

  datatype Revision = Unset | Number(value: int) | Label(text: string)

  datatype FirmwareType = STOCK | MERLIN | GNUTON

  /** `major` holds the parts of the major version after its first digit, which only tells betas apart. */
  datatype Firmware = Firmware(beta: bool, major: Option<seq<int>>, minor: Option<int>, build: Option<int>,
                               revision: Revision)

  const ALPHA := "alpha"
  const BETA := "beta"
  const GNUTON_MARK := "gnuton"

  predicate Contains(s: string, tok: string)
    requires tok != ""
  {
    !Free(s, tok)
  }

  function Source(f: Firmware): FirmwareType {
    match f.revision
    case Unset => STOCK
    case Number(_) => MERLIN
    case Label(text) =>
      if Contains(text, GNUTON_MARK) then GNUTON
      else if Contains(text, ALPHA) || Contains(text, BETA) then MERLIN
      else STOCK
  }

  /** Python's order on strings. */
  predicate Before(s: string, t: string) {
    t != "" && (s == "" || s[0] < t[0] || (s[0] == t[0] && Before(s[1..], t[1..])))
  }

  /** What comes before `alpha` or `beta`. */
  function GetPrefix(v: string): string {
    if Contains(v, ALPHA) then NonEmpty(Split(v, ALPHA)[0])
    else if Contains(v, BETA) then NonEmpty(Split(v, BETA)[0])
    else v
  }

  function NonEmpty(s: string): string {
    if CleanString(s).Some? then CleanString(s).value else "-1"
  }

  // ---- the layers ------------------------------------------------------------------------------

  /** Only the parts both versions have are compared. */
  predicate PartsBelow(a: seq<int>, b: seq<int>) {
    a != [] && b != [] && (a[0] < b[0] || (a[0] == b[0] && PartsBelow(a[1..], b[1..])))
  }

  predicate NumberBelow(a: Option<int>, b: Option<int>) {
    b.Some? && (a.None? || a.value < b.value)
  }

  predicate RevisionBelow(a: Revision, b: Revision) {
    match (a, b)
    case (_, Unset) => false
    case (Unset, _) => true
    case (Number(m), Number(n)) => m < n
    case (Label(s), Label(t)) => Before(s, t)
    case (Number(m), Label(t)) => Show(m) != GetPrefix(t) && Before(Show(m), GetPrefix(t))
    case (Label(s), Number(n)) => Show(n) == GetPrefix(s) || Before(GetPrefix(s), Show(n))
  }

  predicate Below(a: Firmware, b: Firmware) {
    && Source(a) == Source(b) && a.major.Some? && b.major.Some?
    && if PartsBelow(a.major.value, b.major.value) then true
       else if PartsBelow(b.major.value, a.major.value) then false
       else if NumberBelow(a.minor, b.minor) then true
       else if NumberBelow(b.minor, a.minor) then false
       else if NumberBelow(a.build, b.build) then true
       else if NumberBelow(b.build, a.build) then false
       else RevisionBelow(a.revision, b.revision)
  }

  method LessParts(v1: seq<int>, v2: seq<int>) returns (less: bool)
    ensures less <==> PartsBelow(v1, v2)
  {
    var n := if |v1| < |v2| then |v1| else |v2|;
    for i := 0 to n
      invariant PartsBelow(v1, v2) <==> PartsBelow(v1[i..], v2[i..])
    {
      if v1[i] < v2[i] {
        return true;
      }
      if v2[i] < v1[i] {
        return false;
      }
    }
    return false;
  }

  method Less(a: Firmware, b: Firmware) returns (less: bool)
    ensures less <==> Below(a, b)
  {
    if Source(a) != Source(b) || a.major.None? || b.major.None? {
      return false;
    }
    less := LessParts(a.major.value, b.major.value);
    if less {
      return true;
    }
    var more := LessParts(b.major.value, a.major.value);
    if more {
      return false;
    }
    if NumberBelow(a.minor, b.minor) {
      return true;
    }
    if NumberBelow(b.minor, a.minor) {
      return false;
    }
    if NumberBelow(a.build, b.build) {
      return true;
    }
    if NumberBelow(b.build, a.build) {
      return false;
    }
    return RevisionBelow(a.revision, b.revision);
  }

  // ---- each layer ------------------------------------------------------------------------------

  lemma {:induction false} BeforeIsOrder(s: string, t: string)
    ensures !(Before(s, t) && Before(t, s))
    ensures s == t || Before(s, t) || Before(t, s)
    ensures s == t ==> !Before(s, t)
  {
    if s != "" && t != "" {
      BeforeIsOrder(s[1..], t[1..]);
      if s[0] == t[0] && s[1..] == t[1..] {
        assert s == [s[0]] + s[1..] && t == [t[0]] + t[1..];
      }
    }
  }

  lemma {:induction false} BeforeTransitive(s: string, t: string, u: string)
    requires Before(s, t) && Before(t, u)
    ensures Before(s, u)
  {
    if s != "" && s[0] == t[0] == u[0] {
      BeforeTransitive(s[1..], t[1..], u[1..]);
    }
  }

  lemma {:induction false} PartsOrder(a: seq<int>, b: seq<int>)
    ensures !(PartsBelow(a, b) && PartsBelow(b, a))
    ensures |a| == |b| ==> a == b || PartsBelow(a, b) || PartsBelow(b, a)
    ensures a == b ==> !PartsBelow(a, b)
  {
    if a != [] && b != [] {
      PartsOrder(a[1..], b[1..]);
      if a[0] == b[0] && a[1..] == b[1..] {
        assert a == [a[0]] + a[1..] && b == [b[0]] + b[1..];
      }
    }
  }

  lemma {:induction false} PartsTransitive(a: seq<int>, b: seq<int>, c: seq<int>)
    requires PartsBelow(a, b) && PartsBelow(b, c)
    ensures PartsBelow(a, c)
  {
    if a[0] == b[0] == c[0] {
      PartsTransitive(a[1..], b[1..], c[1..]);
    }
  }

  lemma RevisionAsymmetric(a: Revision, b: Revision)
    ensures !(RevisionBelow(a, b) && RevisionBelow(b, a))
  {
    match (a, b)
    case (Label(s), Label(t)) => BeforeIsOrder(s, t);
    case (Number(m), Label(t)) => BeforeIsOrder(Show(m), GetPrefix(t));
    case (Label(s), Number(n)) => BeforeIsOrder(Show(n), GetPrefix(s));
    case _ =>
  }

  /** A number is compared with numbers only. */
  predicate SameKind(a: Revision, b: Revision) {
    a.Number? == b.Number?
  }

  lemma RevisionOrder(a: Revision, b: Revision, c: Revision)
    requires SameKind(a, b) && SameKind(b, c)
    ensures RevisionBelow(a, b) && RevisionBelow(b, c) ==> RevisionBelow(a, c)
    ensures a == b || RevisionBelow(a, b) || RevisionBelow(b, a)
  {
    if a.Label? && b.Label? {
      BeforeIsOrder(a.text, b.text);
      if c.Label? && Before(a.text, b.text) && Before(b.text, c.text) {
        BeforeTransitive(a.text, b.text, c.text);
      }
    }
  }

  // ---- the order -------------------------------------------------------------------------------

  lemma BelowAsymmetric(a: Firmware, b: Firmware)
    ensures !(Below(a, b) && Below(b, a))
    ensures !Below(a, a)
  {
    RevisionAsymmetric(a.revision, b.revision);
    RevisionAsymmetric(a.revision, a.revision);
    if a.major.Some? {
      PartsOrder(a.major.value, a.major.value);
      if b.major.Some? {
        PartsOrder(a.major.value, b.major.value);
      }
    }
  }

  /** Majors with the same number of parts, and revisions all numbers or none. */
  predicate Comparable(a: Firmware, b: Firmware) {
    && a.major.Some? && b.major.Some? && |a.major.value| == |b.major.value|
    && SameKind(a.revision, b.revision)
  }

  /** On such versions the order is transitive, and of one source any two that differ in more than the
      beta digit are ordered. */
  lemma BelowIsTotalOrder(a: Firmware, b: Firmware, c: Firmware)
    requires Comparable(a, b) && Comparable(b, c)
    ensures Below(a, b) && Below(b, c) ==> Below(a, c)
    ensures Source(a) == Source(b) ==> Below(a, b) || Below(b, a) || a.(beta := b.beta) == b
  {
    PartsOrder(a.major.value, b.major.value);
    PartsOrder(b.major.value, c.major.value);
    PartsOrder(a.major.value, c.major.value);
    RevisionOrder(a.revision, b.revision, c.revision);
    if PartsBelow(a.major.value, b.major.value) && PartsBelow(b.major.value, c.major.value) {
      PartsTransitive(a.major.value, b.major.value, c.major.value);
    }
  }

  // ---- which layer decides -------------------------------------------------------------------------

  /** The first place in which two texts or lists of numbers differ decides. */
  lemma {:induction false} PartsBelowIff(a: seq<int>, b: seq<int>)
    ensures PartsBelow(a, b) <==> exists i :: 0 <= i < |a| && i < |b| && a[..i] == b[..i] && a[i] < b[i]
  {
    if PartsBelow(a, b) {
      if a[0] < b[0] {
        assert a[..0] == b[..0];
      } else {
        PartsBelowIff(a[1..], b[1..]);
        var i :| 0 <= i < |a| - 1 && i < |b| - 1 && a[1..][..i] == b[1..][..i] && a[1..][i] < b[1..][i];
        assert a[..i + 1] == [a[0]] + a[1..][..i] && b[..i + 1] == [b[0]] + b[1..][..i] && a[i + 1] < b[i + 1];
      }
    }
    if i :| 0 <= i < |a| && i < |b| && a[..i] == b[..i] && a[i] < b[i] {
      if i > 0 {
        assert a[0] == a[..i][0] == b[0];
        assert a[1..][..i - 1] == a[..i][1..] && b[1..][..i - 1] == b[..i][1..];
        assert a[1..][i - 1] < b[1..][i - 1];
        PartsBelowIff(a[1..], b[1..]);
      }
    }
  }

  lemma {:induction false} BeforeIff(s: string, t: string)
    ensures Before(s, t) <==> exists i :: 0 <= i <= |s| && i < |t| && s[..i] == t[..i] && (i == |s| || s[i] < t[i])
  {
    if Before(s, t) {
      if s == "" || s[0] < t[0] {
        assert s[..0] == t[..0];
      } else {
        BeforeIff(s[1..], t[1..]);
        var i :| 0 <= i <= |s| - 1 && i < |t| - 1 && s[1..][..i] == t[1..][..i] && (i == |s| - 1 || s[1..][i] < t[1..][i]);
        assert s[..i + 1] == [s[0]] + s[1..][..i] && t[..i + 1] == [t[0]] + t[1..][..i];
        assert i + 1 == |s| || s[i + 1] < t[i + 1];
      }
    }
    if i :| 0 <= i <= |s| && i < |t| && s[..i] == t[..i] && (i == |s| || s[i] < t[i]) {
      if i > 0 {
        assert s[0] == s[..i][0] == t[0];
        assert s[1..][..i - 1] == s[..i][1..] && t[1..][..i - 1] == t[..i][1..];
        assert i - 1 == |s[1..]| || s[1..][i - 1] < t[1..][i - 1];
        BeforeIff(s[1..], t[1..]);
      }
    }
  }

  /** A number that may be missing, as two: a missing one comes first. */
  function KeyOf(n: Option<int>): seq<int> {
    if n.Some? then [1, n.value] else [0, 0]
  }

  /** A version without a label as one list of numbers: major, minor, build, revision. */
  function Key(f: Firmware): seq<int>
    requires f.major.Some? && !f.revision.Label?
  {
    f.major.value + (KeyOf(f.minor) + (KeyOf(f.build) + (if f.revision.Number? then [1, f.revision.value] else [0, 0])))
  }

  lemma {:induction false} PartsConcat(a: seq<int>, b: seq<int>, x: seq<int>, y: seq<int>)
    requires |a| == |b|
    ensures PartsBelow(a + x, b + y) <==> PartsBelow(a, b) || (a == b && PartsBelow(x, y))
  {
    if a == [] {
      assert a + x == x && b + y == y;
    } else {
      PartsConcat(a[1..], b[1..], x, y);
      assert (a + x)[1..] == a[1..] + x && (b + y)[1..] == b[1..] + y;
      assert a == [a[0]] + a[1..] && b == [b[0]] + b[1..];
    }
  }

  lemma TwoParts(a: int, x: int, b: int, y: int)
    ensures PartsBelow([a, x], [b, y]) <==> a < b || (a == b && x < y)
  {
    assert [a, x][1..] == [x] && [b, y][1..] == [y] && [x][1..] == [] && [y][1..] == [];
    assert PartsBelow([x], [y]) <==> x < y;
  }

  lemma KeyOrder(m: Option<int>, n: Option<int>)
    ensures PartsBelow(KeyOf(m), KeyOf(n)) <==> NumberBelow(m, n)
    ensures KeyOf(m) == KeyOf(n) <==> !NumberBelow(m, n) && !NumberBelow(n, m)
  {
    var a, b := KeyOf(m), KeyOf(n);
    assert a == [a[0], a[1]] && b == [b[0], b[1]];
    TwoParts(a[0], a[1], b[0], b[1]);
  }

  lemma RevisionNumbers(a: Revision, b: Revision)
    requires !a.Label? && !b.Label?
    ensures RevisionBelow(a, b) <==> NumberBelow(if a.Number? then Some(a.value) else None, if b.Number? then Some(b.value) else None)
  {
  }

  /** Versions of one source with equally long majors and without labels come in the order of their numbers, from
      left to right: major, minor, build, revision, a missing number before any other. */
  lemma BelowIsLexicographic(a: Firmware, b: Firmware)
    requires a.major.Some? && b.major.Some? && |a.major.value| == |b.major.value|
    requires !a.revision.Label? && !b.revision.Label? && Source(a) == Source(b)
    ensures Below(a, b) <==> exists i :: 0 <= i < |Key(a)| && i < |Key(b)| && Key(a)[..i] == Key(b)[..i] && Key(a)[i] < Key(b)[i]
  {
    var ra, rb := if a.revision.Number? then Some(a.revision.value) else None, if b.revision.Number? then Some(b.revision.value) else None;
    PartsBelowIff(Key(a), Key(b));
    PartsConcat(a.major.value, b.major.value, KeyOf(a.minor) + (KeyOf(a.build) + KeyOf(ra)), KeyOf(b.minor) + (KeyOf(b.build) + KeyOf(rb)));
    PartsConcat(KeyOf(a.minor), KeyOf(b.minor), KeyOf(a.build) + KeyOf(ra), KeyOf(b.build) + KeyOf(rb));
    PartsConcat(KeyOf(a.build), KeyOf(b.build), KeyOf(ra), KeyOf(rb));
    KeyOrder(a.minor, b.minor);
    KeyOrder(a.build, b.build);
    KeyOrder(ra, rb);
    PartsOrder(a.major.value, b.major.value);
  }

  /** Where major, minor and build are the same, two labels of one source come in the order of the dictionary, and a
      missing revision before any other. */
  lemma LabelsDecide(f: Firmware, s: string, t: string)
    requires f.major.Some?
    ensures var a, b := f.(revision := Label(s)), f.(revision := Label(t));
            Below(a, b) <==> Source(a) == Source(b) && Before(s, t)
    ensures Below(f.(revision := Unset), f.(revision := Label(t))) <==> Source(f.(revision := Label(t))) == STOCK
  {
    PartsOrder(f.major.value, f.major.value);
  }

  /** Where a version comes from: a number is a Merlin revision, as is a label that holds `alpha` or `beta`, unless it
      names gnuton; anything else is stock. */
  lemma SourceIff(f: Firmware)
    ensures Source(f) == GNUTON <==> f.revision.Label? && !Free(f.revision.text, "gnuton")
    ensures Source(f) == MERLIN <==>
            f.revision.Number?
            || (f.revision.Label? && Free(f.revision.text, "gnuton")
                && !(Free(f.revision.text, "alpha") && Free(f.revision.text, "beta")))
  {
  }

  lemma {:induction false} SplitAtFirst(s: string, k: nat, mark: string)
    requires mark != "" && k <= |s| && mark <= s[k..] && forall i | 0 <= i < k :: !(mark <= s[i..])
    ensures Split(s, mark)[0] == s[..k] && !Free(s, mark)
  {
    assert s[0..] == s;
    if k > 0 {
      assert s[1..][k - 1..] == s[k..] && forall i | 0 <= i < k - 1 :: s[1..][i..] == s[i + 1..];
      SplitAtFirst(s[1..], k - 1, mark);
      assert s[..k] == [s[0]] + s[1..][..k - 1];
    }
  }

  lemma PrefixIs(s: string, k: nat, mark: string)
    requires mark == ALPHA || (mark == BETA && Free(s, ALPHA))
    requires k <= |s| && mark <= s[k..] && (forall i | 0 <= i < k :: !(mark <= s[i..])) && IsClean(s[..k])
    ensures GetPrefix(s) == s[..k]
  {
    SplitAtFirst(s, k, mark);
    CleanStringKeeps(s[..k]);
  }

  /** A label against a number: what stands before its first `alpha`, or `beta` if there is none, is compared with the
      numeral, and at a tie the label comes first. */
  lemma LabelAgainstNumber(s: string, k: nat, mark: string, n: int)
    requires mark == ALPHA || (mark == BETA && Free(s, ALPHA))
    requires k <= |s| && mark <= s[k..] && (forall i | 0 <= i < k :: !(mark <= s[i..])) && IsClean(s[..k])
    ensures RevisionBelow(Label(s), Number(n)) <==> s[..k] == Show(n) || Before(s[..k], Show(n))
    ensures RevisionBelow(Number(n), Label(s)) <==> Before(Show(n), s[..k])
  {
    PrefixIs(s, k, mark);
    BeforeIsOrder(Show(n), s[..k]);
  }

  /** A label without either mark is compared as it is, and one with nothing in front of its mark as -1. */
  lemma LabelWithoutPrefix(s: string, k: nat, mark: string, n: int)
    ensures Free(s, ALPHA) && Free(s, BETA) ==>
              && (RevisionBelow(Label(s), Number(n)) <==> s == Show(n) || Before(s, Show(n)))
              && (RevisionBelow(Number(n), Label(s)) <==> Before(Show(n), s))
    ensures (mark == ALPHA || (mark == BETA && Free(s, ALPHA))) && k <= |s| && mark <= s[k..] && AllSpace(s[..k])
            && (forall i | 0 <= i < k :: !(mark <= s[i..])) ==>
              && (RevisionBelow(Label(s), Number(n)) <==> "-1" == Show(n) || Before("-1", Show(n)))
  {
    if (mark == ALPHA || (mark == BETA && Free(s, ALPHA))) && k <= |s| && mark <= s[k..] && AllSpace(s[..k])
       && forall i | 0 <= i < k :: !(mark <= s[i..])
    {
      SplitAtFirst(s, k, mark);
      StripBlank(s[..k]);
      assert GetPrefix(s) == "-1";
    }
    BeforeIsOrder(Show(n), s);
  }

  // ---- where it is no order --------------------------------------------------------------------

  /** Each below the next, and the last below the first. */
  predicate Circle(a: Firmware, b: Firmware, c: Firmware) {
    Below(a, b) && Below(b, c) && Below(c, a)
  }

  lemma PrefixOf2beta1()
    ensures Contains("2beta1", BETA) && !Contains("2beta1", ALPHA) && !Contains("2beta1", GNUTON_MARK)
    ensures GetPrefix("2beta1") == "2"
  {
    var s := "2beta1";
    assert s[1..] == "beta1" && BETA <= "beta1";
    assert Split(s[1..], BETA)[0] == "";
    assert Split(s, BETA)[0] == ['2'] + "";
    CleanStringKeeps("2");
    NoneWithout(s, ALPHA, 'p', 2);
    NoneWithout(s, GNUTON_MARK, 'g', 0);
  }

  lemma PrefixOf20alpha()
    ensures Contains("20alpha", ALPHA) && !Contains("20alpha", GNUTON_MARK)
    ensures GetPrefix("20alpha") == "20"
  {
    var s := "20alpha";
    assert s[1..] == "0alpha" && s[1..][1..] == "alpha" && ALPHA <= "alpha";
    assert Split(s[1..][1..], ALPHA)[0] == "";
    assert Split(s[1..], ALPHA)[0] == ['0'] + "";
    assert Split(s, ALPHA)[0] == ['2'] + "0";
    assert !Free(s[1..][1..], ALPHA) && !Free(s[1..], ALPHA);
    CleanStringKeeps("20");
    NoneWithout(s, GNUTON_MARK, 'g', 0);
  }

  lemma {:induction false} NoneWithout(s: string, tok: string, c: char, i: nat)
    requires i < |tok| && tok[i] == c && c !in s
    ensures Free(s, tok)
  {
    if s != "" {
      NoneWithout(s[1..], tok, c, i);
      assert |tok| <= |s| ==> s[i] in s;
    }
  }

  /** Numbers mixed with pre-release labels run in a circle on every version with a major: 2beta1 is below 2,
      2 below 20alpha, and 20alpha below 2beta1. */
  lemma MixedRevisionsCycle(f: Firmware)
    requires f.major.Some?
    ensures Circle(f.(revision := Label("2beta1")), f.(revision := Number(2)), f.(revision := Label("20alpha")))
  {
    PrefixOf2beta1();
    PrefixOf20alpha();
    assert Show(2) == "2";
    assert "2"[1..] == "" && "20"[1..] == "0" && "20alpha"[1..][0] == '0' && "2beta1"[1..][0] == 'b';
    PartsOrder(f.major.value, f.major.value);
  }

  lemma {:induction false} CommonParts(p: seq<int>, a: seq<int>, b: seq<int>)
    ensures PartsBelow(p + a, p + b) <==> PartsBelow(a, b)
  {
    if p == [] {
      assert p + a == a && p + b == b;
    } else {
      assert (p + a)[1..] == p[1..] + a && (p + b)[1..] == p[1..] + b;
      CommonParts(p[1..], a, b);
    }
  }

  function Version(major: seq<int>, minor: int): Firmware {
    Firmware(false, Some(major), Some(minor), None, Unset)
  }

  /** Majors of two lengths do so too, whatever the lengths: the part one of them lacks is not compared. */
  lemma UnequalMajorsCycle(p: seq<int>, x: seq<int>, y: seq<int>)
    requires PartsBelow(y, x)
    ensures Circle(Version(p + x, 386), Version(p, 387), Version(p + y, 388))
  {
    assert p == p + [];
    CommonParts(p, x, []);
    CommonParts(p, [], x);
    CommonParts(p, y, []);
    CommonParts(p, [], y);
    CommonParts(p, y, x);
    PartsOrder(x, y);
  }

  /** So equal lengths are needed: any two different ones admit a circle. */
  lemma LengthsMatter(m: nat, n: nat)
    requires m < n
    ensures exists a, b, c :: Circle(a, b, c) && a.major.Some? && b.major.Some? && c.major.Some?
                              && |a.major.value| == |c.major.value| == n && |b.major.value| == m
  {
    var p, x, y := seq(m, _ => 0), seq(n - m, _ => 1), seq(n - m, _ => 0);
    UnequalMajorsCycle(p, x, y);
    assert Circle(Version(p + x, 386), Version(p, 387), Version(p + y, 388));
  }

  /** The circle of 3.0.0.4.386, 3.0.0.387 and 3.0.0.3.388. */
  lemma UnequalMajorsExample()
    ensures Circle(Version([0, 0, 4], 386), Version([0, 0], 387), Version([0, 0, 3], 388))
  {
    assert [0, 0] + [4] == [0, 0, 4] && [0, 0] + [3] == [0, 0, 3];
    UnequalMajorsCycle([0, 0], [4], [3]);
  }
}
