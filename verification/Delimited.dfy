/** Text cut and glued at a separator, the way `str.split`, `str.join`, `str.replace` and `in`
    do it: leftmost matches first, never overlapping. Every NVRAM list in the library is such text. */
module Delimited {

  const LT := "<"
  const GT := ">"
  const LT_ENTITY := "&#60"
  const GT_ENTITY := "&#62"

  /** `tok` does not occur anywhere in `s`. */
  predicate Free(s: string, tok: string)
    requires tok != ""
  {
    s == "" || (!(tok <= s) && Free(s[1..], tok))
  }

  lemma {:induction false} FreeByHead(s: string, tok: string)
    requires tok != "" && tok[0] !in s
    ensures Free(s, tok)
  {
    if s != "" {
      FreeByHead(s[1..], tok);
    }
  }

  /** Python's `in`: the token stands at no place of the text. */
  lemma {:induction false} FreeIff(s: string, tok: string)
    requires tok != ""
    ensures Free(s, tok) <==> forall i | 0 <= i < |s| :: !(tok <= s[i..])
  {
    if s != "" {
      FreeIff(s[1..], tok);
      assert s[0..] == s && forall i | 0 < i < |s| :: s[i..] == s[1..][i - 1..];
    }
  }

  predicate AllFree(parts: seq<string>, tok: string)
    requires tok != ""
  {
    forall i | 0 <= i < |parts| :: Free(parts[i], tok)
  }

  function Split(s: string, sep: string): (parts: seq<string>)
    requires sep != ""
    ensures |parts| > 0
    decreases |s|
  {
    if s == "" then [""]
    else if sep <= s then [""] + Split(s[|sep|..], sep)
    else var rest := Split(s[1..], sep); [[s[0]] + rest[0]] + rest[1..]
  }

  function Join(parts: seq<string>, sep: string): string {
    if |parts| == 0 then ""
    else if |parts| == 1 then parts[0]
    else parts[0] + sep + Join(parts[1..], sep)
  }

  function Replace(s: string, tok: string, sub: string): string
    requires tok != ""
    decreases |s|
  {
    if s == "" then ""
    else if tok <= s then sub + Replace(s[|tok|..], tok, sub)
    else [s[0]] + Replace(s[1..], tok, sub)
  }

  /** The head character of the separator occurs nowhere else in it, so no proper suffix of the
      separator is also a prefix of it. */
  predicate HeadUnique(sep: string) {
    sep != "" && forall i | 0 < i < |sep| :: sep[i] != sep[0]
  }

  /** No occurrence of `tok` can overlap an occurrence of `sep`. */
  predicate Apart(sep: string, tok: string) {
    && sep != "" && tok != ""
    && sep[0] !in tok[1..]
    && tok[0] !in sep[1..]
    && exists i | 0 <= i < |sep| && i < |tok| :: sep[i] != tok[i]
  }

  lemma JoinCons(first: string, rest: seq<string>, sep: string)
    requires |rest| > 0
    ensures Join([first] + rest, sep) == first + sep + Join(rest, sep)
  {
    assert ([first] + rest)[1..] == rest;
  }

  lemma JoinPrepend(c: char, parts: seq<string>, sep: string)
    requires |parts| > 0
    ensures Join([[c] + parts[0]] + parts[1..], sep) == [c] + Join(parts, sep)
  {
    assert ([[c] + parts[0]] + parts[1..])[1..] == parts[1..];
    if |parts| > 1 {
      assert [c] + parts[0] + sep + Join(parts[1..], sep) == [c] + (parts[0] + sep + Join(parts[1..], sep));
    }
  }

  lemma {:induction false} JoinSplit(s: string, sep: string)
    requires sep != ""
    ensures Join(Split(s, sep), sep) == s
    decreases |s|
  {
    ReplaceIsJoinSplit(s, sep, sep);
    ReplaceSelf(s, sep);
  }

  lemma {:induction false} ReplaceSelf(s: string, tok: string)
    requires tok != ""
    ensures Replace(s, tok, tok) == s
    decreases |s|
  {
    if s == "" {
    } else if tok <= s {
      ReplaceSelf(s[|tok|..], tok);
      assert s == tok + s[|tok|..];
    } else {
      ReplaceSelf(s[1..], tok);
      assert s == [s[0]] + s[1..];
    }
  }

  lemma {:induction false} ReplaceIsJoinSplit(s: string, tok: string, sub: string)
    requires tok != ""
    ensures Replace(s, tok, sub) == Join(Split(s, tok), sub)
    decreases |s|
  {
    if s == "" {
    } else if tok <= s {
      ReplaceIsJoinSplit(s[|tok|..], tok, sub);
      JoinCons("", Split(s[|tok|..], tok), sub);
    } else {
      ReplaceIsJoinSplit(s[1..], tok, sub);
      JoinPrepend(s[0], Split(s[1..], tok), sub);
    }
  }

  /** The first match in `p + sep + rest` is the separator itself: nothing straddles the seam. */
  lemma {:induction false} NoStraddle(p: string, sep: string, rest: string)
    requires HeadUnique(sep) && Free(p, sep) && p != ""
    ensures !(sep <= p + sep + rest)
  {
    var s := p + sep + rest;
    assert s[|p|] == sep[0];
    if |sep| <= |p| {
      assert s[..|sep|] == p[..|sep|];
    }
  }

  lemma SplitUnfold(c: char, t: string, first: string, more: seq<string>, sep: string)
    requires sep != "" && !(sep <= [c] + t) && Split(t, sep) == [first] + more
    ensures Split([c] + t, sep) == [[c] + first] + more
  {
    assert ([c] + t)[1..] == t;
    assert ([first] + more)[1..] == more;
  }

  lemma HeadAndTail(p: string, sep: string, rest: string)
    requires p != ""
    ensures [p[0]] + (p[1..] + sep + rest) == p + sep + rest && [p[0]] + p[1..] == p
  {
  }

  lemma {:induction false} SplitStep(p: string, sep: string, rest: string)
    requires HeadUnique(sep) && Free(p, sep)
    ensures Split(p + sep + rest, sep) == [p] + Split(rest, sep)
    decreases |p|
  {
    if p == "" {
      assert p + sep + rest == sep + rest;
      assert (sep + rest)[|sep|..] == rest;
    } else {
      HeadAndTail(p, sep, rest);
      NoStraddle(p, sep, rest);
      SplitStep(p[1..], sep, rest);
      SplitUnfold(p[0], p[1..] + sep + rest, p[1..], Split(rest, sep), sep);
    }
  }

  lemma {:induction false} SplitFree(s: string, sep: string)
    requires sep != "" && Free(s, sep)
    ensures Split(s, sep) == [s]
    decreases |s|
  {
    if s != "" {
      SplitFree(s[1..], sep);
      assert s == [s[0]] + s[1..];
    }
  }

  /** What is joined from separator-free parts splits back into exactly those parts. */
  lemma {:induction false} SplitJoin(parts: seq<string>, sep: string)
    requires HeadUnique(sep) && |parts| > 0 && AllFree(parts, sep)
    ensures Split(Join(parts, sep), sep) == parts
    decreases |parts|
  {
    if |parts| == 1 {
      SplitFree(parts[0], sep);
    } else {
      SplitStep(parts[0], sep, Join(parts[1..], sep));
      SplitJoin(parts[1..], sep);
      assert parts == [parts[0]] + parts[1..];
    }
  }

  lemma {:induction false} FreeDrop(s: string, tok: string, k: nat)
    requires tok != "" && Free(s, tok) && k <= |s|
    ensures Free(s[k..], tok)
    decreases k
  {
    if k > 0 {
      FreeDrop(s[1..], tok, k - 1);
      assert s[1..][k - 1..] == s[k..];
    }
  }

  lemma {:induction false} FreeTake(s: string, tok: string, k: nat)
    requires tok != "" && Free(s, tok) && k <= |s|
    ensures Free(s[..k], tok)
    decreases k
  {
    if k > 0 {
      FreeTake(s[1..], tok, k - 1);
      assert s[..k][1..] == s[1..][..k - 1];
      if |tok| <= k {
        assert s[..|tok|] == s[..k][..|tok|];
      }
    }
  }

  /** A text without `tok` splits into parts without `tok`, whatever the separator. */
  lemma {:induction false} SplitKeepsFree(s: string, sep: string, tok: string)
    requires sep != "" && tok != "" && Free(s, tok)
    ensures AllFree(Split(s, sep), tok)
    decreases |s|
  {
    if s == "" {
    } else if sep <= s {
      FreeDrop(s, tok, |sep|);
      SplitKeepsFree(s[|sep|..], sep, tok);
    } else {
      SplitKeepsFree(s[1..], sep, tok);
      JoinSplit(s[1..], sep);
      SplitHead(s, sep);
      var head := Split(s, sep)[0];
      FreeTake(s, tok, |head|);
      assert head == s[..|head|];
    }
  }

  lemma {:induction false} SplitHead(s: string, sep: string)
    requires sep != ""
    ensures Split(s, sep)[0] <= s
    decreases |s|
  {
    if s != "" && !(sep <= s) {
      SplitHead(s[1..], sep);
      assert s == [s[0]] + s[1..];
    }
  }

  /** Splitting leaves no separator behind. */
  lemma {:induction false} SplitPartsFree(s: string, sep: string)
    requires sep != ""
    ensures AllFree(Split(s, sep), sep)
    decreases |s|
  {
    if s == "" {
    } else if sep <= s {
      SplitPartsFree(s[|sep|..], sep);
    } else {
      SplitPartsFree(s[1..], sep);
      SplitHead(s, sep);
      var head := Split(s, sep)[0];
      if |sep| <= |head| {
        assert head[..|sep|] == s[..|sep|];
      }
      assert head[1..] == Split(s[1..], sep)[0];
    }
  }

  lemma {:induction false} FreeConcat(p: string, sep: string, rest: string, tok: string)
    requires Apart(sep, tok) && Free(p, tok) && Free(rest, tok)
    ensures Free(p + sep + rest, tok)
    decreases |p|
  {
    var s := p + sep + rest;
    if p == "" {
      assert s == sep + rest;
      ApartPrefix(sep, rest, tok);
      ApartTail(sep[1..], rest, tok);
      assert s[1..] == sep[1..] + rest;
    } else {
      FreeConcat(p[1..], sep, rest, tok);
      assert s[1..] == p[1..] + sep + rest;
      ApartSeam(p, sep, rest, tok);
    }
  }

  lemma ApartPrefix(sep: string, rest: string, tok: string)
    requires Apart(sep, tok)
    ensures !(tok <= sep + rest)
  {
    var i :| 0 <= i < |sep| && i < |tok| && sep[i] != tok[i];
    assert (sep + rest)[i] == sep[i];
  }

  lemma {:induction false} ApartTail(tail: string, rest: string, tok: string)
    requires tok != "" && tok[0] !in tail && Free(rest, tok)
    ensures Free(tail + rest, tok)
    decreases |tail|
  {
    if tail == "" {
      assert tail + rest == rest;
    } else {
      ApartTail(tail[1..], rest, tok);
      assert (tail + rest)[1..] == tail[1..] + rest;
      assert (tail + rest)[0] == tail[0];
    }
  }

  lemma ApartSeam(p: string, sep: string, rest: string, tok: string)
    requires Apart(sep, tok) && p != ""
    ensures tok <= p + sep + rest ==> tok <= p
  {
    var s := p + sep + rest;
    assert s[|p|] == sep[0];
    if |p| < |tok| {
      assert tok[|p|] == tok[1..][|p| - 1];
    } else {
      assert s[..|tok|] == p[..|tok|];
    }
  }

  lemma {:induction false} FreeJoin(parts: seq<string>, sep: string, tok: string)
    requires Apart(sep, tok) && AllFree(parts, tok)
    ensures Free(Join(parts, sep), tok)
    decreases |parts|
  {
    if |parts| > 1 {
      FreeJoin(parts[1..], sep, tok);
      FreeConcat(parts[0], sep, Join(parts[1..], sep), tok);
    }
  }

  lemma FreeReplace(s: string, a: string, sub: string, tok: string)
    requires a != "" && Apart(sub, tok) && Free(s, tok)
    ensures Free(Replace(s, a, sub), tok)
  {
    ReplaceIsJoinSplit(s, a, sub);
    SplitKeepsFree(s, a, tok);
    FreeJoin(Split(s, a), sub, tok);
  }

  lemma ReplaceLeavesNone(s: string, a: string, sub: string)
    requires Apart(sub, a)
    ensures Free(Replace(s, a, sub), a)
  {
    ReplaceIsJoinSplit(s, a, sub);
    SplitPartsFree(s, a);
    FreeJoin(Split(s, a), sub, a);
  }

  lemma ReplaceFree(s: string, tok: string, sub: string)
    requires tok != "" && Free(s, tok)
    ensures Replace(s, tok, sub) == s
  {
    ReplaceIsJoinSplit(s, tok, sub);
    SplitFree(s, tok);
  }

  /** Replacing `a` by an absent `b` is undone by replacing `b` by `a`. */
  lemma ReplaceUndo(s: string, a: string, b: string)
    requires a != "" && HeadUnique(b) && Free(s, b)
    ensures Replace(Replace(s, a, b), b, a) == s
  {
    var parts := Split(s, a);
    SplitKeepsFree(s, a, b);
    ReplaceIsJoinSplit(s, a, b);
    ReplaceIsJoinSplit(Join(parts, b), b, a);
    SplitJoin(parts, b);
    JoinSplit(s, a);
  }

  function ReplaceEach(parts: seq<string>, tok: string, sub: string): (r: seq<string>)
    requires tok != ""
    ensures |r| == |parts|
  {
    seq(|parts|, i requires 0 <= i < |parts| => Replace(parts[i], tok, sub))
  }

  lemma ReplaceAfter(sep: string, rest: string, tok: string, sub: string)
    requires Apart(sep, tok)
    ensures Replace(sep + rest, tok, sub) == sep + Replace(rest, tok, sub)
  {
    assert sep + rest == [sep[0]] + (sep[1..] + rest);
    ApartPrefix(sep, rest, tok);
    ReplaceSkip(sep[0], sep[1..] + rest, tok, sub);
    ReplaceTail(sep[1..], rest, tok, sub);
    assert [sep[0]] + (sep[1..] + Replace(rest, tok, sub)) == sep + Replace(rest, tok, sub);
  }

  lemma {:induction false} ReplaceConcat(p: string, sep: string, rest: string, tok: string, sub: string)
    requires Apart(sep, tok)
    ensures Replace(p + sep + rest, tok, sub) == Replace(p, tok, sub) + sep + Replace(rest, tok, sub)
    decreases |p|
  {
    var s := p + sep + rest;
    if p == "" {
      assert s == sep + rest && Replace(p, tok, sub) + sep == sep;
      ReplaceAfter(sep, rest, tok, sub);
    } else {
      ApartSeam(p, sep, rest, tok);
      if tok <= p {
        assert s == tok + (p[|tok|..] + sep + rest) && p == tok + p[|tok|..];
        ReplaceMatch(p[|tok|..] + sep + rest, tok, sub);
        ReplaceConcat(p[|tok|..], sep, rest, tok, sub);
        ConcatAssoc(sub, Replace(p[|tok|..], tok, sub), sep, Replace(rest, tok, sub));
      } else {
        assert s == [p[0]] + (p[1..] + sep + rest) && p == [p[0]] + p[1..];
        ReplaceSkip(p[0], p[1..] + sep + rest, tok, sub);
        ReplaceConcat(p[1..], sep, rest, tok, sub);
        ConcatAssoc([p[0]], Replace(p[1..], tok, sub), sep, Replace(rest, tok, sub));
      }
    }
  }

  lemma ReplaceMatch(t: string, tok: string, sub: string)
    requires tok != ""
    ensures Replace(tok + t, tok, sub) == sub + Replace(t, tok, sub)
  {
    assert (tok + t)[|tok|..] == t;
  }

  lemma ReplaceSkip(c: char, t: string, tok: string, sub: string)
    requires tok != "" && !(tok <= [c] + t)
    ensures Replace([c] + t, tok, sub) == [c] + Replace(t, tok, sub)
  {
    assert ([c] + t)[1..] == t;
  }

  lemma ConcatAssoc(a: string, b: string, c: string, d: string)
    ensures a + (b + c + d) == (a + b) + c + d
  {
  }

  lemma {:induction false} ReplaceTail(tail: string, rest: string, tok: string, sub: string)
    requires tok != "" && tok[0] !in tail
    ensures Replace(tail + rest, tok, sub) == tail + Replace(rest, tok, sub)
    decreases |tail|
  {
    if tail == "" {
      assert tail + rest == rest;
    } else {
      ReplaceTail(tail[1..], rest, tok, sub);
      assert (tail + rest)[1..] == tail[1..] + rest;
      assert (tail + rest)[0] == tail[0];
      assert tail == [tail[0]] + tail[1..];
    }
  }

  /** Replacing inside a joined text is replacing inside each part. */
  lemma {:induction false} ReplaceJoin(parts: seq<string>, sep: string, tok: string, sub: string)
    requires Apart(sep, tok)
    ensures Replace(Join(parts, sep), tok, sub) == Join(ReplaceEach(parts, tok, sub), sep)
    decreases |parts|
  {
    if |parts| > 1 {
      ReplaceConcat(parts[0], sep, Join(parts[1..], sep), tok, sub);
      ReplaceJoin(parts[1..], sep, tok, sub);
      assert ReplaceEach(parts, tok, sub)[1..] == ReplaceEach(parts[1..], tok, sub);
    }
  }

  /** The firmware's HTML entity encoding of both delimiters. */
  function EntityEncode(s: string): string {
    Replace(Replace(s, LT, LT_ENTITY), GT, GT_ENTITY)
  }

  /** The decoding of the static DHCP parser: rows first, then fields. */
  function DecodeRowsFirst(s: string): string {
    Replace(Replace(s, LT_ENTITY, LT), GT_ENTITY, GT)
  }

  /** The decoding of the VPN Fusion reader: fields first, then rows. */
  function DecodeFieldsFirst(s: string): string {
    Replace(Replace(s, GT_ENTITY, GT), LT_ENTITY, LT)
  }

  lemma {:induction false} EncodeOrder(s: string)
    ensures EntityEncode(s) == Replace(Replace(s, GT, GT_ENTITY), LT, LT_ENTITY)
    decreases |s|
  {
    if s != "" {
      EncodeOrder(s[1..]);
      var t := Replace(s[1..], LT, LT_ENTITY);
      var u := Replace(s[1..], GT, GT_ENTITY);
      if s[0] == '<' {
        assert Replace(s, LT, LT_ENTITY) == LT_ENTITY + t;
        ReplaceTail(LT_ENTITY, t, GT, GT_ENTITY);
        assert Replace(s, GT, GT_ENTITY) == LT + u;
        assert (LT + u)[1..] == u;
      } else if s[0] == '>' {
        assert Replace(s, GT, GT_ENTITY) == GT_ENTITY + u;
        ReplaceTail(GT_ENTITY, u, LT, LT_ENTITY);
        assert Replace(s, LT, LT_ENTITY) == GT + t;
        assert (GT + t)[1..] == t;
      } else {
        assert ([s[0]] + t)[1..] == t;
        assert ([s[0]] + u)[1..] == u;
      }
    }
  }

  /** Text holding neither entity survives encoding and either decoding order; raw text is its own decoding. */
  lemma EntityRoundTrip(s: string)
    requires Free(s, LT_ENTITY) && Free(s, GT_ENTITY)
    ensures DecodeRowsFirst(EntityEncode(s)) == s == DecodeRowsFirst(s)
    ensures DecodeFieldsFirst(EntityEncode(s)) == s == DecodeFieldsFirst(s)
  {
    assert GT_ENTITY[3] != LT_ENTITY[3];
    FreeReplace(s, GT, GT_ENTITY, LT_ENTITY);
    FreeReplace(s, LT, LT_ENTITY, GT_ENTITY);
    EncodeOrder(s);
    ReplaceUndo(Replace(s, GT, GT_ENTITY), LT, LT_ENTITY);
    ReplaceUndo(s, GT, GT_ENTITY);
    ReplaceUndo(Replace(s, LT, LT_ENTITY), GT, GT_ENTITY);
    ReplaceUndo(s, LT, LT_ENTITY);
    ReplaceFree(s, LT_ENTITY, LT);
    ReplaceFree(s, GT_ENTITY, GT);
  }
}
