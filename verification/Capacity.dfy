/** The capacity guard of the rule table: an update may not grow a dimension past its limit. */
module Capacity {
  import opened Text
  import opened Delimited
  import opened ParentalControl

  const DEFAULT_MAX_RULES: nat := 16
  const DEFAULT_MAX_ENTRIES: nat := 128

  datatype Capabilities = Capabilities(maxRules: Option<nat>, maxEntries: Option<nat>)

  datatype Counts = Counts(rules: nat, windows: nat)

  function NonEmpty(parts: seq<string>): nat {
    if parts == [] then 0 else NonEmpty(parts[..|parts| - 1]) + (if parts[|parts| - 1] == "" then 0 else 1)
  }

  /** The schedule windows of one time map, with `<` in either spelling. */
  function WindowsOf(timemap: Option<string>): nat {
    if OrEmpty(timemap) == "" then 0 else NonEmpty(Split(DecodeTimemap(timemap.value), LT))
  }

  function Windows(t: Table): nat {
    if t == [] then 0 else Windows(t[..|t| - 1]) + WindowsOf(t[|t| - 1].rule.timemap)
  }

  function Count(t: Table): Counts {
    Counts(|t|, Windows(t))
  }

  function LimitOf(advertised: Option<nat>, fallback: nat): nat {
    if advertised.Some? then advertised.value else fallback
  }

  predicate Fits(current: nat, proposed: nat, limit: nat) {
    proposed <= current || proposed <= limit
  }

  /** `validate_pc_capacity`: true when it does not raise. */
  predicate Accepted(current: Table, proposed: Table, caps: Capabilities) {
    && Fits(Count(current).rules, Count(proposed).rules, LimitOf(caps.maxRules, DEFAULT_MAX_RULES))
    && Fits(Count(current).windows, Count(proposed).windows, LimitOf(caps.maxEntries, DEFAULT_MAX_ENTRIES))
  }

  method CountPcRuleEntries(t: Table) returns (c: Counts)
    ensures c == Count(t)
  {
    var windows := 0;
    for i := 0 to |t|
      invariant windows == Windows(t[..i])
    {
      assert t[..i + 1][..i] == t[..i];
      if OrEmpty(t[i].rule.timemap) != "" {
        var parts := Split(DecodeTimemap(t[i].rule.timemap.value), LT);
        var n := 0;
        for k := 0 to |parts|
          invariant n == NonEmpty(parts[..k])
        {
          assert parts[..k + 1][..k] == parts[..k];
          n := n + if parts[k] == "" then 0 else 1;
        }
        assert parts[..|parts|] == parts;
        windows := windows + n;
      }
    }
    assert t[..|t|] == t;
    c := Counts(|t|, windows);
  }

  function Max(a: nat, b: nat): nat {
    if a < b then b else a
  }

  /** Along any chain of accepted updates neither count ever exceeds what it started with or the
      limit, whichever is larger. */
  lemma {:induction false} ChainStaysWithin(chain: seq<Table>, caps: Capabilities)
    requires |chain| > 0
    requires forall i | 0 <= i < |chain| - 1 :: Accepted(chain[i], chain[i + 1], caps)
    ensures forall i | 0 <= i < |chain| ::
              && Count(chain[i]).rules <= Max(Count(chain[0]).rules, LimitOf(caps.maxRules, DEFAULT_MAX_RULES))
              && Count(chain[i]).windows <= Max(Count(chain[0]).windows, LimitOf(caps.maxEntries, DEFAULT_MAX_ENTRIES))
  {
    if |chain| > 1 {
      var front := chain[..|chain| - 1];
      assert forall i | 0 <= i < |front| :: front[i] == chain[i];
      ChainStaysWithin(front, caps);
      var n := |chain| - 2;
      assert Accepted(chain[n], chain[n + 1], caps);
      assert Count(front[n]) == Count(chain[n]);
    }
  }

  lemma WindowsOfReadBack(timemap: Option<string>)
    ensures WindowsOf(Some(DecodeTimemap(OrEmpty(timemap)))) == WindowsOf(timemap)
  {
    var s := OrEmpty(timemap);
    ReplaceLeavesNone(s, LT_ENTITY, LT);
    ReplaceFree(DecodeTimemap(s), LT_ENTITY, LT);
    if s != "" && DecodeTimemap(s) == "" {
      assert Split("", LT) == [""] && [""][..0] == [];
    }
  }

  lemma {:induction false} WindowsReadBack(t: Table)
    ensures Windows(ReadBack(t)) == Windows(t)
  {
    if t != [] {
      var front := t[..|t| - 1];
      WindowsReadBack(front);
      WindowsOfReadBack(t[|t| - 1].rule.timemap);
      assert ReadBack(t)[..|t| - 1] == ReadBack(front);
    }
  }

  /** Writing the table, letting the firmware encode it and reading it again changes neither count,
      so a verdict reached on the table in memory holds for the table on the router. */
  lemma CountsSurviveTheWire(t: Table, lenient: string -> Option<int>)
    requires WritableTable(t)
    ensures View(WriteRules(t), lenient).Ok?
    ensures Count(View(WriteRules(t), lenient).value) == Count(t)
  {
    EveryRowReads(t, lenient);
    WindowsReadBack(t);
  }

  // ---- what the counts say ----------------------------------------------------------------------

  lemma {:induction false} NonEmptyIsCount(parts: seq<string>)
    ensures NonEmpty(parts) == |set i | 0 <= i < |parts| && parts[i] != ""|
  {
    if parts != [] {
      var n := |parts| - 1;
      var front := parts[..n];
      NonEmptyIsCount(front);
      var before := set i | 0 <= i < n && front[i] != "";
      var after := set i | 0 <= i < |parts| && parts[i] != "";
      assert after == before + if parts[n] != "" then {n} else {};
    }
  }

  lemma WindowsOfSplit(s: string, parts: seq<string>)
    requires Split(DecodeTimemap(s), LT) == parts && (s == "" ==> NonEmpty(parts) == 0)
    ensures WindowsOf(Some(s)) == |set i | 0 <= i < |parts| && parts[i] != ""|
  {
    NonEmptyIsCount(parts);
  }

  /** The windows of a time map are the non-empty texts between its `<`, spelled out or as entities. */
  lemma WindowsCounted(parts: seq<string>)
    requires |parts| > 0 && AllFree(parts, LT) && AllFree(parts, LT_ENTITY)
    ensures WindowsOf(Some(Join(parts, LT))) == |set i | 0 <= i < |parts| && parts[i] != ""|
    ensures WindowsOf(Some(Join(parts, LT_ENTITY))) == |set i | 0 <= i < |parts| && parts[i] != ""|
  {
    DecodedParts(parts);
    BlankHasNone(parts);
    WindowsOfSplit(Join(parts, LT), parts);
    WindowsOfSplit(Join(parts, LT_ENTITY), parts);
  }

  lemma DecodedParts(parts: seq<string>)
    requires |parts| > 0 && AllFree(parts, LT) && AllFree(parts, LT_ENTITY)
    ensures Split(DecodeTimemap(Join(parts, LT)), LT) == parts
    ensures Split(DecodeTimemap(Join(parts, LT_ENTITY)), LT) == parts
  {
    PlainParts(parts);
    EntityParts(parts);
  }

  lemma PlainParts(parts: seq<string>)
    requires |parts| > 0 && AllFree(parts, LT) && AllFree(parts, LT_ENTITY)
    ensures Split(DecodeTimemap(Join(parts, LT)), LT) == parts
  {
    FreeJoin(parts, LT, LT_ENTITY);
    ReplaceFree(Join(parts, LT), LT_ENTITY, LT);
    SplitJoin(parts, LT);
  }

  lemma EntityParts(parts: seq<string>)
    requires |parts| > 0 && AllFree(parts, LT) && AllFree(parts, LT_ENTITY)
    ensures Split(DecodeTimemap(Join(parts, LT_ENTITY)), LT) == parts
  {
    ReplaceIsJoinSplit(Join(parts, LT_ENTITY), LT_ENTITY, LT);
    SplitJoin(parts, LT_ENTITY);
    SplitJoin(parts, LT);
  }

  lemma BlankHasNone(parts: seq<string>)
    requires |parts| > 0
    ensures Join(parts, LT) == "" || Join(parts, LT_ENTITY) == "" ==> NonEmpty(parts) == 0
  {
    if |parts| == 1 {
      assert parts[..0] == [];
    }
  }

  lemma {:induction false} WindowsCons(e: Entry, rest: Table)
    ensures Windows([e] + rest) == WindowsOf(e.rule.timemap) + Windows(rest)
    decreases |rest|
  {
    var t := [e] + rest;
    if rest == [] {
      assert t[..0] == [];
    } else {
      var front := rest[..|rest| - 1];
      WindowsCons(e, front);
      assert t[..|t| - 1] == [e] + front;
    }
  }

  function WindowsUnder(t: Table, key: string): nat {
    if Get(t, key).Some? then WindowsOf(Get(t, key).value.timemap) else 0
  }

  lemma {:induction false} PutCounts(t: Table, key: string, rule: Rule)
    ensures |Put(t, key, rule)| == |t| + if Get(t, key).Some? then 0 else 1
    ensures Windows(Put(t, key, rule)) == Windows(t) - WindowsUnder(t, key) + WindowsOf(rule.timemap)
  {
    WindowsCons(Entry(key, rule), if t == [] then [] else t[1..]);
    if t == [] {
      assert Put(t, key, rule) == [Entry(key, rule)] + [];
    } else {
      assert t == [t[0]] + t[1..];
      WindowsCons(t[0], t[1..]);
      if t[0].key != key {
        PutCounts(t[1..], key, rule);
        WindowsCons(t[0], Put(t[1..], key, rule));
      }
    }
  }

  lemma {:induction false} DropCounts(t: Table, key: string)
    ensures |Drop(t, key)| <= |t| && Windows(Drop(t, key)) <= Windows(t)
  {
    if t != [] {
      assert t == [t[0]] + t[1..];
      WindowsCons(t[0], t[1..]);
      if t[0].key != key {
        DropCounts(t[1..], key);
        WindowsCons(t[0], Drop(t[1..], key));
      }
    }
  }

  /** The verdict on setting a rule: a new device must find a free place, and a schedule that grows must find
      room for its windows; without advertised limits there are 16 places and 128 windows. */
  lemma SetAcceptedIff(t: Table, r: Rule, caps: Capabilities)
    requires CheckedRule(r).Some? && IsMac(r.mac.value)
    ensures var mac := r.mac.value;
            var windows, before := WindowsOf(CheckedRule(r).value.timemap), WindowsUnder(t, mac);
            && Edit(t, r).Some?
            && (Accepted(t, Edit(t, r).value, caps) <==>
                && (Get(t, mac).Some? || |t| < (if caps.maxRules.Some? then caps.maxRules.value else 16))
                && (windows <= before ||
                    Windows(t) - before + windows <= if caps.maxEntries.Some? then caps.maxEntries.value else 128))
  {
    EditIsPut(t, r);
    PutCounts(t, r.mac.value, CheckedRule(r).value);
  }

  /** A removal is accepted however full the table is. */
  lemma RemovalAccepted(t: Table, r: Rule, caps: Capabilities)
    requires r.kind == Remove
    ensures Edit(t, r).Some? && Accepted(t, Edit(t, r).value, caps)
  {
    if r.mac.Some? {
      DropCounts(t, r.mac.value);
    }
  }

  lemma TwoWindows(a: string, b: string)
    requires a != "" && b != "" && '<' !in a && '<' !in b && '&' !in a && '&' !in b
    ensures WindowsOf(Some(a + LT + b)) == 2
  {
    var parts := [a, b];
    FreeByHead(a, LT);
    FreeByHead(b, LT);
    FreeByHead(a, LT_ENTITY);
    FreeByHead(b, LT_ENTITY);
    WindowsCounted(parts);
    assert Join(parts, LT) == a + LT + b by {
      assert parts[1..] == [b];
    }
    assert (set i | 0 <= i < |parts| && parts[i] != "") == {0, 1};
  }

  /** The default time map has two windows. */
  lemma DefaultWindows()
    ensures WindowsOf(Some(DEFAULT_TIMEMAP)) == 2
  {
    TwoWindows("W03E21000700", "W04122000800");
    assert DEFAULT_TIMEMAP == "W03E21000700" + LT + "W04122000800";
  }
}
