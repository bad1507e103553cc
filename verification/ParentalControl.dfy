/** Parental-control rules: validation, the edit of the rule table, and the four parallel text
    vectors the whole table is written to and read from. */
module ParentalControl {
  import opened Text
  import opened Delimited

  datatype RuleType = Unknown | Remove | Disable | Time | Block

  datatype Rule = Rule(mac: Option<string>, name: Option<string>, timemap: Option<string>, kind: RuleType)

  datatype Entry = Entry(key: string, rule: Rule)

  /** A Python dict of rules: entries in insertion order, looked up by key. */
  type Table = seq<Entry>

  const DEFAULT_TIMEMAP := "W03E21000700<W04122000800"
  const MAX_NAME_LENGTH := 32

  // ---- the dict -----------------------------------------------------------------------------

  ghost predicate Distinct(t: Table) {
    forall i, j | 0 <= i < j < |t| :: t[i].key != t[j].key
  }

  /** `d[key] = rule`: an existing key keeps its place, a new one goes last. */
  function Put(t: Table, key: string, rule: Rule): Table {
    if t == [] then [Entry(key, rule)]
    else if t[0].key == key then [Entry(key, rule)] + t[1..]
    else [t[0]] + Put(t[1..], key, rule)
  }

  /** `d.pop(key, None)` */
  function Drop(t: Table, key: string): Table {
    if t == [] then []
    else if t[0].key == key then t[1..]
    else [t[0]] + Drop(t[1..], key)
  }

  function Get(t: Table, key: string): Option<Rule> {
    if t == [] then None else if t[0].key == key then Some(t[0].rule) else Get(t[1..], key)
  }

  lemma {:induction false} PutElements(t: Table, key: string, rule: Rule)
    ensures forall e | e in Put(t, key, rule) :: e in t || e == Entry(key, rule)
  {
    if t != [] {
      PutElements(t[1..], key, rule);
    }
  }

  lemma {:induction false} DropElements(t: Table, key: string)
    ensures forall e | e in Drop(t, key) :: e in t
  {
    if t != [] {
      DropElements(t[1..], key);
    }
  }

  lemma {:induction false} PutDistinct(t: Table, key: string, rule: Rule)
    requires Distinct(t)
    ensures Distinct(Put(t, key, rule))
  {
    if t != [] && t[0].key != key {
      PutDistinct(t[1..], key, rule);
      PutElements(t[1..], key, rule);
      var rest := Put(t[1..], key, rule);
      forall j | 0 <= j < |rest| ensures rest[j].key != t[0].key {
        assert rest[j] in rest;
      }
    }
  }

  lemma {:induction false} DropDistinct(t: Table, key: string)
    requires Distinct(t)
    ensures Distinct(Drop(t, key))
  {
    if t != [] && t[0].key != key {
      DropDistinct(t[1..], key);
      DropElements(t[1..], key);
      var rest := Drop(t[1..], key);
      forall j | 0 <= j < |rest| ensures rest[j].key != t[0].key {
        assert rest[j] in rest;
      }
    }
  }

  lemma {:induction false} GetAbsent(t: Table, key: string)
    requires forall e | e in t :: e.key != key
    ensures Get(t, key) == None
  {
    if t != [] {
      assert t[0] in t;
      GetAbsent(t[1..], key);
    }
  }

  /** The two edits, seen as updates of the finite map the dict denotes. */
  lemma {:induction false} PutGet(t: Table, key: string, rule: Rule, other: string)
    ensures Get(Put(t, key, rule), other) == if other == key then Some(rule) else Get(t, other)
  {
    if t != [] && t[0].key != key {
      PutGet(t[1..], key, rule, other);
    }
  }

  lemma {:induction false} DropGet(t: Table, key: string, other: string)
    requires Distinct(t)
    ensures Get(Drop(t, key), other) == if other == key then None else Get(t, other)
  {
    if t != [] {
      if t[0].key == key {
        GetAbsent(t[1..], key);
      } else {
        DropGet(t[1..], key, other);
      }
    }
  }

  /** An existing key keeps its place. */
  lemma {:induction false} PutInPlace(t: Table, i: nat, rule: Rule)
    requires Distinct(t) && i < |t|
    ensures Put(t, t[i].key, rule) == t[i := Entry(t[i].key, rule)]
  {
    if i > 0 {
      var rest := t[1..];
      PutInPlace(rest, i - 1, rule);
      assert rest[i - 1] == t[i] && t[0].key != t[i].key;
      assert [t[0]] + rest[i - 1 := Entry(t[i].key, rule)] == t[i := Entry(t[i].key, rule)];
    }
  }

  /** The other entries stay, in their order. */
  lemma {:induction false} DropOne(t: Table, i: nat)
    requires Distinct(t) && i < |t|
    ensures Drop(t, t[i].key) == t[..i] + t[i + 1..]
  {
    if i > 0 {
      DropOne(t[1..], i - 1);
      assert t[1..][..i - 1] == t[1..i] && t[1..][i..] == t[i + 1..];
    }
  }

  lemma {:induction false} DropAbsent(t: Table, key: string)
    requires forall e | e in t :: e.key != key
    ensures Drop(t, key) == t
  {
    if t != [] {
      assert t[0] in t;
      DropAbsent(t[1..], key);
    }
  }

  // ---- validation ---------------------------------------------------------------------------

  predicate IsMac(m: string) {
    |m| == 17 && forall i | 0 <= i < 17 :: if i % 3 == 2 then m[i] == ':' else IsHex(m[i])
  }

  /** What the pattern accepts: `$` also matches in front of a final newline. */
  predicate MatchesMacPattern(m: string) {
    IsMac(m) || (|m| == 18 && m[17] == '\n' && IsMac(m[..17]))
  }

  predicate IsSafeText(s: string) {
    && Free(s, GT) && Free(s, LT) && Free(s, GT_ENTITY) && Free(s, LT_ENTITY)
    && forall c | c in s :: 0x20 <= c as int
  }

  predicate SafeName(name: Option<string>) {
    OrEmpty(name) == "" || IsSafeText(name.value)
  }

  predicate SafeTimemap(timemap: Option<string>) {
    OrEmpty(timemap) == "" || timemap.value == DEFAULT_TIMEMAP || IsSafeText(timemap.value)
  }

  predicate Acceptable(r: Rule) {
    && r.mac.Some? && MatchesMacPattern(r.mac.value)
    && r.kind in {Disable, Time, Block}
    && SafeName(r.name) && SafeTimemap(r.timemap)
  }

  function WithDefaults(r: Rule): Rule {
    r.(timemap := if Strip(OrEmpty(r.timemap)) == "" then Some(DEFAULT_TIMEMAP) else r.timemap,
       name := if Strip(OrEmpty(r.name)) == "" then r.mac else r.name)
  }

  /** `check_rule`: the rule that may be written, if any. */
  function CheckedRule(r: Rule): Option<Rule> {
    if !Acceptable(r) then None
    else
      var d := WithDefaults(r);
      if |OrEmpty(d.name)| > MAX_NAME_LENGTH then None else Some(d)
  }

  class ParentalControlRule {
    var mac: Option<string>
    var name: Option<string>
    var timemap: Option<string>
    var kind: RuleType

    constructor (r: Rule)
      ensures Value() == r
    {
      mac, name, timemap, kind := r.mac, r.name, r.timemap, r.kind;
    }

    function Value(): Rule
      reads this
    {
      Rule(mac, name, timemap, kind)
    }

    /** Fills the defaults into the rule object itself; an over-long name is only noticed afterwards. */
    method Check() returns (ok: bool)
      modifies this
      ensures ok == CheckedRule(old(Value())).Some?
      ensures Value() == if Acceptable(old(Value())) then WithDefaults(old(Value())) else old(Value())
      ensures ok ==> CheckedRule(old(Value())) == Some(Value())
      ensures ok ==> mac == old(mac) && kind == old(kind)
                     && name == (if AllSpace(OrEmpty(old(name))) then old(mac) else old(name))
                     && timemap == (if AllSpace(OrEmpty(old(timemap))) then Some(DEFAULT_TIMEMAP) else old(timemap))
    {
      StripBlank(OrEmpty(name));
      StripBlank(OrEmpty(timemap));
      if mac.None? || !MatchesMacPattern(mac.value) {
        return false;
      }
      if kind !in {Disable, Time, Block} {
        return false;
      }
      if !SafeName(name) || !SafeTimemap(timemap) {
        return false;
      }
      if Strip(OrEmpty(timemap)) == "" {
        timemap := Some(DEFAULT_TIMEMAP);
      }
      if Strip(OrEmpty(name)) == "" {
        name := mac;
      }
      return |OrEmpty(name)| <= MAX_NAME_LENGTH;
    }
  }

  lemma MacFree(m: string, tok: string)
    requires MatchesMacPattern(m)
    requires tok != "" && !IsHex(tok[0]) && tok[0] != ':' && tok[0] != '\n'
    ensures Free(m, tok)
  {
    forall i | 0 <= i < |m| ensures m[i] != tok[0] {
      if i < 17 {
        assert m[i] == m[..17][i];
      }
    }
    FreeByHead(m, tok);
  }

  /** The pattern's MACs are clean text exactly when no newline hides at the end. */
  lemma MacClean(m: string)
    requires MatchesMacPattern(m)
    ensures IsMac(m) <==> IsClean(m)
  {
  }

  lemma MacIsSafeText(m: string)
    requires MatchesMacPattern(m)
    ensures Writable(m)
    ensures IsSafeText(m) <==> IsMac(m)
  {
    MacFree(m, GT);
    MacFree(m, GT_ENTITY);
    MacFree(m, LT);
    MacFree(m, LT_ENTITY);
    if |m| == 18 {
      assert m[17] in m;
    }
  }

  /** A rule that passed can be written into `>`-delimited columns: none of its fields holds the
      separator in either spelling. */
  lemma CheckedIsWritable(r: Rule)
    requires CheckedRule(r).Some?
    ensures var c := CheckedRule(r).value;
            && c.mac == r.mac && c.kind == r.kind && c.name.Some? && c.timemap.Some?
            && WritableRule(c)
  {
    MacIsSafeText(r.mac.value);
    DefaultIsPlain(DEFAULT_TIMEMAP);
    PlainFacts(DEFAULT_TIMEMAP);
  }

  predicate Plain(s: string) {
    s != "" && !IsSpace(s[0]) && !IsSpace(s[|s| - 1]) && s[0] != BYTE_ORDER_MARK && '>' !in s && '&' !in s
  }

  lemma DefaultIsPlain(s: string)
    requires s == DEFAULT_TIMEMAP
    ensures Plain(s)
  {
  }

  lemma PlainFacts(s: string)
    requires Plain(s)
    ensures Writable(s) && Strip(s) != ""
  {
    FreeByHead(s, GT);
    FreeByHead(s, GT_ENTITY);
    CleanStringKeeps(s);
  }

  /** The rule is checked once by `set_rule` and once more by `add_rule`. The second check accepts
      what the first returned, unless a MAC ending in a newline became the default name: then the
      rule is silently dropped and the unchanged table is written back. */
  lemma CheckedTwice(r: Rule)
    requires CheckedRule(r).Some?
    ensures var c := CheckedRule(r).value;
            var lost := !IsMac(r.mac.value) && Strip(OrEmpty(r.name)) == "";
            CheckedRule(c) == if lost then None else Some(c)
  {
    var c := CheckedRule(r).value;
    MacIsSafeText(r.mac.value);
    MacClean(r.mac.value);
    DefaultIsPlain(DEFAULT_TIMEMAP);
    PlainFacts(DEFAULT_TIMEMAP);
    if IsMac(r.mac.value) {
      CleanStringKeeps(r.mac.value);
    }
  }

  const HEX_DIGITS := "0123456789ABCDEFabcdef"

  predicate HexPair(p: string) {
    |p| == 2 && p[0] in HEX_DIGITS && p[1] in HEX_DIGITS
  }

  lemma HexDigits(c: char)
    ensures IsHex(c) <==> c in HEX_DIGITS
  {
    if IsHex(c) {
      var n := c as int;
      var i := if c <= '9' then n - '0' as int else if c <= 'F' then n - 'A' as int + 10 else n - 'a' as int + 16;
      assert HEX_DIGITS[i] == c;
    }
  }

  lemma HexPairs(p: string)
    ensures HexPair(p) <==> |p| == 2 && IsHex(p[0]) && IsHex(p[1])
  {
    if |p| == 2 {
      HexDigits(p[0]);
      HexDigits(p[1]);
    }
  }

  /** Six pairs of hexadecimal digits with colons in between. */
  ghost predicate SixPairs(m: string, pairs: seq<string>) {
    |pairs| == 6 && (forall i | 0 <= i < 6 :: HexPair(pairs[i])) && m == Join(pairs, ":")
  }

  lemma JoinSix(pairs: seq<string>)
    requires |pairs| == 6 && forall i | 0 <= i < 6 :: |pairs[i]| == 2
    ensures var m := Join(pairs, ":");
            |m| == 17 && forall i | 0 <= i < 17 :: m[i] == if i % 3 == 2 then ':' else pairs[i / 3][i % 3]
  {
    JoinPairs(pairs, 0);
    assert pairs[0..] == pairs;
  }

  lemma {:induction false} JoinPairs(pairs: seq<string>, k: nat)
    requires k < |pairs| && forall i | 0 <= i < |pairs| :: |pairs[i]| == 2
    ensures var m := Join(pairs[k..], ":");
            && |m| == 3 * (|pairs| - k) - 1
            && forall i | 0 <= i < |m| :: m[i] == if i % 3 == 2 then ':' else pairs[k + i / 3][i % 3]
    decreases |pairs| - k
  {
    var m := Join(pairs[k..], ":");
    if k + 1 < |pairs| {
      JoinPairs(pairs, k + 1);
      assert pairs[k..][1..] == pairs[k + 1..];
      var rest := Join(pairs[k + 1..], ":");
      assert m == pairs[k] + ":" + rest;
      forall i | 3 <= i < |m| ensures m[i] == if i % 3 == 2 then ':' else pairs[k + i / 3][i % 3] {
        assert m[i] == rest[i - 3] && (i - 3) % 3 == i % 3 && (i - 3) / 3 == i / 3 - 1;
      }
    }
  }

  function PairsOf(m: string): (pairs: seq<string>)
    requires |m| == 17
    ensures |pairs| == 6
  {
    seq(6, i requires 0 <= i < 6 => m[3 * i..3 * i + 2])
  }

  lemma MacPairs(m: string)
    requires IsMac(m)
    ensures SixPairs(m, PairsOf(m))
  {
    var pairs := PairsOf(m);
    forall i | 0 <= i < 6 ensures HexPair(pairs[i]) {
      HexPairs(pairs[i]);
      MacPair(m, i);
    }
    JoinSix(pairs);
    forall i | 0 <= i < 17 ensures m[i] == Join(pairs, ":")[i] {
      PairPlace(m, i);
    }
    assert m == Join(pairs, ":");
  }

  lemma PairPlace(m: string, i: nat)
    requires IsMac(m) && i < 17
    ensures m[i] == if i % 3 == 2 then ':' else PairsOf(m)[i / 3][i % 3]
  {
    var k, r := i / 3, i % 3;
    assert i == 3 * k + r && k < 6;
    if r != 2 {
      assert PairsOf(m)[k] == m[3 * k..3 * k + 2];
    }
  }

  lemma MacPair(m: string, i: nat)
    requires IsMac(m) && i < 6
    ensures IsHex(m[3 * i]) && IsHex(m[3 * i + 1])
  {
    assert (3 * i) % 3 == 0 && (3 * i + 1) % 3 == 1;
  }

  lemma PairsMakeMac(m: string, pairs: seq<string>)
    requires SixPairs(m, pairs)
    ensures IsMac(m)
  {
    forall i | 0 <= i < 6 ensures |pairs[i]| == 2 && IsHex(pairs[i][0]) && IsHex(pairs[i][1]) {
      HexPairs(pairs[i]);
    }
    JoinSix(pairs);
    MacByPlaces(m, pairs);
  }

  lemma MacByPlaces(m: string, pairs: seq<string>)
    requires |pairs| == 6 && forall i | 0 <= i < 6 :: |pairs[i]| == 2 && IsHex(pairs[i][0]) && IsHex(pairs[i][1])
    requires |m| == 17 && forall i | 0 <= i < 17 :: m[i] == if i % 3 == 2 then ':' else pairs[i / 3][i % 3]
    ensures IsMac(m)
  {
    forall i | 0 <= i < 17 ensures if i % 3 == 2 then m[i] == ':' else IsHex(m[i]) {
      var pair := pairs[i / 3];
      assert i % 3 == 0 || i % 3 == 1 || i % 3 == 2;
    }
  }

  /** Text without a delimiter in either spelling and without a control character. */
  ghost predicate Harmless(s: string) {
    forall i | 0 <= i < |s| :: s[i] >= ' ' && s[i] != '<' && s[i] != '>' && !("&#60" <= s[i..]) && !("&#62" <= s[i..])
  }

  lemma SafeTextIff(s: string)
    ensures IsSafeText(s) <==> Harmless(s)
  {
    FreeIff(s, LT);
    FreeIff(s, GT);
    FreeIff(s, LT_ENTITY);
    FreeIff(s, GT_ENTITY);
    OneCharIn(s, LT);
    OneCharIn(s, GT);
    PrintableIff(s);
  }

  lemma OneCharIn(s: string, tok: string)
    requires |tok| == 1
    ensures forall i | 0 <= i < |s| :: tok <= s[i..] <==> s[i] == tok[0]
  {
  }

  lemma PrintableIff(s: string)
    ensures (forall c | c in s :: 0x20 <= c as int) <==> forall i | 0 <= i < |s| :: s[i] >= ' '
  {
    if forall c | c in s :: 0x20 <= c as int {
      forall i | 0 <= i < |s| ensures s[i] >= ' ' {
        assert s[i] in s;
      }
    }
  }

  /** A MAC in six pairs; the pattern also lets a final newline pass. */
  ghost predicate MacText(m: string) {
    exists six, pairs :: SixPairs(six, pairs) && (m == six || m == six + "\n")
  }

  lemma MacTextIff(m: string)
    ensures MatchesMacPattern(m) <==> MacText(m)
  {
    if MatchesMacPattern(m) {
      var six := if IsMac(m) then m else m[..17];
      MacPairs(six);
      assert m == six || m == six + "\n";
    }
    if six, pairs :| SixPairs(six, pairs) && (m == six || m == six + "\n") {
      PairsMakeMac(six, pairs);
      assert m != six ==> m[..17] == six;
    }
  }

  lemma SafeFieldsIff(name: Option<string>, timemap: Option<string>)
    ensures SafeName(name) <==> Harmless(OrEmpty(name))
    ensures SafeTimemap(timemap) <==> Harmless(OrEmpty(timemap)) || timemap == Some(DEFAULT_TIMEMAP)
  {
    SafeTextIff(OrEmpty(name));
    SafeTextIff(OrEmpty(timemap));
  }

  lemma CheckedWhen(r: Rule)
    ensures CheckedRule(r).Some? <==> Acceptable(r) && (AllSpace(OrEmpty(r.name)) || |OrEmpty(r.name)| <= 32)
  {
    StripBlank(OrEmpty(r.name));
  }

  /** Which rules pass: a MAC, one of the three types, harmless text or the default time map, and a name of at
      most 32 characters where one is given. */
  lemma AcceptedIff(r: Rule)
    ensures CheckedRule(r).Some? <==>
            && r.mac.Some? && MacText(r.mac.value) && (r.kind == Disable || r.kind == Time || r.kind == Block)
            && Harmless(OrEmpty(r.name)) && (AllSpace(OrEmpty(r.name)) || |OrEmpty(r.name)| <= 32)
            && (Harmless(OrEmpty(r.timemap)) || r.timemap == Some(DEFAULT_TIMEMAP))
  {
    CheckedWhen(r);
    SafeFieldsIff(r.name, r.timemap);
    if r.mac.Some? {
      MacTextIff(r.mac.value);
    }
  }

  /** What an accepted rule becomes: a name and a time map that say something stay as they are, a blank name
      becomes the MAC, and a blank time map the default one. */
  lemma AcceptedFields(r: Rule)
    requires CheckedRule(r).Some?
    ensures var c := CheckedRule(r).value;
            && c.mac == r.mac && c.kind == r.kind
            && c.name == (if AllSpace(OrEmpty(r.name)) then r.mac else r.name)
            && c.timemap == (if AllSpace(OrEmpty(r.timemap)) then Some("W03E21000700<W04122000800") else r.timemap)
  {
    StripBlank(OrEmpty(r.name));
    StripBlank(OrEmpty(r.timemap));
  }

  // ---- the edit -----------------------------------------------------------------------------

  /** `add_rule` */
  function Added(t: Table, r: Rule): Table {
    match CheckedRule(r)
    case None => t
    case Some(c) => Put(t, c.mac.value, c)
  }

  /** `remove_rule` */
  function Removed(t: Table, r: Rule): Table {
    match r.mac
    case None => t
    case Some(mac) => Drop(t, mac)
  }

  /** The table `set_rule` writes back, or None when it refuses the rule. */
  function Edit(t: Table, r: Rule): Option<Table> {
    if r.kind == Remove then Some(Removed(t, r))
    else match CheckedRule(r)
      case None => None
      case Some(c) => Some(Added(t, c))
  }

  // ---- the wire -----------------------------------------------------------------------------

  /** The values of the four MULTIFILTER keys, in the order of the key map. */
  datatype Vectors = Vectors(mac: string, name: string, timemap: string, kind: string)

  /** One key of a response: absent, present with some other type, or text. */
  datatype Field = Missing | NonText | Text(text: string)
  datatype Response = Response(mac: Field, name: Field, timemap: Field, kind: Field)

  predicate Writable(s: string) {
    Free(s, GT) && Free(s, GT_ENTITY)
  }

  predicate WritableRule(r: Rule) {
    Writable(OrEmpty(r.mac)) && Writable(OrEmpty(r.name)) && Writable(OrEmpty(r.timemap))
  }

  function CodeText(kind: RuleType): string {
    match kind
    case Unknown => "-999"
    case Remove => "-1"
    case Disable => "0"
    case Time => "1"
    case Block => "2"
  }

  function KindOf(code: Option<int>): RuleType {
    if code == Some(-1) then Remove
    else if code == Some(0) then Disable
    else if code == Some(1) then Time
    else if code == Some(2) then Block
    else Unknown
  }

  function MacColumn(t: Table): (col: seq<string>)
    ensures |col| == |t|
  {
    seq(|t|, i requires 0 <= i < |t| => OrEmpty(t[i].rule.mac))
  }

  function NameColumn(t: Table): (col: seq<string>)
    ensures |col| == |t|
  {
    seq(|t|, i requires 0 <= i < |t| => OrEmpty(t[i].rule.name))
  }

  function TimeColumn(t: Table): (col: seq<string>)
    ensures |col| == |t|
  {
    seq(|t|, i requires 0 <= i < |t| => OrEmpty(t[i].rule.timemap))
  }

  function KindColumn(t: Table): (col: seq<string>)
    ensures |col| == |t|
  {
    seq(|t|, i requires 0 <= i < |t| => CodeText(t[i].rule.kind))
  }

  function DecodeTimemap(s: string): string {
    Replace(s, LT_ENTITY, LT)
  }

  /** `write_pc_rules` */
  function WriteRules(t: Table): Vectors {
    Vectors(Join(MacColumn(t), GT), Join(NameColumn(t), GT),
            DecodeTimemap(Join(TimeColumn(t), GT)), Join(KindColumn(t), GT))
  }

  /** How the firmware hands the four values back: every `>` comes as an entity. */
  function Encoded(v: Vectors): Response {
    Response(Text(Replace(v.mac, GT, GT_ENTITY)), Text(Replace(v.name, GT, GT_ENTITY)),
             Text(Replace(v.timemap, GT, GT_ENTITY)), Text(Replace(v.kind, GT, GT_ENTITY)))
  }

  function ReadRow(mac: string, name: string, timemap: string, kind: string,
                   lenient: string -> Option<int>): Entry {
    Entry(mac, Rule(CleanString(mac), Some(name), Some(timemap), KindOf(SafeInt(kind, lenient, Some(-999)))))
  }

  /** The dict built by assigning the first `n` rows in order. */
  function Collect(rows: seq<Entry>): Table {
    if rows == [] then []
    else var last := rows[|rows| - 1]; Put(Collect(rows[..|rows| - 1]), last.key, last.rule)
  }

  function Rows(macs: seq<string>, names: seq<string>, times: seq<string>, kinds: seq<string>,
                lenient: string -> Option<int>): (rows: seq<Entry>)
    requires |macs| == |names| == |times| == |kinds|
    ensures |rows| == |macs|
  {
    seq(|macs|, i requires 0 <= i < |macs| => ReadRow(macs[i], names[i], times[i], kinds[i], lenient))
  }

  /** `read_pc_rules` */
  function ReadRules(data: Response, lenient: string -> Option<int>): Result<Table> {
    if !(data.mac.Text? && data.name.Text? && data.timemap.Text? && data.kind.Text?) then
      Fail("Incomplete parental control rule vectors")
    else
      var macs := Split(data.mac.text, GT_ENTITY);
      var names := Split(data.name.text, GT_ENTITY);
      var times := Split(data.timemap.text, GT_ENTITY);
      var kinds := Split(data.kind.text, GT_ENTITY);
      if !(|macs| == |names| == |times| == |kinds|) then Fail("Incomplete parental control rule vectors")
      else if data.mac.text == data.name.text == data.timemap.text == data.kind.text == "" then Ok([])
      else Ok(Collect(Rows(macs, names, times, kinds, lenient)))
  }

  /** The rule table a fetch makes of what the router stores. */
  function View(v: Vectors, lenient: string -> Option<int>): Result<Table> {
    ReadRules(Encoded(v), lenient)
  }

  method ReadPcRules(data: Response, lenient: string -> Option<int>) returns (r: Result<Table>)
    ensures r == ReadRules(data, lenient)
  {
    if !(data.mac.Text? && data.name.Text? && data.timemap.Text? && data.kind.Text?) {
      return Fail("Incomplete parental control rule vectors");
    }
    var macs := Split(data.mac.text, GT_ENTITY);
    var names := Split(data.name.text, GT_ENTITY);
    var times := Split(data.timemap.text, GT_ENTITY);
    var kinds := Split(data.kind.text, GT_ENTITY);
    if !(|macs| == |names| == |times| == |kinds|) {
      return Fail("Incomplete parental control rule vectors");
    }
    if data.mac.text == data.name.text == data.timemap.text == data.kind.text == "" {
      return Ok([]);
    }
    var rules := CollectRows(macs, names, times, kinds, lenient);
    return Ok(rules);
  }

  lemma CollectNext(rows: seq<Entry>, i: nat)
    requires i < |rows|
    ensures Collect(rows[..i + 1]) == Put(Collect(rows[..i]), rows[i].key, rows[i].rule)
  {
    assert rows[..i + 1][..i] == rows[..i];
  }

  method CollectRows(macs: seq<string>, names: seq<string>, times: seq<string>, kinds: seq<string>,
                     lenient: string -> Option<int>)
    returns (rules: Table)
    requires |macs| == |names| == |times| == |kinds|
    ensures rules == Collect(Rows(macs, names, times, kinds, lenient))
  {
    rules := [];
    ghost var rows := Rows(macs, names, times, kinds, lenient);
    for i := 0 to |macs|
      invariant rules == Collect(rows[..i])
    {
      var row := ReadRow(macs[i], names[i], times[i], kinds[i], lenient);
      CollectNext(rows, i);
      rules := Put(rules, row.key, row.rule);
    }
    assert rows[..|macs|] == rows;
  }

  method WritePcRules(t: Table) returns (v: Vectors)
    ensures v == WriteRules(t)
  {
    if t == [] {
      return Vectors("", "", "", "");
    }
    var macs, names, times, kinds := [], [], [], [];
    for i := 0 to |t|
      invariant macs == MacColumn(t)[..i] && names == NameColumn(t)[..i]
      invariant times == TimeColumn(t)[..i] && kinds == KindColumn(t)[..i]
    {
      macs := macs + [OrEmpty(t[i].rule.mac)];
      names := names + [OrEmpty(t[i].rule.name)];
      times := times + [OrEmpty(t[i].rule.timemap)];
      kinds := kinds + [CodeText(t[i].rule.kind)];
    }
    assert MacColumn(t)[..|t|] == MacColumn(t) && NameColumn(t)[..|t|] == NameColumn(t);
    assert TimeColumn(t)[..|t|] == TimeColumn(t) && KindColumn(t)[..|t|] == KindColumn(t);
    v := Vectors(Join(macs, GT), Join(names, GT), DecodeTimemap(Join(times, GT)), Join(kinds, GT));
  }

  // ---- the round trip -----------------------------------------------------------------------

  lemma {:induction false} CollectKeepsRows(rows: seq<Entry>)
    requires Distinct(rows)
    ensures Collect(rows) == rows
  {
    if rows != [] {
      var front, last := rows[..|rows| - 1], rows[|rows| - 1];
      CollectKeepsRows(front);
      PutAppends(front, last.key, last.rule);
      assert front + [last] == rows;
    }
  }

  lemma {:induction false} PutAppends(t: Table, key: string, rule: Rule)
    requires forall i | 0 <= i < |t| :: t[i].key != key
    ensures Put(t, key, rule) == t + [Entry(key, rule)]
  {
    if t != [] {
      PutAppends(t[1..], key, rule);
    }
  }

  lemma {:induction false} CollectDistinct(rows: seq<Entry>)
    ensures Distinct(Collect(rows))
    ensures forall e | e in Collect(rows) :: e in rows
  {
    if rows != [] {
      var front, last := rows[..|rows| - 1], rows[|rows| - 1];
      CollectDistinct(front);
      PutDistinct(Collect(front), last.key, last.rule);
      PutElements(Collect(front), last.key, last.rule);
    }
  }

  lemma ColumnRoundTrip(col: seq<string>)
    requires |col| > 0 && AllFree(col, GT) && AllFree(col, GT_ENTITY)
    ensures Split(Replace(Join(col, GT), GT, GT_ENTITY), GT_ENTITY) == col
  {
    ReplaceIsJoinSplit(Join(col, GT), GT, GT_ENTITY);
    SplitJoin(col, GT);
    SplitJoin(col, GT_ENTITY);
  }

  lemma OneDigit(s: string)
    requires |s| == 1 && IsDigit(s[0])
    ensures AllDigits(s) && Digits(s) == s[0] as int - '0' as int
  {
    assert s[..0] == "";
  }

  lemma OneMoreDigit(s: string, t: string)
    requires t != "" && s == t[..|t| - 1] && AllDigits(s) && IsDigit(t[|t| - 1])
    ensures AllDigits(t) && Digits(t) == 10 * Digits(s) + (t[|t| - 1] as int - '0' as int)
  {
    assert t == s + [t[|t| - 1]];
  }

  lemma CodeDigits(kind: RuleType)
    ensures IsDecimal(CodeText(kind)) && KindOf(Some(Decimal(CodeText(kind)))) == kind
  {
    if kind == Unknown {
      assert Magnitude("-999") == "999" && "999"[..2] == "99" && "99"[..1] == "9";
      OneDigit("9");
      OneMoreDigit("9", "99");
      OneMoreDigit("99", "999");
    } else {
      OneDigit(Magnitude(CodeText(kind)));
    }
  }

  lemma CodeWritable(kind: RuleType)
    ensures Writable(CodeText(kind))
  {
    FreeByHead(CodeText(kind), GT);
    FreeByHead(CodeText(kind), GT_ENTITY);
  }

  /** Every type code, the one standing for unknown types included, is read as it was written. */
  lemma CodeRoundTrip(kind: RuleType, lenient: string -> Option<int>)
    ensures KindOf(SafeInt(CodeText(kind), lenient, Some(-999))) == kind
  {
    CodeDigits(kind);
    CleanStringKeeps(CodeText(kind));
  }

  /** What reading makes of an entry that was written: its MAC text is the key, cleaned text the MAC. */
  function ReadBackEntry(e: Entry): Entry {
    var mac := OrEmpty(e.rule.mac);
    Entry(mac, Rule(CleanString(mac), Some(OrEmpty(e.rule.name)),
                    Some(DecodeTimemap(OrEmpty(e.rule.timemap))), e.rule.kind))
  }

  function ReadBack(t: Table): (r: Table)
    ensures |r| == |t|
  {
    seq(|t|, i requires 0 <= i < |t| => ReadBackEntry(t[i]))
  }

  ghost predicate AllWritable(t: Table) {
    forall i | 0 <= i < |t| :: WritableRule(t[i].rule)
  }

  ghost predicate WritableTable(t: Table) {
    && AllWritable(t)
    && (forall i, j | 0 <= i < j < |t| :: OrEmpty(t[i].rule.mac) != OrEmpty(t[j].rule.mac))
  }

  /** A non-empty table never looks like the four empty strings of an empty one. */
  lemma NonEmptyIsVisible(t: Table)
    requires t != []
    ensures WriteRules(t).kind != "" && Replace(WriteRules(t).kind, GT, GT_ENTITY) != ""
  {
    var col := KindColumn(t);
    assert col[0] == CodeText(t[0].rule.kind);
    assert Join(col, GT)[0] == col[0][0];
  }

  lemma TimeColumnDecoded(t: Table)
    requires AllWritable(t)
    ensures WriteRules(t).timemap == Join(ReplaceEach(TimeColumn(t), LT_ENTITY, LT), GT)
    ensures AllFree(ReplaceEach(TimeColumn(t), LT_ENTITY, LT), GT)
    ensures AllFree(ReplaceEach(TimeColumn(t), LT_ENTITY, LT), GT_ENTITY)
  {
    ReplaceJoin(TimeColumn(t), GT, LT_ENTITY, LT);
    forall i | 0 <= i < |t|
      ensures Writable(Replace(TimeColumn(t)[i], LT_ENTITY, LT))
    {
      FreeReplace(TimeColumn(t)[i], LT_ENTITY, LT, GT);
      FreeReplace(TimeColumn(t)[i], LT_ENTITY, LT, GT_ENTITY);
    }
  }

  lemma ColumnsRead(t: Table)
    requires AllWritable(t) && t != []
    ensures var data := Encoded(WriteRules(t));
            && Split(data.mac.text, GT_ENTITY) == MacColumn(t)
            && Split(data.name.text, GT_ENTITY) == NameColumn(t)
            && Split(data.timemap.text, GT_ENTITY) == ReplaceEach(TimeColumn(t), LT_ENTITY, LT)
            && Split(data.kind.text, GT_ENTITY) == KindColumn(t)
  {
    forall i | 0 <= i < |t| ensures Writable(KindColumn(t)[i]) {
      CodeWritable(t[i].rule.kind);
    }
    TimeColumnDecoded(t);
    ColumnRoundTrip(MacColumn(t));
    ColumnRoundTrip(NameColumn(t));
    ColumnRoundTrip(ReplaceEach(TimeColumn(t), LT_ENTITY, LT));
    ColumnRoundTrip(KindColumn(t));
  }

  /** Writing a table, letting the firmware entity-encode it, and reading it again gives the rows in order,
      collected by their MAC texts, whatever the rows hold, as long as no field holds a separator. */
  lemma WriteThenRead(t: Table, lenient: string -> Option<int>)
    requires AllWritable(t)
    ensures View(WriteRules(t), lenient) == Ok(Collect(ReadBack(t)))
  {
    if t == [] {
      assert View(WriteRules(t), lenient) == Ok([]);
    } else {
      NonEmptyIsVisible(t);
      ColumnsRead(t);
      var times := ReplaceEach(TimeColumn(t), LT_ENTITY, LT);
      var rows := Rows(MacColumn(t), NameColumn(t), times, KindColumn(t), lenient);
      forall i | 0 <= i < |t| ensures rows[i] == ReadBackEntry(t[i]) {
        CodeRoundTrip(t[i].rule.kind, lenient);
      }
      assert rows == ReadBack(t);
    }
  }

  /** So where no two rows share a MAC text, every row comes back. */
  lemma EveryRowReads(t: Table, lenient: string -> Option<int>)
    requires WritableTable(t)
    ensures View(WriteRules(t), lenient) == Ok(ReadBack(t))
  {
    WriteThenRead(t, lenient);
    CollectKeepsRows(ReadBack(t));
  }

  lemma {:induction false} PutLength(t: Table, key: string, rule: Rule)
    ensures |t| <= |Put(t, key, rule)| <= |t| + 1
    ensures |Put(t, key, rule)| > |t| ==> forall i | 0 <= i < |t| :: t[i].key != key
  {
    if t != [] && t[0].key != key {
      PutLength(t[1..], key, rule);
      assert forall i | 0 < i < |t| :: t[i] == t[1..][i - 1];
    }
  }

  /** Rows that share a key do not all stay. */
  lemma {:induction false} CollectLength(rows: seq<Entry>)
    ensures |Collect(rows)| <= |rows|
    ensures |Collect(rows)| == |rows| ==> Distinct(rows)
  {
    if rows != [] {
      var front, last := rows[..|rows| - 1], rows[|rows| - 1];
      CollectLength(front);
      PutLength(Collect(front), last.key, last.rule);
      if |Collect(rows)| == |rows| {
        CollectKeepsRows(front);
      }
    }
  }

  /** The entry is filed under its own MAC text, and cleaning that text gives the MAC again. */
  predicate Faithful(e: Entry) {
    e.key == OrEmpty(e.rule.mac) && e.rule.mac == CleanString(e.key)
  }

  ghost predicate FaithfulTable(t: Table) {
    forall i | 0 <= i < |t| :: Faithful(t[i])
  }

  /** The same rule as the wire can spell it: no None, and `<` written as itself. */
  function CanonRule(r: Rule): Rule {
    r.(name := Some(OrEmpty(r.name)), timemap := Some(DecodeTimemap(OrEmpty(r.timemap))))
  }

  function Canon(t: Table): (r: Table)
    ensures |r| == |t|
  {
    seq(|t|, i requires 0 <= i < |t| => Entry(t[i].key, CanonRule(t[i].rule)))
  }

  /** The table itself comes back, key for key and rule for rule, exactly when every entry is
      filed under its own clean MAC (or has none at all). */
  lemma RowsPreservedIff(t: Table, lenient: string -> Option<int>)
    requires Distinct(t) && AllWritable(t)
    ensures View(WriteRules(t), lenient) == Ok(Canon(t)) <==> FaithfulTable(t)
  {
    WriteThenRead(t, lenient);
    CollectLength(ReadBack(t));
    if Distinct(ReadBack(t)) {
      CollectKeepsRows(ReadBack(t));
      BackIsCanonIff(t);
    } else {
      SharedMacNotFaithful(t);
    }
  }

  lemma SharedMacNotFaithful(t: Table)
    requires Distinct(t) && !Distinct(ReadBack(t))
    ensures !FaithfulTable(t)
  {
    var i, j :| 0 <= i < j < |t| && ReadBack(t)[i].key == ReadBack(t)[j].key;
    assert t[i].key != t[j].key;
    assert !Faithful(t[i]) || !Faithful(t[j]);
  }

  lemma BackIsCanonIff(t: Table)
    ensures ReadBack(t) == Canon(t) <==> FaithfulTable(t)
  {
    assert forall i | 0 <= i < |t| :: ReadBack(t)[i] == Canon(t)[i] <==> Faithful(t[i]);
    if FaithfulTable(t) {
      assert ReadBack(t) == Canon(t);
    } else {
      var i :| 0 <= i < |t| && !Faithful(t[i]);
      assert ReadBack(t)[i] != Canon(t)[i];
    }
  }

  lemma {:induction false} StripLeftFree(s: string, tok: string)
    requires tok != "" && Free(s, tok)
    ensures Free(StripLeft(s), tok)
  {
    if s != "" && IsSpace(s[0]) {
      StripLeftFree(s[1..], tok);
    }
  }

  lemma {:induction false} StripRightFree(s: string, tok: string)
    requires tok != "" && Free(s, tok)
    ensures Free(StripRight(s), tok)
  {
    if s != "" && IsSpace(s[|s| - 1]) {
      FreeTake(s, tok, |s| - 1);
      StripRightFree(s[..|s| - 1], tok);
    }
  }

  /** Cleaning brings no separator in. */
  lemma CleanStringFree(s: string, tok: string)
    requires tok != "" && Free(s, tok)
    ensures Free(OrEmpty(CleanString(s)), tok)
  {
    StripLeftFree(s, tok);
    StripRightFree(StripLeft(s), tok);
  }

  lemma RowWritable(mac: string, name: string, timemap: string, kind: string, lenient: string -> Option<int>)
    requires Writable(mac) && Writable(name) && Writable(timemap)
    ensures WritableRule(ReadRow(mac, name, timemap, kind, lenient).rule)
  {
    CleanStringFree(mac, GT);
    CleanStringFree(mac, GT_ENTITY);
  }

  /** Anything a fetch produced can be written back. */
  lemma ViewIsWritable(v: Vectors, t: Table, lenient: string -> Option<int>)
    requires View(v, lenient) == Ok(t)
    ensures Distinct(t) && AllWritable(t)
  {
    var data := Encoded(v);
    if t != [] {
      var macs := Split(data.mac.text, GT_ENTITY);
      var names := Split(data.name.text, GT_ENTITY);
      var times := Split(data.timemap.text, GT_ENTITY);
      var kinds := Split(data.kind.text, GT_ENTITY);
      FetchedColumn(v.mac);
      FetchedColumn(v.name);
      FetchedColumn(v.timemap);
      RowsWritable(macs, names, times, kinds, lenient);
      CollectDistinct(Rows(macs, names, times, kinds, lenient));
    }
  }

  lemma RowsWritable(macs: seq<string>, names: seq<string>, times: seq<string>, kinds: seq<string>,
                     lenient: string -> Option<int>)
    requires |macs| == |names| == |times| == |kinds|
    requires forall i | 0 <= i < |macs| :: Writable(macs[i]) && Writable(names[i]) && Writable(times[i])
    ensures forall e | e in Rows(macs, names, times, kinds, lenient) :: WritableRule(e.rule)
  {
    var rows := Rows(macs, names, times, kinds, lenient);
    forall i | 0 <= i < |rows| ensures WritableRule(rows[i].rule) {
      RowWritable(macs[i], names[i], times[i], kinds[i], lenient);
    }
  }

  lemma FetchedColumn(s: string)
    ensures AllFree(Split(Replace(s, GT, GT_ENTITY), GT_ENTITY), GT)
    ensures AllFree(Split(Replace(s, GT, GT_ENTITY), GT_ENTITY), GT_ENTITY)
  {
    ReplaceLeavesNone(s, GT, GT_ENTITY);
    SplitKeepsFree(Replace(s, GT, GT_ENTITY), GT_ENTITY, GT);
    SplitPartsFree(Replace(s, GT, GT_ENTITY), GT_ENTITY);
  }

  /** Faithful tables: what the router holds once it is read through the library. */
  ghost predicate Sound(t: Table) {
    Distinct(t) && FaithfulTable(t) && AllWritable(t)
  }

  lemma SoundIsWritable(t: Table)
    requires Sound(t)
    ensures WritableTable(t)
  {
    assert forall i | 0 <= i < |t| :: OrEmpty(t[i].rule.mac) == t[i].key;
  }

  lemma PutSound(t: Table, key: string, rule: Rule)
    requires Sound(t) && WritableRule(rule) && Faithful(Entry(key, rule))
    ensures Sound(Put(t, key, rule))
  {
    PutDistinct(t, key, rule);
    PutElements(t, key, rule);
    var r := Put(t, key, rule);
    forall i | 0 <= i < |r| ensures Faithful(r[i]) && WritableRule(r[i].rule) {
      assert r[i] in r;
    }
  }

  lemma DropSound(t: Table, key: string)
    requires Sound(t)
    ensures Sound(Drop(t, key))
  {
    DropDistinct(t, key);
    DropElements(t, key);
    var r := Drop(t, key);
    forall i | 0 <= i < |r| ensures Faithful(r[i]) && WritableRule(r[i].rule) {
      assert r[i] in r;
    }
  }

  lemma CanonTwice(r: Rule)
    ensures CanonRule(CanonRule(r)) == CanonRule(r)
  {
    var s := OrEmpty(r.timemap);
    ReplaceLeavesNone(s, LT_ENTITY, LT);
    ReplaceFree(DecodeTimemap(s), LT_ENTITY, LT);
  }

  lemma CanonSound(t: Table)
    requires Sound(t)
    ensures Sound(Canon(t)) && Canon(Canon(t)) == Canon(t)
  {
    forall i | 0 <= i < |t|
      ensures WritableRule(CanonRule(t[i].rule)) && CanonRule(CanonRule(t[i].rule)) == CanonRule(t[i].rule)
    {
      var s := OrEmpty(t[i].rule.timemap);
      FreeReplace(s, LT_ENTITY, LT, GT);
      FreeReplace(s, LT_ENTITY, LT, GT_ENTITY);
      CanonTwice(t[i].rule);
    }
  }

  function AsWritten(r: Option<Rule>): Option<Rule> {
    match r
    case None => None
    case Some(rule) => Some(CanonRule(rule))
  }

  lemma AsWrittenTwice(r: Option<Rule>)
    ensures AsWritten(AsWritten(r)) == AsWritten(r)
  {
    if r.Some? {
      CanonTwice(r.value);
    }
  }

  lemma {:induction false} CanonGet(t: Table, key: string)
    ensures Get(Canon(t), key) == AsWritten(Get(t, key))
  {
    if t != [] {
      CanonGet(t[1..], key);
      assert Canon(t)[1..] == Canon(t[1..]);
    }
  }

  /** The rules whose edit goes wrong: a MAC ending in a newline, under an explicit name. */
  predicate Misfiled(r: Rule) {
    r.kind != Remove && CheckedRule(r).Some? && !IsMac(r.mac.value) && Strip(OrEmpty(r.name)) != ""
  }

  lemma EditSound(t: Table, r: Rule)
    requires Sound(t) && Edit(t, r).Some? && !Misfiled(r)
    ensures Sound(Edit(t, r).value)
  {
    if r.kind == Remove {
      if r.mac.Some? {
        DropSound(t, r.mac.value);
      }
    } else {
      var c := CheckedRule(r).value;
      CheckedIsWritable(r);
      CheckedTwice(r);
      MacClean(r.mac.value);
      CleanStringFixpoint(r.mac.value);
      if IsMac(r.mac.value) {
        PutSound(t, c.mac.value, c);
      }
    }
  }

  lemma {:induction false} PutMembers(t: Table, key: string, rule: Rule, e: Entry)
    requires Distinct(t)
    ensures e in Put(t, key, rule) <==> e == Entry(key, rule) || (e in t && e.key != key)
  {
    if t != [] {
      if t[0].key == key {
        assert Put(t, key, rule)[1..] == t[1..];
      } else {
        PutMembers(t[1..], key, rule, e);
      }
    }
  }

  lemma {:induction false} DropMembers(t: Table, key: string, e: Entry)
    requires Distinct(t)
    ensures e in Drop(t, key) <==> e in t && e.key != key
  {
    if t != [] && t[0].key != key {
      DropMembers(t[1..], key, e);
    }
  }

  /** The key whose entry an accepted rule replaces or removes. A rule dropped at its second check has none. */
  function Touched(r: Rule): Option<string> {
    if r.kind != Remove && CheckedRule(r).Some? && CheckedRule(CheckedRule(r).value).None? then None else r.mac
  }

  lemma EditWritable(t: Table, r: Rule)
    requires Distinct(t) && AllWritable(t) && Edit(t, r).Some?
    ensures Distinct(Edit(t, r).value) && AllWritable(Edit(t, r).value)
  {
    var t' := Edit(t, r).value;
    if Touched(r).Some? {
      var key := Touched(r).value;
      if r.kind == Remove {
        DropDistinct(t, key);
        DropElements(t, key);
      } else {
        CheckedIsWritable(r);
        CheckedTwice(r);
        PutDistinct(t, key, CheckedRule(r).value);
        PutElements(t, key, CheckedRule(r).value);
      }
      forall i | 0 <= i < |t'| ensures WritableRule(t'[i].rule) {
        assert t'[i] in t';
      }
    }
  }

  /** An edit leaves a table of well-filed entries exactly when the other entries are and the rule itself is. */
  lemma EditFaithfulIff(t: Table, r: Rule)
    requires Distinct(t) && Edit(t, r).Some?
    ensures FaithfulTable(Edit(t, r).value) <==>
            !Misfiled(r) && forall e | e in t && Some(e.key) != Touched(r) :: Faithful(e)
  {
    var t' := Edit(t, r).value;
    assert FaithfulTable(t') <==> forall e | e in t' :: Faithful(e);
    if r.kind == Remove {
      if r.mac.Some? {
        forall e ensures e in t' <==> e in t && e.key != r.mac.value {
          DropMembers(t, r.mac.value, e);
        }
      }
    } else {
      var c := CheckedRule(r).value;
      CheckedIsWritable(r);
      CheckedTwice(r);
      if Touched(r).Some? {
        forall e ensures e in t' <==> e == Entry(c.mac.value, c) || (e in t && e.key != c.mac.value) {
          PutMembers(t, c.mac.value, c, e);
        }
        MacClean(c.mac.value);
        CleanStringFixpoint(c.mac.value);
        assert Faithful(Entry(c.mac.value, c)) <==> !Misfiled(r);
      }
    }
  }

  /** One accepted edit of anything a fetch can give, from stored text to stored text: reading the new text
      gives the edited table exactly when the rule is not misfiled and every entry it leaves alone is filed
      under its own clean MAC. */
  lemma EditThenRead(t: Table, r: Rule, lenient: string -> Option<int>)
    requires Distinct(t) && AllWritable(t) && Edit(t, r).Some?
    ensures var t' := Edit(t, r).value;
            View(WriteRules(t'), lenient) == Ok(Canon(t')) <==>
            !Misfiled(r) && forall e | e in t && Some(e.key) != Touched(r) :: Faithful(e)
  {
    EditWritable(t, r);
    EditFaithfulIff(t, r);
    RowsPreservedIff(Edit(t, r).value, lenient);
  }

  lemma WritableByHeads(s: string)
    requires '>' !in s && '&' !in s
    ensures Writable(s)
  {
    FreeByHead(s, GT);
    FreeByHead(s, GT_ENTITY);
  }

  /** Four columns as a fetch gets them. */
  lemma ColumnsView(macs: seq<string>, names: seq<string>, times: seq<string>, kinds: seq<string>,
                    lenient: string -> Option<int>)
    requires |macs| == |names| == |times| == |kinds| > 0 && Join(kinds, GT) != ""
    requires forall i | 0 <= i < |macs| ::
               Writable(macs[i]) && Writable(names[i]) && Writable(times[i]) && Writable(kinds[i])
    ensures View(Vectors(Join(macs, GT), Join(names, GT), Join(times, GT), Join(kinds, GT)), lenient)
            == Ok(Collect(Rows(macs, names, times, kinds, lenient)))
  {
    ColumnRoundTrip(macs);
    ColumnRoundTrip(names);
    ColumnRoundTrip(times);
    ColumnRoundTrip(kinds);
    assert Split("", GT_ENTITY) == [""];
  }

  /** Which vectors are read at all: all four of them text, and taken apart into equally many columns. */
  lemma ReadRulesFailsIff(data: Response, lenient: string -> Option<int>)
    ensures ReadRules(data, lenient).Ok? <==>
            && data.mac.Text? && data.name.Text? && data.timemap.Text? && data.kind.Text?
            && |Split(data.mac.text, "&#62")| == |Split(data.name.text, "&#62")|
               == |Split(data.timemap.text, "&#62")| == |Split(data.kind.text, "&#62")|
  {
  }

  /** The code of a type, as any spelling of the number. */
  lemma TypeCode(mac: string, name: string, timemap: string, kind: string, n: int, lenient: string -> Option<int>)
    requires SafeInt(kind, lenient, Some(-999)) == Some(n)
    ensures var e := ReadRow(mac, name, timemap, kind, lenient);
            && (e.rule.kind == Remove <==> n == -1) && (e.rule.kind == Disable <==> n == 0)
            && (e.rule.kind == Time <==> n == 1) && (e.rule.kind == Block <==> n == 2)
  {
  }

  /** One rule as a router tells it: its four columns hold MAC, name, time map and type, in this order. */
  lemma OneRuleTold(mac: string, name: string, timemap: string, n: int, lenient: string -> Option<int>)
    requires Writable(mac) && Writable(name) && Writable(timemap)
    ensures var r := View(Vectors(mac, name, timemap, Show(n)), lenient);
            && r.Ok? && |r.value| == 1 && r.value[0].key == mac
            && var rule := r.value[0].rule;
               && rule.mac == CleanString(mac) && rule.name == Some(name) && rule.timemap == Some(timemap)
               && (rule.kind == Remove <==> n == -1) && (rule.kind == Disable <==> n == 0)
               && (rule.kind == Time <==> n == 1) && (rule.kind == Block <==> n == 2)
  {
    ShowWritable(n);
    ColumnsView([mac], [name], [timemap], [Show(n)], lenient);
    var e := ReadRow(mac, name, timemap, Show(n), lenient);
    assert Rows([mac], [name], [timemap], [Show(n)], lenient) == [e];
    assert [e][..0] == [] && Collect([]) == [] && Collect([e]) == Put([], e.key, e.rule) == [e];
    SafeIntReads("", n, "", lenient, Some(-999));
    assert "" + Show(n) + "" == Show(n);
    TypeCode(mac, name, timemap, Show(n), n, lenient);
  }

  lemma ShowWritable(n: int)
    ensures Writable(Show(n)) && Show(n) != ""
  {
    ShowNatDigits(if n < 0 then -n else n);
    WritableByHeads(Show(n));
  }

  /** Of rows with the same MAC text the last one counts. */
  lemma {:induction false} CollectGet(rows: seq<Entry>, i: nat)
    requires i < |rows| && forall j | i < j < |rows| :: rows[j].key != rows[i].key
    ensures Get(Collect(rows), rows[i].key) == Some(rows[i].rule)
    decreases |rows|
  {
    var n := |rows| - 1;
    PutGet(Collect(rows[..n]), rows[n].key, rows[n].rule, rows[i].key);
    if i < n {
      CollectGet(rows[..n], i);
    }
  }

  lemma BlankMacCleans()
    ensures CleanString("A") == Some("A") == CleanString("A ")
  {
    CleanStringKeeps("A");
    assert "A "[..1] == "A";
  }

  lemma CollectTwo(e: Entry, f: Entry)
    ensures Collect([e, f]) == if e.key == f.key then [f] else [e, f]
  {
    assert [e, f][..1] == [e] && [e][..0] == [] && [e][1..] == [];
    assert Collect([]) == [] && Collect([e]) == Put([], e.key, e.rule) == [e];
    assert Put([e], f.key, f.rule) == if e.key == f.key then [f] else [e, f];
    assert Collect([e, f]) == Put(Collect([e]), f.key, f.rule);
  }

  /** Two rules that are read from the MAC texts `m` and `n`. */
  function TwoRows(m: string, n: string): Table {
    var rule := Rule(Some(m), Some(""), Some(""), Block);
    [Entry(m, rule), Entry(n, rule)]
  }

  predicate CleanAlike(m: string, n: string) {
    m != n && CleanString(m) == Some(m) == CleanString(n) && Writable(m) && Writable(n)
  }

  lemma TwoRowsRead(m: string, n: string, lenient: string -> Option<int>)
    requires CleanAlike(m, n)
    ensures View(Vectors(Join([m, n], GT), Join(["", ""], GT), Join(["", ""], GT), Join(["2", "2"], GT)), lenient)
            == Ok(TwoRows(m, n))
  {
    WritableByHeads("");
    WritableByHeads("2");
    ColumnsView([m, n], ["", ""], ["", ""], ["2", "2"], lenient);
    RowsOfTwo(m, n, lenient);
    CollectTwo(TwoRows(m, n)[0], TwoRows(m, n)[1]);
  }

  lemma RowsOfTwo(m: string, n: string, lenient: string -> Option<int>)
    requires CleanAlike(m, n)
    ensures Rows([m, n], ["", ""], ["", ""], ["2", "2"], lenient) == TwoRows(m, n)
  {
    CodeRoundTrip(Block, lenient);
    assert ReadRow(m, "", "", "2", lenient) == TwoRows(m, n)[0];
    assert ReadRow(n, "", "", "2", lenient) == TwoRows(m, n)[1];
  }

  /** A table a fetch can give and a rewrite damages: two MAC texts that clean to the same one. Written as it
      is, it is read with one row less. */
  lemma AlikeMacsLoseRow(m: string, n: string, lenient: string -> Option<int>)
    requires CleanAlike(m, n)
    ensures View(WriteRules(TwoRows(m, n)), lenient) == Ok([TwoRows(m, n)[0]])
  {
    var t := TwoRows(m, n);
    WritableByHeads("");
    WriteThenRead(t, lenient);
    TwoRowsBack(m, n);
    CollectTwo(t[0], t[0]);
  }

  lemma TwoRowsBack(m: string, n: string)
    requires CleanAlike(m, n)
    ensures ReadBack(TwoRows(m, n)) == [TwoRows(m, n)[0], TwoRows(m, n)[0]]
  {
    var t := TwoRows(m, n);
    assert DecodeTimemap("") == "";
    assert ReadBackEntry(t[0]) == t[0] == ReadBackEntry(t[1]);
  }

  /** Such texts: they differ in a blank. */
  lemma BlankMac()
    ensures CleanAlike("A", "A ")
  {
    BlankMacCleans();
    WritableByHeads("A");
    WritableByHeads("A ");
  }

  lemma NewlineMac()
    ensures var m := "AA:BB:CC:DD:EE:FF\n"; MatchesMacPattern(m) && !IsMac(m)
  {
    var m := "AA:BB:CC:DD:EE:FF\n";
    assert m[..17] == "AA:BB:CC:DD:EE:FF";
  }

  /** Such a rule, added to an empty table under the name `tv`: what is read is not what was written. */
  lemma NewlineMacMisfiled(lenient: string -> Option<int>)
    ensures var r := Rule(Some("AA:BB:CC:DD:EE:FF\n"), Some("tv"), None, Block);
            && Misfiled(r) && Edit([], r).Some?
            && View(WriteRules(Edit([], r).value), lenient) != Ok(Canon(Edit([], r).value))
  {
    var r := Rule(Some("AA:BB:CC:DD:EE:FF\n"), Some("tv"), None, Block);
    NewlineMac();
    PlainNameIsSafe("tv");
    EditThenRead([], r, lenient);
  }

  lemma PlainNameIsSafe(name: string)
    requires forall c | c in name :: 0x20 <= c as int && c != '<' && c != '>' && c != '&'
    requires IsClean(name) && |name| <= MAX_NAME_LENGTH
    ensures IsSafeText(name) && Strip(name) != ""
  {
    FreeByHead(name, GT);
    FreeByHead(name, LT);
    FreeByHead(name, GT_ENTITY);
    FreeByHead(name, LT_ENTITY);
    CleanStringKeeps(name);
  }

  /** The same rule without a name passes the first check and is lost at the second. */
  lemma NewlineMacDropped()
    ensures Edit([], Rule(Some("AA:BB:CC:DD:EE:FF\n"), None, None, Block)) == Some([])
  {
    var r := Rule(Some("AA:BB:CC:DD:EE:FF\n"), None, None, Block);
    NewlineMac();
    assert CheckedRule(r).Some?;
    CheckedTwice(r);
  }

  /** A removal is always taken, any other rule just where it passes the check. */
  lemma EditAcceptedIff(t: Table, r: Rule)
    ensures Edit(t, r).Some? <==> r.kind == Remove || CheckedRule(r).Some?
  {
  }

  /** An edit as an update of the map from MACs to rules. */
  lemma EditGet(t: Table, r: Rule, key: string)
    requires Distinct(t) && Edit(t, r).Some?
    ensures Get(Edit(t, r).value, key) ==
            if Touched(r) != Some(key) then Get(t, key) else if r.kind == Remove then None else CheckedRule(r)
  {
    if r.kind == Remove {
      if r.mac.Some? {
        DropGet(t, r.mac.value, key);
      }
    } else {
      var c := CheckedRule(r).value;
      CheckedIsWritable(r);
      CheckedTwice(r);
      if Touched(r).Some? {
        PutGet(t, c.mac.value, c, key);
      }
    }
  }

  /** What the router tells after an accepted rule was set: under its MAC that rule, with the time map and the
      name it was given, or the default one and the MAC where they were blank. No other entry may claim the MAC. */
  lemma RuleTold(t: Table, r: Rule, lenient: string -> Option<int>)
    requires Distinct(t) && AllWritable(t) && CheckedRule(r).Some? && IsMac(r.mac.value)
    requires forall e | e in t && e.rule.mac == r.mac :: Some(e.key) == r.mac
    ensures Edit(t, r).Some? && View(WriteRules(Edit(t, r).value), lenient).Ok?
    ensures var after := View(WriteRules(Edit(t, r).value), lenient).value;
            Get(after, r.mac.value) ==
            Some(Rule(r.mac, if AllSpace(OrEmpty(r.name)) then r.mac else r.name,
                      if AllSpace(OrEmpty(r.timemap)) then Some("W03E21000700<W04122000800") else r.timemap, r.kind))
  {
    var c, t' := CheckedRule(r).value, Edit(t, r).value;
    CheckedTwice(r);
    EditWritable(t, r);
    WriteThenRead(t', lenient);
    AcceptedFields(r);
    EditIsPut(t, r);
    CheckedReadBack(r);
    PutLast(t, c);
  }

  /** After a removal the router tells nothing about that MAC. */
  lemma RemovalTold(t: Table, r: Rule, lenient: string -> Option<int>)
    requires Distinct(t) && AllWritable(t) && r.kind == Remove && r.mac.Some?
    requires forall e | e in t && OrEmpty(e.rule.mac) == r.mac.value :: e.key == r.mac.value
    ensures Edit(t, r).Some? && View(WriteRules(Edit(t, r).value), lenient).Ok?
    ensures Get(View(WriteRules(Edit(t, r).value), lenient).value, r.mac.value) == None
  {
    var t' := Edit(t, r).value;
    EditWritable(t, r);
    WriteThenRead(t', lenient);
    CollectDistinct(ReadBack(t'));
    forall e | e in ReadBack(t') ensures e.key != r.mac.value {
      var i :| 0 <= i < |t'| && e == ReadBack(t')[i];
      DropMembers(t, r.mac.value, t'[i]);
      assert t'[i] in t';
    }
    GetAbsent(Collect(ReadBack(t')), r.mac.value);
  }

  lemma EditIsPut(t: Table, r: Rule)
    requires CheckedRule(r).Some? && IsMac(r.mac.value)
    ensures Edit(t, r) == Some(Put(t, r.mac.value, CheckedRule(r).value))
  {
    CheckedTwice(r);
    CheckedIsWritable(r);
  }

  lemma CheckedReadBack(r: Rule)
    requires CheckedRule(r).Some? && IsMac(r.mac.value)
    ensures var c := CheckedRule(r).value; ReadBackEntry(Entry(r.mac.value, c)) == Entry(r.mac.value, c)
  {
    var tm := CheckedRule(r).value.timemap;
    CheckedIsWritable(r);
    CleanStringKeeps(r.mac.value);
    DefaultDecoded(DEFAULT_TIMEMAP);
    assert Free(tm.value, LT_ENTITY);
    ReplaceFree(tm.value, LT_ENTITY, LT);
  }

  lemma DefaultDecoded(s: string)
    requires s == DEFAULT_TIMEMAP
    ensures Free(s, LT_ENTITY)
  {
    FreeByHead(s, LT_ENTITY);
  }

  /** The row put in is the only one with its MAC text. */
  lemma PutLast(t: Table, c: Rule)
    requires Distinct(t) && c.mac.Some? && forall e | e in t && e.rule.mac == c.mac :: Some(e.key) == c.mac
    requires ReadBackEntry(Entry(c.mac.value, c)) == Entry(c.mac.value, c)
    requires c.mac.value != ""
    ensures Get(Collect(ReadBack(Put(t, c.mac.value, c))), c.mac.value) == Some(c)
  {
    var mac := c.mac.value;
    var t' := Put(t, mac, c);
    PutMembers(t, mac, c, Entry(mac, c));
    var i :| 0 <= i < |t'| && t'[i] == Entry(mac, c);
    var rows := ReadBack(t');
    PutDistinct(t, mac, c);
    forall j | i < j < |rows| ensures rows[j].key != rows[i].key {
      PutMembers(t, mac, c, t'[j]);
      assert t'[j] in t';
    }
    CollectGet(rows, i);
  }

  // ---- set_rule -----------------------------------------------------------------------------

  class RuleDict {
    var entries: Table

    constructor (t: Table)
      ensures entries == t
    {
      entries := t;
    }

    method AddRule(rule: ParentalControlRule)
      modifies this, rule
      ensures entries == Added(old(entries), old(rule.Value()))
      ensures rule.Value() == if Acceptable(old(rule.Value())) then WithDefaults(old(rule.Value())) else old(rule.Value())
    {
      var ok := rule.Check();
      if ok {
        entries := Put(entries, rule.mac.value, rule.Value());
      }
    }

    method RemoveRule(rule: ParentalControlRule)
      modifies this
      ensures entries == Removed(old(entries), rule.Value())
    {
      if rule.mac.Some? {
        entries := Drop(entries, rule.mac.value);
      }
    }
  }

  /** `set_rule` up to the service call: the text vectors to send, or None when it refuses. The cached
      dict is copied first and is not in the frame: only a fetch may change it. */
  method SetRule(cached: RuleDict?, invalidated: bool, rule: ParentalControlRule) returns (sent: Option<Vectors>)
    modifies rule
    ensures var r := old(rule.Value());
            sent == if cached == null || invalidated || Edit(cached.entries, r).None? then None
                    else Some(WriteRules(Edit(cached.entries, r).value))
  {
    if cached == null || invalidated {
      return None;
    }
    var current := new RuleDict(cached.entries);
    if rule.kind == Remove {
      current.RemoveRule(rule);
    } else {
      var ok := rule.Check();
      if !ok {
        return None;
      }
      current.AddRule(rule);
    }
    var v := WritePcRules(current.entries);
    return Some(v);
  }
}
