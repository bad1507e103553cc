/** VPN Fusion: the client list as the reader takes it apart, and the writer that changes the flag of one
    client inside the text it was read from. */
module Vpnc {
  import opened Delimited
  import opened Text

  const ROW := "<"
  const FIELD := ">"
  const PART_MIN_FIELDS := 7

  datatype VpnType = UNKNOWN | L2TP | OPENVPN | PPTP | SURFSHARK | WIREGUARD

  datatype Client = Client(kind: VpnType, id: Option<int>, name: Option<string>, login: Option<string>,
                           password: Option<string>, active: Option<bool>, unit: nat, vpncId: Option<int>)

  function TypeOf(s: string): VpnType {
    if s == "L2TP" then L2TP
    else if s == "OpenVPN" then OPENVPN
    else if s == "PPTP" then PPTP
    else if s == "Surfshark" then SURFSHARK
    else if s == "WireGuard" then WIREGUARD
    else UNKNOWN
  }

  /** `str.lower` as far as it can lead to a flag word; U+212A is the Kelvin sign. */
  function Lower(s: string): string {
    if s == "" then ""
    else [if 'A' <= s[0] <= 'Z' then (s[0] as int + 32) as char else if s[0] == '\U{212A}' then 'k' else s[0]]
         + Lower(s[1..])
  }

  function SafeBool(s: string): Option<bool> {
    match CleanString(s)
    case None => None
    case Some(t) =>
      var l := Lower(t);
      if l == "true" || l == "allow" || l == "1" || l == "on" || l == "enabled" then Some(true)
      else if l == "false" || l == "block" || l == "0" || l == "off" || l == "disabled" then Some(false)
      else None
  }

  function Flag(on: bool): string {
    if on then "1" else "0"
  }

  lemma FlagReads(on: bool)
    ensures SafeBool(Flag(on)) == Some(on)
  {
    var s := Flag(on);
    CleanStringKeeps(s);
    assert s[1..] == "";
    assert Lower(s) == [s[0]];
  }

  // ---- the reader ------------------------------------------------------------------------------

  predicate WellFormed(row: string) {
    |Split(row, FIELD)| >= PART_MIN_FIELDS
  }

  /** A column of a row; a row the reader takes has all the columns asked for. */
  function Column(part: seq<string>, i: nat): string {
    if i < |part| then part[i] else ""
  }

  function ClientOf(row: string, unit: nat, lenient: string -> Option<int>): Client {
    var part := Split(row, FIELD);
    Client(TypeOf(Column(part, 1)), SafeInt(Column(part, 2), lenient, None), CleanString(Column(part, 0)),
           CleanString(Column(part, 3)), CleanString(Column(part, 4)), SafeBool(Column(part, 5)), unit,
           SafeInt(Column(part, 6), lenient, None))
  }

  function ClientMaker(lenient: string -> Option<int>): (string, nat) -> Client {
    (row: string, unit: nat) => ClientOf(row, unit, lenient)
  }

  function Kept<R>(rows: seq<R>, ok: R -> bool): (r: seq<R>)
    ensures |r| <= |rows| && forall i | 0 <= i < |r| :: ok(r[i])
    decreases |rows|
  {
    if rows == [] then []
    else
      var before, row := Kept(rows[..|rows| - 1], ok), rows[|rows| - 1];
      if ok(row) then before + [row] else before
  }

  /** Each kept row made into something, with its unit number. Only a kept row takes a number. */
  function Numbered<R, C>(rows: seq<R>, ok: R -> bool, make: (R, nat) -> C): (r: seq<C>)
    ensures |r| == |Kept(rows, ok)|
  {
    var kept := Kept(rows, ok);
    seq(|kept|, i requires 0 <= i < |kept| => make(kept[i], i))
  }

  /** The clients of a decoded list, in order. */
  function Listed(text: string, lenient: string -> Option<int>): seq<Client> {
    Numbered(Split(text, ROW), WellFormed, ClientMaker(lenient))
  }

  /** `dict[key] = value`: a key already present keeps its place. */
  function Stored(clients: seq<Client>, c: Client): seq<Client> {
    if exists i | 0 <= i < |clients| :: clients[i].vpncId == c.vpncId then
      seq(|clients|, i requires 0 <= i < |clients| => if clients[i].vpncId == c.vpncId then c else clients[i])
    else clients + [c]
  }

  function ByVpncId(clients: seq<Client>): seq<Client>
    decreases |clients|
  {
    if clients == [] then []
    else Stored(ByVpncId(clients[..|clients| - 1]), clients[|clients| - 1])
  }

  type Vpn = map<(VpnType, Option<int>), Client>

  function KeyOf(c: Client): (VpnType, Option<int>) {
    (c.kind, c.id)
  }

  function Sorted(clients: seq<Client>): Vpn
    decreases |clients|
  {
    if clients == [] then map[]
    else Sorted(clients[..|clients| - 1])[KeyOf(clients[|clients| - 1]) := clients[|clients| - 1]]
  }

  function Read(wire: string, lenient: string -> Option<int>): Vpn {
    Sorted(ByVpncId(Listed(DecodeFieldsFirst(wire), lenient)))
  }

  lemma OneMoreRow<R, C>(rows: seq<R>, i: nat, ok: R -> bool, make: (R, nat) -> C)
    requires i < |rows|
    ensures var before, after := Numbered(rows[..i], ok, make), Numbered(rows[..i + 1], ok, make);
            after == if ok(rows[i]) then before + [make(rows[i], |before|)] else before
  {
    assert rows[..i + 1][..i] == rows[..i];
  }

  lemma OneMoreClient(clients: seq<Client>, c: Client)
    ensures ByVpncId(clients + [c]) == Stored(ByVpncId(clients), c)
  {
    assert (clients + [c])[..|clients|] == clients;
  }

  /** A client takes the place of the one with its id, or comes last. */
  lemma StoredPlaces(clients: seq<Client>, c: Client)
    ensures var r := Stored(clients, c);
            && (forall j | 0 <= j < |clients| ::
                  j < |r| && r[j] == if clients[j].vpncId == c.vpncId then c else clients[j])
            && (if exists j :: 0 <= j < |clients| && clients[j].vpncId == c.vpncId then |r| == |clients|
                else |r| == |clients| + 1 && r[|clients|] == c)
  {
  }

  /** Of the rows with one id the last one counts, and no id comes twice. */
  lemma {:induction false} LastOfEachId(clients: seq<Client>, c: Client)
    ensures c in ByVpncId(clients) <==>
            exists i | 0 <= i < |clients| :: clients[i] == c && forall j | i < j < |clients| :: clients[j].vpncId != c.vpncId
    ensures forall i, j | 0 <= i < j < |ByVpncId(clients)| :: ByVpncId(clients)[i].vpncId != ByVpncId(clients)[j].vpncId
    decreases |clients|
  {
    if clients != [] {
      var n := |clients| - 1;
      LastOfEachId(clients[..n], c);
      StoredPlaces(ByVpncId(clients[..n]), clients[n]);
      StoredMember(ByVpncId(clients[..n]), clients[n], c);
    }
  }

  lemma StoredMember(clients: seq<Client>, c: Client, d: Client)
    ensures d in Stored(clients, c) <==> d == c || (d in clients && d.vpncId != c.vpncId)
  {
    var r := Stored(clients, c);
    if d in clients && d.vpncId != c.vpncId {
      var i :| 0 <= i < |clients| && clients[i] == d;
      assert r[i] == d;
    }
    if i :| 0 <= i < |clients| && clients[i].vpncId == c.vpncId {
      assert r[i] == c;
    }
  }

  /** Of the clients with one type and id the last one stands in the table. */
  lemma {:induction false} SortedLast(clients: seq<Client>, i: nat)
    requires i < |clients| && forall j | i < j < |clients| :: (clients[j].kind, clients[j].id) != (clients[i].kind, clients[i].id)
    ensures var key := (clients[i].kind, clients[i].id); key in Sorted(clients) && Sorted(clients)[key] == clients[i]
    decreases |clients|
  {
    if i < |clients| - 1 {
      SortedLast(clients[..|clients| - 1], i);
    }
  }

  /** The counting loop over the rows. */
  method ReadClients(rows: seq<string>, make: (string, nat) -> Client) returns (vpnc: seq<Client>)
    ensures vpnc == ByVpncId(Numbered(rows, WellFormed, make))
  {
    vpnc := [];
    var unit := 0;
    for i := 0 to |rows|
      invariant unit == |Numbered(rows[..i], WellFormed, make)|
      invariant vpnc == ByVpncId(Numbered(rows[..i], WellFormed, make))
    {
      OneMoreRow(rows, i, WellFormed, make);
      if |Split(rows[i], FIELD)| < PART_MIN_FIELDS {
        continue;
      }
      OneMoreClient(Numbered(rows[..i], WellFormed, make), make(rows[i], unit));
      vpnc := Stored(vpnc, make(rows[i], unit));
      unit := unit + 1;
    }
    assert rows[..|rows|] == rows;
  }

  /** The sort by type and id. */
  method SortClients(vpnc: seq<Client>) returns (vpn: Vpn)
    ensures vpn == Sorted(vpnc)
  {
    vpn := map[];
    for i := 0 to |vpnc|
      invariant vpn == Sorted(vpnc[..i])
    {
      assert vpnc[..i + 1][..i] == vpnc[..i];
      vpn := vpn[KeyOf(vpnc[i]) := vpnc[i]];
    }
    assert vpnc[..|vpnc|] == vpnc;
  }

  method ProcessVpnc(wire: string, lenient: string -> Option<int>) returns (vpn: Vpn, clientlist: string)
    ensures vpn == Read(wire, lenient) && clientlist == DecodeFieldsFirst(wire)
  {
    clientlist := Replace(Replace(wire, GT_ENTITY, GT), LT_ENTITY, LT);
    var vpnc := ReadClients(Split(clientlist, ROW), ClientMaker(lenient));
    vpn := SortClients(vpnc);
  }

  // ---- the writer ------------------------------------------------------------------------------

  datatype Argument = NoList | Clientlist(text: string) | IndexError

  /** A Python list index. */
  function At(n: nat, i: int): Option<nat> {
    if 0 <= i < n then Some(i) else if i < 0 <= n + i then Some(n + i) else None
  }

  function WithFlag(row: string, on: bool): string
    requires |Split(row, FIELD)| > 5
  {
    Join(Split(row, FIELD)[5 := Flag(on)], FIELD)
  }

  function Rewritten(clientlist: string, unit: int, on: bool): Argument {
    var rows := Split(clientlist, ROW);
    if clientlist == "" || |rows| <= unit then NoList
    else match At(|rows|, unit)
      case None => IndexError
      case Some(k) =>
        if |Split(rows[k], FIELD)| <= 5 then IndexError
        else Clientlist(Join(rows[k := WithFlag(rows[k], on)], ROW))
  }

  method GetArgumentClientlist(clientlist: Option<string>, unit: Option<int>, state: Option<bool>) returns (r: Argument)
    ensures r == if clientlist.None? || unit.None? || state.None? then NoList
                 else Rewritten(clientlist.value, unit.value, state.value)
  {
    if clientlist.None? || clientlist.value == "" || unit.None? || state.None? {
      return NoList;
    }
    var clients := Split(clientlist.value, ROW);
    if |clients| <= unit.value {
      return NoList;
    }
    var at := At(|clients|, unit.value);
    if at.None? {
      return IndexError;
    }
    var params := Split(clients[at.value], FIELD);
    if |params| <= 5 {
      return IndexError;
    }
    params := params[5 := Flag(state.value)];
    clients := clients[at.value := Join(params, FIELD)];
    r := Clientlist(Join(clients, ROW));
  }

  function FindVpncUnit(vpn: Vpn, kind: VpnType, id: int): Option<nat> {
    if (kind, Some(id)) in vpn then Some(vpn[(kind, Some(id))].unit) else None
  }

  // ---- rewriting and reading again ---------------------------------------------------------------

  /** Changing the flag of a row leaves it a row, and of its fields changes the flag only. */
  lemma WithFlagFields(row: string, on: bool)
    requires |Split(row, FIELD)| > 5 && Free(row, ROW)
    ensures Split(WithFlag(row, on), FIELD) == Split(row, FIELD)[5 := Flag(on)]
    ensures Free(WithFlag(row, on), ROW)
  {
    var part := Split(row, FIELD)[5 := Flag(on)];
    SplitPartsFree(row, FIELD);
    SplitKeepsFree(row, FIELD, ROW);
    assert AllFree(part, FIELD) && AllFree(part, ROW);
    SplitJoin(part, FIELD);
    assert FIELD[0] != ROW[0];
    FreeJoin(part, FIELD, ROW);
  }

  lemma RewrittenRows(clientlist: string, k: nat, on: bool)
    requires var rows := Split(clientlist, ROW); k < |rows| && |Split(rows[k], FIELD)| > 5
    ensures var rows := Split(clientlist, ROW);
            Split(Join(rows[k := WithFlag(rows[k], on)], ROW), ROW) == rows[k := WithFlag(rows[k], on)]
  {
    var rows := Split(clientlist, ROW);
    SplitPartsFree(clientlist, ROW);
    WithFlagFields(rows[k], on);
    SplitJoin(rows[k := WithFlag(rows[k], on)], ROW);
  }

  /** The text stays free of entities, so it survives the way through the router, encoded or not. */
  lemma RewrittenSurvives(wire: string, k: nat, on: bool)
    requires var rows := Split(DecodeFieldsFirst(wire), ROW); k < |rows| && |Split(rows[k], FIELD)| > 5
    ensures var rows := Split(DecodeFieldsFirst(wire), ROW);
            var t := Join(rows[k := WithFlag(rows[k], on)], ROW);
            DecodeFieldsFirst(t) == t == DecodeFieldsFirst(EntityEncode(t))
  {
    var list := DecodeFieldsFirst(wire);
    var rows := Split(list, ROW);
    DecodedIsFree(wire);
    WithFlagFree(list, k, on, LT_ENTITY);
    WithFlagFree(list, k, on, GT_ENTITY);
    EntityRoundTrip(Join(rows[k := WithFlag(rows[k], on)], ROW));
  }

  lemma DecodedIsFree(wire: string)
    ensures Free(DecodeFieldsFirst(wire), LT_ENTITY) && Free(DecodeFieldsFirst(wire), GT_ENTITY)
  {
    ReplaceLeavesNone(wire, GT_ENTITY, GT);
    ReplaceLeavesNone(Replace(wire, GT_ENTITY, GT), LT_ENTITY, LT);
    FreeReplace(Replace(wire, GT_ENTITY, GT), LT_ENTITY, LT, GT_ENTITY);
  }

  lemma WithFlagFree(list: string, k: nat, on: bool, tok: string)
    requires var rows := Split(list, ROW); k < |rows| && |Split(rows[k], FIELD)| > 5
    requires tok in {LT_ENTITY, GT_ENTITY} && Free(list, tok)
    ensures var rows := Split(list, ROW); Free(Join(rows[k := WithFlag(rows[k], on)], ROW), tok)
  {
    var rows := Split(list, ROW);
    var part := Split(rows[k], FIELD)[5 := Flag(on)];
    SplitKeepsFree(list, ROW, tok);
    SplitKeepsFree(rows[k], FIELD, tok);
    FlagFree(on, tok);
    assert AllFree(part, tok);
    FreeJoin(part, FIELD, tok);
    FreeJoin(rows[k := WithFlag(rows[k], on)], ROW, tok);
  }

  lemma FlagFree(on: bool, tok: string)
    requires |tok| > 1
    ensures Free(Flag(on), tok)
  {
    assert Flag(on)[1..] == "";
  }

  /** The row kept in place `j` was not before place `j`, and was there just if all rows up to it are kept. */
  lemma {:induction false} KeptFrom<R>(rows: seq<R>, ok: R -> bool, j: nat) returns (k: nat)
    requires j < |Kept(rows, ok)|
    ensures j <= k < |rows| && |Kept(rows[..k], ok)| == j && Kept(rows, ok)[j] == rows[k]
    ensures k == j <==> forall i | 0 <= i <= j :: ok(rows[i])
    decreases |rows|
  {
    var before := rows[..|rows| - 1];
    if j < |Kept(before, ok)| {
      k := KeptFrom(before, ok, j);
      assert rows[..k] == before[..k];
    } else {
      k := |rows| - 1;
      AllKeptIff(before, ok);
      if k == j {
        assert forall i | 0 <= i < j :: ok(before[i]) && rows[i] == before[i];
      } else {
        FewerBefore(rows, ok, j, k);
        AllKeptIff(rows[..j], ok);
      }
    }
  }

  lemma {:induction false} AllKeptIff<R>(rows: seq<R>, ok: R -> bool)
    ensures |Kept(rows, ok)| == |rows| <==> forall i | 0 <= i < |rows| :: ok(rows[i])
    decreases |rows|
  {
    if rows != [] {
      AllKeptIff(rows[..|rows| - 1], ok);
    }
  }

  /** Replacing a row by one that is kept, or dropped, alike. */
  lemma {:induction false} KeptReplaced<R>(rows: seq<R>, ok: R -> bool, k: nat, row: R)
    requires k < |rows| && ok(row) == ok(rows[k])
    ensures var j := |Kept(rows[..k], ok)|;
            if ok(row) then j < |Kept(rows, ok)| && Kept(rows[k := row], ok) == Kept(rows, ok)[j := row]
            else Kept(rows[k := row], ok) == Kept(rows, ok)
    decreases |rows|
  {
    var n := |rows| - 1;
    if k < n {
      KeptReplaced(rows[..n], ok, k, row);
      assert rows[..n][..k] == rows[..k] && rows[k := row][..n] == rows[..n][k := row];
    } else {
      assert rows[k := row][..n] == rows[..n];
    }
  }

  lemma {:induction false} FewerBefore<R>(rows: seq<R>, ok: R -> bool, i: nat, k: nat)
    requires i < k <= |rows|
    ensures |Kept(rows[..i], ok)| + (if ok(rows[i]) then 1 else 0) <= |Kept(rows[..k], ok)|
    decreases k
  {
    assert rows[..k][..k - 1] == rows[..k - 1];
    if i < k - 1 {
      FewerBefore(rows, ok, i, k - 1);
    }
  }

  /** No row up to that place is one the reader skips. */
  predicate SoundUpTo(clientlist: string, unit: nat) {
    var rows := Split(clientlist, ROW);
    unit < |rows| && forall i | 0 <= i <= unit :: WellFormed(rows[i])
  }

  /** What was asked for: the client with that unit number switched, and nothing else. */
  ghost predicate Switches(before: seq<Client>, after: seq<Client>, unit: nat, on: bool)
    requires unit < |before|
  {
    after == before[unit := before[unit].(active := Some(on))]
  }

  lemma NotSwitched(before: seq<Client>, after: seq<Client>, unit: nat, on: bool)
    requires unit < |before| && unit < |after| && after[unit] == before[unit] && before[unit].active != Some(on)
    ensures !Switches(before, after, unit, on)
  {
  }

  lemma ClientSwitched(row: string, lenient: string -> Option<int>, unit: nat, on: bool)
    requires WellFormed(row) && Free(row, ROW)
    ensures ClientOf(WithFlag(row, on), unit, lenient) == ClientOf(row, unit, lenient).(active := Some(on))
  {
    WithFlagFields(row, on);
    FlagReads(on);
  }

  /** What the writer makes of a unit that is the place of a row with a flag. */
  lemma RewrittenAt(clientlist: string, unit: nat, on: bool)
    requires unit < |Split(clientlist, ROW)| && Rewritten(clientlist, unit, on).Clientlist?
    ensures var row := Split(clientlist, ROW)[unit];
            && |Split(row, FIELD)| > 5 && Free(row, ROW)
            && Split(Rewritten(clientlist, unit, on).text, ROW) == Split(clientlist, ROW)[unit := WithFlag(row, on)]
            && (WellFormed(WithFlag(row, on)) <==> WellFormed(row))
  {
    SplitPartsFree(clientlist, ROW);
    WithFlagFields(Split(clientlist, ROW)[unit], on);
    RewrittenRows(clientlist, unit, on);
  }

  lemma NumberedReplaced<R, C>(rows: seq<R>, ok: R -> bool, make: (R, nat) -> C, k: nat, row: R)
    requires k < |rows| && ok(row) == ok(rows[k])
    ensures var before, after := Numbered(rows, ok, make), Numbered(rows[k := row], ok, make);
            var j := |Kept(rows[..k], ok)|;
            if ok(row) then j < |before| && after == before[j := make(row, j)] else after == before
  {
    KeptReplaced(rows, ok, k, row);
  }

  lemma SoundRewrites(clientlist: string, unit: nat, on: bool)
    requires SoundUpTo(clientlist, unit)
    ensures Rewritten(clientlist, unit, on).Clientlist?
    ensures |Kept(Split(clientlist, ROW)[..unit], WellFormed)| == unit
  {
    AllKeptIff(Split(clientlist, ROW)[..unit], WellFormed);
    assert WellFormed(Split(clientlist, ROW)[unit]);
  }

  /** The list of clients after rewriting a sound unit, whatever a row is made into. */
  lemma SwitchedRow<C>(clientlist: string, make: (string, nat) -> C, unit: nat, on: bool)
    requires SoundUpTo(clientlist, unit)
    ensures var r := Rewritten(clientlist, unit, on);
            var row := Split(clientlist, ROW)[unit];
            var before := Numbered(Split(clientlist, ROW), WellFormed, make);
            && r.Clientlist? && WellFormed(row) && Free(row, ROW) && unit < |before| && before[unit] == make(row, unit)
            && Numbered(Split(r.text, ROW), WellFormed, make) == before[unit := make(WithFlag(row, on), unit)]
  {
    var rows := Split(clientlist, ROW);
    SoundRewrites(clientlist, unit, on);
    RewrittenAt(clientlist, unit, on);
    NumberedReplaced(rows, WellFormed, make, unit, WithFlag(rows[unit], on));
    NumberedReplaced(rows, WellFormed, make, unit, rows[unit]);
    assert rows[unit := rows[unit]] == rows;
  }

  /** Where every row up to it is well formed, rewriting the unit the reader gave a client switches that
      client and nothing else. */
  lemma SwitchesOne(clientlist: string, lenient: string -> Option<int>, unit: nat, on: bool)
    requires SoundUpTo(clientlist, unit)
    ensures var r := Rewritten(clientlist, unit, on);
            && r.Clientlist? && unit < |Listed(clientlist, lenient)|
            && Switches(Listed(clientlist, lenient), Listed(r.text, lenient), unit, on)
  {
    var row := Split(clientlist, ROW)[unit];
    SwitchedRow(clientlist, ClientMaker(lenient), unit, on);
    ClientSwitched(row, lenient, unit, on);
  }

  /** The thing made with number `unit` comes from a later row, which the rewriting does not touch. */
  lemma MissedRow<C>(clientlist: string, make: (string, nat) -> C, unit: nat, on: bool)
    requires !SoundUpTo(clientlist, unit) && unit < |Numbered(Split(clientlist, ROW), WellFormed, make)|
    ensures var r := Rewritten(clientlist, unit, on);
            r.Clientlist? ==>
              var after := Numbered(Split(r.text, ROW), WellFormed, make);
              unit < |after| && after[unit] == Numbered(Split(clientlist, ROW), WellFormed, make)[unit]
  {
    var rows := Split(clientlist, ROW);
    var k := KeptFrom(rows, WellFormed, unit);
    if Rewritten(clientlist, unit, on).Clientlist? {
      RewrittenAt(clientlist, unit, on);
      NumberedReplaced(rows, WellFormed, make, unit, WithFlag(rows[unit], on));
      FewerBefore(rows, WellFormed, unit, k);
    }
  }

  /** With a malformed or empty row before it, the client asked for stays as it was: the writer counts
      the rows the reader skips. */
  lemma MissesUnit(clientlist: string, lenient: string -> Option<int>, unit: nat, on: bool)
    requires !SoundUpTo(clientlist, unit) && unit < |Listed(clientlist, lenient)|
    ensures var r := Rewritten(clientlist, unit, on);
            r.Clientlist? ==> unit < |Listed(r.text, lenient)|
                              && Listed(r.text, lenient)[unit] == Listed(clientlist, lenient)[unit]
  {
    MissedRow(clientlist, ClientMaker(lenient), unit, on);
  }

  /** A client whose flag has to change is the one switched exactly when no row up to it is malformed. */
  lemma SwitchesIff(clientlist: string, lenient: string -> Option<int>, unit: nat, on: bool)
    requires unit < |Listed(clientlist, lenient)| && Listed(clientlist, lenient)[unit].active != Some(on)
    ensures var r := Rewritten(clientlist, unit, on);
            (r.Clientlist? && Switches(Listed(clientlist, lenient), Listed(r.text, lenient), unit, on))
            <==> SoundUpTo(clientlist, unit)
  {
    var r := Rewritten(clientlist, unit, on);
    if SoundUpTo(clientlist, unit) {
      SwitchesOne(clientlist, lenient, unit, on);
    } else {
      MissesUnit(clientlist, lenient, unit, on);
      if r.Clientlist? {
        NotSwitched(Listed(clientlist, lenient), Listed(r.text, lenient), unit, on);
      }
    }
  }

  /** In a list that starts with a delimiter no client can be switched by unit 0. */
  lemma LeadingDelimiter(rest: string, on: bool)
    ensures Rewritten(ROW + rest, 0, on) == IndexError && !SoundUpTo(ROW + rest, 0)
  {
    assert (ROW + rest)[1..] == rest;
    assert Split("", FIELD) == [""];
  }

  /** Such a list: the reader gives its client unit 0, and the writer finds no flag there. */
  lemma LeadingDelimiterHides(parts: seq<string>, lenient: string -> Option<int>, on: bool)
    requires |parts| >= PART_MIN_FIELDS && AllFree(parts, FIELD) && AllFree(parts, ROW)
    ensures var row := Join(parts, FIELD);
            && Split(row, FIELD) == parts
            && Listed(ROW + row, lenient) == [ClientOf(row, 0, lenient)] && Rewritten(ROW + row, 0, on) == IndexError
  {
    var row := Join(parts, FIELD);
    SplitJoin(parts, FIELD);
    assert FIELD[0] != ROW[0];
    FreeJoin(parts, FIELD, ROW);
    LeadingRows(row);
    KeptOnly("", row);
    LeadingDelimiter(row, on);
  }

  lemma LeadingRows(row: string)
    requires Free(row, ROW)
    ensures Split(ROW + row, ROW) == ["", row] && !WellFormed("")
  {
    SplitFree(row, ROW);
    assert (ROW + row)[1..] == row;
    assert Split("", FIELD) == [""];
  }

  /** The list `<a>OpenVPN>1>u>p>0>5`, whose client is off and cannot be switched on. */
  lemma HiddenClient(lenient: string -> Option<int>)
    ensures var list := ROW + Join(["a", "OpenVPN", "1", "u", "p", "0", "5"], FIELD);
            && |Listed(list, lenient)| == 1 && Listed(list, lenient)[0].active == Some(false)
            && Rewritten(list, 0, true) == IndexError
  {
    var parts := ["a", "OpenVPN", "1", "u", "p", "0", "5"];
    forall i | 0 <= i < |parts| ensures Free(parts[i], FIELD) && Free(parts[i], ROW) {
      assert '>' !in parts[i] && '<' !in parts[i];
      FreeByHead(parts[i], FIELD);
      FreeByHead(parts[i], ROW);
    }
    LeadingDelimiterHides(parts, lenient, true);
    OffReads(parts, lenient);
  }

  lemma OffReads(parts: seq<string>, lenient: string -> Option<int>)
    requires |parts| >= PART_MIN_FIELDS && parts[5] == Flag(false) && Split(Join(parts, FIELD), FIELD) == parts
    ensures ClientOf(Join(parts, FIELD), 0, lenient).active == Some(false)
  {
    FlagReads(false);
  }

  lemma KeptOnly(skipped: string, row: string)
    requires !WellFormed(skipped) && WellFormed(row)
    ensures Kept([skipped, row], WellFormed) == [row]
  {
    assert [skipped, row][..1] == [skipped] && [skipped][..0] == [];
  }

  // ---- by type and id --------------------------------------------------------------------------

  ghost predicate Distinct(clients: seq<Client>) {
    forall i, j | 0 <= i < j < |clients| ::
      clients[i].vpncId != clients[j].vpncId && KeyOf(clients[i]) != KeyOf(clients[j])
  }

  lemma {:induction false} DistinctKeepsOrder(clients: seq<Client>)
    requires Distinct(clients)
    ensures ByVpncId(clients) == clients
    decreases |clients|
  {
    if clients != [] {
      DistinctKeepsOrder(clients[..|clients| - 1]);
    }
  }

  lemma {:induction false} SortedHolds(clients: seq<Client>, key: (VpnType, Option<int>))
    requires Distinct(clients)
    ensures key in Sorted(clients) <==> exists i | 0 <= i < |clients| :: KeyOf(clients[i]) == key
    ensures forall i | 0 <= i < |clients| && KeyOf(clients[i]) == key :: Sorted(clients)[key] == clients[i]
    decreases |clients|
  {
    if clients != [] {
      SortedHolds(clients[..|clients| - 1], key);
    }
  }

  lemma SortedReplaced(clients: seq<Client>, j: nat, c: Client)
    requires Distinct(clients) && j < |clients| && KeyOf(c) == KeyOf(clients[j]) && c.vpncId == clients[j].vpncId
    ensures Distinct(clients[j := c])
    ensures Sorted(clients[j := c]) == Sorted(clients)[KeyOf(c) := c]
  {
    var cs := clients[j := c];
    forall key ensures key in Sorted(cs) <==> key in Sorted(clients)[KeyOf(c) := c]
      ensures key in Sorted(cs) ==> Sorted(cs)[key] == Sorted(clients)[KeyOf(c) := c][key] {
      SortedHolds(clients, key);
      SortedHolds(cs, key);
      if i: nat :| i < |cs| && KeyOf(cs[i]) == key {
        assert KeyOf(clients[i]) == key;
      }
      if i: nat :| i < |clients| && KeyOf(clients[i]) == key {
        assert KeyOf(cs[i]) == key;
      }
    }
  }

  lemma ReadDistinct(wire: string, lenient: string -> Option<int>)
    requires Distinct(Listed(DecodeFieldsFirst(wire), lenient))
    ensures Read(wire, lenient) == Sorted(Listed(DecodeFieldsFirst(wire), lenient))
  {
    DistinctKeepsOrder(Listed(DecodeFieldsFirst(wire), lenient));
  }

  lemma UnitsCount(text: string, lenient: string -> Option<int>)
    ensures var cs := Listed(text, lenient); forall j | 0 <= j < |cs| :: cs[j].unit == j
  {
  }

  lemma Found(cs: seq<Client>, kind: VpnType, id: int)
    requires Distinct(cs) && (forall j | 0 <= j < |cs| :: cs[j].unit == j) && FindVpncUnit(Sorted(cs), kind, id).Some?
    ensures var unit := FindVpncUnit(Sorted(cs), kind, id).value;
            unit < |cs| && KeyOf(cs[unit]) == (kind, Some(id)) && Sorted(cs)[(kind, Some(id))] == cs[unit]
  {
    SortedHolds(cs, (kind, Some(id)));
  }

  /** Switching a client found by type and id, with the list sent back encoded or not: the next reading
      differs from the last one in the flag of that client and in nothing else. */
  lemma SetStateThenRead(wire: string, lenient: string -> Option<int>, kind: VpnType, id: int, on: bool)
    requires Distinct(Listed(DecodeFieldsFirst(wire), lenient))
    requires var unit := FindVpncUnit(Read(wire, lenient), kind, id);
             unit.Some? && SoundUpTo(DecodeFieldsFirst(wire), unit.value)
    ensures var vpn := Read(wire, lenient);
            var r := Rewritten(DecodeFieldsFirst(wire), FindVpncUnit(vpn, kind, id).value, on);
            var key := (kind, Some(id));
            && r.Clientlist?
            && Read(r.text, lenient) == vpn[key := vpn[key].(active := Some(on))]
            && Read(EntityEncode(r.text), lenient) == Read(r.text, lenient)
  {
    var list := DecodeFieldsFirst(wire);
    var cs, key := Listed(list, lenient), (kind, Some(id));
    ReadDistinct(wire, lenient);
    UnitsCount(list, lenient);
    Found(cs, kind, id);
    var j := FindVpncUnit(Sorted(cs), kind, id).value;
    SwitchesOne(list, lenient, j, on);
    TextSurvives(wire, j, on);
    var c := cs[j].(active := Some(on));
    SortedReplaced(cs, j, c);
    ReadDistinct(Rewritten(list, j, on).text, lenient);
  }

  lemma TextSurvives(wire: string, unit: nat, on: bool)
    requires SoundUpTo(DecodeFieldsFirst(wire), unit)
    ensures var r := Rewritten(DecodeFieldsFirst(wire), unit, on);
            r.Clientlist? && DecodeFieldsFirst(r.text) == r.text == DecodeFieldsFirst(EntityEncode(r.text))
  {
    SoundRewrites(DecodeFieldsFirst(wire), unit, on);
    RewrittenAt(DecodeFieldsFirst(wire), unit, on);
    RewrittenSurvives(wire, unit, on);
  }

  // ---- what a row tells ------------------------------------------------------------------------

  /** The client a well-formed row stands for, column by column. */
  ghost predicate Tells(c: Client, part: seq<string>, unit: nat, lenient: string -> Option<int>)
    requires |part| >= PART_MIN_FIELDS
  {
    && c.name == CleanString(part[0])
    && (c.kind == L2TP <==> part[1] == "L2TP") && (c.kind == OPENVPN <==> part[1] == "OpenVPN")
    && (c.kind == PPTP <==> part[1] == "PPTP") && (c.kind == SURFSHARK <==> part[1] == "Surfshark")
    && (c.kind == WIREGUARD <==> part[1] == "WireGuard")
    && c.id == SafeInt(part[2], lenient, None) && c.login == CleanString(part[3]) && c.password == CleanString(part[4])
    && c.active == SafeBool(part[5]) && c.unit == unit && c.vpncId == SafeInt(part[6], lenient, None)
  }

  lemma TypeWords(s: string)
    ensures var k := TypeOf(s);
            && (k == L2TP <==> s == "L2TP") && (k == OPENVPN <==> s == "OpenVPN") && (k == PPTP <==> s == "PPTP")
            && (k == SURFSHARK <==> s == "Surfshark") && (k == WIREGUARD <==> s == "WireGuard")
  {
    if s == "L2TP" || s == "OpenVPN" || s == "PPTP" || s == "Surfshark" || s == "WireGuard" {
      assert |s| == 4 || |s| == 7 || |s| == 9;
    }
  }

  lemma RowTells(row: string, part: seq<string>, unit: nat, lenient: string -> Option<int>)
    requires Split(row, FIELD) == part && |part| >= PART_MIN_FIELDS
    ensures Tells(ClientOf(row, unit, lenient), part, unit, lenient)
  {
    TypeWords(part[1]);
  }

  /** The words a flag is told by, cleaned and in small letters; anything else tells nothing. */
  lemma FlagWords(s: string)
    ensures SafeBool(s) == Some(true) <==>
            CleanString(s).Some? && Lower(CleanString(s).value) in {"true", "allow", "1", "on", "enabled"}
    ensures SafeBool(s) == Some(false) <==>
            CleanString(s).Some? && Lower(CleanString(s).value) in {"false", "block", "0", "off", "disabled"}
  {
  }

  lemma {:induction false} LowerEach(s: string)
    ensures |Lower(s)| == |s|
    ensures forall i | 0 <= i < |s| ::
              Lower(s)[i] == if 'A' <= s[i] <= 'Z' then s[i] - 'A' + 'a' else if s[i] == '\U{212A}' then 'k' else s[i]
  {
    if s != "" {
      LowerEach(s[1..]);
    }
  }

  /** Rows of columns without delimiters, in either spelling. */
  ghost predicate PlainRow(part: seq<string>) {
    part != [] && AllFree(part, ROW) && AllFree(part, FIELD) && AllFree(part, LT_ENTITY) && AllFree(part, GT_ENTITY)
  }

  lemma PlainRowText(part: seq<string>)
    requires PlainRow(part)
    ensures var row := Join(part, FIELD);
            Split(row, FIELD) == part && Free(row, ROW) && Free(row, LT_ENTITY) && Free(row, GT_ENTITY)
  {
    SplitJoin(part, FIELD);
    FreeJoin(part, FIELD, ROW);
    FreeJoin(part, FIELD, LT_ENTITY);
    FreeJoin(part, FIELD, GT_ENTITY);
  }

  lemma SplitRows(rows: seq<string>)
    requires |rows| > 0 && AllFree(rows, ROW) && AllFree(rows, LT_ENTITY) && AllFree(rows, GT_ENTITY)
    ensures var wire := Join(rows, ROW);
            && DecodeFieldsFirst(wire) == wire == DecodeFieldsFirst(EntityEncode(wire)) && Split(wire, ROW) == rows
  {
    FreeJoin(rows, ROW, LT_ENTITY);
    FreeJoin(rows, ROW, GT_ENTITY);
    EntityRoundTrip(Join(rows, ROW));
    SplitJoin(rows, ROW);
  }

  function TextsOf(rows: seq<seq<string>>): (r: seq<string>)
    ensures |r| == |rows|
  {
    seq(|rows|, i requires 0 <= i < |rows| => Join(rows[i], FIELD))
  }

  lemma RowsText(rows: seq<seq<string>>)
    requires |rows| > 0 && forall i | 0 <= i < |rows| :: PlainRow(rows[i])
    ensures var wire := Join(TextsOf(rows), ROW);
            && DecodeFieldsFirst(wire) == wire == DecodeFieldsFirst(EntityEncode(wire)) && Split(wire, ROW) == TextsOf(rows)
    ensures forall i | 0 <= i < |rows| :: Split(TextsOf(rows)[i], FIELD) == rows[i]
  {
    forall i | 0 <= i < |rows|
      ensures var row := TextsOf(rows)[i];
              Split(row, FIELD) == rows[i] && Free(row, ROW) && Free(row, LT_ENTITY) && Free(row, GT_ENTITY)
    {
      PlainRowText(rows[i]);
    }
    SplitRows(TextsOf(rows));
  }

  /** How many of the first `k` rows have the columns the reader asks for. */
  function Complete(rows: seq<seq<string>>, k: nat): nat
    requires k <= |rows|
  {
    if k == 0 then 0 else Complete(rows, k - 1) + if |rows[k - 1]| >= 7 then 1 else 0
  }

  lemma {:induction false} KeptComplete(texts: seq<string>, rows: seq<seq<string>>, k: nat)
    requires |texts| == |rows| && k <= |rows| && forall i | 0 <= i < |rows| :: Split(texts[i], FIELD) == rows[i]
    ensures |Kept(texts[..k], WellFormed)| == Complete(rows, k)
  {
    if k > 0 {
      KeptComplete(texts, rows, k - 1);
      assert texts[..k][..k - 1] == texts[..k - 1];
    }
  }

  /** A row in any place of a list, raw or encoded: with seven columns it is read as the client those columns tell,
      with the number of complete rows before it for its unit. */
  lemma RowInList(rows: seq<seq<string>>, k: nat, lenient: string -> Option<int>)
    requires k < |rows| && (forall i | 0 <= i < |rows| :: PlainRow(rows[i])) && |rows[k]| >= PART_MIN_FIELDS
    ensures var wire := Join(TextsOf(rows), ROW);
            var clients := Listed(DecodeFieldsFirst(wire), lenient);
            var unit := Complete(rows, k);
            && DecodeFieldsFirst(EntityEncode(wire)) == DecodeFieldsFirst(wire)
            && |clients| == Complete(rows, |rows|) && unit < |clients| && Tells(clients[unit], rows[k], unit, lenient)
  {
    var texts := TextsOf(rows);
    RowsText(rows);
    RowKept(texts, rows, k, ClientMaker(lenient));
    RowTells(texts[k], rows[k], Complete(rows, k), lenient);
  }

  lemma RowKept<C>(texts: seq<string>, rows: seq<seq<string>>, k: nat, make: (string, nat) -> C)
    requires |texts| == |rows| && (forall i | 0 <= i < |rows| :: Split(texts[i], FIELD) == rows[i])
    requires k < |rows| && |rows[k]| >= PART_MIN_FIELDS
    ensures var made := Numbered(texts, WellFormed, make);
            |made| == Complete(rows, |rows|) && Complete(rows, k) < |made| && made[Complete(rows, k)] == make(texts[k], Complete(rows, k))
  {
    KeptComplete(texts, rows, k);
    KeptComplete(texts, rows, |rows|);
    assert texts[..|rows|] == texts;
    NumberedReplaced(texts, WellFormed, make, k, texts[k]);
    assert texts[k := texts[k]] == texts;
  }

  lemma SingleClient(c: Client)
    ensures ByVpncId([c]) == [c] && Sorted([c]) == map[KeyOf(c) := c]
  {
    assert [c][..0] == [];
    assert ByVpncId([]) == [] && Sorted([]) == map[];
    assert ByVpncId([c]) == Stored([], c);
  }

  lemma OneRowList(part: seq<string>, row: string, lenient: string -> Option<int>) returns (c: Client)
    requires PlainRow(part) && |part| >= PART_MIN_FIELDS && row == Join(part, FIELD)
    ensures DecodeFieldsFirst(EntityEncode(row)) == DecodeFieldsFirst(row)
    ensures Listed(DecodeFieldsFirst(row), lenient) == [c] && Tells(c, part, 0, lenient)
  {
    RowInList([part], 0, lenient);
    assert TextsOf([part]) == [row];
    assert Complete([part], 0) == 0 && Complete([part], 1) == 1;
    c := Listed(DecodeFieldsFirst(row), lenient)[0];
  }

  lemma ReadAlike(row: string, wire: string, c: Client, lenient: string -> Option<int>)
    requires DecodeFieldsFirst(wire) == DecodeFieldsFirst(row) && Listed(DecodeFieldsFirst(row), lenient) == [c]
    ensures Read(wire, lenient) == map[(c.kind, c.id) := c]
  {
    OneClientTable(wire, c, lenient);
  }

  /** And a list of that row alone is a table of that client alone, under the type its second column names and the
      id of its third. */
  lemma OneRowTable(part: seq<string>, lenient: string -> Option<int>) returns (c: Client)
    requires PlainRow(part) && |part| >= PART_MIN_FIELDS
    ensures Tells(c, part, 0, lenient)
    ensures Read(Join(part, FIELD), lenient) == map[(c.kind, c.id) := c] == Read(EntityEncode(Join(part, FIELD)), lenient)
  {
    var row := Join(part, FIELD);
    c := OneRowList(part, row, lenient);
    ReadAlike(row, row, c, lenient);
    ReadAlike(row, EntityEncode(row), c, lenient);
  }

  lemma OneClientTable(row: string, c: Client, lenient: string -> Option<int>)
    requires Listed(DecodeFieldsFirst(row), lenient) == [c]
    ensures Read(row, lenient) == map[(c.kind, c.id) := c]
  {
    SingleClient(c);
  }

  /** In a list in which no id comes twice, each client stands in the table under its own type and id. */
  lemma RowInTable(rows: seq<seq<string>>, k: nat, lenient: string -> Option<int>)
    requires k < |rows| && (forall i | 0 <= i < |rows| :: PlainRow(rows[i])) && |rows[k]| >= PART_MIN_FIELDS
    requires Distinct(Listed(DecodeFieldsFirst(Join(TextsOf(rows), ROW)), lenient))
    ensures var vpn := Read(Join(TextsOf(rows), ROW), lenient);
            exists key :: key in vpn && key == (vpn[key].kind, vpn[key].id) && Tells(vpn[key], rows[k], Complete(rows, k), lenient)
  {
    var wire := Join(TextsOf(rows), ROW);
    var cs := Listed(DecodeFieldsFirst(wire), lenient);
    RowInList(rows, k, lenient);
    ReadDistinct(wire, lenient);
    var c := cs[Complete(rows, k)];
    SortedHolds(cs, KeyOf(c));
    assert Read(wire, lenient)[KeyOf(c)] == c;
  }

  // ---- units that are no place in the list -------------------------------------------------------

  /** A negative unit counts from the end, as Python's indices do; one too far either way is no place, with an error
      at the front and without one at the back. */
  lemma OtherUnits(clientlist: string, unit: int, on: bool)
    requires clientlist != ""
    ensures var n := |Split(clientlist, ROW)|;
            && (unit >= n ==> Rewritten(clientlist, unit, on) == NoList)
            && (-n <= unit < 0 ==> Rewritten(clientlist, unit, on) == Rewritten(clientlist, n + unit, on))
            && (unit < -n ==> Rewritten(clientlist, unit, on) == IndexError)
            && (0 <= unit < n ==>
                  (Rewritten(clientlist, unit, on).Clientlist? <==> |Split(Split(clientlist, ROW)[unit], FIELD)| >= 6)
                  && Rewritten(clientlist, unit, on) != NoList)
  {
  }

  /** The unit of a client is found under its type and id, and under no other. */
  lemma UnitFound(vpn: Vpn, kind: VpnType, id: int)
    ensures FindVpncUnit(vpn, kind, id).Some? <==> (kind, Some(id)) in vpn
    ensures (kind, Some(id)) in vpn ==> FindVpncUnit(vpn, kind, id) == Some(vpn[(kind, Some(id))].unit)
  {
  }
}
