/** Setting and removing static DHCP leases: the whole list is re-read, edited and rewritten under one
    lock. Every interleaving of such updates is a sequence of edits of one list. */
module StaticDhcpUpdates {
  import opened Text
  import opened Delimited
  import opened StaticDhcp

  datatype Op =
    | SetLease(mac: string, ip: string, hostname: string, dns: string)
    | RemoveLease(mac: string, apply: bool)

  /** The two NVRAM values a service call writes. */
  datatype Request = Request(list: string, enabled: bool)

  // ---- compile ------------------------------------------------------------------------------

  function Normalizer(lenient: string -> Option<int>): Lease -> Option<Lease> {
    l => Normalize(l, lenient)
  }

  function NormalizeAll(ls: seq<Lease>, lenient: string -> Option<int>): Option<seq<Lease>> {
    Traverse(ls, Normalizer(lenient))
  }

  predicate UniqueAddresses(ls: seq<Lease>) {
    NoRepeat(Macs(ls), Ips(ls))
  }

  /** `compile_static_dhcp_leases`; None where it raises. */
  function Compiled(ls: seq<Lease>, enabled: Option<bool>, lenient: string -> Option<int>): Option<Request> {
    match NormalizeAll(ls, lenient)
    case None => None
    case Some(normalized) =>
      if !UniqueAddresses(normalized) then None
      else Some(Request(SerializeAll(normalized), if enabled.Some? then enabled.value else normalized != []))
  }

  predicate NoRepeat<A(==)>(macs: seq<A>, ips: seq<A>)
    requires |macs| == |ips|
  {
    forall i, j | 0 <= i < j < |macs| :: macs[i] != macs[j] && ips[i] != ips[j]
  }

  /** The two sets of addresses seen so far decide whether any is repeated. */
  method FindDuplicate<A(==)>(macs: seq<A>, ips: seq<A>) returns (found: bool)
    requires |macs| == |ips|
    ensures found == !NoRepeat(macs, ips)
  {
    var macAddresses: set<A>, ipAddresses: set<A> := {}, {};
    for i := 0 to |macs|
      invariant forall a, b | 0 <= a < b < i :: macs[a] != macs[b] && ips[a] != ips[b]
      invariant macAddresses == set k | 0 <= k < i :: macs[k]
      invariant ipAddresses == set k | 0 <= k < i :: ips[k]
    {
      if macs[i] in macAddresses || ips[i] in ipAddresses {
        return true;
      }
      macAddresses := macAddresses + {macs[i]};
      ipAddresses := ipAddresses + {ips[i]};
    }
    found := false;
  }

  function Macs(ls: seq<Lease>): (r: seq<string>)
    ensures |r| == |ls|
  {
    seq(|ls|, i requires 0 <= i < |ls| => ls[i].mac)
  }

  function Ips(ls: seq<Lease>): (r: seq<string>)
    ensures |r| == |ls|
  {
    seq(|ls|, i requires 0 <= i < |ls| => ls[i].ip)
  }

  method CompileStaticDhcpLeases(ls: seq<Lease>, enabled: Option<bool>, lenient: string -> Option<int>)
    returns (r: Option<Request>)
    ensures r == Compiled(ls, enabled, lenient)
  {
    var normalized := NormalizeAll(ls, lenient);
    if normalized.None? {
      return None;
    }
    var duplicate := FindDuplicate(Macs(normalized.value), Ips(normalized.value));
    if duplicate {
      return None;
    }
    r := Some(Request(SerializeAll(normalized.value), if enabled.Some? then enabled.value else normalized.value != []));
  }

  lemma NormalizeAllKeeps(ls: seq<Lease>, lenient: string -> Option<int>)
    requires AllNormal(ls, lenient)
    ensures NormalizeAll(ls, lenient) == Some(ls)
  {
    forall i | 0 <= i < |ls| ensures Normalizer(lenient)(ls[i]) == Some(ls[i]) {
      assert Normal(ls[i], lenient);
    }
    TraverseEach(ls, ls, Normalizer(lenient));
  }

  /** Which lists compile: every lease normalises, and no two normal forms share an address. The service is switched as
      asked for, or on just if there is a lease. */
  lemma CompiledIff(ls: seq<Lease>, enabled: Option<bool>, lenient: string -> Option<int>)
    ensures Compiled(ls, enabled, lenient).Some? <==>
            && (forall i | 0 <= i < |ls| :: Normalize(ls[i], lenient).Some?)
            && forall i, j | 0 <= i < j < |ls| && Normalize(ls[i], lenient).Some? && Normalize(ls[j], lenient).Some? ::
                 var a, b := Normalize(ls[i], lenient).value, Normalize(ls[j], lenient).value; a.mac != b.mac && a.ip != b.ip
    ensures Compiled(ls, enabled, lenient).Some? ==>
              Compiled(ls, enabled, lenient).value.enabled == if enabled.Some? then enabled.value else ls != []
  {
    if forall i | 0 <= i < |ls| :: Normalize(ls[i], lenient).Some? {
      var ns := seq(|ls|, i requires 0 <= i < |ls| && Normalize(ls[i], lenient).Some? => Normalize(ls[i], lenient).value);
      TraverseEach(ls, ns, Normalizer(lenient));
      CompiledNormal(ls, ns, lenient);
    } else if NormalizeAll(ls, lenient).Some? {
      TraverseParts(ls, Normalizer(lenient));
      assert false;
    }
  }

  lemma CompiledNormal(ls: seq<Lease>, ns: seq<Lease>, lenient: string -> Option<int>)
    requires |ns| == |ls| && NormalizeAll(ls, lenient) == Some(ns)
    requires forall i | 0 <= i < |ls| :: Normalize(ls[i], lenient) == Some(ns[i])
    ensures UniqueAddresses(ns) <==>
            forall i, j | 0 <= i < j < |ls| && Normalize(ls[i], lenient).Some? && Normalize(ls[j], lenient).Some? ::
              var a, b := Normalize(ls[i], lenient).value, Normalize(ls[j], lenient).value; a.mac != b.mac && a.ip != b.ip
  {
    UniqueIff(ns);
  }

  // ---- the edits ----------------------------------------------------------------------------

  /** The leases of every other MAC, in order. */
  function Without(ls: seq<Lease>, mac: string, lenient: string -> Option<int>): seq<Lease> {
    if ls == [] then []
    else (if NormalizeMac(ls[0].mac, lenient) != Some(mac) then [ls[0]] else []) + Without(ls[1..], mac, lenient)
  }

  function First(ls: seq<Lease>, mac: string, lenient: string -> Option<int>): Option<Lease> {
    if ls == [] then None
    else if NormalizeMac(ls[0].mac, lenient) == Some(mac) then Some(ls[0])
    else First(ls[1..], mac, lenient)
  }

  predicate HasLegacy(ls: seq<Lease>) {
    exists l | l in ls :: l.layout == Legacy
  }

  /** The layout a table calls for in a lease with that MAC. */
  function LayoutFor(ls: seq<Lease>, mac: string, lenient: string -> Option<int>): Layout {
    var existing := First(ls, mac, lenient);
    if existing.Some? then existing.value.layout else if HasLegacy(ls) then Legacy else Modern
  }

  /** The lease a set call asks for; None where it is invalid. */
  function Asked(op: Op, lenient: string -> Option<int>): Option<Lease>
    requires op.SetLease?
  {
    Normalize(Lease(op.mac, op.ip, op.dns, op.hostname, Modern), lenient)
  }

  /** The lease a set call adds, in the layout the table calls for; None where it raises. */
  function NewLease(ls: seq<Lease>, op: Op, lenient: string -> Option<int>): Option<Lease>
    requires op.SetLease?
  {
    match Asked(op, lenient)
    case None => None
    case Some(lease) => Normalize(lease.(layout := LayoutFor(ls, lease.mac, lenient)), lenient)
  }

  /** The list and the switch as the router stores them. */
  datatype Saved = Saved(leases: seq<Lease>, enabled: bool)

  /** The write an update sends after reading `sv`; None when it raises or has nothing to change. */
  function Effect(sv: Saved, op: Op, lenient: string -> Option<int>): Option<Request> {
    match op
    case SetLease(_, _, _, _) =>
      (match NewLease(sv.leases, op, lenient)
       case None => None
       case Some(lease) => Compiled(Without(sv.leases, lease.mac, lenient) + [lease], Some(true), lenient))
    case RemoveLease(mac, apply) =>
      (match NormalizeMac(mac, lenient)
       case None => None
       case Some(m) =>
         var final := Without(sv.leases, m, lenient);
         if apply && |final| != |sv.leases| then Compiled(final, Some(sv.enabled && final != []), lenient) else None)
  }

  /** The edit as a step on leases, with no text in between. */
  function Applied(sv: Saved, op: Op, lenient: string -> Option<int>): Saved
    requires Effect(sv, op, lenient).Some?
  {
    match op
    case SetLease(_, _, _, _) =>
      var lease := NewLease(sv.leases, op, lenient).value;
      Saved(Without(sv.leases, lease.mac, lenient) + [ReadBack(lease)], true)
    case RemoveLease(mac, _) =>
      var final := Without(sv.leases, NormalizeMac(mac, lenient).value, lenient);
      Saved(final, sv.enabled && final != [])
  }

  lemma {:induction false} WithoutParsed(ls: seq<Lease>, mac: string, lenient: string -> Option<int>)
    requires AllParsed(ls, lenient)
    ensures AllParsed(Without(ls, mac, lenient), lenient)
    ensures First(Without(ls, mac, lenient), mac, lenient) == None
  {
    if ls != [] {
      WithoutParsed(ls[1..], mac, lenient);
      var rest := Without(ls[1..], mac, lenient);
      if NormalizeMac(ls[0].mac, lenient) != Some(mac) {
        assert Without(ls, mac, lenient) == [ls[0]] + rest;
        assert ([ls[0]] + rest)[1..] == rest;
      } else {
        assert Without(ls, mac, lenient) == rest;
      }
    }
  }

  /** Looking up a MAC after a set call: the new lease under its own, the old answer under any other. */
  lemma {:induction false} SetThenFirst(ls: seq<Lease>, lease: Lease, other: string, lenient: string -> Option<int>)
    requires NormalizeMac(lease.mac, lenient) == Some(lease.mac)
    ensures First(Without(ls, lease.mac, lenient) + [lease], other, lenient) ==
            if other == lease.mac then Some(lease) else First(ls, other, lenient)
  {
    var kept := Without(ls, lease.mac, lenient);
    if ls == [] {
      assert ([lease])[1..] == [];
    } else {
      var rest := Without(ls[1..], lease.mac, lenient);
      SetThenFirst(ls[1..], lease, other, lenient);
      if NormalizeMac(ls[0].mac, lenient) != Some(lease.mac) {
        assert kept + [lease] == [ls[0]] + (rest + [lease]);
        assert ([ls[0]] + (rest + [lease]))[1..] == rest + [lease];
      } else {
        assert kept == rest;
      }
    }
  }

  /** The text holds `sv`, however the router chooses to hand it back. */
  ghost predicate Holds(text: string, sv: Saved, lenient: string -> Option<int>) {
    && AllParsed(sv.leases, lenient)
    && Parse(text, lenient) == Some(sv.leases)
    && Parse(EntityEncode(text), lenient) == Some(sv.leases)
  }

  lemma CompiledThenRead(ls: seq<Lease>, enabled: Option<bool>, lenient: string -> Option<int>)
    requires AllNormal(ls, lenient) && Compiled(ls, enabled, lenient).Some?
    ensures var req := Compiled(ls, enabled, lenient).value;
            && Parse(req.list, lenient) == Some(ReadBackAll(ls)) == Parse(EntityEncode(req.list), lenient)
            && (enabled.Some? ==> req.enabled == enabled.value)
  {
    NormalizeAllKeeps(ls, lenient);
    SerializeThenParse(ls, lenient);
  }

  lemma SetThenRead(sv: Saved, op: Op, lenient: string -> Option<int>)
    requires op.SetLease? && AllParsed(sv.leases, lenient) && Effect(sv, op, lenient).Some?
    ensures Holds(Effect(sv, op, lenient).value.list, Applied(sv, op, lenient), lenient)
    ensures Effect(sv, op, lenient).value.enabled
  {
    var lease := NewLease(sv.leases, op, lenient).value;
    NewLeaseIsNormal(sv.leases, op, lenient);
    var kept := Without(sv.leases, lease.mac, lenient);
    WithoutParsed(sv.leases, lease.mac, lenient);
    CompiledThenRead(kept + [lease], Some(true), lenient);
    ReadBackOfAdded(kept, lease, lenient);
  }

  lemma ReadBackOfAdded(kept: seq<Lease>, lease: Lease, lenient: string -> Option<int>)
    requires AllParsed(kept, lenient) && Normal(lease, lenient)
    ensures ReadBackAll(kept + [lease]) == kept + [ReadBack(lease)]
    ensures AllParsed(kept + [ReadBack(lease)], lenient)
  {
    ReadBackIsParsed(lease, lenient);
  }

  lemma NewLeaseIsNormal(ls: seq<Lease>, op: Op, lenient: string -> Option<int>)
    requires op.SetLease? && NewLease(ls, op, lenient).Some?
    ensures Normal(NewLease(ls, op, lenient).value, lenient)
  {
    var lease := NewLease(ls, op, lenient).value;
    var first := Normalize(Lease(op.mac, op.ip, op.dns, op.hostname, Modern), lenient).value;
    NormalizeIdempotent(first.(layout := lease.layout), lenient);
  }

  lemma RemoveThenRead(sv: Saved, op: Op, lenient: string -> Option<int>)
    requires op.RemoveLease? && AllParsed(sv.leases, lenient) && Effect(sv, op, lenient).Some?
    ensures Holds(Effect(sv, op, lenient).value.list, Applied(sv, op, lenient), lenient)
    ensures Effect(sv, op, lenient).value.enabled == Applied(sv, op, lenient).enabled
  {
    var m := NormalizeMac(op.mac, lenient).value;
    var final := Without(sv.leases, m, lenient);
    WithoutParsed(sv.leases, m, lenient);
    CompiledThenRead(final, Some(sv.enabled && final != []), lenient);
    assert ReadBackAll(final) == final;
  }

  /** One update from stored text to stored text: every other lease stays, equal and in order. */
  lemma EffectThenRead(sv: Saved, op: Op, lenient: string -> Option<int>)
    requires AllParsed(sv.leases, lenient) && Effect(sv, op, lenient).Some?
    ensures var req := Effect(sv, op, lenient).value;
            && Holds(req.list, Applied(sv, op, lenient), lenient)
            && req.enabled == Applied(sv, op, lenient).enabled
  {
    if op.SetLease? {
      SetThenRead(sv, op, lenient);
    } else {
      RemoveThenRead(sv, op, lenient);
    }
  }

  lemma ReadBackIsParsed(l: Lease, lenient: string -> Option<int>)
    requires Normal(l, lenient)
    ensures Parsed(ReadBack(l), lenient)
  {
    RowRoundTrip(l, lenient);
    ParseRowIsParsed(Join(Fields(l), GT), lenient);
  }

  lemma NewLeaseIsAsked(ls: seq<Lease>, op: Op, lenient: string -> Option<int>)
    requires op.SetLease? && NewLease(ls, op, lenient).Some?
    ensures var asked := Asked(op, lenient).value;
            && NewLease(ls, op, lenient).value == asked.(layout := LayoutFor(ls, asked.mac, lenient))
            && asked.hostname == op.hostname
  {
    NormalizeIdempotent(Lease(op.mac, op.ip, op.dns, op.hostname, Modern), lenient);
  }

  /** The lease that was asked for is the lease the router ends up with, unless the table calls for the legacy
      layout and the host name reads as an address. */
  lemma SetStoresLeaseIff(sv: Saved, op: Op, lenient: string -> Option<int>)
    requires op.SetLease? && Effect(sv, op, lenient).Some?
    ensures var asked := Asked(op, lenient);
            var after := Applied(sv, op, lenient).leases;
            && asked.Some? && after != []
            && (SameLease(after[|after| - 1], asked.value) <==>
                !(LayoutFor(sv.leases, asked.value.mac, lenient) == Legacy && NormalizeIpv4(op.hostname).Some?))
  {
    NewLeaseIsAsked(sv.leases, op, lenient);
    AmbiguousIff(NewLease(sv.leases, op, lenient).value);
  }

  lemma OneLeaseCompiles(lease: Lease, lenient: string -> Option<int>)
    requires Normal(lease, lenient)
    ensures Compiled([lease], Some(true), lenient) == Some(Request(SerializeAll([lease]), true))
  {
    NormalizeAllKeeps([lease], lenient);
  }

  /** A set call that ends so: the table holds the MAC in a legacy row, and the host name asked for is an
      address. The router ends up with that address as DNS server and with no host name. */
  lemma LegacyRowTakesAddress(mac: string, address: string, named: string, lenient: string -> Option<int>)
    requires NormalAddresses(mac, address, lenient)
    ensures var sv := Saved([Lease(mac, address, "", named, Legacy)], true);
            var op := SetLease(mac, address, address, "");
            && Effect(sv, op, lenient).Some?
            && Applied(sv, op, lenient).leases == [Lease(mac, address, address, "", Modern)]
  {
    var sv := Saved([Lease(mac, address, "", named, Legacy)], true);
    var op := SetLease(mac, address, address, "");
    var lease := Lease(mac, address, "", address, Legacy);
    PlainByHeads("");
    LegacyIsNormal(mac, address, address, lenient);
    assert Asked(op, lenient) == Some(lease.(layout := Modern));
    assert First(sv.leases, mac, lenient) == Some(sv.leases[0]);
    assert NewLease(sv.leases, op, lenient) == Some(lease);
    assert Without(sv.leases, mac, lenient) == [] && [] + [lease] == [lease];
    OneLeaseCompiles(lease, lenient);
  }

  // ---- when an update writes, and what -----------------------------------------------------------

  /** Each MAC is its own normal form, as in every list that was read. */
  ghost predicate OwnMacs(ls: seq<Lease>, lenient: string -> Option<int>) {
    forall i | 0 <= i < |ls| :: NormalizeMac(ls[i].mac, lenient) == Some(ls[i].mac)
  }

  lemma ParsedMacs(ls: seq<Lease>, lenient: string -> Option<int>)
    requires AllParsed(ls, lenient)
    ensures OwnMacs(ls, lenient)
  {
    forall i | 0 <= i < |ls| ensures NormalizeMac(ls[i].mac, lenient) == Some(ls[i].mac) {
      MacNormalForm(ls[i].mac, lenient);
    }
  }

  function Others(ls: seq<Lease>, mac: string): seq<Lease> {
    if ls == [] then [] else (if ls[0].mac == mac then [] else [ls[0]]) + Others(ls[1..], mac)
  }

  lemma {:induction false} WithoutIsOthers(ls: seq<Lease>, mac: string, lenient: string -> Option<int>)
    requires OwnMacs(ls, lenient)
    ensures Without(ls, mac, lenient) == Others(ls, mac)
  {
    if ls != [] {
      WithoutIsOthers(ls[1..], mac, lenient);
    }
  }

  lemma {:induction false} OthersMembers(ls: seq<Lease>, mac: string, l: Lease)
    ensures l in Others(ls, mac) <==> l in ls && l.mac != mac
  {
    if ls != [] {
      OthersMembers(ls[1..], mac, l);
    }
  }

  lemma OthersCons(l: Lease, rest: seq<Lease>, mac: string)
    ensures Others([l] + rest, mac) == (if l.mac == mac then [] else [l]) + Others(rest, mac)
  {
    assert ([l] + rest)[1..] == rest;
  }

  lemma {:induction false} OthersOneMore(ls: seq<Lease>, l: Lease, mac: string)
    ensures Others(ls + [l], mac) == Others(ls, mac) + if l.mac == mac then [] else [l]
  {
    var last := if l.mac == mac then [] else [l];
    if ls == [] {
      OthersCons(l, [], mac);
      assert ls + [l] == [l] + [] && last + [] == [] + last;
    } else {
      var first := if ls[0].mac == mac then [] else [ls[0]];
      OthersOneMore(ls[1..], l, mac);
      OthersCons(ls[0], ls[1..] + [l], mac);
      assert ls + [l] == [ls[0]] + (ls[1..] + [l]);
      assert first + (Others(ls[1..], mac) + last) == (first + Others(ls[1..], mac)) + last;
    }
  }

  /** The leases of other MACs stay, in their order: one more lease at the end of the list is one more kept, unless it
      has the MAC. */
  lemma WithoutOneMore(ls: seq<Lease>, l: Lease, mac: string, lenient: string -> Option<int>)
    requires AllParsed(ls + [l], lenient)
    ensures Without(ls + [l], mac, lenient) == Without(ls, mac, lenient) + if l.mac == mac then [] else [l]
  {
    assert forall i | 0 <= i < |ls| :: ls[i] == (ls + [l])[i];
    ParsedMacs(ls + [l], lenient);
    ParsedMacs(ls, lenient);
    WithoutIsOthers(ls + [l], mac, lenient);
    WithoutIsOthers(ls, mac, lenient);
    OthersOneMore(ls, l, mac);
  }

  lemma {:induction false} OthersShorter(ls: seq<Lease>, mac: string)
    ensures |Others(ls, mac)| <= |ls|
    ensures |Others(ls, mac)| < |ls| <==> exists i :: 0 <= i < |ls| && ls[i].mac == mac
  {
    if ls != [] {
      OthersShorter(ls[1..], mac);
      if i :| 0 <= i < |ls| && ls[i].mac == mac && i > 0 {
        assert ls[1..][i - 1].mac == mac;
      }
    }
  }

  predicate Differ(a: Lease, b: Lease) {
    a.mac != b.mac && a.ip != b.ip
  }

  /** No address comes twice among the leases of other MACs. */
  ghost predicate OthersDiffer(ls: seq<Lease>, mac: string) {
    forall i, j | 0 <= i < j < |ls| && ls[i].mac != mac && ls[j].mac != mac :: Differ(ls[i], ls[j])
  }

  lemma UniqueCons(l: Lease, rest: seq<Lease>)
    ensures UniqueAddresses([l] + rest) <==> UniqueAddresses(rest) && forall m | m in rest :: Differ(l, m)
  {
    UniqueIff([l] + rest);
    UniqueIff(rest);
    DifferCons(l, rest);
  }

  lemma DifferCons(l: Lease, rest: seq<Lease>)
    ensures var ls := [l] + rest;
            (forall i, j | 0 <= i < j < |ls| :: Differ(ls[i], ls[j])) <==>
            (forall i, j | 0 <= i < j < |rest| :: Differ(rest[i], rest[j])) && forall m | m in rest :: Differ(l, m)
  {
    var ls := [l] + rest;
    if forall i, j | 0 <= i < j < |ls| :: Differ(ls[i], ls[j]) {
      forall i, j | 0 <= i < j < |rest| ensures Differ(rest[i], rest[j]) {
        assert Differ(ls[i + 1], ls[j + 1]);
      }
      forall m | m in rest ensures Differ(l, m) {
        var i :| 0 <= i < |rest| && rest[i] == m;
        assert Differ(ls[0], ls[i + 1]);
      }
    }
    if (forall i, j | 0 <= i < j < |rest| :: Differ(rest[i], rest[j])) && forall m | m in rest :: Differ(l, m) {
      forall i, j | 0 <= i < j < |ls| ensures Differ(ls[i], ls[j]) {
        assert ls[j] == rest[j - 1];
        if i > 0 {
          assert ls[i] == rest[i - 1];
        }
      }
    }
  }

  lemma UniqueIff(ls: seq<Lease>)
    ensures UniqueAddresses(ls) <==> forall i, j | 0 <= i < j < |ls| :: Differ(ls[i], ls[j])
  {
    assert forall i | 0 <= i < |ls| :: Macs(ls)[i] == ls[i].mac && Ips(ls)[i] == ls[i].ip;
    if forall i, j | 0 <= i < j < |ls| :: Differ(ls[i], ls[j]) {
      forall i, j | 0 <= i < j < |ls| ensures Macs(ls)[i] != Macs(ls)[j] && Ips(ls)[i] != Ips(ls)[j] {
        assert Differ(ls[i], ls[j]);
      }
    }
  }

  lemma OthersDifferCons(l: Lease, rest: seq<Lease>, mac: string)
    ensures OthersDiffer([l] + rest, mac) <==>
            OthersDiffer(rest, mac) && (l.mac != mac ==> forall m | m in rest && m.mac != mac :: Differ(l, m))
  {
    var ls := [l] + rest;
    if OthersDiffer(ls, mac) {
      forall i, j | 0 <= i < j < |rest| && rest[i].mac != mac && rest[j].mac != mac ensures Differ(rest[i], rest[j]) {
        assert Differ(ls[i + 1], ls[j + 1]);
      }
      forall m | l.mac != mac && m in rest && m.mac != mac ensures Differ(l, m) {
        var i :| 0 <= i < |rest| && rest[i] == m;
        assert Differ(ls[0], ls[i + 1]);
      }
    }
    if OthersDiffer(rest, mac) && (l.mac != mac ==> forall m | m in rest && m.mac != mac :: Differ(l, m)) {
      forall i, j | 0 <= i < j < |ls| && ls[i].mac != mac && ls[j].mac != mac ensures Differ(ls[i], ls[j]) {
        assert ls[j] == rest[j - 1];
        if i > 0 {
          assert ls[i] == rest[i - 1];
        }
      }
    }
  }

  lemma {:induction false} OthersUnique(ls: seq<Lease>, mac: string)
    ensures UniqueAddresses(Others(ls, mac)) <==> OthersDiffer(ls, mac)
  {
    if ls != [] {
      var l, rest := ls[0], ls[1..];
      var kept := Others(rest, mac);
      assert ls == [l] + rest;
      OthersUnique(rest, mac);
      OthersDifferCons(l, rest, mac);
      UniqueCons(l, kept);
      forall m ensures m in kept <==> m in rest && m.mac != mac {
        OthersMembers(rest, mac, m);
      }
      assert Others(ls, mac) == if l.mac == mac then kept else [l] + kept;
    }
  }

  lemma CompiledWhen(ls: seq<Lease>, enabled: bool, lenient: string -> Option<int>)
    requires AllNormal(ls, lenient)
    ensures Compiled(ls, Some(enabled), lenient) == if UniqueAddresses(ls) then Some(Request(SerializeAll(ls), enabled)) else None
  {
    NormalizeAllKeeps(ls, lenient);
  }

  /** When a removal writes: it is to be applied, its MAC is one, some lease has it, and the leases that remain repeat
      no address. It then leaves the service on just if it was on and some lease remains. */
  lemma RemovalWritesIff(sv: Saved, mac: string, apply: bool, lenient: string -> Option<int>)
    requires AllParsed(sv.leases, lenient)
    ensures var effect := Effect(sv, RemoveLease(mac, apply), lenient);
            var m := NormalizeMac(mac, lenient);
            && (effect.Some? <==>
                && apply && m.Some? && (exists i :: 0 <= i < |sv.leases| && sv.leases[i].mac == m.value)
                && OthersDiffer(sv.leases, m.value))
            && (effect.Some? ==> (effect.value.enabled <==>
                  sv.enabled && exists i :: 0 <= i < |sv.leases| && sv.leases[i].mac != m.value))
  {
    if NormalizeMac(mac, lenient).Some? {
      var m := NormalizeMac(mac, lenient).value;
      var final := Without(sv.leases, m, lenient);
      ParsedMacs(sv.leases, lenient);
      WithoutIsOthers(sv.leases, m, lenient);
      OthersShorter(sv.leases, m);
      OthersUnique(sv.leases, m);
      RemovalCompiles(sv, m, lenient);
      SomeRemain(sv.leases, m);
    }
  }

  lemma RemovalCompiles(sv: Saved, mac: string, lenient: string -> Option<int>)
    requires AllParsed(sv.leases, lenient)
    ensures var final := Without(sv.leases, mac, lenient);
            Compiled(final, Some(sv.enabled && final != []), lenient) ==
            if UniqueAddresses(final) then Some(Request(SerializeAll(final), sv.enabled && final != [])) else None
  {
    var final := Without(sv.leases, mac, lenient);
    WithoutParsed(sv.leases, mac, lenient);
    CompiledWhen(final, sv.enabled && final != [], lenient);
  }

  lemma SomeRemain(ls: seq<Lease>, mac: string)
    ensures Others(ls, mac) != [] <==> exists i :: 0 <= i < |ls| && ls[i].mac != mac
  {
    var kept := Others(ls, mac);
    if kept != [] {
      OthersMembers(ls, mac, kept[0]);
      assert kept[0] in ls;
    }
    if i :| 0 <= i < |ls| && ls[i].mac != mac {
      OthersMembers(ls, mac, ls[i]);
      assert ls[i] in kept;
    }
  }

  lemma UniqueAppend(ls: seq<Lease>, l: Lease)
    ensures UniqueAddresses(ls + [l]) <==> UniqueAddresses(ls) && forall m | m in ls :: Differ(m, l)
  {
    UniqueIff(ls);
    UniqueIff(ls + [l]);
    DifferAppend(ls, l);
  }

  lemma DifferAppend(ls: seq<Lease>, l: Lease)
    ensures var all := ls + [l];
            (forall i, j | 0 <= i < j < |all| :: Differ(all[i], all[j])) <==>
            (forall i, j | 0 <= i < j < |ls| :: Differ(ls[i], ls[j])) && forall m | m in ls :: Differ(m, l)
  {
    var all := ls + [l];
    if forall i, j | 0 <= i < j < |all| :: Differ(all[i], all[j]) {
      forall i, j | 0 <= i < j < |ls| ensures Differ(ls[i], ls[j]) {
        assert Differ(all[i], all[j]);
      }
      forall m | m in ls ensures Differ(m, l) {
        var i :| 0 <= i < |ls| && ls[i] == m;
        assert Differ(all[i], all[|ls|]);
      }
    }
    if (forall i, j | 0 <= i < j < |ls| :: Differ(ls[i], ls[j])) && forall m | m in ls :: Differ(m, l) {
      forall i, j | 0 <= i < j < |all| ensures Differ(all[i], all[j]) {
        assert all[i] == ls[i];
        if j < |ls| {
          assert all[j] == ls[j];
        }
      }
    }
  }

  /** The table calls for a legacy row: the MAC has one, or is new where some row is legacy. */
  ghost predicate CallsForLegacy(ls: seq<Lease>, mac: string) {
    if exists i :: 0 <= i < |ls| && ls[i].mac == mac
    then exists i :: 0 <= i < |ls| && ls[i].mac == mac && ls[i].layout == Legacy && forall j | 0 <= j < i :: ls[j].mac != mac
    else exists i :: 0 <= i < |ls| && ls[i].layout == Legacy
  }

  lemma {:induction false} FirstNone(ls: seq<Lease>, mac: string, lenient: string -> Option<int>)
    requires OwnMacs(ls, lenient)
    ensures First(ls, mac, lenient).None? <==> forall j | 0 <= j < |ls| :: ls[j].mac != mac
  {
    if ls != [] {
      FirstNone(ls[1..], mac, lenient);
      assert forall j | 0 < j < |ls| :: ls[j] == ls[1..][j - 1];
    }
  }

  lemma {:induction false} FirstIs(ls: seq<Lease>, mac: string, lenient: string -> Option<int>) returns (i: nat)
    requires OwnMacs(ls, lenient) && First(ls, mac, lenient).Some?
    ensures i < |ls| && First(ls, mac, lenient) == Some(ls[i]) && ls[i].mac == mac && forall j | 0 <= j < i :: ls[j].mac != mac
  {
    i := 0;
    if ls[0].mac != mac {
      var k := FirstIs(ls[1..], mac, lenient);
      i := k + 1;
      assert forall j | 0 < j < |ls| :: ls[j] == ls[1..][j - 1];
    }
  }

  lemma LayoutCalled(ls: seq<Lease>, mac: string, lenient: string -> Option<int>)
    requires OwnMacs(ls, lenient)
    ensures LayoutFor(ls, mac, lenient) == Legacy <==> CallsForLegacy(ls, mac)
  {
    FirstNone(ls, mac, lenient);
    if First(ls, mac, lenient).Some? {
      var i := FirstIs(ls, mac, lenient);
    } else {
      assert HasLegacy(ls) <==> exists i :: 0 <= i < |ls| && ls[i].layout == Legacy;
    }
  }

  /** When a set call writes: its lease is valid, no lease of another MAC has its address, those leases repeat none,
      and a legacy row is asked for no DNS server. It then switches the service on. */
  lemma SetWritesIff(sv: Saved, op: Op, lenient: string -> Option<int>)
    requires op.SetLease? && AllParsed(sv.leases, lenient)
    ensures var effect := Effect(sv, op, lenient);
            var m, ip := NormalizeMac(op.mac, lenient), NormalizeIpv4(op.ip);
            && (effect.Some? <==>
                && m.Some? && ip.Some? && (op.dns == "" || NormalizeIpv4(op.dns).Some?) && IsPlain(op.hostname)
                && !(CallsForLegacy(sv.leases, m.value) && op.dns != "")
                && OthersDiffer(sv.leases, m.value)
                && forall i | 0 <= i < |sv.leases| && sv.leases[i].mac != m.value :: sv.leases[i].ip != ip.value)
            && (effect.Some? ==> effect.value.enabled)
  {
    NormalizeIff(Lease(op.mac, op.ip, op.dns, op.hostname, Modern), lenient);
    if Asked(op, lenient).Some? {
      SetAsked(sv, op, lenient);
    }
  }

  lemma SetAsked(sv: Saved, op: Op, lenient: string -> Option<int>)
    requires op.SetLease? && AllParsed(sv.leases, lenient) && Asked(op, lenient).Some?
    ensures var asked := Asked(op, lenient).value;
            && (Effect(sv, op, lenient).Some? <==>
                && !(CallsForLegacy(sv.leases, asked.mac) && asked.dns != "")
                && OthersDiffer(sv.leases, asked.mac)
                && forall i | 0 <= i < |sv.leases| && sv.leases[i].mac != asked.mac :: sv.leases[i].ip != asked.ip)
            && (Effect(sv, op, lenient).Some? ==> Effect(sv, op, lenient).value.enabled)
            && (asked.dns == "" <==> op.dns == "")
  {
    var asked := Asked(op, lenient).value;
    NormalizeIdempotent(Lease(op.mac, op.ip, op.dns, op.hostname, Modern), lenient);
    NormalFacts(asked, lenient);
    ParsedMacs(sv.leases, lenient);
    LayoutCalled(sv.leases, asked.mac, lenient);
    AskedDns(op, lenient);
    NewLeaseWhen(sv.leases, op, lenient);
    if NewLease(sv.leases, op, lenient).Some? {
      NewLeaseIsNormal(sv.leases, op, lenient);
      SetCompiles(sv, NewLease(sv.leases, op, lenient).value, lenient);
    }
  }

  lemma AskedDns(op: Op, lenient: string -> Option<int>)
    requires op.SetLease? && Asked(op, lenient).Some?
    ensures Asked(op, lenient).value.dns == "" <==> op.dns == ""
  {
    if op.dns != "" {
      Ipv4NormalForm(Strip(op.dns));
    }
  }

  lemma NewLeaseWhen(ls: seq<Lease>, op: Op, lenient: string -> Option<int>)
    requires op.SetLease? && Asked(op, lenient).Some?
    ensures var asked := Asked(op, lenient).value;
            var layout := LayoutFor(ls, asked.mac, lenient);
            && (NewLease(ls, op, lenient).Some? <==> !(layout == Legacy && asked.dns != ""))
            && (NewLease(ls, op, lenient).Some? ==> NewLease(ls, op, lenient).value == asked.(layout := layout))
  {
    var asked := Asked(op, lenient).value;
    NormalizeIdempotent(Lease(op.mac, op.ip, op.dns, op.hostname, Modern), lenient);
  }

  lemma SetCompiles(sv: Saved, lease: Lease, lenient: string -> Option<int>)
    requires AllParsed(sv.leases, lenient) && Normal(lease, lenient)
    ensures var request := Compiled(Without(sv.leases, lease.mac, lenient) + [lease], Some(true), lenient);
            && (request.Some? <==>
                && OthersDiffer(sv.leases, lease.mac)
                && forall i | 0 <= i < |sv.leases| && sv.leases[i].mac != lease.mac :: sv.leases[i].ip != lease.ip)
            && (request.Some? ==> request.value.enabled)
  {
    var kept := Without(sv.leases, lease.mac, lenient);
    WithoutParsed(sv.leases, lease.mac, lenient);
    CompiledWhen(kept + [lease], true, lenient);
    UniqueAppend(kept, lease);
    ParsedMacs(sv.leases, lenient);
    WithoutIsOthers(sv.leases, lease.mac, lenient);
    OthersUnique(sv.leases, lease.mac);
    OthersKept(sv.leases, lease);
  }

  lemma OthersKept(ls: seq<Lease>, lease: Lease)
    ensures (forall m | m in Others(ls, lease.mac) :: Differ(m, lease)) <==>
            forall i | 0 <= i < |ls| && ls[i].mac != lease.mac :: ls[i].ip != lease.ip
  {
    var kept := Others(ls, lease.mac);
    forall m ensures m in kept <==> m in ls && m.mac != lease.mac {
      OthersMembers(ls, lease.mac, m);
    }
    if forall m | m in kept :: Differ(m, lease) {
      forall i | 0 <= i < |ls| && ls[i].mac != lease.mac ensures ls[i].ip != lease.ip {
        assert ls[i] in kept;
      }
    }
  }

  /** The lease stored, field by field: MAC and addresses in normal form, the host name as asked for; only where the
      table calls for a legacy row can it be one, and is one just with a host name that is no address. */
  lemma SetStores(sv: Saved, op: Op, lenient: string -> Option<int>)
    requires op.SetLease? && AllParsed(sv.leases, lenient) && Effect(sv, op, lenient).Some?
    ensures var after := Applied(sv, op, lenient).leases;
            && after != []
            && var l := after[|after| - 1];
               var legacy := CallsForLegacy(sv.leases, l.mac);
               && Some(l.mac) == NormalizeMac(op.mac, lenient) && Some(l.ip) == NormalizeIpv4(op.ip)
               && (l.layout == Legacy <==> legacy && op.hostname != "" && NormalizeIpv4(op.hostname).None?)
               && (!(legacy && NormalizeIpv4(op.hostname).Some?) ==>
                     l.hostname == op.hostname && if op.dns == "" then l.dns == "" else Some(l.dns) == NormalizeIpv4(op.dns))
               && (legacy && NormalizeIpv4(op.hostname).Some? ==> l.hostname == "" && Some(l.dns) == NormalizeIpv4(op.hostname))
  {
    var asked := Asked(op, lenient).value;
    NormalizeIff(Lease(op.mac, op.ip, op.dns, op.hostname, Modern), lenient);
    NewLeaseWhen(sv.leases, op, lenient);
    ParsedMacs(sv.leases, lenient);
    LayoutCalled(sv.leases, asked.mac, lenient);
    AskedDns(op, lenient);
    EmptyNoAddress();
  }

  // ---- the protocol -------------------------------------------------------------------------

  /** Where an update stands between its suspension points. */
  datatype Phase =
    | Queued(op: Op)
    | Reading(op: Op)
    | Answered(op: Op, content: string, enabled: bool)
    | Sending(op: Op, request: Request)
    | Stored(op: Op)

  datatype System = System(text: string, enabled: bool, lock: Option<nat>, tasks: map<nat, Phase>, log: seq<Op>)

  datatype Event =
    | Call(task: nat, op: Op)
    | Acquire(task: nat)
    | Answer(task: nat, encoded: bool)
    | Deliver(task: nat)
    | Store(task: nat)
    | Acknowledge(task: nat)
    | Abandon(task: nat)

  function Leave(s: System, task: nat): System {
    s.(tasks := s.tasks - {task}, lock := if s.lock == Some(task) then None else s.lock)
  }

  /** One step of one task or of the router; None where the event cannot happen. A call may end without a
      reply at any point, also after the router took its write. */
  function Next(s: System, e: Event, lenient: string -> Option<int>): Option<System> {
    if e.Call? then
      if e.task in s.tasks then None else Some(s.(tasks := s.tasks[e.task := Queued(e.op)]))
    else if e.task !in s.tasks then None
    else
      var phase := s.tasks[e.task];
      match e
      case Acquire(t) =>
        if phase.Queued? && s.lock == None then Some(s.(lock := Some(t), tasks := s.tasks[t := Reading(phase.op)])) else None
      case Answer(t, encoded) =>
        if !phase.Reading? then None
        else Some(s.(tasks := s.tasks[t := Answered(phase.op, if encoded then EntityEncode(s.text) else s.text, s.enabled)]))
      case Deliver(t) =>
        if !phase.Answered? then None
        else (match Parse(phase.content, lenient)
          case None => Some(Leave(s, t))
          case Some(leases) =>
            match Effect(Saved(leases, phase.enabled), phase.op, lenient)
            case None => Some(Leave(s, t))
            case Some(request) => Some(s.(tasks := s.tasks[t := Sending(phase.op, request)])))
      case Store(t) =>
        if !phase.Sending? then None
        else Some(s.(text := phase.request.list, enabled := phase.request.enabled,
                     tasks := s.tasks[t := Stored(phase.op)], log := s.log + [phase.op]))
      case Acknowledge(t) => if phase.Stored? then Some(Leave(s, t)) else None
      case Abandon(t) => Some(Leave(s, t))
  }

  function Run(s: System, events: seq<Event>, lenient: string -> Option<int>): Option<System>
    decreases |events|
  {
    if events == [] then Some(s)
    else match Next(s, events[0], lenient)
      case None => None
      case Some(s') => Run(s', events[1..], lenient)
  }

  ghost predicate Initial(s: System, sv: Saved, lenient: string -> Option<int>) {
    s.lock == None && s.tasks == map[] && s.log == [] && s.enabled == sv.enabled && Holds(s.text, sv, lenient)
  }

  /** The updates one after the other, in the order the router stored them. */
  function Replay(start: Saved, log: seq<Op>, lenient: string -> Option<int>): Option<Saved>
    decreases |log|
  {
    if log == [] then Some(start)
    else match Replay(start, log[..|log| - 1], lenient)
      case None => None
      case Some(sv) =>
        if Effect(sv, log[|log| - 1], lenient).Some? then Some(Applied(sv, log[|log| - 1], lenient)) else None
  }

  ghost predicate PhaseOk(s: System, task: nat, sv: Saved, lenient: string -> Option<int>)
    requires task in s.tasks
  {
    var phase := s.tasks[task];
    && (!phase.Queued? ==> s.lock == Some(task))
    && (phase.Answered? ==> phase.enabled == sv.enabled && Parse(phase.content, lenient) == Some(sv.leases))
    && (phase.Sending? ==> Effect(sv, phase.op, lenient) == Some(phase.request))
  }

  ghost predicate Invariant(s: System, start: Saved, lenient: string -> Option<int>) {
    match Replay(start, s.log, lenient)
    case None => false
    case Some(sv) =>
      && Holds(s.text, sv, lenient) && s.enabled == sv.enabled
      && forall t | t in s.tasks :: PhaseOk(s, t, sv, lenient)
  }

  lemma StoreKeepsInvariant(s: System, t: nat, start: Saved, lenient: string -> Option<int>)
    requires Invariant(s, start, lenient) && Next(s, Store(t), lenient).Some?
    ensures Invariant(Next(s, Store(t), lenient).value, start, lenient)
  {
    var s' := Next(s, Store(t), lenient).value;
    var sv := Replay(start, s.log, lenient).value;
    var op := s.tasks[t].op;
    assert PhaseOk(s, t, sv, lenient);
    assert s'.log[..|s'.log| - 1] == s.log;
    EffectThenRead(sv, op, lenient);
    forall u | u in s'.tasks ensures PhaseOk(s', u, Applied(sv, op, lenient), lenient) {
      if u != t {
        assert PhaseOk(s, u, sv, lenient);
      }
    }
  }

  lemma DeliverKeepsInvariant(s: System, t: nat, start: Saved, lenient: string -> Option<int>)
    requires Invariant(s, start, lenient) && Next(s, Deliver(t), lenient).Some?
    ensures Invariant(Next(s, Deliver(t), lenient).value, start, lenient)
  {
    var s' := Next(s, Deliver(t), lenient).value;
    var sv := Replay(start, s.log, lenient).value;
    assert PhaseOk(s, t, sv, lenient);
    assert Saved(sv.leases, s.tasks[t].enabled) == sv;
    forall u | u in s'.tasks ensures PhaseOk(s', u, sv, lenient) {
      assert PhaseOk(s, u, sv, lenient);
    }
  }

  lemma StepKeepsInvariant(s: System, e: Event, start: Saved, lenient: string -> Option<int>)
    requires Invariant(s, start, lenient) && Next(s, e, lenient).Some?
    ensures Invariant(Next(s, e, lenient).value, start, lenient)
  {
    if e.Store? {
      StoreKeepsInvariant(s, e.task, start, lenient);
    } else if e.Deliver? {
      DeliverKeepsInvariant(s, e.task, start, lenient);
    } else {
      QuietKeepsInvariant(s, e, start, lenient);
    }
  }

  lemma QuietKeepsInvariant(s: System, e: Event, start: Saved, lenient: string -> Option<int>)
    requires Invariant(s, start, lenient) && !e.Store? && !e.Deliver? && Next(s, e, lenient).Some?
    ensures Invariant(Next(s, e, lenient).value, start, lenient)
  {
    var s' := Next(s, e, lenient).value;
    var sv := Replay(start, s.log, lenient).value;
    assert e.Call? || PhaseOk(s, e.task, sv, lenient);
    forall t | t in s'.tasks ensures PhaseOk(s', t, sv, lenient) {
      if t in s.tasks {
        assert PhaseOk(s, t, sv, lenient);
      }
    }
  }

  lemma {:induction false} RunKeepsInvariant(s: System, events: seq<Event>, start: Saved, lenient: string -> Option<int>)
    requires Invariant(s, start, lenient) && Run(s, events, lenient).Some?
    ensures Invariant(Run(s, events, lenient).value, start, lenient)
    decreases |events|
  {
    if events != [] {
      StepKeepsInvariant(s, events[0], start, lenient);
      RunKeepsInvariant(Next(s, events[0], lenient).value, events[1..], start, lenient);
    }
  }

  /** No lost update: after any run, whatever was interleaved, refused, abandoned or encoded, the
      stored text reads as the initial list with exactly the stored updates applied in order. */
  lemma NoLostUpdate(s: System, events: seq<Event>, start: Saved, lenient: string -> Option<int>)
    requires Initial(s, start, lenient)
    requires Run(s, events, lenient).Some?
    ensures var s' := Run(s, events, lenient).value;
            var final := Replay(start, s'.log, lenient);
            final.Some? && Holds(s'.text, final.value, lenient) && s'.enabled == final.value.enabled
  {
    RunKeepsInvariant(s, events, start, lenient);
  }

  lemma StepRuns(s: System, e: Event, rest: seq<Event>, s': System, lenient: string -> Option<int>)
    requires Next(s, e, lenient) == Some(s')
    ensures Run(s, [e] + rest, lenient) == Run(s', rest, lenient)
  {
    assert ([e] + rest)[1..] == rest;
  }

  /** A call that ends without a reply, at whatever step: it is gone with its lock, and what is stored stays stored. */
  lemma AbandonFrees(s: System, task: nat, lenient: string -> Option<int>)
    requires task in s.tasks
    ensures Next(s, Abandon(task), lenient) ==
            Some(s.(tasks := s.tasks - {task}, lock := if s.lock == Some(task) then None else s.lock))
  {
  }

  /** An update that has read the list, whether the answer was encoded or not. */
  function HasRead(s: System, task: nat, op: Op, encoded: bool): System {
    s.(lock := Some(task),
       tasks := s.tasks[task := Answered(op, if encoded then EntityEncode(s.text) else s.text, s.enabled)])
  }

  lemma UpdateReads(s: System, task: nat, op: Op, encoded: bool, rest: seq<Event>, lenient: string -> Option<int>)
    requires s.lock == None && task !in s.tasks
    ensures Run(s, [Call(task, op)] + ([Acquire(task)] + ([Answer(task, encoded)] + rest)), lenient)
            == Run(HasRead(s, task, op, encoded), rest, lenient)
  {
    var queued := s.(tasks := s.tasks[task := Queued(op)]);
    var reading := s.(lock := Some(task), tasks := s.tasks[task := Reading(op)]);
    assert queued.tasks[task := Reading(op)] == reading.tasks;
    assert reading.tasks[task := Answered(op, if encoded then EntityEncode(s.text) else s.text, s.enabled)]
        == HasRead(s, task, op, encoded).tasks;
    StepRuns(s, Call(task, op), [Acquire(task)] + ([Answer(task, encoded)] + rest), queued, lenient);
    StepRuns(queued, Acquire(task), [Answer(task, encoded)] + rest, reading, lenient);
    StepRuns(reading, Answer(task, encoded), rest, HasRead(s, task, op, encoded), lenient);
  }

  /** An update that nothing goes wrong with goes through: while the lock is free, one that has something to write
      leaves its request on the router, one that has not leaves everything as it was, and either frees the lock. */
  lemma UpdateGoesThrough(s: System, sv: Saved, task: nat, op: Op, encoded: bool, lenient: string -> Option<int>)
    requires s.lock == None && task !in s.tasks && Holds(s.text, sv, lenient) && s.enabled == sv.enabled
    ensures var effect := Effect(sv, op, lenient);
            var rest := [Deliver(task)] + if effect.Some? then [Store(task)] + ([Acknowledge(task)] + []) else [];
            Run(s, [Call(task, op)] + ([Acquire(task)] + ([Answer(task, encoded)] + rest)), lenient) ==
            Some(if effect.None? then s
                 else s.(text := effect.value.list, enabled := effect.value.enabled, log := s.log + [op]))
  {
    var effect := Effect(sv, op, lenient);
    var more := if effect.Some? then [Store(task)] + ([Acknowledge(task)] + []) else [];
    var read := HasRead(s, task, op, encoded);
    UpdateReads(s, task, op, encoded, [Deliver(task)] + more, lenient);
    assert Saved(sv.leases, s.enabled) == sv;
    if effect.None? {
      assert Leave(read, task).tasks == s.tasks;
      StepRuns(read, Deliver(task), [], s, lenient);
    } else {
      UpdateStores(s, read, task, op, effect.value, lenient);
    }
  }

  lemma StoreNext(s: System, task: nat, op: Op, request: Request, lenient: string -> Option<int>)
    requires task in s.tasks && s.tasks[task] == Sending(op, request)
    ensures Next(s, Store(task), lenient) ==
            Some(s.(text := request.list, enabled := request.enabled, tasks := s.tasks[task := Stored(op)], log := s.log + [op]))
  {
  }

  lemma AcknowledgeNext(s: System, task: nat, op: Op, lenient: string -> Option<int>)
    requires task in s.tasks && s.tasks[task] == Stored(op) && s.lock == Some(task)
    ensures Next(s, Acknowledge(task), lenient) == Some(s.(lock := None, tasks := s.tasks - {task}))
  {
  }

  lemma UpdateStores(s: System, read: System, task: nat, op: Op, request: Request, lenient: string -> Option<int>)
    requires s.lock == None && task !in s.tasks && read.lock == Some(task) && task in read.tasks
    requires Next(read, Deliver(task), lenient) == Some(read.(tasks := read.tasks[task := Sending(op, request)]))
    requires read == s.(lock := Some(task), tasks := read.tasks) && read.tasks == s.tasks[task := read.tasks[task]]
    ensures Run(read, [Deliver(task)] + ([Store(task)] + ([Acknowledge(task)] + [])), lenient) ==
            Some(s.(text := request.list, enabled := request.enabled, log := s.log + [op]))
  {
    var sending := read.(tasks := read.tasks[task := Sending(op, request)]);
    var stored := sending.(text := request.list, enabled := request.enabled, tasks := sending.tasks[task := Stored(op)],
                           log := s.log + [op]);
    var done := stored.(lock := None, tasks := stored.tasks - {task});
    assert done.tasks == s.tasks;
    StepRuns(read, Deliver(task), [Store(task)] + ([Acknowledge(task)] + []), sending, lenient);
    StoreNext(sending, task, op, request, lenient);
    StepRuns(sending, Store(task), [Acknowledge(task)] + [], stored, lenient);
    AcknowledgeNext(stored, task, op, lenient);
    StepRuns(stored, Acknowledge(task), [], done, lenient);
  }
}
