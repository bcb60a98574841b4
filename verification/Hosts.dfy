// The host table: addresses by host name, without duplicates, and the lookup that splits them by version.

module Hosts {
  import opened Common
  import opened Suffixes

  // An address as the library has it: four bytes, sixteen bytes, or anything else when it is not valid.
  type IP = seq<int>

  datatype Mapping = Mapping(hostname: string, ip: IP)

  const PREFIX: seq<int> := [0, 0, 0, 0, 0, 0, 0, 0, 0, 0, 0xff, 0xff]

  // The four-byte form of an address that has one.
  function To4(ip: IP): Option<IP> {
    if |ip| == 4 then Some(ip)
    else if |ip| == 16 && ip[..12] == PREFIX then Some(ip[12..])
    else None
  }

  // An address in four bytes equals the same address mapped into sixteen.
  predicate Equal(a: IP, b: IP) {
    if |a| == |b| then a == b
    else if |a| == 4 && |b| == 16 then b[..12] == PREFIX && a == b[12..]
    else if |a| == 16 && |b| == 4 then a[..12] == PREFIX && b == a[12..]
    else false
  }

  function Canonical(ip: IP): IP {
    if To4(ip).Some? then To4(ip).value else ip
  }

  // Two addresses are equal exactly when they have the same canonical form, so equality is an equivalence.
  lemma EqualIsCanonical(a: IP, b: IP)
    ensures Equal(a, b) <==> Canonical(a) == Canonical(b)
  {
    if |a| == 16 && |b| == 16 && To4(a).Some? && To4(b).Some? {
      assert a == a[..12] + a[12..] && b == b[..12] + b[12..];
    }
  }

  // An address has a four-byte form when it is four bytes, or those mapped into sixteen; both are the same address.
  lemma {:induction false} FourForms(ip: IP, four: IP)
    requires |four| == 4
    ensures To4(ip) == Some(four) <==> ip == four || ip == [0, 0, 0, 0, 0, 0, 0, 0, 0, 0, 0xff, 0xff] + four
    ensures Equal(four, [0, 0, 0, 0, 0, 0, 0, 0, 0, 0, 0xff, 0xff] + four)
  {
    if |ip| == 16 {
      assert ip == ip[..12] + ip[12..];
    }
    var mapped := PREFIX + four;
    assert mapped[..12] == PREFIX && mapped[12..] == four;
  }

  predicate Holds(ips: seq<IP>, ip: IP) {
    exists i :: 0 <= i < |ips| && Equal(ip, ips[i])
  }

  // The first of every group of equal addresses, in order.
  function Dedup(ips: seq<IP>): seq<IP> {
    if ips == [] then []
    else
      var past, ip := Dedup(ips[..|ips| - 1]), ips[|ips| - 1];
      if Holds(past, ip) then past else past + [ip]
  }

  lemma HoldsCanonical(ips: seq<IP>, ip: IP)
    ensures Holds(ips, ip) <==> exists x :: x in ips && Canonical(x) == Canonical(ip)
  {
    if Holds(ips, ip) {
      var i :| 0 <= i < |ips| && Equal(ip, ips[i]);
      EqualIsCanonical(ip, ips[i]);
      assert ips[i] in ips;
    }
    if x :| x in ips && Canonical(x) == Canonical(ip) {
      var i :| 0 <= i < |ips| && ips[i] == x;
      EqualIsCanonical(ip, ips[i]);
    }
  }

  predicate Apart(ips: seq<IP>) {
    forall i, j :: 0 <= i < j < |ips| ==> Canonical(ips[i]) != Canonical(ips[j])
  }

  ghost predicate Represents(kept: seq<IP>, ips: seq<IP>) {
    && (forall x :: x in kept ==> x in ips)
    && (forall x :: x in ips ==> exists y :: y in kept && Canonical(y) == Canonical(x))
  }

  // No two addresses that are kept are equal, and every address equals one that is kept.
  lemma {:induction false} DedupKeepsOne(ips: seq<IP>)
    ensures Apart(Dedup(ips)) && Represents(Dedup(ips), ips)
  {
    hide Canonical, Holds, Apart, Represents;
    if ips == [] {
      NoneKept();
    } else {
      var k := |ips| - 1;
      DedupKeepsOne(ips[..k]);
      OneMore(Dedup(ips[..k]), ips[..k], ips[k]);
      assert ips == ips[..k] + [ips[k]];
    }
  }

  lemma NoneKept()
    ensures Apart([]) && Represents([], [])
  {
  }

  lemma OneMore(kept: seq<IP>, ips: seq<IP>, ip: IP)
    requires Apart(kept) && Represents(kept, ips)
    ensures var next := if Holds(kept, ip) then kept else kept + [ip];
      Apart(next) && Represents(next, ips + [ip])
  {
    hide Canonical, Holds;
    HoldsCanonical(kept, ip);
    var next := if Holds(kept, ip) then kept else kept + [ip];
    forall x | x in ips + [ip] ensures exists y :: y in next && Canonical(y) == Canonical(x) {
      if x in ips {
        var y :| y in kept && Canonical(y) == Canonical(x);
        assert y in next;
      } else if !Holds(kept, ip) {
        assert ip in next;
      }
    }
  }

  // What is kept for a prefix stays kept, in place: the order is that of first occurrence.
  lemma {:induction false} DedupGrows(ips: seq<IP>, more: seq<IP>)
    ensures Dedup(ips) <= Dedup(ips + more)
  {
    if more == [] {
      assert ips + more == ips;
    } else {
      var k := |more| - 1;
      assert (ips + more)[..|ips + more| - 1] == ips + more[..k];
      DedupGrows(ips, more[..k]);
    }
  }

  // All addresses of a name in the list, as they are written.
  function Written(list: seq<Mapping>, name: string): seq<IP> {
    if list == [] then []
    else
      Written(list[..|list| - 1], name)
      + if list[|list| - 1].hostname == name then [list[|list| - 1].ip] else []
  }

  lemma {:induction false} WrittenInOrder(a: seq<Mapping>, b: seq<Mapping>, name: string)
    ensures Written(a + b, name) == Written(a, name) + Written(b, name)
    decreases |b|
  {
    hide Written;
    if b == [] {
      assert a + b == a;
      NoneWritten(name);
    } else {
      var k := |b| - 1;
      WrittenInOrder(a, b[..k], name);
      WrittenNext(a + b[..k], b[k], name);
      WrittenNext(b[..k], b[k], name);
      assert a + b[..k] + [b[k]] == a + b && b[..k] + [b[k]] == b;
    }
  }

  lemma {:induction false} WrittenNext(list: seq<Mapping>, m: Mapping, name: string)
    ensures Written(list + [m], name) == Written(list, name) + if m.hostname == name then [m.ip] else []
  {
    assert (list + [m])[..|list|] == list;
  }

  lemma NoneWritten(name: string)
    ensures Written([], name) == []
  {
  }

  // Every mapping of the name gives its address, in its place among the others.
  lemma {:induction false} WrittenInPlace(a: seq<Mapping>, m: Mapping, b: seq<Mapping>, name: string)
    ensures Written(a + [m] + b, name)
            == Written(a, name) + (if m.hostname == name then [m.ip] else []) + Written(b, name)
  {
    hide Written;
    WrittenInOrder(a + [m], b, name);
    WrittenNext(a, m, name);
  }

  // By looking at the whole list: the addresses of a name, if it has any.
  function Scan(list: seq<Mapping>, name: string): Option<seq<IP>> {
    if Written(list, name) == [] then None else Some(Dedup(Written(list, name)))
  }

  function Scanner(list: seq<Mapping>): string -> Option<seq<IP>> {
    k => Scan(list, k)
  }

  function Best(list: seq<Mapping>, host: string): Option<seq<IP>> {
    Seek(Keys(host), Scanner(list))
  }

  // The four-byte forms, and the addresses that have none.
  function Fours(ips: seq<IP>): seq<IP> {
    if ips == [] then []
    else
      var past, ip := Fours(ips[..|ips| - 1]), ips[|ips| - 1];
      if To4(ip).Some? then past + [To4(ip).value] else past
  }

  function Others(ips: seq<IP>): seq<IP> {
    if ips == [] then []
    else
      var past, ip := Others(ips[..|ips| - 1]), ips[|ips| - 1];
      if To4(ip).None? then past + [ip] else past
  }

  // Every address is listed for exactly one of the two versions.
  lemma {:induction false} VersionsSplit(ips: seq<IP>)
    ensures |Fours(ips)| + |Others(ips)| == |ips|
    ensures forall x :: x in ips ==> if To4(x).Some? then To4(x).value in Fours(ips) else x in Others(ips)
    ensures forall x :: x in Others(ips) ==> x in ips && To4(x).None?
    ensures forall x :: x in Fours(ips) ==> |x| == 4 && exists y :: y in ips && To4(y) == Some(x)
  {
    hide To4;
    if ips != [] {
      var k := |ips| - 1;
      VersionsSplit(ips[..k]);
      assert ips == ips[..k] + [ips[k]];
      FourBytes(ips[k]);
    }
  }

  lemma FourBytes(ip: IP)
    ensures To4(ip).Some? ==> |To4(ip).value| == 4
  {
  }

  lemma {:induction false} VersionsInOrder(a: seq<IP>, b: seq<IP>)
    ensures Fours(a + b) == Fours(a) + Fours(b) && Others(a + b) == Others(a) + Others(b)
    decreases |b|
  {
    hide Fours, Others, To4;
    NoAddresses();
    if b == [] {
      assert a + b == a;
    } else {
      var k := |b| - 1;
      VersionsInOrder(a, b[..k]);
      VersionsNext(a + b[..k], b[k]);
      VersionsNext(b[..k], b[k]);
      assert a + b[..k] + [b[k]] == a + b && b[..k] + [b[k]] == b;
    }
  }

  lemma {:induction false} VersionsNext(ips: seq<IP>, ip: IP)
    ensures Fours(ips + [ip]) == Fours(ips) + if To4(ip).Some? then [To4(ip).value] else []
    ensures Others(ips + [ip]) == Others(ips) + if To4(ip).Some? then [] else [ip]
  {
    hide To4;
    assert (ips + [ip])[..|ips|] == ips;
  }

  // Every address is listed for its version in its place among the others, in four bytes if it has such a form.
  lemma {:induction false} VersionsInPlace(a: seq<IP>, ip: IP, b: seq<IP>)
    ensures Fours(a + [ip] + b) == Fours(a) + (if To4(ip).Some? then [To4(ip).value] else []) + Fours(b)
    ensures Others(a + [ip] + b) == Others(a) + (if To4(ip).Some? then [] else [ip]) + Others(b)
  {
    hide Fours, Others, To4;
    VersionsInOrder(a + [ip], b);
    VersionsNext(a, ip);
  }

  // Distinct addresses stay distinct when they are split.
  lemma {:induction false} FoursDistinct(ips: seq<IP>)
    requires Apart(ips)
    ensures forall i, j :: 0 <= i < j < |Fours(ips)| ==> Fours(ips)[i] != Fours(ips)[j]
  {
    if ips != [] {
      var k := |ips| - 1;
      FoursDistinct(ips[..k]);
      VersionsSplit(ips[..k]);
      if To4(ips[k]).Some? {
        forall x | x in Fours(ips[..k]) ensures x != To4(ips[k]).value {
          var y :| y in ips[..k] && To4(y) == Some(x);
          var i :| 0 <= i < k && ips[i] == y;
          assert Canonical(ips[i]) != Canonical(ips[k]);
        }
      }
    }
  }

  class HostMapper {
    var mappings: map<string, seq<IP>>
    // The mappings the index was built from.
    ghost var list: seq<Mapping>

    constructor ()
      ensures Valid() && list == []
    {
      mappings, list := map[], [];
    }

    ghost predicate Valid()
      reads this
    {
      Indexes(mappings, list)
    }

    static ghost predicate Indexes(table: map<string, seq<IP>>, list: seq<Mapping>) {
      forall k :: (if k in table then Some(table[k]) else None) == Scan(list, k)
    }

    static lemma Enters(table: map<string, seq<IP>>, list: seq<Mapping>, m: Mapping, k: string)
      requires Indexes(table, list)
      ensures var ips := if m.hostname in table then table[m.hostname] else [];
        Scan(list + [m], k)
        == if k == m.hostname then Some(if Holds(ips, m.ip) then ips else ips + [m.ip]) else Scan(list, k)
    {
      hide Holds;
      var w := Written(list, k);
      assert (list + [m])[..|list|] == list;
      assert w + [] == w && (w + [m.ip])[..|w|] == w;
      assert Scan(list, k) == if k in table then Some(table[k]) else None;
      assert k == m.hostname ==> Dedup(w) == if k in table then table[k] else [];
    }

    // Mappings of the options first, loaded ones after them.
    method Reload(options: seq<Mapping>, loaded: seq<Mapping>)
      modifies this
      ensures Valid() && list == options + loaded
    {
      hide Scan, Holds;
      var all := options + loaded;
      var table: map<string, seq<IP>> := map[];
      EmptyIndex();
      var i := 0;
      while i < |all|
        invariant 0 <= i <= |all| && Indexes(table, all[..i])
      {
        var m := all[i];
        assert all[..i + 1] == all[..i] + [m];
        forall k ensures Scan(all[..i + 1], k)
          == (var ips := if m.hostname in table then table[m.hostname] else [];
              if k == m.hostname then Some(if Holds(ips, m.ip) then ips else ips + [m.ip]) else Scan(all[..i], k)) {
          Enters(table, all[..i], m, k);
        }
        var ips := if m.hostname in table then table[m.hostname] else [];
        var found := FindEqual(ips, m.ip);
        if !found {
          ips := ips + [m.ip];
        }
        table := table[m.hostname := ips];
        i := i + 1;
      }
      assert all[..i] == all;
      mappings, list := table, all;
    }

    static lemma EmptyIndex()
      ensures Indexes(map[], [])
    {
    }

    static method FindEqual(ips: seq<IP>, ip: IP) returns (found: bool)
      ensures found <==> Holds(ips, ip)
    {
      var i := 0;
      while i < |ips|
        invariant 0 <= i <= |ips| && forall j :: 0 <= j < i ==> !Equal(ip, ips[j])
      {
        if Equal(ip, ips[i]) {
          return true;
        }
        i := i + 1;
      }
      return false;
    }

    method Find(key: string) returns (r: Option<seq<IP>>)
      ensures r == if key in mappings then Some(mappings[key]) else None
    {
      r := if key in mappings then Some(mappings[key]) else None;
    }

    method Split(network: string, ips: seq<IP>) returns (r: seq<IP>)
      ensures r == if network == "ip4" then Fours(ips) else if network == "ip6" then Others(ips) else ips
    {
      if network != "ip4" && network != "ip6" {
        return ips;
      }
      r := [];
      var i := 0;
      while i < |ips|
        invariant 0 <= i <= |ips| && r == if network == "ip4" then Fours(ips[..i]) else Others(ips[..i])
      {
        assert ips[..i + 1][..i] == ips[..i];
        if network == "ip4" {
          if To4(ips[i]).Some? {
            r := r + [To4(ips[i]).value];
          }
        } else if To4(ips[i]).None? {
          r := r + [ips[i]];
        }
        i := i + 1;
      }
      assert ips[..i] == ips;
    }

    // The addresses of the most specific key. The second result is never set, so it is false even for a host
    // that was found.
    method Lookup(network: string, host: string) returns (ips: seq<IP>, ok: bool)
      requires Valid()
      ensures !ok
      ensures var all := if Best(list, host).Some? then Best(list, host).value else [];
        ips == if network == "ip4" then Fours(all) else if network == "ip6" then Others(all) else all
    {
      hide Seek, Parents, Keys, FirstDot, Scan, Fours, Others;
      ok := false;
      SeekKeys(host, Scanner(list));
      var r := Find(host);
      if r.None? {
        r := Find("." + host);
      }
      if r.None? {
        var s := host;
        while true
          invariant r.None? && Best(list, host) == Seek(Parents(s), Scanner(list))
          decreases |s|
        {
          SeekParents(s, Scanner(list));
          var i := FirstDot(s);
          if 0 < i < |s| {
            r := Find(s[i..]);
            s := s[i + 1..];
            if r.None? {
              continue;
            }
          }
          break;
        }
      }
      NoAddresses();
      if r.None? {
        return [], ok;
      }
      ips := Split(network, r.value);
    }
  }

  lemma NoAddresses()
    ensures Fours([]) == [] && Others([]) == []
  {
  }
}
