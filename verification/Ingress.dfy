// The ingress table: an index of rules by host, and the walk that finds the rule of a host.

module Ingresses {
  import opened Common
  import opened Suffixes

  datatype Rule = Rule(hostname: string, endpoint: string)

  predicate Usable(r: Rule) {
    r.hostname != "" && r.endpoint != ""
  }

  // A leading star is dropped: "*.example.org" is found under ".example.org".
  function KeyOf(r: Rule): string
    requires Usable(r)
  {
    if r.hostname[0] == '*' then r.hostname[1..] else r.hostname
  }

  predicate HasKey(r: Rule, key: string) {
    Usable(r) && KeyOf(r) == key
  }

  // The last usable rule with a key, by looking at the whole list.
  function Scan(rules: seq<Rule>, key: string): (r: Option<Rule>)
    ensures r.Some? ==> r.value in rules && HasKey(r.value, key)
    ensures r.None? ==> forall x :: x in rules ==> !HasKey(x, key)
  {
    if rules == [] then None
    else
      var last := rules[|rules| - 1];
      if HasKey(last, key) then Some(last)
      else Scan(rules[..|rules| - 1], key)
  }

  ghost predicate LastAt(rules: seq<Rule>, key: string, i: nat) {
    i < |rules| && HasKey(rules[i], key) && forall j :: i < j < |rules| ==> !HasKey(rules[j], key)
  }

  lemma LastAtPrefix(rules: seq<Rule>, key: string, i: nat)
    requires rules != [] && !HasKey(rules[|rules| - 1], key)
    ensures LastAt(rules, key, i) <==> i < |rules| - 1 && LastAt(rules[..|rules| - 1], key, i)
  {
    hide HasKey;
  }

  lemma LastAtEnd(rules: seq<Rule>, key: string, i: nat)
    requires rules != [] && HasKey(rules[|rules| - 1], key)
    ensures LastAt(rules, key, i) <==> i == |rules| - 1
  {
    hide HasKey;
  }

  // The scan finds the rule after which no usable rule has the key.
  lemma {:induction false} ScanIsLast(rules: seq<Rule>, key: string, i: nat)
    ensures LastAt(rules, key, i) ==> Scan(rules, key) == Some(rules[i])
  {
    hide LastAt;
    if rules == [] {
      NoLast(key, i);
    } else if HasKey(rules[|rules| - 1], key) {
      LastAtEnd(rules, key, i);
    } else {
      LastAtPrefix(rules, key, i);
      ScanIsLast(rules[..|rules| - 1], key, i);
    }
  }

  lemma NoLast(key: string, i: nat)
    ensures !LastAt([], key, i)
  {
  }

  // A rule added later is found under its host name, without a leading star, whatever was there; no other key changes.
  // Without a host name or an endpoint it is not found at all.
  lemma {:induction false} LaterRuleReplaces(rules: seq<Rule>, host: string, endpoint: string, k: string)
    ensures var plain, starred := Rule(host, endpoint), Rule("*" + host, endpoint);
      && (endpoint != "" ==> Scan(rules + [starred], k) == if k == host then Some(starred) else Scan(rules, k))
      && (endpoint != "" && host != "" && host[0] != '*' ==>
            Scan(rules + [plain], k) == if k == host then Some(plain) else Scan(rules, k))
      && (endpoint == "" || host == "" ==> Scan(rules + [plain], k) == Scan(rules, k))
      && (endpoint == "" ==> Scan(rules + [starred], k) == Scan(rules, k))
  {
    var plain, starred := Rule(host, endpoint), Rule("*" + host, endpoint);
    assert starred.hostname[1..] == host;
    assert (rules + [starred])[..|rules|] == rules && (rules + [plain])[..|rules|] == rules;
  }

  function Scanner(rules: seq<Rule>): string -> Option<Rule> {
    k => Scan(rules, k)
  }

  // The rule of a host whose port was stripped.
  function Best(rules: seq<Rule>, host: string): Option<Rule> {
    Seek(Keys(host), Scanner(rules))
  }

  class Ingress {
    var rules: map<string, Rule>
    // The library function that splits a port off; the result is empty when there is none.
    const split: string -> string

    // The rules the index was built from.
    ghost var list: seq<Rule>

    constructor (split: string -> string)
      ensures Valid() && list == [] && this.split == split
    {
      rules, this.split, list := map[], split, [];
    }

    ghost predicate Valid()
      reads this
    {
      forall k :: (if k in rules then Some(rules[k]) else None) == Scan(list, k)
    }

    // Rules of the options first, loaded ones after them; a later rule replaces an earlier one.
    method Reload(options: seq<Rule>, loaded: seq<Rule>)
      modifies this
      ensures Valid() && list == options + loaded
    {
      var all := options + loaded;
      var table: map<string, Rule> := map[];
      var i := 0;
      while i < |all|
        invariant 0 <= i <= |all|
        invariant forall k :: (if k in table then Some(table[k]) else None) == Scan(all[..i], k)
      {
        assert all[..i + 1][..i] == all[..i];
        var r := all[i];
        if r.hostname != "" && r.endpoint != "" {
          var host := if r.hostname[0] == '*' then r.hostname[1..] else r.hostname;
          table := table[host := r];
        }
        i := i + 1;
      }
      assert all[..i] == all;
      rules, list := table, all;
    }

    method Find(key: string) returns (r: Option<Rule>)
      ensures r == if key in rules then Some(rules[key]) else None
    {
      r := if key in rules then Some(rules[key]) else None;
    }

    // The walk finds what scanning the list for the most specific key finds.
    method GetRule(host: string) returns (r: Option<Rule>)
      requires Valid()
      ensures r == if host == "" then None else Best(list, if split(host) != "" then split(host) else host)
    {
      hide Seek, Parents, Keys, FirstDot, Scan;
      if host == "" {
        return None;
      }
      var h := if split(host) != "" then split(host) else host;
      SeekKeys(h, Scanner(list));
      r := Find(h);
      if r.None? {
        r := Find("." + h);
      }
      if r.None? {
        var s := h;
        while true
          invariant r.None? && Best(list, h) == Seek(Parents(s), Scanner(list))
          decreases |s|
        {
          SeekParents(s, Scanner(list));
          var i := FirstDot(s);
          if 0 < i < |s| {
            r := Find(s[i..]);
            s := s[i + 1..];
            if r.None? {
              continue;
            }
          }
          break;
        }
      }
    }
  }

  // The name itself comes first, then the wildcard of the name, then the wildcards of the parent domains.
  lemma {:induction false} OwnNameFirst(rules: seq<Rule>, host: string, first: string, domain: string)
    requires host == first + "." + domain && first != "" && '.' !in first
    ensures Scan(rules, host).Some? ==> Best(rules, host) == Scan(rules, host)
    ensures Scan(rules, host).None? && Scan(rules, "." + host).Some? ==> Best(rules, host) == Scan(rules, "." + host)
    ensures Scan(rules, host).None? && Scan(rules, "." + host).None? ==>
      Best(rules, host)
      == if Scan(rules, "." + domain).Some? then Scan(rules, "." + domain) else Seek(Parents(domain), Scanner(rules))
  {
    hide Scan, Seek, Parents, Keys, FirstDot;
    SeekKeys(host, Scanner(rules));
    SeekParents(host, Scanner(rules));
    FirstLabel(host, first, domain);
  }

  lemma {:induction false} FirstLabel(host: string, first: string, domain: string)
    requires host == first + "." + domain && '.' !in first
    ensures FirstDot(host) == |first| < |host| && host[|first|..] == "." + domain && host[|first| + 1..] == domain
  {
    hide FirstDot;
    assert host[|first|] == '.';
    assert forall j :: 0 <= j < |first| ==> host[j] == first[j] && first[j] in first;
  }

  // A host is routed by the last rule of the most specific key any rule has: no rule has a key before it.
  lemma BestIsMostSpecific(rules: seq<Rule>, host: string)
    ensures Best(rules, host).None?
            <==> forall r :: r in rules && Usable(r) ==> KeyOf(r) !in Keys(host)
    ensures Best(rules, host).Some? ==>
              exists i :: 0 <= i < |Keys(host)| && Best(rules, host) == Scan(rules, Keys(host)[i])
                          && forall r, j :: r in rules && Usable(r) && 0 <= j < i ==> KeyOf(r) != Keys(host)[j]
  {
    var find := Scanner(rules);
    var keys := Keys(host);
    if Best(rules, host).None? {
      forall r | r in rules && Usable(r) ensures KeyOf(r) !in keys {
        assert find(KeyOf(r)).Some?;
      }
    } else {
      SeekFirst(keys, find);
      var i :| 0 <= i < |keys| && find(keys[i]) == Seek(keys, find) && forall j :: 0 <= j < i ==> find(keys[j]).None?;
      assert keys[i] in keys;
      forall r, j | r in rules && Usable(r) && 0 <= j < i ensures KeyOf(r) != keys[j] {
        assert find(keys[j]).None?;
      }
      assert Best(rules, host) == Scan(rules, keys[i]);
    }
  }
}
