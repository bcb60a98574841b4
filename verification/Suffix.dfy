// The keys under which a host may be found, the most specific first.

module Suffixes {
  import opened Common

  // The position of the first dot.
  function FirstDot(s: string): (r: nat)
    ensures r <= |s| && (r < |s| ==> s[r] == '.')
    ensures forall j :: 0 <= j < r ==> s[j] != '.'
  {
    if s == [] || s[0] == '.' then 0 else 1 + FirstDot(s[1..])
  }

  // The walk over the parents of a host stops where a label is empty.
  function Parents(s: string): seq<string>
    decreases |s|
  {
    var i := FirstDot(s);
    if 0 < i < |s| then [s[i..]] + Parents(s[i + 1..]) else []
  }

  function Keys(host: string): seq<string> {
    [host, "." + host] + Parents(host)
  }

  // The first key that is found.
  function Seek<T>(keys: seq<string>, find: string -> Option<T>): (r: Option<T>)
    ensures r.None? <==> forall k :: k in keys ==> find(k).None?
  {
    if keys == [] then None
    else if find(keys[0]).Some? then find(keys[0])
    else Seek(keys[1..], find)
  }

  lemma SeekParents<T>(s: string, find: string -> Option<T>)
    ensures var i := FirstDot(s);
      Seek(Parents(s), find)
      == if 0 < i < |s| then (if find(s[i..]).Some? then find(s[i..]) else Seek(Parents(s[i + 1..]), find)) else None
  {
    var i := FirstDot(s);
    if 0 < i < |s| {
      assert Parents(s)[1..] == Parents(s[i + 1..]);
    }
  }

  lemma SeekKeys<T>(host: string, find: string -> Option<T>)
    ensures Seek(Keys(host), find)
            == if find(host).Some? then find(host)
               else if find("." + host).Some? then find("." + host)
               else Seek(Parents(host), find)
  {
    assert Keys(host)[1..][1..] == Parents(host);
  }

  // What is found is found under a key, and under no key before that one.
  lemma {:induction false} SeekFirst<T>(keys: seq<string>, find: string -> Option<T>)
    requires Seek(keys, find).Some?
    ensures exists i :: 0 <= i < |keys| && find(keys[i]) == Seek(keys, find)
                        && forall j :: 0 <= j < i ==> find(keys[j]).None?
  {
    if find(keys[0]).None? {
      SeekFirst(keys[1..], find);
      var i :| 0 <= i < |keys| - 1 && find(keys[1..][i]) == Seek(keys[1..], find)
               && forall j :: 0 <= j < i ==> find(keys[1..][j]).None?;
      forall j | 0 <= j < i + 1 ensures find(keys[j]).None? {
        if j > 0 {
          assert keys[1..][j - 1] == keys[j];
        }
      }
      assert find(keys[i + 1]) == Seek(keys, find);
    } else {
      assert find(keys[0]) == Seek(keys, find);
    }
  }

  // A dot with no empty label before it.
  predicate Boundary(s: string, i: nat) {
    i < |s| && s[i] == '.' && forall j :: 0 <= j <= i && s[j] == '.' ==> j > 0 && s[j - 1] != '.'
  }

  lemma BoundaryInside(s: string, d: nat, i: nat)
    requires d == FirstDot(s) && 0 < d < i < |s|
    ensures Boundary(s, i) <==> Boundary(s[d + 1..], i - d - 1)
  {
    var t := s[d + 1..];
    if Boundary(s, i) {
      forall j | 0 <= j <= i - d - 1 && t[j] == '.' ensures j > 0 && t[j - 1] != '.' {
        assert s[j + d + 1] == '.';
      }
    }
    if Boundary(t, i - d - 1) {
      forall j | 0 <= j <= i && s[j] == '.' ensures j > 0 && s[j - 1] != '.' {
        if j > d {
          assert t[j - d - 1] == '.';
        }
      }
    }
  }

  ghost predicate From(s: string, p: string, i: nat) {
    Boundary(s, i) && p == s[i..]
  }

  // Without a label before the first dot there is no parent.
  lemma NoParent(s: string, i: nat)
    requires FirstDot(s) == 0 || FirstDot(s) == |s|
    ensures !Boundary(s, i)
  {
    if FirstDot(s) < |s| {
      assert s[0] == '.';
    }
  }

  // The parents are exactly the suffixes that start at a dot with no empty label before it, longest first.
  lemma {:induction false} ParentsExact(s: string, p: string)
    ensures p in Parents(s) <==> exists i: nat :: From(s, p, i)
    decreases |s|
  {
    hide Boundary;
    var d := FirstDot(s);
    if 0 < d < |s| {
      var t := s[d + 1..];
      ParentsExact(t, p);
      FirstParent(s);
      if p in Parents(t) {
        var i: nat :| From(t, p, i);
        Inside(s, d, p, i);
      }
      if p == s[d..] {
        assert From(s, p, d);
      }
      if i: nat :| From(s, p, i) && i != d {
        Outside(s, d, p, i);
      }
    } else if i: nat :| From(s, p, i) {
      NoParent(s, i);
    }
  }

  lemma FirstParent(s: string)
    requires 0 < FirstDot(s) < |s|
    ensures Boundary(s, FirstDot(s))
  {
  }

  lemma Inside(s: string, d: nat, p: string, i: nat)
    requires d == FirstDot(s) && 0 < d < |s| && From(s[d + 1..], p, i)
    ensures From(s, p, i + d + 1)
  {
    BoundaryInside(s, d, i + d + 1);
  }

  lemma Outside(s: string, d: nat, p: string, i: nat)
    requires d == FirstDot(s) && 0 < d < |s| && From(s, p, i) && i != d
    ensures i > d && From(s[d + 1..], p, i - d - 1)
  {
    BoundaryInside(s, d, i);
  }

  lemma {:induction false} ParentsShrink(s: string, i: nat)
    requires i < |Parents(s)|
    ensures |Parents(s)[i]| < |s| && (i > 0 ==> |Parents(s)[i]| < |Parents(s)[i - 1]|)
    decreases |s|
  {
    var d := FirstDot(s);
    if i > 0 {
      ParentsShrink(s[d + 1..], i - 1);
    }
  }
}
