// The rewrite of durations in a JSON tree: the fail timeout of a selector, written as text, becomes nanoseconds.

module Durations {
  import opened Common

  datatype Json =
    | Null
    | Bool(b: bool)
    | Number(r: real)
    | Nanos(n: int)       // an integer put in by the rewrite
    | Text(s: string)
    | Array(items: seq<Json>)
    | Object(fields: map<string, Json>)

  // The library function that reads a duration.
  type Reader = string -> Option<int>

  const SELECTOR := "selector"
  const FAIL_TIMEOUT := "failTimeout"

  predicate Readable(read: Reader, j: Json) {
    j.Text? && read(j.s).Some?
  }

  // The whole rewrite. The flag says that the value stands directly under a selector key.
  function Rewrite(read: Reader, j: Json, selected: bool): Json
    decreases j
  {
    match j
    case Array(xs) => Array(seq(|xs|, i requires 0 <= i < |xs| => Rewrite(read, xs[i], false)))
    case Object(m) =>
      Object(map k | k in m ::
               if selected && k == FAIL_TIMEOUT && Readable(read, m[k]) then Nanos(read(m[k].s).value)
               else Rewrite(read, m[k], k == SELECTOR))
    case _ => j
  }

  // ---------- What it changes ----------

  datatype Step = Field(name: string) | Item(index: nat)

  function At(j: Json, path: seq<Step>): Option<Json> {
    if path == [] then Some(j)
    else
      match path[0]
      case Field(k) => if j.Object? && k in j.fields then At(j.fields[k], path[1..]) else None
      case Item(i) => if j.Array? && i < |j.items| then At(j.items[i], path[1..]) else None
  }

  // The path ends in the fail timeout directly inside an object under a selector key.
  predicate IsTimeout(path: seq<Step>, selected: bool) {
    && path != [] && path[|path| - 1] == Field(FAIL_TIMEOUT)
    && (if |path| >= 2 then path[|path| - 2] == Field(SELECTOR) else selected)
  }

  predicate SameKind(a: Json, b: Json) {
    match a
    case Array(xs) => b.Array? && |b.items| == |xs|
    case Object(m) => b.Object? && b.fields.Keys == m.Keys
    case _ => b == a
  }

  lemma {:induction false} RewriteKeepsKind(read: Reader, j: Json, selected: bool)
    ensures SameKind(j, Rewrite(read, j, selected))
  {
  }

  // Exactly the readable fail timeouts of selectors change; every other value stays, and so does the shape of the tree.
  lemma {:induction false} RewriteChangesOnlyTimeouts(read: Reader, j: Json, selected: bool, path: seq<Step>)
    ensures var was, now := At(j, path), At(Rewrite(read, j, selected), path);
      && (was.None? <==> now.None?)
      && (was.Some? ==>
            if IsTimeout(path, selected) && Readable(read, was.value) then now.value == Nanos(read(was.value.s).value)
            else SameKind(was.value, now.value))
    decreases |path|
  {
    if path == [] {
      RewriteKeepsKind(read, j, selected);
    } else {
      var rest := path[1..];
      match path[0] {
        case Field(k) =>
          if j.Object? && k in j.fields {
            var v := j.fields[k];
            if selected && k == FAIL_TIMEOUT && Readable(read, v) {
              if rest != [] {
                assert At(v, rest).None? && At(Nanos(read(v.s).value), rest).None?;
              }
            } else {
              RewriteChangesOnlyTimeouts(read, v, k == SELECTOR, rest);
            }
          }
        case Item(i) =>
          if j.Array? && i < |j.items| {
            RewriteChangesOnlyTimeouts(read, j.items[i], false, rest);
          }
      }
    }
  }

  // A fail timeout written as text becomes the nanoseconds the reader makes of it, or stays when the reader refuses it.
  lemma {:induction false} TimeoutsAreRewritten(read: Reader, j: Json, selected: bool, path: seq<Step>, s: string)
    requires IsTimeout(path, selected) && At(j, path) == Some(Text(s))
    ensures At(Rewrite(read, j, selected), path)
            == Some(if read(s).Some? then Nanos(read(s).value) else Text(s))
  {
    RewriteChangesOnlyTimeouts(read, j, selected, path);
  }

  // Rewriting twice is rewriting once.
  lemma {:induction false} RewriteTwice(read: Reader, j: Json, selected: bool)
    ensures Rewrite(read, Rewrite(read, j, selected), selected) == Rewrite(read, j, selected)
    decreases j
  {
    match j {
      case Array(xs) =>
        var r := Rewrite(read, j, selected);
        forall i | 0 <= i < |xs| ensures Rewrite(read, r.items[i], false) == r.items[i] {
          RewriteTwice(read, xs[i], false);
        }
        assert Rewrite(read, r, selected).items == r.items;
      case Object(m) =>
        var r := Rewrite(read, j, selected);
        forall k | k in m ensures Rewrite(read, r, selected).fields[k] == r.fields[k] {
          if !(selected && k == FAIL_TIMEOUT && Readable(read, m[k])) {
            RewriteTwice(read, m[k], k == SELECTOR);
            RewriteKeepsKind(read, m[k], k == SELECTOR);
          }
        }
        assert Rewrite(read, r, selected).fields == r.fields;
      case _ =>
    }
  }

  // ---------- The algorithm ----------

  // What is done to the value of a selector key before it is processed.
  function Fixed(read: Reader, v: Json): Json {
    if v.Object? && FAIL_TIMEOUT in v.fields && Readable(read, v.fields[FAIL_TIMEOUT]) then
      Object(v.fields[FAIL_TIMEOUT := Nanos(read(v.fields[FAIL_TIMEOUT].s).value)])
    else v
  }

  lemma FixedFields(read: Reader, was: Json, selected: bool, data: Json, k: string)
    requires data == (if selected then Fixed(read, was) else was) && data.Object? && k in data.fields
    ensures was.Object? && was.fields.Keys == data.fields.Keys
    ensures var v := data.fields[k];
      if selected && k == FAIL_TIMEOUT && Readable(read, was.fields[k]) then
        v == Nanos(read(was.fields[k].s).value) && v == Rewrite(read, was, selected).fields[k]
      else
        v == was.fields[k] && Rewrite(read, was, selected).fields[k] == Rewrite(read, v, k == SELECTOR)
  {
  }

  lemma NanosStay(read: Reader, v: Json)
    ensures Fixed(read, v).Nanos? <==> v.Nanos?
    ensures v.Nanos? ==> Fixed(read, v) == v && forall b :: Rewrite(read, v, b) == v
    ensures SELECTOR != FAIL_TIMEOUT
  {
    assert |SELECTOR| != |FAIL_TIMEOUT|;
  }

  // What remains to be done for one tree, and what comes out of it.
  ghost predicate Pending(read: Reader, was: Json, selected: bool, data: Json) {
    data.Nanos? || data == if selected then Fixed(read, was) else was
  }

  ghost function Outcome(read: Reader, was: Json, selected: bool, data: Json): Json {
    if data.Nanos? then data else Rewrite(read, was, selected)
  }

  method Process(read: Reader, data: Json, ghost was: Json, ghost selected: bool) returns (r: Json)
    requires Pending(read, was, selected, data)
    ensures r == Outcome(read, was, selected, data)
    decreases was, 2
  {
    match data {
      case Array(xs) =>
        var items: seq<Json> := [];
        while |items| < |xs|
          invariant |items| <= |xs|
          invariant forall j :: 0 <= j < |items| ==> items[j] == Rewrite(read, xs[j], false)
        {
          var item := Process(read, xs[|items|], xs[|items|], false);
          items := items + [item];
        }
        r := Array(items);
      case Object(m) =>
        var out := ProcessFields(read, m, was, selected);
        r := Object(out);
      case _ =>
        r := data;
    }
  }

  // Objects are processed key by key in an order the language leaves open: whatever key comes next,
  // the outcome is the same.
  method ProcessFields(read: Reader, m: map<string, Json>, ghost was: Json, ghost selected: bool)
    returns (out: map<string, Json>)
    requires Object(m) == if selected then Fixed(read, was) else was
    ensures Object(out) == Rewrite(read, was, selected)
    decreases was, 1
  {
    hide Rewrite, Fixed, Readable;
    out := m;
    var left := m.Keys;
    RewriteKeepsKind(read, was, selected);
    FixedKeys(read, was, selected, Object(m));
    ghost var target := Rewrite(read, was, selected);
    while left != {}
      invariant left <= m.Keys && out.Keys == m.Keys && target.Object? && target.fields.Keys == m.Keys
      invariant forall k :: k in left ==> out[k] == m[k]
      invariant forall k :: k in m.Keys && k !in left ==> out[k] == target.fields[k]
      decreases |left|
    {
      var key :| key in left;
      FixedFields(read, was, selected, Object(m), key);
      var next := ProcessField(read, key, m[key], was, selected, Object(m));
      out := out[key := next];
      left := left - {key};
    }
    assert out == target.fields;
  }

  lemma FixedKeys(read: Reader, was: Json, selected: bool, data: Json)
    requires data == (if selected then Fixed(read, was) else was) && data.Object?
    ensures was.Object? && was.fields.Keys == data.fields.Keys
  {
  }

  method ProcessField(read: Reader, key: string, value: Json, ghost was: Json, ghost selected: bool, ghost data: Json)
    returns (r: Json)
    requires data == (if selected then Fixed(read, was) else was) && data.Object? && key in data.fields
    requires value == data.fields[key] && was.Object? && key in was.fields
    ensures Rewrite(read, was, selected).Object? && key in Rewrite(read, was, selected).fields
    ensures r == Rewrite(read, was, selected).fields[key]
    decreases was, 0
  {
    hide Rewrite, Fixed, Readable;
    NanosStay(read, value);
    FixedFields(read, was, selected, data, key);
    RewriteKeepsKind(read, was, selected);
    if key == SELECTOR {
      r := Process(read, Fixed(read, value), was.fields[key], true);
    } else {
      r := Process(read, value, was.fields[key], false);
    }
  }
}
