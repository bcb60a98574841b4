// The text forwards are exported to and imported from: one forward a line, its fields separated by bars.

module ForwardText {
  import opened Common
  import opened Text

  // ---------- Splitting and joining ----------

  function Split(s: string, c: char): (r: seq<string>)
    ensures |r| > 0
  {
    if s == [] then [""]
    else
      var rest := Split(s[1..], c);
      if s[0] == c then [""] + rest else [[s[0]] + rest[0]] + rest[1..]
  }

  function Join(parts: seq<string>, c: char): string {
    if parts == [] then ""
    else if |parts| == 1 then parts[0]
    else parts[0] + [c] + Join(parts[1..], c)
  }

  lemma {:induction false} SplitNone(a: string, c: char)
    requires c !in a
    ensures Split(a, c) == [a]
  {
    if a != [] {
      SplitNone(a[1..], c);
      assert [a[0]] + a[1..] == a;
    }
  }

  lemma {:induction false} SplitOne(a: string, rest: string, c: char)
    requires c !in a
    ensures Split(a + [c] + rest, c) == [a] + Split(rest, c)
  {
    if a == [] {
      assert a + [c] + rest == [c] + rest && ([c] + rest)[1..] == rest;
    } else {
      var s := a + [c] + rest;
      assert s[1..] == a[1..] + [c] + rest;
      SplitOne(a[1..], rest, c);
      assert Split(s[1..], c)[1..] == Split(rest, c);
      assert [a[0]] + a[1..] == a;
    }
  }

  // Splitting undoes joining when no part holds the separator.
  lemma {:induction false} SplitJoin(parts: seq<string>, c: char)
    requires parts != [] && forall p :: p in parts ==> c !in p
    ensures Split(Join(parts, c), c) == parts
  {
    if |parts| == 1 {
      SplitNone(parts[0], c);
    } else {
      SplitJoin(parts[1..], c);
      SplitOne(parts[0], Join(parts[1..], c), c);
    }
  }

  // A part holds no separator, and no character that was not in the text.
  lemma {:induction false} SplitParts(s: string, c: char, p: string)
    requires p in Split(s, c)
    ensures c !in p && forall x :: x in p ==> x in s
  {
    if s != [] {
      var rest := Split(s[1..], c);
      if s[0] == c {
        if p in rest {
          SplitParts(s[1..], c, p);
        }
      } else if p in rest[1..] {
        SplitParts(s[1..], c, p);
      } else {
        SplitParts(s[1..], c, rest[0]);
      }
    }
  }

  // ---------- Numbers ----------

  function DigitOf(c: char): Option<nat> {
    if '0' <= c <= '9' then Some((c - '0') as int)
    else if 'a' <= c <= 'f' then Some((c - 'a') as int + 10)
    else if 'A' <= c <= 'F' then Some((c - 'A') as int + 10)
    else None
  }

  predicate IsDigit(c: char, radix: nat) {
    DigitOf(c).Some? && DigitOf(c).value < radix
  }

  predicate AllDigits(s: string, radix: nat) {
    forall c :: c in s ==> IsDigit(c, radix)
  }

  function Leading(s: string, radix: nat): (r: string)
    ensures AllDigits(r, radix)
  {
    if s == [] || !IsDigit(s[0], radix) then "" else [s[0]] + Leading(s[1..], radix)
  }

  function Value(ds: string, radix: nat): nat
    requires AllDigits(ds, radix)
  {
    if ds == [] then 0
    else
      var k := |ds| - 1;
      assert ds[k] in ds;
      Value(ds[..k], radix) * radix + DigitOf(ds[k]).value
  }

  // The lenient number reader of ECMAScript: an optional sign, an optional hexadecimal mark, and what follows the
  // leading digits is ignored.
  function ParseInt(s: string): Option<int> {
    var t := TrimLeft(s, WebSpace);
    var negative := t != [] && t[0] == '-';
    var u := if t != [] && (t[0] == '-' || t[0] == '+') then t[1..] else t;
    var hex := |u| >= 2 && u[0] == '0' && (u[1] == 'x' || u[1] == 'X');
    var ds := if hex then Leading(u[2..], 16) else Leading(u, 10);
    if ds == [] then None
    else
      var n: int := Value(ds, if hex then 16 else 10);
      Some(if negative then -n else n)
  }

  function Decimal(n: nat): string {
    (if n < 10 then "" else Decimal(n / 10)) + ['0' + (n % 10) as char]
  }

  function Shown(n: int): string {
    if n < 0 then "-" + Decimal(-n) else Decimal(n)
  }

  lemma DecimalDigit(d: nat)
    requires d < 10
    ensures DigitOf('0' + d as char) == Some(d) && IsDigit('0' + d as char, 10)
  {
  }

  // One more digit.
  lemma ValueNext(front: string, last: char)
    requires AllDigits(front, 10) && IsDigit(last, 10)
    ensures AllDigits(front + [last], 10)
    ensures Value(front + [last], 10) == Value(front, 10) * 10 + DigitOf(last).value
  {
    hide DigitOf;
    assert (front + [last])[..|front|] == front;
  }

  lemma {:induction false} DecimalRead(n: nat)
    ensures Decimal(n) != [] && AllDigits(Decimal(n), 10) && Value(Decimal(n), 10) == n
  {
    hide DigitOf, IsDigit, Value;
    var last := '0' + (n % 10) as char;
    DecimalDigit(n % 10);
    if n < 10 {
      NoValue();
      ValueNext("", last);
      assert Decimal(n) == "" + [last];
    } else {
      DecimalRead(n / 10);
      ValueNext(Decimal(n / 10), last);
      assert Decimal(n) == Decimal(n / 10) + [last];
    }
  }

  lemma NoValue()
    ensures Value("", 10) == 0
  {
  }

  lemma {:induction false} LeadingAll(s: string, radix: nat)
    requires AllDigits(s, radix)
    ensures Leading(s, radix) == s
  {
    if s != [] {
      assert s[0] in s;
      LeadingAll(s[1..], radix);
    }
  }

  lemma DigitIsPlain(c: char)
    requires IsDigit(c, 10)
    ensures !WebSpace(c) && c !in "-+xX|\n:,"
  {
  }

  // Every number printed is read back, whatever follows it that is not part of a number.
  lemma {:induction false} ParseShown(n: int, rest: string)
    requires rest == "" || (!IsDigit(rest[0], 10) && rest[0] != 'x' && rest[0] != 'X')
    ensures ParseInt(Shown(n) + rest) == Some(n)
  {
    hide ParseInt, Value, Decimal, IsDigit, DigitOf;
    var d := Decimal(if n < 0 then -n else n);
    DecimalRead(if n < 0 then -n else n);
    LeadingThen(d, rest, 10);
    assert n < 0 ==> Shown(n) + rest == ['-'] + (d + rest);
    assert n >= 0 ==> Shown(n) + rest == [] + (d + rest);
    ParseSigned(d, rest, n < 0);
  }

  lemma {:induction false} LeadingThen(ds: string, rest: string, radix: nat)
    requires AllDigits(ds, radix) && (rest == "" || !IsDigit(rest[0], radix))
    ensures Leading(ds + rest, radix) == ds
  {
    hide IsDigit;
    if ds == "" {
      assert ds + rest == rest;
    } else {
      assert ds[0] in ds && (ds + rest)[1..] == ds[1..] + rest;
      LeadingThen(ds[1..], rest, radix);
    }
  }

  lemma {:induction false} ParseSigned(ds: string, rest: string, negative: bool)
    requires ds != [] && AllDigits(ds, 10) && Leading(ds + rest, 10) == ds
    requires rest == "" || (!IsDigit(rest[0], 10) && rest[0] != 'x' && rest[0] != 'X')
    ensures var n: int := Value(ds, 10);
      ParseInt((if negative then ['-'] else []) + (ds + rest)) == Some(if negative then -n else n)
  {
    hide WebSpace, Value, DigitOf, Leading, IsDigit;
    var u := ds + rest;
    var t := (if negative then ['-'] else []) + u;
    assert ds[0] in ds && u[0] == ds[0];
    DigitIsPlain(ds[0]);
    if |u| >= 2 {
      NotHex(ds, rest);
    }
    MinusIsPlain();
    assert TrimLeft(t, WebSpace) == t;
    assert negative ==> t[1..] == u;
    assert !negative ==> t == u;
  }

  lemma MinusIsPlain()
    ensures !WebSpace('-')
  {
  }

  lemma {:induction false} NotHex(ds: string, rest: string)
    requires ds != [] && AllDigits(ds, 10) && |ds + rest| >= 2
    requires rest == "" || (rest[0] != 'x' && rest[0] != 'X')
    ensures (ds + rest)[1] != 'x' && (ds + rest)[1] != 'X'
  {
    if |ds| >= 2 {
      assert ds[1] in ds;
      DigitIsPlain(ds[1]);
    }
  }

  // A hexadecimal mark makes what follows a hexadecimal number.
  lemma {:induction false} ParseHex(ds: string)
    requires ds != [] && AllDigits(ds, 16)
    ensures ParseInt("0x" + ds) == Some(Value(ds, 16))
  {
    hide Value;
    var t := "0x" + ds;
    assert t[2..] == ds && TrimLeft(t, WebSpace) == t;
    LeadingAll(ds, 16);
  }

  // The digits of a number and their places.
  lemma {:induction false} DigitsMean(c: char, ds: string)
    ensures IsDigit(c, 10) <==> '0' <= c <= '9'
    ensures IsDigit(c, 10) && AllDigits(ds, 10) ==>
      AllDigits(ds + [c], 10) && Value(ds + [c], 10) == 10 * Value(ds, 10) + (c as int - '0' as int)
    ensures IsDigit(c, 16) <==> '0' <= c <= '9' || 'a' <= c <= 'f' || 'A' <= c <= 'F'
    ensures IsDigit(c, 16) && AllDigits(ds, 16) ==>
      AllDigits(ds + [c], 16) && Value(ds + [c], 16) == 16 * Value(ds, 16) + DigitOf(c).value
  {
    assert (ds + [c])[..|ds|] == ds;
  }

  // ---------- Lines ----------

  datatype Forward = Forward(addr: string, name: string, port: int)

  // What is asked of the server for a line. Without a port the server picks one.
  datatype Creation = Creation(addr: string, name: string, port: Option<int>)

  datatype Reason = TooFewFields | EmptyField | BadAddress | BadPort

  datatype Line = Refused(line: string, reason: Reason) | Asked(line: string, creation: Creation)

  function ExportLine(f: Forward): string {
    f.addr + "|" + f.name + "|" + Shown(f.port)
  }

  function ExportLines(fs: seq<Forward>): (r: seq<string>)
    ensures |r| == |fs|
    ensures forall i :: 0 <= i < |fs| ==> r[i] == ExportLine(fs[i])
  {
    seq(|fs|, i requires 0 <= i < |fs| => ExportLine(fs[i]))
  }

  function Export(fs: seq<Forward>): string {
    Join(ExportLines(fs), '\n')
  }

  // Something without a colon, a colon, and digits to the end.
  predicate HostPort(s: string) {
    exists i :: 0 < i < |s| - 1 && s[i] == ':' && ':' !in s[..i] && AllDigits(s[i + 1..], 10)
  }

  predicate Addresses(s: string) {
    forall a :: a in Split(s, ',') ==> HostPort(Trim(a, WebSpace))
  }

  predicate InRange(port: int) {
    1 <= port <= 65535
  }

  // What an import makes of one line.
  function Read(line: string): Line {
    var parts := Split(line, '|');
    if |parts| < 2 then Refused(line, TooFewFields)
    else
      var addr, name := Trim(parts[0], WebSpace), Trim(parts[1], WebSpace);
      if addr == "" || name == "" then Refused(line, EmptyField)
      else if !Addresses(addr) then Refused(line, BadAddress)
      else if |parts| < 3 || Trim(parts[2], WebSpace) == "" then Asked(line, Creation(addr, name, None))
      else
        var port := ParseInt(Trim(parts[2], WebSpace));
        if port.None? || !InRange(port.value) then Refused(line, BadPort)
        else Asked(line, Creation(addr, name, port))
  }

  // An address is a host, the first colon and a port of digits, none of them empty.
  lemma {:induction false} HostPortForm(host: string, port: string)
    requires ':' !in host
    ensures !HostPort(host)
    ensures HostPort(host + ":" + port) <==> host != "" && port != "" && forall c :: c in port ==> '0' <= c <= '9'
  {
    hide IsDigit;
    var s := host + ":" + port;
    assert s[..|host|] == host && s[|host|] == ':' && s[|host| + 1..] == port;
    DecimalDigits(port);
    if i :| 0 < i < |s| - 1 && s[i] == ':' && ':' !in s[..i] && AllDigits(s[i + 1..], 10) {
      ColonAt(host, port, i);
    }
  }

  lemma {:induction false} DecimalDigits(s: string)
    ensures AllDigits(s, 10) <==> forall c :: c in s ==> '0' <= c <= '9'
  {
  }

  lemma {:induction false} ColonAt(host: string, port: string, i: nat)
    requires var s := host + ":" + port; i < |s| && s[i] == ':' && ':' !in s[..i]
    requires ':' !in host
    ensures i == |host|
  {
    var s := host + ":" + port;
    assert forall j :: 0 <= j < |host| ==> s[j] == host[j] && host[j] in host;
    assert s[|host|] == ':' && forall j :: 0 <= j < i ==> s[..i][j] == s[j];
  }

  // What becomes of a line, by its fields. Without a third field, or with a blank one, the port is left to the server;
  // otherwise it must read as a number from 1 to 65535. Further fields are ignored.
  lemma {:induction false} ReadFields(fields: seq<string>)
    requires fields != [] && forall p :: p in fields ==> '|' !in p
    ensures var line := Join(fields, '|');
      if |fields| == 1 then Read(line) == Refused(line, TooFewFields)
      else
        var addr, name := Trim(fields[0], WebSpace), Trim(fields[1], WebSpace);
        var blank := |fields| == 2 || Trim(fields[2], WebSpace) == "";
        if addr == "" || name == "" then Read(line) == Refused(line, EmptyField)
        else if !Addresses(addr) then Read(line) == Refused(line, BadAddress)
        else if blank then Read(line) == Asked(line, Creation(addr, name, None))
        else
          var port := ParseInt(Trim(fields[2], WebSpace));
          if port.Some? && 1 <= port.value <= 65535 then Read(line) == Asked(line, Creation(addr, name, port))
          else Read(line) == Refused(line, BadPort)
  {
    hide Split, Trim, WebSpace, Addresses, ParseInt;
    SplitJoin(fields, '|');
  }

  function Kept(lines: seq<string>): (r: seq<string>)
    ensures forall l :: l in r <==> l in lines && Trim(l, WebSpace) != ""
  {
    if lines == [] then []
    else
      var past := Kept(lines[..|lines| - 1]);
      assert lines == lines[..|lines| - 1] + [lines[|lines| - 1]];
      if Trim(lines[|lines| - 1], WebSpace) == "" then past else past + [lines[|lines| - 1]]
  }

  // Every line that is not blank stays, in its place among the others.
  lemma {:induction false} KeptInPlace(a: seq<string>, l: string, b: seq<string>)
    ensures Kept(a + [l] + b) == Kept(a) + (if Trim(l, WebSpace) == "" then [] else [l]) + Kept(b)
    decreases |b|
  {
    hide Kept, Trim, WebSpace;
    if b == [] {
      NoneKept();
      KeptNext(a, l);
      assert a + [l] + b == a + [l];
    } else {
      var k := |b| - 1;
      KeptInPlace(a, l, b[..k]);
      KeptNext(a + [l] + b[..k], b[k]);
      KeptNext(b[..k], b[k]);
      assert a + [l] + b[..k] + [b[k]] == a + [l] + b && b[..k] + [b[k]] == b;
    }
  }

  lemma {:induction false} KeptNext(lines: seq<string>, l: string)
    ensures Kept(lines + [l]) == Kept(lines) + if Trim(l, WebSpace) == "" then [] else [l]
  {
    hide Trim, WebSpace;
    assert (lines + [l])[..|lines|] == lines;
  }

  lemma NoneKept()
    ensures Kept([]) == []
  {
  }

  function Lines(text: string): seq<string> {
    Kept(Split(Trim(text, WebSpace), '\n'))
  }

  function ReadAll(lines: seq<string>): (r: seq<Line>)
    ensures |r| == |lines|
    ensures forall i :: 0 <= i < |lines| ==> r[i] == Read(Trim(lines[i], WebSpace))
  {
    seq(|lines|, i requires 0 <= i < |lines| => Read(Trim(lines[i], WebSpace)))
  }

  function Creations(ls: seq<Line>): seq<Creation> {
    if ls == [] then []
    else
      Creations(ls[..|ls| - 1]) + if ls[|ls| - 1].Asked? then [ls[|ls| - 1].creation] else []
  }

  // Every line that is not refused gives its creation, in its place among the others.
  lemma {:induction false} CreationsInPlace(a: seq<Line>, l: Line, b: seq<Line>)
    ensures Creations(a + [l] + b) == Creations(a) + (if l.Asked? then [l.creation] else []) + Creations(b)
    decreases |b|
  {
    hide Creations;
    if b == [] {
      NothingAsked();
      CreationsNext(a, l);
      assert a + [l] + b == a + [l];
    } else {
      var k := |b| - 1;
      CreationsInPlace(a, l, b[..k]);
      CreationsNext(a + [l] + b[..k], b[k]);
      CreationsNext(b[..k], b[k]);
      assert a + [l] + b[..k] + [b[k]] == a + [l] + b && b[..k] + [b[k]] == b;
    }
  }

  lemma {:induction false} CreationsNext(ls: seq<Line>, l: Line)
    ensures Creations(ls + [l]) == Creations(ls) + if l.Asked? then [l.creation] else []
  {
    assert (ls + [l])[..|ls|] == ls;
  }

  lemma NothingAsked()
    ensures Creations([]) == []
  {
  }

  // The creations an import of a text asks for, in order.
  function Imported(text: string): seq<Creation> {
    Creations(ReadAll(Lines(text)))
  }

  function Reversed<T>(s: seq<T>): (r: seq<T>)
    ensures |r| == |s|
    ensures forall i :: 0 <= i < |s| ==> r[i] == s[|s| - 1 - i]
  {
    seq(|s|, i requires 0 <= i < |s| => s[|s| - 1 - i])
  }

  // The results are listed latest first. Without text or without a tunnel nothing happens.
  method Import(text: string, tunnel: Option<int>) returns (asked: seq<Creation>, results: seq<Line>)
    ensures tunnel == None || tunnel == Some(0) ==> asked == [] && results == []
    ensures tunnel != None && tunnel != Some(0) ==>
              asked == Imported(text) && results == Reversed(ReadAll(Lines(text)))
  {
    hide Split, Trim, ParseInt, HostPort, WebSpace, Creations;
    asked, results := [], [];
    NoneYet();
    if Trim(text, WebSpace) == "" {
      NoLines(text);
      return;
    }
    if tunnel == None || tunnel == Some(0) {
      return;
    }
    var lines := Lines(text);
    var i := 0;
    while i < |lines|
      invariant 0 <= i <= |lines|
      invariant asked == Creations(ReadAll(lines[..i])) && results == Reversed(ReadAll(lines[..i]))
    {
      var line := Trim(lines[i], WebSpace);
      NextLine(lines, i);
      var parts := Split(line, '|');
      if |parts| < 2 {
        results := [Refused(line, TooFewFields)] + results;
        i := i + 1;
        continue;
      }
      var addr, name := parts[0], parts[1];
      if Trim(addr, WebSpace) == "" || Trim(name, WebSpace) == "" {
        results := [Refused(line, EmptyField)] + results;
        i := i + 1;
        continue;
      }
      var valid := AllHostPorts(Split(Trim(addr, WebSpace), ','));
      if !valid {
        results := [Refused(line, BadAddress)] + results;
        i := i + 1;
        continue;
      }
      var port: Option<int> := None;
      if |parts| >= 3 && Trim(parts[2], WebSpace) != "" {
        port := ParseInt(Trim(parts[2], WebSpace));
        if port.None? || port.value < 1 || port.value > 65535 {
          results := [Refused(line, BadPort)] + results;
          i := i + 1;
          continue;
        }
      }
      var creation := Creation(Trim(addr, WebSpace), Trim(name, WebSpace), port);
      asked := asked + [creation];
      results := [Asked(line, creation)] + results;
      i := i + 1;
    }
    assert lines[..i] == lines;
  }

  lemma NoLines(text: string)
    requires Trim(text, WebSpace) == ""
    ensures Lines(text) == []
  {
    assert Split("", '\n') == [""] && [""][..0] == [];
    assert TrimLeft("", WebSpace) == "" && TrimRight("", WebSpace) == "";
  }

  lemma NoneYet()
    ensures Creations(ReadAll([])) == []
  {
  }

  lemma NextLine(lines: seq<string>, i: nat)
    requires i < |lines|
    ensures var l := Read(Trim(lines[i], WebSpace));
      && ReadAll(lines[..i + 1]) == ReadAll(lines[..i]) + [l]
      && Reversed(ReadAll(lines[..i + 1])) == [l] + Reversed(ReadAll(lines[..i]))
      && Creations(ReadAll(lines[..i + 1]))
         == Creations(ReadAll(lines[..i])) + if l.Asked? then [l.creation] else []
  {
    hide Read, Trim;
    assert ReadAll(lines[..i + 1])[..i] == ReadAll(lines[..i]);
  }

  method AllHostPorts(addrs: seq<string>) returns (valid: bool)
    ensures valid <==> forall a :: a in addrs ==> HostPort(Trim(a, WebSpace))
  {
    var i := 0;
    while i < |addrs|
      invariant 0 <= i <= |addrs| && forall a :: a in addrs[..i] ==> HostPort(Trim(a, WebSpace))
    {
      if !HostPort(Trim(addrs[i], WebSpace)) {
        return false;
      }
      i := i + 1;
    }
    assert addrs[..i] == addrs;
    return true;
  }

  // ---------- Export, then import ----------

  predicate Plain(s: string) {
    s != "" && Trimmed(s, WebSpace) && '|' !in s && '\n' !in s
  }

  // A forward that can be written to a line and read back.
  predicate Printable(f: Forward) {
    Plain(f.name) && Plain(f.addr) && Addresses(f.addr) && InRange(f.port)
  }

  function Wanted(fs: seq<Forward>): (r: seq<Creation>)
    ensures |r| == |fs|
    ensures forall i :: 0 <= i < |fs| ==> r[i] == Creation(fs[i].addr, fs[i].name, Some(fs[i].port))
  {
    seq(|fs|, i requires 0 <= i < |fs| => Creation(fs[i].addr, fs[i].name, Some(fs[i].port)))
  }

  lemma DecimalPlain(n: nat)
    ensures Plain(Decimal(n)) && Plain("-" + Decimal(n))
  {
    hide WebSpace, IsDigit, DigitOf;
    var s := Decimal(n);
    DecimalRead(n);
    MinusIsPlain();
    forall c | c in s ensures !WebSpace(c) && c != '|' && c != '\n' {
      DigitIsPlain(c);
    }
    assert s[0] in s && s[|s| - 1] in s;
  }

  lemma ShownPlain(n: int)
    ensures Plain(Shown(n))
  {
    hide Plain;
    DecimalPlain(if n < 0 then -n else n);
  }

  lemma LineParts(f: Forward)
    requires Printable(f)
    ensures Split(ExportLine(f), '|') == [f.addr, f.name, Shown(f.port)]
  {
    hide Split, Shown, Addresses, WebSpace;
    var p := Shown(f.port);
    ShownPlain(f.port);
    assert ExportLine(f) == f.addr + ['|'] + (f.name + ['|'] + p);
    assert f.name + ['|'] + p == f.name + ['|'] + p;
    SplitNone(p, '|');
    SplitOne(f.name, p, '|');
    SplitOne(f.addr, f.name + ['|'] + p, '|');
  }

  lemma LineEnds(f: Forward)
    requires Printable(f)
    ensures var l := ExportLine(f); l != "" && Trimmed(l, WebSpace) && '\n' !in l && Trim(l, WebSpace) == l
  {
    hide Split, Shown, Addresses, WebSpace, Trim;
    var l, p := ExportLine(f), Shown(f.port);
    ShownPlain(f.port);
    assert l[0] == f.addr[0] && l[|l| - 1] == p[|p| - 1];
    TrimTrims(l, WebSpace);
  }

  // A printable forward makes a line that reads back as the forward.
  lemma LineReads(f: Forward)
    requires Printable(f)
    ensures Read(ExportLine(f)) == Asked(ExportLine(f), Creation(f.addr, f.name, Some(f.port)))
  {
    hide Split, Shown, Addresses, WebSpace, Trim, ParseInt, ExportLine;
    LineParts(f);
    ShownPlain(f.port);
    ParseShown(f.port, "");
    assert Shown(f.port) + "" == Shown(f.port);
    TrimTrims(f.addr, WebSpace);
    TrimTrims(f.name, WebSpace);
    TrimTrims(Shown(f.port), WebSpace);
  }

  // A forward with a plain name and proper addresses is asked for exactly when its port is one from 1 to 65535.
  lemma {:induction false} PortDecides(f: Forward)
    requires Plain(f.name) && Plain(f.addr) && Addresses(f.addr)
    ensures var line := ExportLine(f);
      Read(line) == if 1 <= f.port <= 65535 then Asked(line, Creation(f.addr, f.name, Some(f.port)))
                    else Refused(line, BadPort)
  {
    hide Split, Shown, Addresses, WebSpace, Trim, ParseInt, Join;
    var p := Shown(f.port);
    ShownPlain(f.port);
    ThreeFields(f.addr, f.name, p);
    ParseShown(f.port, "");
    assert p + "" == p;
    TrimTrims(f.addr, WebSpace);
    TrimTrims(f.name, WebSpace);
    TrimTrims(p, WebSpace);
    ReadFields([f.addr, f.name, p]);
  }

  lemma {:induction false} ThreeFields(a: string, b: string, c: string)
    ensures Join([a, b, c], '|') == a + "|" + b + "|" + c
  {
    assert Join([a, b, c][1..][1..], '|') == c;
    assert Join([a, b, c][1..], '|') == b + ['|'] + c;
  }

  lemma {:induction false} KeptAll(lines: seq<string>)
    requires forall l :: l in lines ==> Trim(l, WebSpace) != ""
    ensures Kept(lines) == lines
  {
    hide Trim, WebSpace;
    if lines != [] {
      KeptAll(lines[..|lines| - 1]);
      assert lines[|lines| - 1] in lines;
    }
  }

  lemma JoinEnds(parts: seq<string>, c: char)
    requires parts != [] && forall p :: p in parts ==> p != "" && Trimmed(p, WebSpace)
    ensures Join(parts, c) != "" && Trimmed(Join(parts, c), WebSpace)
  {
    hide WebSpace;
    assert parts[0] in parts && parts[|parts| - 1] in parts;
    JoinFirst(parts, c);
    JoinLast(parts, c);
  }

  lemma JoinFirst(parts: seq<string>, c: char)
    requires parts != [] && parts[0] != ""
    ensures Join(parts, c) != "" && Join(parts, c)[0] == parts[0][0]
  {
  }

  lemma {:induction false} JoinLast(parts: seq<string>, c: char)
    requires parts != [] && parts[|parts| - 1] != ""
    ensures var j, last := Join(parts, c), parts[|parts| - 1]; j != "" && j[|j| - 1] == last[|last| - 1]
  {
    if |parts| > 1 {
      JoinLast(parts[1..], c);
    }
  }

  lemma {:induction false} AllAsked(ls: seq<Line>, cs: seq<Creation>)
    requires |ls| == |cs| && forall i :: 0 <= i < |ls| ==> ls[i].Asked? && ls[i].creation == cs[i]
    ensures Creations(ls) == cs
  {
    if ls != [] {
      AllAsked(ls[..|ls| - 1], cs[..|cs| - 1]);
    }
  }

  lemma ExportLinesRead(fs: seq<Forward>)
    requires fs != [] && forall f :: f in fs ==> Printable(f)
    ensures Lines(Export(fs)) == ExportLines(fs)
  {
    hide Trim, WebSpace, Trimmed, Split, Join, Printable, ExportLine;
    var ls := ExportLines(fs);
    forall l | l in ls ensures l != "" && Trimmed(l, WebSpace) && '\n' !in l && Trim(l, WebSpace) == l {
      var i :| 0 <= i < |fs| && l == ExportLine(fs[i]);
      assert fs[i] in fs;
      LineEnds(fs[i]);
    }
    JoinEnds(ls, '\n');
    TrimTrims(Export(fs), WebSpace);
    SplitJoin(ls, '\n');
    KeptAll(ls);
  }

  lemma PrintableReturns(fs: seq<Forward>)
    requires fs != [] && forall f :: f in fs ==> Printable(f)
    ensures Imported(Export(fs)) == Wanted(fs)
  {
    hide Trim, Read, Printable, ExportLine, Export, Lines;
    var ls := ExportLines(fs);
    ExportLinesRead(fs);
    forall i | 0 <= i < |fs| ensures ReadAll(ls)[i].Asked? && ReadAll(ls)[i].creation == Wanted(fs)[i] {
      assert fs[i] in fs;
      LineEnds(fs[i]);
      LineReads(fs[i]);
    }
    AllAsked(ReadAll(ls), Wanted(fs));
  }

  // ---------- Only printable forwards come back ----------

  // What an import asks for is printable, unless the port was left to the server.
  predicate Sound(c: Creation) {
    Plain(c.name) && Plain(c.addr) && Addresses(c.addr) && (c.port.Some? ==> InRange(c.port.value))
  }

  lemma {:induction false} TrimLeftWithin(s: string, space: char -> bool)
    ensures forall c :: c in TrimLeft(s, space) ==> c in s
  {
    if s != [] && space(s[0]) {
      TrimLeftWithin(s[1..], space);
    }
  }

  lemma TrimWithin(s: string, space: char -> bool)
    ensures forall c :: c in Trim(s, space) ==> c in s
  {
    TrimLeftWithin(s, space);
    RightEnds(TrimLeft(s, space), space);
  }

  lemma FieldPlain(line: string, part: string)
    requires '\n' !in line && part in Split(line, '|') && Trim(part, WebSpace) != ""
    ensures Plain(Trim(part, WebSpace))
  {
    hide Split, Trim, WebSpace;
    SplitParts(line, '|', part);
    TrimWithin(part, WebSpace);
    TrimTrims(part, WebSpace);
  }

  lemma ReadSound(line: string)
    requires '\n' !in line && Read(line).Asked?
    ensures Sound(Read(line).creation)
  {
    hide Split, Trim, WebSpace, Addresses, ParseInt;
    var parts := Split(line, '|');
    assert parts[0] in parts && parts[1] in parts;
    FieldPlain(line, parts[0]);
    FieldPlain(line, parts[1]);
  }

  lemma {:induction false} CreationsSound(ls: seq<Line>)
    requires forall l :: l in ls && l.Asked? ==> Sound(l.creation)
    ensures forall c :: c in Creations(ls) ==> Sound(c)
  {
    hide Sound;
    if ls != [] {
      CreationsSound(ls[..|ls| - 1]);
    }
  }

  lemma ImportedSound(text: string)
    ensures forall c :: c in Imported(text) ==> Sound(c)
  {
    hide Sound, Split, Trim, Read, WebSpace;
    var lines := Lines(text);
    forall l | l in ReadAll(lines) && l.Asked? ensures Sound(l.creation) {
      var i :| 0 <= i < |lines| && l == Read(Trim(lines[i], WebSpace));
      assert lines[i] in lines;
      SplitParts(Trim(text, WebSpace), '\n', lines[i]);
      TrimWithin(lines[i], WebSpace);
      ReadSound(Trim(lines[i], WebSpace));
    }
    CreationsSound(ReadAll(lines));
  }

  lemma ReturnedIsPrintable(fs: seq<Forward>)
    requires Imported(Export(fs)) == Wanted(fs)
    ensures forall f :: f in fs ==> Printable(f)
  {
    hide Imported, Export, Plain, Addresses;
    ImportedSound(Export(fs));
    forall f | f in fs ensures Printable(f) {
      var i :| 0 <= i < |fs| && fs[i] == f;
      assert Wanted(fs)[i] in Wanted(fs);
    }
  }

  // Importing what was exported asks for the same forwards in the same order if and only if every forward is printable.
  lemma ExportThenImport(fs: seq<Forward>)
    ensures Imported(Export(fs)) == Wanted(fs) <==> forall f :: f in fs ==> Printable(f)
  {
    hide Imported, Export, Printable;
    if fs == [] {
      NothingExported();
    } else {
      if forall f :: f in fs ==> Printable(f) {
        PrintableReturns(fs);
      }
      if Imported(Export(fs)) == Wanted(fs) {
        ReturnedIsPrintable(fs);
      }
    }
  }

  lemma NothingExported()
    ensures Imported(Export([])) == Wanted([])
  {
    assert TrimLeft("", WebSpace) == "" && TrimRight("", WebSpace) == "";
    NoLines(Export([]));
  }

  // A bar in a name does not come back.
  lemma BarsAreLost()
    ensures Imported(Export([Forward("h:1", "a|b", 80)])) != Wanted([Forward("h:1", "a|b", 80)])
  {
    var f := Forward("h:1", "a|b", 80);
    assert f.name[1] == '|';
    assert f in [f] && !Printable(f);
    ExportThenImport([f]);
  }
}
