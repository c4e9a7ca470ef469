/** The lines of `/etc/projects` (`id:path`) and `/etc/projid` (`name:id`): how they are written, and what the two
    regular expressions read back. Lines hold no line break. */
module ProjectLines {

  /** A line that has the expected format, or any other line, which is kept as it is. */
  datatype ProjectLine = Project(id: nat, path: string) | OtherProject(text: string)
  datatype ProjidLine = Projid(name: string, id: nat) | OtherProjid(text: string)

  // ---------------------------------------------------------------- numbers

  predicate IsDigit(c: char) {
    '0' <= c <= '9'
  }

  predicate AllDigits(s: string) {
    forall i :: 0 <= i < |s| ==> IsDigit(s[i])
  }

  function Digit(d: nat): (c: char)
    requires d < 10
    ensures IsDigit(c) && (c as int) - ('0' as int) == d
  {
    '0' + (d as char)
  }

  function Decimal(n: nat): string {
    if n < 10 then [Digit(n)] else Decimal(n / 10) + [Digit(n % 10)]
  }

  /** `int`. */
  function ValueOf(s: string): nat
    requires AllDigits(s)
  {
    if s == [] then 0 else 10 * ValueOf(s[..|s| - 1]) + ((s[|s| - 1] as int) - ('0' as int))
  }

  lemma {:induction false} DecimalReadsBack(n: nat)
    ensures Decimal(n) != [] && AllDigits(Decimal(n)) && ValueOf(Decimal(n)) == n
  {
    if n >= 10 {
      DecimalReadsBack(n / 10);
      assert Decimal(n)[..|Decimal(n)| - 1] == Decimal(n / 10);
    } else {
      assert Decimal(n)[..0] == [];
    }
  }

  // ---------------------------------------------------------------- the two expressions

  /** Length of the longest run of digits at the start. */
  function DigitRun(s: string): (n: nat)
    ensures n <= |s| && AllDigits(s[..n]) && (n < |s| ==> !IsDigit(s[n]))
  {
    if s == [] || !IsDigit(s[0]) then 0
    else
      var n := 1 + DigitRun(s[1..]);
      assert s[..n] == [s[0]] + s[1..][..n - 1];
      n
  }

  function ReadProject(text: string): ProjectLine {
    var n := DigitRun(text);
    if n > 0 && n + 1 < |text| && text[n] == ':' then Project(ValueOf(text[..n]), text[n + 1..]) else OtherProject(text)
  }

  /** Position of the last colon, or the length. */
  function LastColon(s: string): (k: nat)
    ensures k <= |s|
  {
    if s == [] then 0
    else
      var rest := LastColon(s[1..]);
      if rest < |s| - 1 then rest + 1 else if s[0] == ':' then 0 else |s|
  }

  function ReadProjid(text: string): ProjidLine {
    var k := LastColon(text);
    if 0 < k && k + 1 < |text| && AllDigits(text[k + 1..]) then Projid(text[..k], ValueOf(text[k + 1..]))
    else OtherProjid(text)
  }

  function WriteProject(id: nat, path: string): string {
    Decimal(id) + ":" + path
  }

  function WriteProjid(name: string, id: nat): string {
    name + ":" + Decimal(id)
  }

  lemma {:induction false} DigitRunUnique(d: string, rest: string)
    requires AllDigits(d) && rest != [] && !IsDigit(rest[0])
    ensures DigitRun(d + rest) == |d|
  {
    if d == [] {
      assert d + rest == rest;
    } else {
      assert (d + rest)[1..] == d[1..] + rest;
      DigitRunUnique(d[1..], rest);
    }
  }

  lemma {:induction false} LastColonUnique(name: string, d: string)
    requires AllDigits(d)
    ensures LastColon(name + ":" + d) == |name|
  {
    var s := name + ":" + d;
    if name == [] {
      NoColon(d);
      assert s[1..] == d;
    } else {
      assert s[1..] == name[1..] + ":" + d;
      LastColonUnique(name[1..], d);
    }
  }

  lemma {:induction false} NoColon(d: string)
    requires AllDigits(d)
    ensures LastColon(d) == |d|
  {
    if d != [] {
      NoColon(d[1..]);
    }
  }

  /** A written project line is read back, for every path that is not empty. */
  lemma ProjectReadsBack(id: nat, path: string)
    requires path != []
    ensures ReadProject(WriteProject(id, path)) == Project(id, path)
  {
    var d, text := Decimal(id), WriteProject(id, path);
    DecimalReadsBack(id);
    DigitRunUnique(d, ":" + path);
    assert text == d + (":" + path) && text[..|d|] == d && text[|d| + 1..] == path;
  }

  /** A written name line is read back if and only if the name is not empty. */
  lemma ProjidReadsBack(name: string, id: nat)
    ensures ReadProjid(WriteProjid(name, id)) ==
            if name == [] then OtherProjid(WriteProjid(name, id)) else Projid(name, id)
  {
    var d, text := Decimal(id), WriteProjid(name, id);
    DecimalReadsBack(id);
    LastColonUnique(name, d);
    assert text[..|name|] == name && text[|name| + 1..] == d;
  }

  /** Exactly which lines are project lines. */
  lemma ReadProjectExact(text: string, id: nat, path: string)
    ensures ReadProject(text) == Project(id, path) <==>
            path != [] && exists d :: IsNumber(d, id) && text == d + ":" + path
  {
    if ReadProject(text) == Project(id, path) {
      var d := ProjectNumber(text, id, path);
    }
    if path != [] {
      if d :| IsNumber(d, id) && text == d + ":" + path {
        NumberedProject(d, id, path);
      }
    }
  }

  lemma ProjectNumber(text: string, id: nat, path: string) returns (d: string)
    requires ReadProject(text) == Project(id, path)
    ensures path != [] && IsNumber(d, id) && text == d + ":" + path
  {
    var n := DigitRun(text);
    d := text[..n];
    assert text == text[..n] + ":" + text[n + 1..];
  }

  lemma NumberedProject(d: string, id: nat, path: string)
    requires IsNumber(d, id) && path != []
    ensures ReadProject(d + ":" + path) == Project(id, path)
  {
    var text := d + ":" + path;
    DigitRunUnique(d, ":" + path);
    assert text == d + (":" + path) && text[..|d|] == d && text[|d| + 1..] == path;
  }

  /** Exactly which lines are name lines. */
  lemma ReadProjidExact(text: string, name: string, id: nat)
    ensures ReadProjid(text) == Projid(name, id) <==>
            name != [] && exists d :: IsNumber(d, id) && text == name + ":" + d
  {
    var k := LastColon(text);
    if ReadProjid(text) == Projid(name, id) {
      ColonAtLast(text);
      assert text == text[..k] + ":" + text[k + 1..];
      assert IsNumber(text[k + 1..], id);
    }
    if name != [] {
      if d :| IsNumber(d, id) && text == name + ":" + d {
        LastColonUnique(name, d);
        assert text[..|name|] == name && text[|name| + 1..] == d;
      }
    }
  }

  ghost predicate IsNumber(d: string, id: nat) {
    d != [] && AllDigits(d) && ValueOf(d) == id
  }

  lemma {:induction false} ColonAtLast(s: string)
    ensures LastColon(s) < |s| ==> s[LastColon(s)] == ':'
  {
    if s != [] {
      ColonAtLast(s[1..]);
    }
  }
}
