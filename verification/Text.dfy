/** Text as the programs measure it: surrounding white space, and bytes of UTF-8. */
module Text {

  /** The characters unicode.IsSpace accepts. */
  predicate IsSpace(c: char) {
    var i := c as int;
    || 9 <= i <= 13 || i == 32 || i == 0x85 || i == 0xA0 || i == 0x1680 || 0x2000 <= i <= 0x200A
    || i == 0x2028 || i == 0x2029 || i == 0x202F || i == 0x205F || i == 0x3000
  }

  function TrimLeft(s: string): string {
    if s != [] && IsSpace(s[0]) then TrimLeft(s[1..]) else s
  }

  function TrimRight(s: string): string {
    if s != [] && IsSpace(s[|s| - 1]) then TrimRight(s[..|s| - 1]) else s
  }

  function Trim(s: string): string {
    TrimRight(TrimLeft(s))
  }

  predicate Blank(s: string) {
    Trim(s) == ""
  }

  function Size(c: char): nat {
    var i := c as int;
    if i < 0x80 then 1 else if i < 0x800 then 2 else if i < 0x1_0000 then 3 else 4
  }

  /** How many bytes the text takes in UTF-8. */
  function Bytes(s: string): nat {
    if s == "" then 0 else Size(s[0]) + Bytes(s[1..])
  }

  // ----- what trimming leaves

  lemma {:induction false} LeftIsTrimmed(s: string)
    ensures var t := TrimLeft(s); t == "" || !IsSpace(t[0])
    ensures TrimLeft(s) == "" ==> forall c :: c in s ==> IsSpace(c)
  {
    if s != "" && IsSpace(s[0]) {
      LeftIsTrimmed(s[1..]);
      assert s == [s[0]] + s[1..];
    }
  }

  lemma {:induction false} RightIsTrimmed(s: string)
    ensures var t := TrimRight(s); t == "" || (t[0] == s[0] && !IsSpace(t[|t| - 1]))
    ensures TrimRight(s) == "" ==> forall c :: c in s ==> IsSpace(c)
  {
    if s != "" && IsSpace(s[|s| - 1]) {
      RightIsTrimmed(s[..|s| - 1]);
      assert s == s[..|s| - 1] + [s[|s| - 1]];
    }
  }

  /** Trimming twice is trimming once, so what was trimmed is blank only if it is empty. */
  lemma TrimmedStays(s: string)
    ensures Trim(Trim(s)) == Trim(s) && (Blank(Trim(s)) <==> Blank(s))
  {
    LeftIsTrimmed(s);
    RightIsTrimmed(TrimLeft(s));
  }

  lemma BlankIsSpaces(s: string)
    ensures Blank(s) ==> forall c :: c in s ==> IsSpace(c)
  {
    LeftIsTrimmed(s);
    RightIsTrimmed(TrimLeft(s));
    assert TrimLeft(s) != "" ==> TrimLeft(s)[0] in TrimLeft(s);
  }

  // ----- what trimming means

  ghost predicate AllSpace(s: string) {
    forall c :: c in s ==> IsSpace(c)
  }

  lemma {:induction false} LeftTakesSpace(s: string) returns (taken: string)
    ensures s == taken + TrimLeft(s) && AllSpace(taken)
  {
    taken := "";
    if s != "" && IsSpace(s[0]) {
      var more := LeftTakesSpace(s[1..]);
      taken := [s[0]] + more;
    }
  }

  lemma {:induction false} RightTakesSpace(s: string) returns (taken: string)
    ensures s == TrimRight(s) + taken && AllSpace(taken)
  {
    taken := "";
    if s != "" && IsSpace(s[|s| - 1]) {
      var more := RightTakesSpace(s[..|s| - 1]);
      taken := more + [s[|s| - 1]];
    }
  }

  /** Trimming takes white space from both ends, all of it and nothing else. */
  lemma TrimMeans(s: string) returns (before: string, after: string)
    ensures s == before + Trim(s) + after && AllSpace(before) && AllSpace(after)
    ensures Trim(s) != "" ==> !IsSpace(Trim(s)[0]) && !IsSpace(Trim(s)[|Trim(s)| - 1])
  {
    before := LeftTakesSpace(s);
    after := RightTakesSpace(TrimLeft(s));
    LeftIsTrimmed(s);
    RightIsTrimmed(TrimLeft(s));
    assert s == before + (Trim(s) + after);
  }

  /** The white space: the ASCII kinds, next line, the no-break space, and the Unicode spaces and separators. */
  const SPACES := "\t\n\U{B}\U{C}\r \U{85}\U{A0}\U{1680}\U{2000}\U{2001}\U{2002}\U{2003}\U{2004}\U{2005}\U{2006}"
    + "\U{2007}\U{2008}\U{2009}\U{200A}\U{2028}\U{2029}\U{202F}\U{205F}\U{3000}"

  lemma SpacesAreListed(c: char)
    ensures IsSpace(c) <==> c in SPACES
  {
  }
}
