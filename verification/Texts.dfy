/** Trimming text the way the program's own strings are trimmed. */
module Texts {
  /** Unicode's White_Space property. */
  predicate IsSpace(c: char) {
    var n := c as int;
    || 0x09 <= n <= 0x0d || n == 0x20 || n == 0x85 || n == 0xa0 || n == 0x1680
    || 0x2000 <= n <= 0x200a || n == 0x2028 || n == 0x2029 || n == 0x202f || n == 0x205f || n == 0x3000
  }

  function TrimStart(s: string): (r: string)
    ensures r == [] || !IsSpace(r[0])
    ensures forall c <- r :: c in s
  {
    if s == [] || !IsSpace(s[0]) then s else TrimStart(s[1..])
  }

  function TrimEnd(s: string): (r: string)
    ensures r <= s
    ensures r == [] || !IsSpace(r[|r| - 1])
  {
    if s == [] || !IsSpace(s[|s| - 1]) then s else TrimEnd(s[..|s| - 1])
  }

  function Trim(s: string): string {
    TrimEnd(TrimStart(s))
  }

  /** The twenty-five of them. */
  lemma SpacesAre(c: char)
    ensures IsSpace(c) <==> c as int in {
              0x9, 0xa, 0xb, 0xc, 0xd, 0x20, 0x85, 0xa0, 0x1680,
              0x2000, 0x2001, 0x2002, 0x2003, 0x2004, 0x2005, 0x2006, 0x2007, 0x2008, 0x2009, 0x200a,
              0x2028, 0x2029, 0x202f, 0x205f, 0x3000}
  {
  }
}
