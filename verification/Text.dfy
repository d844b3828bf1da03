/** The string operations the program relies on: whitespace stripping and truncation. */
module Text {

  /** The characters Python's str.isspace accepts. */
  predicate IsSpace(c: char) {
    var n := c as int;
    || 0x09 <= n <= 0x0D || 0x1C <= n <= 0x20 || n == 0x85 || n == 0xA0 || n == 0x1680
    || 0x2000 <= n <= 0x200A || n == 0x2028 || n == 0x2029 || n == 0x202F || n == 0x205F || n == 0x3000
  }

  function Rstrip(s: string): string {
    if s != [] && IsSpace(s[|s| - 1]) then Rstrip(s[..|s| - 1]) else s
  }

  function Lstrip(s: string): string {
    if s != [] && IsSpace(s[0]) then Lstrip(s[1..]) else s
  }

  function Strip(s: string): string {
    Rstrip(Lstrip(s))
  }

  function Take(s: string, limit: nat): string {
    if |s| <= limit then s else s[..limit]
  }

  predicate EndsInk(s: string) {
    s == [] || !IsSpace(s[|s| - 1])
  }

  /** Stripping keeps a prefix, drops whitespace only, and leaves no trailing whitespace. */
  lemma {:induction false} RstripPrefix(s: string)
    ensures Rstrip(s) <= s && EndsInk(Rstrip(s))
    ensures forall i :: |Rstrip(s)| <= i < |s| ==> IsSpace(s[i])
  {
    if s != [] && IsSpace(s[|s| - 1]) {
      RstripPrefix(s[..|s| - 1]);
    }
  }

  /** The converse: those three facts pin the stripped string down. */
  lemma {:induction false} RstripUnique(s: string, t: string)
    requires t <= s && EndsInk(t)
    requires forall i :: |t| <= i < |s| ==> IsSpace(s[i])
    ensures Rstrip(s) == t
  {
    if |t| < |s| {
      RstripUnique(s[..|s| - 1], t);
    }
  }

  lemma {:induction false} LstripStart(s: string)
    ensures Lstrip(s) == "" || !IsSpace(Lstrip(s)[0])
  {
    if s != [] && IsSpace(s[0]) { LstripStart(s[1..]); }
  }

  lemma StripTwice(s: string)
    ensures Strip(Strip(s)) == Strip(s)
  {
    LstripStart(s);
    RstripPrefix(Lstrip(s));
    RstripUnique(Strip(s), Strip(s));
  }
}
