/** Names, descriptions and reasons: texts of Unicode characters, trimmed and checked. */
module GroupTexts {

  const MAX_NAME: nat := 80
  const MAX_DESCRIPTION: nat := 1000
  const MAX_REASON: nat := 500

  predicate IsControl(c: char) {
    c as int < 0x20 || 0x7f <= c as int < 0xa0
  }

  /** Unicode's white space. */
  predicate IsSpace(c: char) {
    var n := c as int;
    || 0x09 <= n <= 0x0d || n == 0x20 || n == 0x85 || n == 0xa0 || n == 0x1680 || 0x2000 <= n <= 0x200a
    || n == 0x2028 || n == 0x2029 || n == 0x202f || n == 0x205f || n == 0x3000
  }

  predicate Blank(s: string) {
    forall i :: 0 <= i < |s| ==> IsSpace(s[i])
  }

  predicate ValidText(s: string, max: nat, mayBeBlank: bool) {
    && (mayBeBlank || !Blank(s))
    && |s| <= max
    && (forall i :: 0 <= i < |s| ==> !IsControl(s[i]))
  }

  predicate ValidReason(reason: string) {
    ValidText(reason, MAX_REASON, false)
  }

  /** White space at both ends removed. */
  function Trimmed(s: string): string {
    if s == "" then s
    else if IsSpace(s[0]) then Trimmed(s[1..])
    else if IsSpace(s[|s| - 1]) then Trimmed(s[..|s| - 1])
    else s
  }

  /** Trimming is idempotent, and leaves nothing exactly of blank texts. */
  lemma {:induction false} TrimmedTwice(s: string)
    ensures Trimmed(Trimmed(s)) == Trimmed(s)
    ensures Trimmed(s) == "" <==> Blank(s)
  {
    if s != "" && IsSpace(s[0]) {
      TrimmedTwice(s[1..]);
      assert s == [s[0]] + s[1..];
    } else if s != "" && IsSpace(s[|s| - 1]) {
      TrimmedTwice(s[..|s| - 1]);
      assert s == s[..|s| - 1] + [s[|s| - 1]];
    }
  }

  method CheckText(s: string, max: nat, mayBeBlank: bool) returns (ok: bool)
    ensures ok <==> ValidText(s, max, mayBeBlank)
  {
    TrimmedTwice(s);
    if (!mayBeBlank && Trimmed(s) == "") || |s| > max { return false; }
    for i := 0 to |s|
      invariant forall j :: 0 <= j < i ==> !IsControl(s[j])
    {
      if IsControl(s[i]) { return false; }
    }
    return true;
  }
}
