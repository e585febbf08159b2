/**
 * Character classes and string helpers behind the store's text handling:
 * Python's `\w`, `str.isspace`, `str.lower`, `in` on strings, `strip()`,
 * `lstrip(c)` and `str(int)`, all restricted to ASCII.
 */
module Text {

  /** `\w` over ASCII: a letter, a digit or the underscore. */
  predicate IsWordChar(c: char) {
    'a' <= c <= 'z' || 'A' <= c <= 'Z' || '0' <= c <= '9' || c == '_'
  }

  /** The ASCII characters `str.isspace` accepts: 0x09-0x0D, the separators 0x1C-0x1F and the space. */
  predicate IsSpace(c: char) {
    9 <= c as int <= 13 || 28 <= c as int <= 32
  }

  /** Every character of `s` is whitespace (the empty string included). */
  ghost predicate IsBlank(s: string) {
    forall i :: 0 <= i < |s| ==> IsSpace(s[i])
  }

  predicate IsUpper(c: char) {
    'A' <= c <= 'Z'
  }

  /** `str.lower()` on one ASCII character. */
  function LowerChar(c: char): (r: char)
    ensures !IsUpper(r)
    ensures !IsUpper(c) ==> r == c
    ensures IsUpper(c) ==> r as int == c as int + 32
  {
    if IsUpper(c) then (c as int + 32) as char else c
  }

  /** `str.lower()`: upper-case ASCII letters become lower case, nothing else changes. */
  function Lower(s: string): (r: string)
    ensures |r| == |s|
    ensures forall i :: 0 <= i < |r| ==> !IsUpper(r[i])
    ensures forall i :: 0 <= i < |s| && !IsUpper(s[i]) ==> r[i] == s[i]
    ensures forall i :: 0 <= i < |s| && IsUpper(s[i]) ==> r[i] as int == s[i] as int + 32
  {
    seq(|s|, i requires 0 <= i < |s| => LowerChar(s[i]))
  }

  /** `q` occurs in `s` starting at position `i`. */
  ghost predicate OccursAt(q: string, s: string, i: int) {
    0 <= i <= |s| - |q| && s[i..i + |q|] == q
  }

  /** `q` occurs in `s` as a contiguous block (Python's `q in s`). */
  ghost predicate OccursIn(q: string, s: string) {
    exists i :: OccursAt(q, s, i)
  }

  lemma OccursShift(q: string, s: string)
    requires |q| <= |s| && s[..|q|] != q
    ensures OccursIn(q, s) <==> OccursIn(q, s[1..])
  {
    if OccursIn(q, s) {
      var i :| OccursAt(q, s, i);
      assert i != 0;
      assert s[1..][i - 1..i - 1 + |q|] == q;
      assert OccursAt(q, s[1..], i - 1);
    }
    if OccursIn(q, s[1..]) {
      var i :| OccursAt(q, s[1..], i);
      assert s[i + 1..i + 1 + |q|] == q;
      assert OccursAt(q, s, i + 1);
    }
  }

  /** Substring search by trying every start position left to right. */
  function Contains(s: string, q: string): (r: bool)
    ensures r <==> OccursIn(q, s)
    decreases |s|
  {
    if |q| > |s| then false
    else if s[..|q|] == q then assert OccursAt(q, s, 0); true
    else OccursShift(q, s); Contains(s[1..], q)
  }

  /** `s` with its leading whitespace removed. */
  function TrimLeft(s: string): (r: string)
    ensures |r| <= |s| && r == s[|s| - |r|..]
    ensures IsBlank(s[..|s| - |r|])
    ensures r == [] || !IsSpace(r[0])
  {
    if s != [] && IsSpace(s[0]) then
      var r := TrimLeft(s[1..]);
      assert s[..|s| - |r|] == [s[0]] + s[1..][..|s[1..]| - |r|];
      r
    else s
  }

  /** `s` with its trailing whitespace removed. */
  function TrimRight(s: string): (r: string)
    ensures |r| <= |s| && r == s[..|r|]
    ensures IsBlank(s[|r|..])
    ensures r == [] || !IsSpace(r[|r| - 1])
  {
    if s != [] && IsSpace(s[|s| - 1]) then
      var r := TrimRight(s[..|s| - 1]);
      assert s[|r|..] == s[..|s| - 1][|r|..] + [s[|s| - 1]];
      r
    else s
  }

  /** `str.strip()`: it leaves nothing exactly when the string is all whitespace. */
  function Strip(s: string): (r: string)
    ensures r == [] <==> IsBlank(s)
  {
    var left := TrimLeft(s);
    assert left != [] ==> !IsSpace(s[|s| - |left|]);
    var r := TrimRight(left);
    assert left != [] ==> r != [];
    assert left == [] ==> s == s[..|s| - |left|];
    r
  }

  /** `s.lstrip(c)`: every leading `c` removed, the rest untouched. */
  function LStrip(s: string, c: char): (r: string)
    ensures |r| <= |s| && r == s[|s| - |r|..]
    ensures forall i :: 0 <= i < |s| - |r| ==> s[i] == c
    ensures r == [] || r[0] != c
  {
    if s != [] && s[0] == c then LStrip(s[1..], c) else s
  }

  function DigitChar(d: nat): (r: char)
    requires d < 10
    ensures '0' <= r <= '9'
  {
    "0123456789"[d]
  }

  /** The decimal rendering of a natural number (`str(n)`). */
  function NatToString(n: nat): (r: string)
    ensures |r| > 0
    ensures forall i :: 0 <= i < |r| ==> '0' <= r[i] <= '9'
    decreases n
  {
    if n < 10 then [DigitChar(n)] else NatToString(n / 10) + [DigitChar(n % 10)]
  }

  /** The decimal rendering of an integer, with a leading minus sign when it is negative. */
  function IntToString(n: int): (r: string)
    ensures |r| > 0
    ensures r[0] == '-' <==> n < 0
  {
    if n < 0 then "-" + NatToString(-n) else NatToString(n)
  }
}
