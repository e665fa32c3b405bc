/** The few pieces of java.lang.String and java.util.regex that the world-loading
    command relies on, restated over Dafny strings. Only the behaviour the command
    can observe is modelled: the predefined character classes of the regex
    package with no flags set, String.lastIndexOf(char), String.toUpperCase()
    on ASCII letters, and Integer.parseInt on a single decimal digit. */
module JavaText {

  /** `\w` with no flags: [a-zA-Z_0-9]. */
  predicate IsWordChar(c: char) {
    'a' <= c <= 'z' || 'A' <= c <= 'Z' || '0' <= c <= '9' || c == '_'
  }

  /** `\d` with no flags: [0-9]. */
  predicate IsDigit(c: char) {
    '0' <= c <= '9'
  }

  /** The characters that `.` refuses when DOTALL and UNIX_LINES are off. */
  predicate IsLineTerminator(c: char) {
    c == '\n' || c == '\r' || c == '\U{85}' || c == '\U{2028}' || c == '\U{2029}'
  }

  /** String.lastIndexOf(char): the largest index holding `c`, or -1 when there is none. */
  function LastIndexOf(s: string, c: char): (r: int)
    ensures -1 <= r < |s|
    ensures 0 <= r ==> s[r] == c
    ensures forall k :: r < k < |s| ==> s[k] != c
  {
    if |s| == 0 then -1
    else if s[|s| - 1] == c then |s| - 1
    else LastIndexOf(s[..|s| - 1], c)
  }

  /** The index of the last `c` is determined by the string: any position holding
      `c` with no `c` after it is that index. */
  lemma LastIndexOfIsLast(s: string, c: char, i: int)
    requires 0 <= i < |s| && s[i] == c
    requires forall k :: i < k < |s| ==> s[k] != c
    ensures LastIndexOf(s, c) == i
  {
  }

  /** Character.toUpperCase restricted to ASCII: 'a'..'z' become 'A'..'Z'. */
  function UpperChar(c: char): char {
    if 'a' <= c <= 'z' then (c as int - ('a' as int - 'A' as int)) as char else c
  }

  /** String.toUpperCase(), letter by letter, on ASCII letters. */
  function ToUpperCase(s: string): (r: string)
    ensures |r| == |s|
    ensures forall k :: 0 <= k < |s| ==> r[k] == UpperChar(s[k])
    ensures forall k :: 0 <= k < |r| ==> !('a' <= r[k] <= 'z')
  {
    if s == [] then [] else [UpperChar(s[0])] + ToUpperCase(s[1..])
  }

  /** `s.matches("\\d")`: the whole string is exactly one decimal digit, that is,
      the decimal rendering of some value 0..9. */
  predicate IsSingleDigit(s: string): (b: bool)
    ensures b <==> exists n :: 0 <= n <= 9 && s == [DigitChar(n)]
  {
    if |s| == 1 && IsDigit(s[0]) then
      var n := s[0] as int - '0' as int;
      assert s == [DigitChar(n)];
      true
    else
      false
  }

  /** The digit character naming the value `n`. */
  function DigitChar(n: int): char
    requires 0 <= n <= 9
  {
    ('0' as int + n) as char
  }

  /** Integer.parseInt on a string that `\d` matched. */
  function ParseDigit(s: string): (n: int)
    requires IsSingleDigit(s)
    ensures 0 <= n <= 9
    ensures [DigitChar(n)] == s
  {
    s[0] as int - '0' as int
  }
}
