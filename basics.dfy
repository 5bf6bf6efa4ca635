/** Small value types and string helpers shared by the other modules: the
    optional and fallible results the Rust code returns, decimal formatting
    of counters (`format!("{}", n)`), substring search (`str::contains`) and
    ASCII lower-casing. */
module Basics {

  datatype Option<+T> = None | Some(value: T)

  datatype Result<+T, +E> = Ok(value: T) | Err(error: E)

  /** The numeral of a single decimal digit. */
  function Digit(d: nat): (c: char)
    requires d < 10
    ensures '0' <= c <= '9' && c as int - '0' as int == d
  {
    ('0' as int + d) as char
  }

  /** The value a numeral denotes; used to show that formatting loses nothing. */
  function DigitValue(c: char): nat
  {
    if '0' <= c <= '9' then (c as int - '0' as int) else 0
  }

  function NumeralValue(s: string): nat
  {
    if s == [] then 0 else NumeralValue(s[..|s| - 1]) * 10 + DigitValue(s[|s| - 1])
  }

  /** `format!("{}", n)` for an unsigned counter: the shortest decimal numeral of `n`. */
  function NatToString(n: nat): (s: string)
    ensures |s| > 0
    ensures forall i :: 0 <= i < |s| ==> '0' <= s[i] <= '9'
    ensures |s| > 1 ==> s[0] != '0'
    ensures NumeralValue(s) == n
    decreases n
  {
    if n < 10 then [Digit(n)]
    else
      var init := NatToString(n / 10);
      var s := init + [Digit(n % 10)];
      assert s[..|s| - 1] == init;
      s
  }

  /** Distinct counters are printed as distinct numerals. */
  lemma NatToStringInjective(m: nat, n: nat)
    requires NatToString(m) == NatToString(n)
    ensures m == n
  {
    assert NumeralValue(NatToString(m)) == m;
  }

  /** `needle` occurs in `haystack` starting at byte offset `i`. */
  predicate OccursAt(haystack: string, needle: string, i: nat)
  {
    i + |needle| <= |haystack| && haystack[i..i + |needle|] == needle
  }

  /** `haystack.contains(needle)` for a string needle. */
  function Contains(haystack: string, needle: string): (b: bool)
    ensures b <==> exists i: nat :: OccursAt(haystack, needle, i)
    decreases |haystack|
  {
    if |haystack| < |needle| then false
    else if haystack[..|needle|] == needle then assert OccursAt(haystack, needle, 0); true
    else
      var rest := Contains(haystack[1..], needle);
      assert rest <==> exists i: nat :: OccursAt(haystack, needle, i) by {
        forall i: nat | OccursAt(haystack[1..], needle, i)
          ensures OccursAt(haystack, needle, i + 1)
        {
          assert haystack[i + 1..i + 1 + |needle|] == haystack[1..][i..i + |needle|];
        }
        forall i: nat | OccursAt(haystack, needle, i)
          ensures i > 0 && OccursAt(haystack[1..], needle, i - 1)
        {
          assert haystack[i..i + |needle|] == haystack[1..][i - 1..i - 1 + |needle|];
        }
      }
      rest
  }

  /** ASCII lower-casing of one character; other characters are unchanged. */
  function LowerChar(c: char): (d: char)
    ensures 'A' <= c <= 'Z' ==> d as int == c as int + 32
    ensures !('A' <= c <= 'Z') ==> d == c
  {
    if 'A' <= c <= 'Z' then (c as int + 32) as char else c
  }

  function Lower(s: string): (r: string)
    ensures |r| == |s|
    ensures forall i :: 0 <= i < |s| ==> r[i] == LowerChar(s[i])
  {
    if s == [] then [] else [LowerChar(s[0])] + Lower(s[1..])
  }
}
