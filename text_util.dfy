/** String helpers that static/main.js gets from the JavaScript runtime:
    `String.prototype.toLowerCase` (ASCII part only), `split` on a separator
    followed by `pop`, and the decimal rendering of a count. */
module TextUtil {

  /** ASCII lower-casing of one character; every other character is kept. */
  function LowerChar(c: char): (r: char)
    ensures 'A' <= c <= 'Z' ==> r as int == c as int + 32
    ensures !('A' <= c <= 'Z') ==> r == c
    ensures !('A' <= r <= 'Z')
  {
    if 'A' <= c <= 'Z' then (c as int + 32) as char else c
  }

  /** `s.toLowerCase()`, restricted to ASCII letters. */
  function Lower(s: string): (r: string)
    ensures |r| == |s|
    ensures forall i :: 0 <= i < |s| ==> !('A' <= r[i] <= 'Z')
    ensures forall i :: 0 <= i < |s| ==> if 'A' <= s[i] <= 'Z' then r[i] as int == s[i] as int + 32 else r[i] == s[i]
    ensures forall i :: 0 <= i < |s| ==> (r[i] == '.' <==> s[i] == '.')
  {
    seq(|s|, i requires 0 <= i < |s| => LowerChar(s[i]))
  }

  /** `s.split(sep)`: the maximal pieces between occurrences of `sep`,
      always at least one piece (the empty string gives `[""]`). */
  function Split(s: string, sep: char): (r: seq<string>)
    ensures |r| >= 1
    ensures forall k :: 0 <= k < |r| ==> sep !in r[k]
    ensures |r| == 1 <==> sep !in s
    ensures |r| == 1 ==> r[0] == s
  {
    if s == [] then [[]]
    else
      var t := Split(s[1..], sep);
      if s[0] == sep then [[]] + t else [[s[0]] + t[0]] + t[1..]
  }

  /** The inverse of `Split`: `pieces.join(sep)`. */
  function Join(pieces: seq<string>, sep: char): string
    requires |pieces| >= 1
  {
    if |pieces| == 1 then pieces[0] else pieces[0] + [sep] + Join(pieces[1..], sep)
  }

  /** Joining the pieces of a split gives back the original string. */
  lemma {:induction false} JoinSplit(s: string, sep: char)
    ensures Join(Split(s, sep), sep) == s
  {
    if s != [] {
      var t := Split(s[1..], sep);
      JoinSplit(s[1..], sep);
      if s[0] == sep {
        assert Split(s, sep) == [[]] + t;
        assert ([[]] + t)[1..] == t;
      } else if |t| == 1 {
        assert Split(s, sep) == [[s[0]] + t[0]];
      } else {
        var r := [[s[0]] + t[0]] + t[1..];
        assert Split(s, sep) == r;
        assert r[1..] == t[1..];
        assert Join(t, sep) == t[0] + [sep] + Join(t[1..], sep);
      }
    }
  }

  /** `s.split(sep).pop()`: the last piece. */
  function AfterLast(s: string, sep: char): (r: string)
    ensures sep !in r
  {
    var pieces := Split(s, sep);
    pieces[|pieces| - 1]
  }

  /** `e` is the text after the last `sep` of `s`: a suffix of `s` free of
      `sep` that is either all of `s` or preceded by `sep`. */
  ghost predicate IsTextAfterLast(s: string, sep: char, e: string)
  {
    |e| <= |s| && s[|s| - |e|..] == e && sep !in e && (|e| == |s| || s[|s| - |e| - 1] == sep)
  }

  /** `AfterLast` is exactly the text after the last separator. */
  lemma {:induction false} AfterLastIsTextAfterLast(s: string, sep: char)
    ensures IsTextAfterLast(s, sep, AfterLast(s, sep))
  {
    if s != [] {
      var t := Split(s[1..], sep);
      AfterLastIsTextAfterLast(s[1..], sep);
      var e' := AfterLast(s[1..], sep);
      assert e' == t[|t| - 1];
      assert s[1..][|s| - 1 - |e'|..] == s[|s| - |e'|..];
      if s[0] == sep {
        assert Split(s, sep) == [[]] + t;
        assert AfterLast(s, sep) == e';
      } else if |t| == 1 {
        assert Split(s, sep) == [[s[0]] + t[0]];
        assert AfterLast(s, sep) == s;
      } else {
        var r := [[s[0]] + t[0]] + t[1..];
        assert Split(s, sep) == r;
        assert AfterLast(s, sep) == e';
        assert sep in s[1..];
        assert |e'| < |s| - 1;
      }
    }
  }

  /** There is only one text after the last separator. */
  lemma TextAfterLastUnique(s: string, sep: char, e1: string, e2: string)
    requires IsTextAfterLast(s, sep, e1) && IsTextAfterLast(s, sep, e2)
    ensures e1 == e2
  {
  }

  /** Lower-casing a suffix is taking the suffix of the lower-cased string. */
  lemma LowerSuffix(s: string, k: nat)
    requires k <= |s|
    ensures Lower(s)[k..] == Lower(s[k..])
  {
  }

  /** Lower-casing commutes with taking the text after the last `.`. */
  lemma AfterLastDotOfLower(s: string)
    ensures AfterLast(Lower(s), '.') == Lower(AfterLast(s, '.'))
  {
    var e := AfterLast(s, '.');
    AfterLastIsTextAfterLast(s, '.');
    AfterLastIsTextAfterLast(Lower(s), '.');
    var ls, le := Lower(s), Lower(e);
    LowerSuffix(s, |s| - |e|);
    assert '.' !in le by {
      forall i | 0 <= i < |le| ensures le[i] != '.' {
        assert e[i] != '.';
      }
    }
    assert IsTextAfterLast(ls, '.', le);
    TextAfterLastUnique(ls, '.', AfterLast(ls, '.'), le);
  }

  /** The decimal digit character of `d`. */
  function DigitChar(d: nat): (c: char)
    requires d < 10
    ensures '0' <= c <= '9' && c as int - '0' as int == d
  {
    ('0' as int + d) as char
  }

  /** `String(n)` for a non-negative integer: its decimal digits, no leading zero. */
  function NatToString(n: nat): (r: string)
    ensures |r| >= 1
    ensures forall i :: 0 <= i < |r| ==> '0' <= r[i] <= '9'
    ensures r[0] == '0' ==> n == 0
    ensures r[0] == '0' ==> r == "0"
    ensures n == 0 ==> r == "0"
    decreases n
  {
    if n < 10 then [DigitChar(n)] else NatToString(n / 10) + [DigitChar(n % 10)]
  }

  /** The value of a string of decimal digits. */
  function DecimalValue(s: string): nat
    requires forall i :: 0 <= i < |s| ==> '0' <= s[i] <= '9'
  {
    if s == [] then 0 else 10 * DecimalValue(s[..|s| - 1]) + (s[|s| - 1] as int - '0' as int)
  }

  /** Reading back the decimal rendering gives the number. */
  lemma {:induction false} DecimalValueOfNatToString(n: nat)
    ensures DecimalValue(NatToString(n)) == n
    decreases n
  {
    var r := NatToString(n);
    if n >= 10 {
      DecimalValueOfNatToString(n / 10);
      assert r[..|r| - 1] == NatToString(n / 10);
    }
  }

  /** Different numbers render differently. */
  lemma NatToStringInjective(a: nat, b: nat)
    requires NatToString(a) == NatToString(b)
    ensures a == b
  {
    DecimalValueOfNatToString(a);
    DecimalValueOfNatToString(b);
  }
}
