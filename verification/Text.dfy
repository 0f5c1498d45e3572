/** Text helpers shared by the models. */
module Text {

  function LowerChar(c: char): char {
    if 'A' <= c <= 'Z' then (c as int + 32) as char else c
  }

  /** Python's `str.lower` on ASCII. */
  function Lower(s: string): string {
    seq(|s|, i requires 0 <= i < |s| => LowerChar(s[i]))
  }

  /** `part in s` */
  predicate Contains(s: string, part: string) {
    part <= s || (s != "" && Contains(s[1..], part))
  }

  function Digit(d: nat): char
    requires d < 10
  {
    "0123456789"[d]
  }

  function Decimal(n: nat): (s: string)
    ensures s != [] && forall i | 0 <= i < |s| :: s[i] != '_'
  {
    if n < 10 then [Digit(n)] else Decimal(n / 10) + [Digit(n % 10)]
  }

  lemma {:induction false} DecimalInjective(m: nat, n: nat)
    requires Decimal(m) == Decimal(n)
    ensures m == n
  {
    var s := Decimal(m);
    assert s[|s| - 1] == Digit(m % 10) == Digit(n % 10);
    if m >= 10 && n >= 10 {
      assert s[..|s| - 1] == Decimal(m / 10) == Decimal(n / 10);
      DecimalInjective(m / 10, n / 10);
    }
  }

  const CAPITALS := "ABCDEFGHIJKLMNOPQRSTUVWXYZ"
  const SMALL := "abcdefghijklmnopqrstuvwxyz"

  /** `b` is the small letter of the capital `a`. */
  predicate CaseOf(a: char, b: char) {
    exists i | 0 <= i < 26 :: CAPITALS[i] == a && SMALL[i] == b
  }

  lemma LettersAre(i: nat)
    requires i < 26
    ensures CAPITALS[i] as int == 65 + i && SMALL[i] as int == 97 + i
  {
  }

  lemma CapitalsAre(c: char)
    ensures c in CAPITALS <==> 'A' <= c <= 'Z'
  {
    if c in CAPITALS {
      var i :| 0 <= i < |CAPITALS| && CAPITALS[i] == c;
      LettersAre(i);
    }
    if 'A' <= c <= 'Z' {
      LettersAre(c as int - 65);
    }
  }

  lemma LowerCharIs(c: char)
    ensures if c in CAPITALS then CaseOf(c, LowerChar(c)) else LowerChar(c) == c
  {
    CapitalsAre(c);
    if c in CAPITALS {
      LettersAre(c as int - 65);
    }
  }

  /** Every capital becomes its small letter, every other character stays. */
  lemma LowerIs(s: string)
    ensures |Lower(s)| == |s|
    ensures forall i | 0 <= i < |s| :: if s[i] in CAPITALS then CaseOf(s[i], Lower(s)[i]) else Lower(s)[i] == s[i]
  {
    forall i | 0 <= i < |s|
      ensures if s[i] in CAPITALS then CaseOf(s[i], Lower(s)[i]) else Lower(s)[i] == s[i]
    {
      LowerCharIs(s[i]);
    }
  }

  predicate OccursAt(s: string, part: string, i: nat) {
    i + |part| <= |s| && s[i..i + |part|] == part
  }

  lemma OccursOneOn(s: string, part: string, i: nat)
    requires s != ""
    ensures OccursAt(s[1..], part, i) <==> OccursAt(s, part, i + 1)
  {
    if i + 1 + |part| <= |s| {
      var here, there := s[1..][i..i + |part|], s[i + 1..i + 1 + |part|];
      assert |here| == |there| && forall k | 0 <= k < |part| :: here[k] == s[i + 1 + k] == there[k];
      assert here == there;
    }
  }

  /** One text contains another exactly when it has it at some place. */
  lemma {:induction false} ContainsIff(s: string, part: string)
    ensures Contains(s, part) <==> exists i: nat :: OccursAt(s, part, i)
  {
    if part <= s {
      assert OccursAt(s, part, 0);
    }
    if s != "" {
      ContainsIff(s[1..], part);
      if i: nat :| OccursAt(s[1..], part, i) {
        OccursOneOn(s, part, i);
      }
      if i: nat :| OccursAt(s, part, i) {
        if i > 0 {
          OccursOneOn(s, part, i - 1);
        }
      }
    }
  }

  /** What a row of decimal digits says. */
  function ValueOf(s: string): int {
    if s == "" then 0 else 10 * ValueOf(s[..|s| - 1]) + (s[|s| - 1] as int - '0' as int)
  }

  lemma {:induction false} DecimalValue(n: nat)
    ensures ValueOf(Decimal(n)) == n
  {
    var s := Decimal(n);
    assert ValueOf("") == 0;
    if n >= 10 {
      DecimalValue(n / 10);
      assert s[..|s| - 1] == Decimal(n / 10);
    } else {
      assert s[..|s| - 1] == "";
    }
  }
}
