/** Small shared vocabulary: options, bytes, ASCII case folding and decimal numerals. */
module Common {
  datatype Option<+T> = None | Some(value: T)

  type byte = x: int | 0 <= x < 256
  type Bytes = seq<byte>

  /** ASCII lower case of one character, as header names and routing tokens use it. */
  function LowerChar(c: char): char {
    if 'A' <= c <= 'Z' then (c as int + 32) as char else c
  }

  /** Case folding of a whole string: two header names are the same when their folds are equal. */
  function Fold(s: string): (r: string)
    ensures |r| == |s|
  {
    seq(|s|, i requires 0 <= i < |s| => LowerChar(s[i]))
  }

  function Digit(d: nat): char
    requires d < 10
  {
    ('0' as int + d) as char
  }

  /** Decimal numeral of a length, as strconv.Itoa writes it. */
  function Itoa(n: nat): string {
    if n < 10 then [Digit(n)] else Itoa(n / 10) + [Digit(n % 10)]
  }

  /** Value of a decimal numeral. */
  function Atoi(s: string): int {
    if s == [] then 0 else 10 * Atoi(s[..|s| - 1]) + (s[|s| - 1] as int - '0' as int)
  }

  /** A numeral reads back as the number it was written from, so no two lengths share a numeral. */
  lemma {:induction false} ItoaReadsBack(n: nat)
    ensures Atoi(Itoa(n)) == n
  {
    if n < 10 {
      assert Itoa(n)[..0] == [];
    } else {
      ItoaReadsBack(n / 10);
      assert Itoa(n)[..|Itoa(n)| - 1] == Itoa(n / 10);
    }
  }

  /** A numeral is written in the ten digits, most significant first, without leading zeros. */
  lemma {:induction false} ItoaIsDecimal(n: nat)
    ensures Itoa(n) != "" && forall i | 0 <= i < |Itoa(n)| :: '0' <= Itoa(n)[i] <= '9'
    ensures n > 0 ==> Itoa(n)[0] != '0'
    ensures Itoa(n)[|Itoa(n)| - 1] as int - '0' as int == n % 10
    ensures n >= 10 ==> Itoa(n)[..|Itoa(n)| - 1] == Itoa(n / 10)
  {
    if n >= 10 { ItoaIsDecimal(n / 10); }
  }

  /** Folding changes the letters A to Z to the small letters in the same place, and nothing else. */
  lemma FoldIsLowerCase(s: string, i: nat)
    requires i < |s|
    ensures 'A' <= s[i] <= 'Z' ==> Fold(s)[i] as int == s[i] as int + ('a' as int - 'A' as int)
    ensures !('A' <= s[i] <= 'Z') ==> Fold(s)[i] == s[i]
  {
  }
}
