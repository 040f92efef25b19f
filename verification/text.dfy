/** String helpers the views rely on: ordering, ASCII case folding, substring search,
    title truncation, and fixed-width decimal digits. */
module Text {

  /** Lexicographic order on UTF-16 code units. The sources compare `HH:MM` times with
      localeCompare; on such texts the colon always meets a colon, and digits collate in
      code-unit order, so the two orders agree. */
  predicate StrLe(a: string, b: string)
    decreases |a|
  {
    if a == [] then true
    else if b == [] then false
    else if a[0] != b[0] then a[0] < b[0]
    else StrLe(a[1..], b[1..])
  }

  /** One step of the lexicographic comparison. */
  lemma StrLeStep(a: string, b: string)
    requires a != [] && b != []
    ensures StrLe(a, b) <==> a[0] < b[0] || (a[0] == b[0] && StrLe(a[1..], b[1..]))
  {
  }

  lemma {:induction false} StrLeTotal(a: string, b: string)
    ensures StrLe(a, b) || StrLe(b, a)
    decreases |a|
  {
    if a != [] && b != [] && a[0] == b[0] {
      StrLeTotal(a[1..], b[1..]);
    }
  }

  lemma {:induction false} StrLeTransitive(a: string, b: string, c: string)
    requires StrLe(a, b) && StrLe(b, c)
    ensures StrLe(a, c)
    decreases |a|
  {
    if a != [] && b != [] && c != [] && a[0] == b[0] && b[0] == c[0] {
      StrLeTransitive(a[1..], b[1..], c[1..]);
    }
  }

  lemma {:induction false} StrLeAntisymmetric(a: string, b: string)
    requires StrLe(a, b) && StrLe(b, a)
    ensures a == b
    decreases |a|
  {
    if a != [] && b != [] {
      StrLeAntisymmetric(a[1..], b[1..]);
      assert a == [a[0]] + a[1..] && b == [b[0]] + b[1..];
    }
  }

  /** ASCII lower-casing of one character (String.prototype.toLowerCase on ASCII text). */
  function LowerChar(c: char): (r: char)
    ensures !('A' <= r <= 'Z')
    ensures !('A' <= c <= 'Z') ==> r == c
  {
    if 'A' <= c <= 'Z' then (c as int + 32) as char else c
  }

  function Lower(s: string): (r: string)
    ensures |r| == |s|
    ensures forall i :: 0 <= i < |s| ==> r[i] == LowerChar(s[i])
  {
    seq(|s|, i requires 0 <= i < |s| => LowerChar(s[i]))
  }

  /** Lower-casing twice is lower-casing once. */
  lemma LowerIdempotent(s: string)
    ensures Lower(Lower(s)) == Lower(s)
  {
  }

  /** needle occurs in hay starting at index i. */
  predicate OccursAt(hay: string, needle: string, i: int) {
    0 <= i && i + |needle| <= |hay| && hay[i..i + |needle|] == needle
  }

  /** needle occurs in hay at some position (String.prototype.includes). */
  function Contains(hay: string, needle: string): (b: bool)
    ensures b <==> exists i :: OccursAt(hay, needle, i)
    decreases |hay|
  {
    if |needle| <= |hay| && hay[..|needle|] == needle then
      assert OccursAt(hay, needle, 0);
      true
    else if hay == [] then
      assert forall i :: !OccursAt(hay, needle, i);
      false
    else
      var rest := Contains(hay[1..], needle);
      ContainsShift(hay, needle);
      rest
  }

  lemma ContainsShift(hay: string, needle: string)
    requires hay != []
    requires !(|needle| <= |hay| && hay[..|needle|] == needle)
    ensures (exists i :: OccursAt(hay, needle, i)) <==> (exists i :: OccursAt(hay[1..], needle, i))
  {
    if exists i :: OccursAt(hay, needle, i) {
      var i :| OccursAt(hay, needle, i);
      assert i != 0;
      assert hay[1..][i - 1..i - 1 + |needle|] == hay[i..i + |needle|];
      assert OccursAt(hay[1..], needle, i - 1);
    }
    if exists i :: OccursAt(hay[1..], needle, i) {
      var i :| OccursAt(hay[1..], needle, i);
      assert hay[i + 1..i + 1 + |needle|] == hay[1..][i..i + |needle|];
      assert OccursAt(hay, needle, i + 1);
    }
  }

  /** Every text contains the empty text. */
  lemma ContainsEmpty(hay: string)
    ensures Contains(hay, "")
  {
    assert OccursAt(hay, "", 0);
  }

  const TitleLimit: nat := 15

  /** The PDF month cell's title: the first 15 characters followed by `...` when the title is
      longer than 15 characters, otherwise the title itself. */
  function TruncateTitle(t: string): (r: string)
    ensures |r| <= TitleLimit + 3
    ensures |t| <= TitleLimit ==> r == t
    ensures |t| > TitleLimit ==> |r| == TitleLimit + 3 && r[..TitleLimit] == t[..TitleLimit]
  {
    if |t| > TitleLimit then t[..TitleLimit] + "..." else t
  }

  /** Truncating an already truncated title changes nothing. */
  lemma TruncateIdempotent(t: string)
    ensures TruncateTitle(TruncateTitle(t)) == TruncateTitle(t)
  {
    if |t| > TitleLimit {
      var r := TruncateTitle(t);
      assert r[..TitleLimit] + "..." == r;
    }
  }

  predicate IsDigit(c: char) {
    '0' <= c <= '9'
  }

  function DigitChar(n: int): (c: char)
    requires 0 <= n <= 9
    ensures IsDigit(c)
  {
    ('0' as int + n) as char
  }

  function DigitValue(c: char): (n: int)
    requires IsDigit(c)
    ensures 0 <= n <= 9
    ensures DigitChar(n) == c
  {
    c as int - '0' as int
  }

  predicate AllDigits(s: string) {
    forall i :: 0 <= i < |s| ==> IsDigit(s[i])
  }

  /** Zero-padded two-digit decimal text (padStart(2, '0') on a number below 100). */
  function Pad2(n: int): (s: string)
    requires 0 <= n <= 99
    ensures |s| == 2 && AllDigits(s)
    ensures Num2(s) == n
  {
    [DigitChar(n / 10), DigitChar(n % 10)]
  }

  /** Value of a two-digit decimal text (parseInt on two digits). */
  function Num2(s: string): (n: int)
    requires |s| == 2 && AllDigits(s)
    ensures 0 <= n <= 99
  {
    10 * DigitValue(s[0]) + DigitValue(s[1])
  }

  lemma Num2RoundTrip(s: string)
    requires |s| == 2 && AllDigits(s)
    ensures Pad2(Num2(s)) == s
  {
  }

  /** Zero-padded four-digit decimal text: the hundreds, then the rest, each as two digits. */
  function Pad4(n: int): (s: string)
    requires 0 <= n <= 9999
    ensures |s| == 4 && AllDigits(s)
    ensures Num4(s) == n
  {
    var s := Pad2(n / 100) + Pad2(n % 100);
    assert s[0..2] == Pad2(n / 100) && s[2..4] == Pad2(n % 100);
    s
  }

  function Num4(s: string): (n: int)
    requires |s| == 4 && AllDigits(s)
    ensures 0 <= n <= 9999
  {
    100 * Num2(s[0..2]) + Num2(s[2..4])
  }

  lemma Num4RoundTrip(s: string)
    requires |s| == 4 && AllDigits(s)
    ensures Pad4(Num4(s)) == s
  {
    var hi, lo := Num2(s[0..2]), Num2(s[2..4]);
    var n := Num4(s);
    assert n / 100 == hi && n % 100 == lo;
    Num2RoundTrip(s[0..2]);
    Num2RoundTrip(s[2..4]);
    assert s == s[0..2] + s[2..4];
  }

  /** Decimal text of a natural number, without padding. */
  function Decimal(n: nat): (s: string)
    ensures |s| >= 1 && AllDigits(s)
  {
    if n < 10 then [DigitChar(n)] else Decimal(n / 10) + [DigitChar(n % 10)]
  }
}
