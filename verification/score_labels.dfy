/** The score overlay: each score is printed with `%i` into a 3-byte buffer
    and appended to a label buffer that already holds the label text
    ("Drone score: " in 16 bytes, "Player score: " in 17 bytes).  Text that
    needs more bytes than a buffer has, terminator included, overflows it. */
module ScoreLabels {

  const DRONE_LABEL_PREFIX: string := "Drone score: "
  const ENEMY_LABEL_PREFIX: string := "Player score: "
  const DRONE_LABEL_SIZE: nat := 16
  const ENEMY_LABEL_SIZE: nat := 17
  const SCORE_VALUE_SIZE: nat := 3

  predicate IsDigit(c: char)
  {
    '0' <= c <= '9'
  }

  function DigitChar(d: nat): (c: char)
    requires d < 10
    ensures IsDigit(c) && c as int - '0' as int == d
  {
    ('0' as int + d) as char
  }

  /** Decimal digits of `n`, most significant first, without leading zeros. */
  function Digits(n: nat): (s: seq<char>)
    ensures |s| >= 1
    ensures forall i :: 0 <= i < |s| ==> IsDigit(s[i])
  {
    if n < 10 then [DigitChar(n)] else Digits(n / 10) + [DigitChar(n % 10)]
  }

  /** What `sprintf(buf, "%i", n)` writes before the terminator. */
  function DecimalText(n: int): (s: seq<char>)
    ensures |s| >= 1
  {
    if n < 0 then ['-'] + Digits(-n) else Digits(n)
  }

  /** Value of a string of decimal digits. */
  function DigitsValue(s: seq<char>): int
  {
    if s == [] then 0 else DigitsValue(s[..|s| - 1]) * 10 + (s[|s| - 1] as int - '0' as int)
  }

  /** Reads back a `%i` text: an optional minus sign and digits. */
  function ParseDecimal(s: seq<char>): int
  {
    if |s| > 0 && s[0] == '-' then -DigitsValue(s[1..]) else DigitsValue(s)
  }

  lemma {:induction false} DigitsRoundTrip(n: nat)
    ensures DigitsValue(Digits(n)) == n
  {
    if n >= 10 {
      var s := Digits(n);
      assert s[..|s| - 1] == Digits(n / 10);
      DigitsRoundTrip(n / 10);
    }
  }

  /** The printed score reads back as the score. */
  lemma DecimalRoundTrip(n: int)
    ensures ParseDecimal(DecimalText(n)) == n
  {
    if n < 0 {
      DigitsRoundTrip(-n);
      assert DecimalText(n)[1..] == Digits(-n);
    } else {
      DigitsRoundTrip(n);
      assert IsDigit(Digits(n)[0]);
    }
  }

  /** One digit below ten, two below a hundred, more from a hundred up. */
  lemma DigitsLength(n: nat)
    ensures |Digits(n)| == 1 <==> n < 10
    ensures |Digits(n)| <= 2 <==> n < 100
  {
    if n >= 10 {
      assert |Digits(n)| == |Digits(n / 10)| + 1;
      if n >= 100 {
        assert n / 10 >= 10;
        assert |Digits(n / 10)| == |Digits(n / 100)| + 1;
      }
    }
  }

  /** `%i` needs at most two characters exactly for -9..99. */
  lemma DecimalTextShort(n: int)
    ensures |DecimalText(n)| <= 2 <==> -9 <= n <= 99
  {
    if n < 0 {
      DigitsLength(-n);
    } else {
      DigitsLength(n);
    }
  }

  /** Digits as `%i` prints them: at least one, and no leading zero unless
      the text is exactly "0". */
  predicate CanonicalDigits(t: seq<char>)
  {
    |t| >= 1 && (forall i :: 0 <= i < |t| ==> IsDigit(t[i])) && (t[0] == '0' ==> |t| == 1)
  }

  /** Text as `%i` prints an `int`: canonical digits, optionally after a
      minus sign that never precedes a zero. */
  predicate CanonicalDecimal(t: seq<char>)
  {
    CanonicalDigits(t) || (|t| >= 2 && t[0] == '-' && t[1] != '0' && CanonicalDigits(t[1..]))
  }

  /** Only zero is printed with a leading zero. */
  lemma {:induction false} DigitsLeadingZero(n: nat)
    ensures Digits(n)[0] == '0' ==> n == 0
  {
    if n >= 10 {
      DigitsLeadingZero(n / 10);
      assert Digits(n)[0] == Digits(n / 10)[0];
    }
  }

  /** `%i` output is canonical. */
  lemma DecimalTextCanonical(n: int)
    ensures CanonicalDecimal(DecimalText(n))
  {
    if n < 0 {
      DigitsLeadingZero(-n);
      assert DecimalText(n)[1..] == Digits(-n);
    } else {
      DigitsLeadingZero(n);
    }
  }

  /** A digit string is worth at least its leading digit. */
  lemma {:induction false} DigitsValueAtLeastFirst(t: seq<char>)
    requires |t| >= 1 && forall i :: 0 <= i < |t| ==> IsDigit(t[i])
    ensures DigitsValue(t) >= t[0] as int - '0' as int
  {
    if |t| > 1 {
      var init := t[..|t| - 1];
      assert init[0] == t[0];
      DigitsValueAtLeastFirst(init);
    } else {
      assert t[..0] == [];
    }
  }

  /** Canonical digits are exactly the digits of their value. */
  lemma {:induction false} CanonicalDigitsUnique(t: seq<char>)
    requires CanonicalDigits(t)
    ensures DigitsValue(t) >= 0 && t == Digits(DigitsValue(t))
    decreases |t|
  {
    var init := t[..|t| - 1];
    var d := t[|t| - 1] as int - '0' as int;
    if |t| == 1 {
      assert init == [];
      assert t == [DigitChar(d)];
    } else {
      assert init[0] == t[0] && init[0] != '0';
      assert CanonicalDigits(init);
      CanonicalDigitsUnique(init);
      DigitsValueAtLeastFirst(init);
      var v := DigitsValue(t);
      assert v == DigitsValue(init) * 10 + d;
      assert v / 10 == DigitsValue(init) && v % 10 == d;
      assert t == init + [DigitChar(d)];
    }
  }

  /** `%i` is the only canonical text that reads back as `n`: together with
      `DecimalRoundTrip`, canonical text and its value determine each other. */
  lemma DecimalTextUnique(t: seq<char>, n: int)
    requires CanonicalDecimal(t) && ParseDecimal(t) == n
    ensures t == DecimalText(n)
  {
    if CanonicalDigits(t) {
      CanonicalDigitsUnique(t);
    } else {
      var u := t[1..];
      CanonicalDigitsUnique(u);
      DigitsValueAtLeastFirst(u);
      assert t == ['-'] + u;
    }
  }

  datatype LabelResult = Label(text: string) | ValueOverflow | LabelOverflow

  /** Print `score` into the value buffer, then append it to the label
      buffer holding `prefix`. */
  function ScoreLabel(prefix: string, labelSize: nat, score: int): (r: LabelResult)
    ensures r.Label? <==>
              |DecimalText(score)| < SCORE_VALUE_SIZE && |prefix| + |DecimalText(score)| < labelSize
    ensures r.Label? ==> |prefix| < |r.text| < labelSize && r.text[..|prefix|] == prefix
    ensures r.Label? ==> ParseDecimal(r.text[|prefix|..]) == score
    ensures r.Label? ==> CanonicalDecimal(r.text[|prefix|..])
  {
    var value := DecimalText(score);
    if |value| + 1 > SCORE_VALUE_SIZE then ValueOverflow
    else if |prefix| + |value| + 1 > labelSize then LabelOverflow
    else
      var text := prefix + value;
      assert text[|prefix|..] == value;
      DecimalRoundTrip(score);
      DecimalTextCanonical(score);
      Label(text)
  }

  /** Both labels of the overlay. */
  function ShowGuiLabels(droneScore: int, enemyScore: int): (labels: (LabelResult, LabelResult))
    ensures labels.0.Label? ==>
              |DRONE_LABEL_PREFIX| < |labels.0.text| < DRONE_LABEL_SIZE && labels.0.text[..|DRONE_LABEL_PREFIX|] == DRONE_LABEL_PREFIX &&
              ParseDecimal(labels.0.text[|DRONE_LABEL_PREFIX|..]) == droneScore &&
              CanonicalDecimal(labels.0.text[|DRONE_LABEL_PREFIX|..])
    ensures labels.1.Label? ==>
              |ENEMY_LABEL_PREFIX| < |labels.1.text| < ENEMY_LABEL_SIZE && labels.1.text[..|ENEMY_LABEL_PREFIX|] == ENEMY_LABEL_PREFIX &&
              ParseDecimal(labels.1.text[|ENEMY_LABEL_PREFIX|..]) == enemyScore &&
              CanonicalDecimal(labels.1.text[|ENEMY_LABEL_PREFIX|..])
  {
    (ScoreLabel(DRONE_LABEL_PREFIX, DRONE_LABEL_SIZE, droneScore),
     ScoreLabel(ENEMY_LABEL_PREFIX, ENEMY_LABEL_SIZE, enemyScore))
  }

  /** The buffers hold the labels exactly for scores from -9 to 99; any other
      score overflows the 3-byte value buffer first. */
  lemma LabelsFitIff(droneScore: int, enemyScore: int)
    ensures ShowGuiLabels(droneScore, enemyScore).0.Label? <==> -9 <= droneScore <= 99
    ensures ShowGuiLabels(droneScore, enemyScore).1.Label? <==> -9 <= enemyScore <= 99
    ensures !(-9 <= droneScore <= 99) ==> ShowGuiLabels(droneScore, enemyScore).0 == ValueOverflow
    ensures !(-9 <= enemyScore <= 99) ==> ShowGuiLabels(droneScore, enemyScore).1 == ValueOverflow
  {
    DecimalTextShort(droneScore);
    DecimalTextShort(enemyScore);
  }
}
