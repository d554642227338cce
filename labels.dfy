/**
 * Body labels. createFruit tags a fruit body with "fruit_" followed by its
 * tier index in decimal (script.js:285-291). The collision handler, the
 * danger check and the renderer recognise a fruit by that prefix and read
 * the tier back with parseInt(label.split('_')[1]) (script.js:482, 485-486,
 * 525). The rest of the model carries the tier as a typed Tag; TagRoundTrip
 * shows that the typed tag and the label string agree.
 */
module Labels {
  import opened Wrappers

  const FruitPrefix: string := "fruit_"

  predicate IsDigit(c: char) { '0' <= c <= '9' }

  predicate AllDigits(s: string) { forall i :: 0 <= i < |s| ==> IsDigit(s[i]) }

  function DigitChar(d: nat): (c: char)
    requires d < 10
    ensures IsDigit(c) && c as int - '0' as int == d
  {
    ('0' as int + d) as char
  }

  /** The decimal numeral of n, as String(n) writes a non-negative integer. */
  function Decimal(n: nat): (s: string)
    ensures |s| > 0 && AllDigits(s)
    decreases n
  {
    if n < 10 then [DigitChar(n)] else Decimal(n / 10) + [DigitChar(n % 10)]
  }

  /** The value of a string of decimal digits, most significant digit first. */
  function DigitsValue(s: string): nat
    requires AllDigits(s)
    decreases |s|
  {
    if s == [] then 0
    else
      DigitsValue(s[..|s| - 1]) * 10 + (s[|s| - 1] as int - '0' as int)
  }

  /** The characters of s before the first sep, that is, field 0 of s.split(sep). */
  function FirstField(s: string, sep: char): (r: string)
    ensures r <= s && sep !in r
    ensures |r| < |s| ==> s[|r|] == sep
  {
    if s == [] || s[0] == sep then [] else [s[0]] + FirstField(s[1..], sep)
  }

  /** The longest run of decimal digits that starts s: what parseInt reads. */
  function DigitPrefix(s: string): (r: string)
    ensures r <= s && AllDigits(r)
    ensures |r| < |s| ==> !IsDigit(s[|r|])
  {
    if s == [] || !IsDigit(s[0]) then [] else [s[0]] + DigitPrefix(s[1..])
  }

  /** parseInt on a string without sign or leading blanks; None stands for NaN. */
  function ParseInt(s: string): (r: Option<nat>)
    ensures r.None? <==> (s == [] || !IsDigit(s[0]))
  {
    var d := DigitPrefix(s);
    if d == [] then None else Some(DigitsValue(d))
  }

  /** label.startsWith('fruit_'). */
  predicate IsFruitLabel(text: string): (r: bool)
    ensures r <==> |text| >= 6 && text[..6] == ['f', 'r', 'u', 'i', 't', '_']
  {
    FruitPrefix <= text
  }

  /** "fruit_" + index: the prefix, then the decimal digits of the index. */
  function FormatLabel(index: nat): (r: string)
    ensures IsFruitLabel(r) && |r| > |FruitPrefix|
    ensures AllDigits(r[|FruitPrefix|..]) && '_' !in r[|FruitPrefix|..]
  {
    FruitPrefix + Decimal(index)
  }

  /**
   * parseInt(label.split('_')[1]) on a fruit label. The prefix "fruit_" holds
   * the first '_' of the label, so field 1 starts right after the prefix.
   */
  function ParseTier(text: string): (r: Option<nat>)
    requires IsFruitLabel(text)
    ensures r.None? <==> |text| == |FruitPrefix| || !IsDigit(text[|FruitPrefix|])
  {
    ParseInt(FirstField(text[|FruitPrefix|..], '_'))
  }

  lemma {:induction false} DecimalValue(n: nat)
    ensures DigitsValue(Decimal(n)) == n
    decreases n
  {
    if n >= 10 {
      DecimalValue(n / 10);
      var s := Decimal(n);
      assert s[..|s| - 1] == Decimal(n / 10);
    }
  }

  /** Reading the tier back from a fruit label gives the index it was made from. */
  lemma FormatParse(index: nat)
    ensures IsFruitLabel(FormatLabel(index))
    ensures ParseTier(FormatLabel(index)) == Some(index)
  {
    var digits := Decimal(index);
    assert FormatLabel(index)[|FruitPrefix|..] == digits;
    var field := FirstField(digits, '_');
    assert field == digits;
    var d := DigitPrefix(digits);
    assert d == digits;
    DecimalValue(index);
  }

  /** Different tiers get different labels. */
  lemma FormatInjective(i: nat, j: nat)
    ensures FormatLabel(i) == FormatLabel(j) ==> i == j
  {
    FormatParse(i);
    FormatParse(j);
  }

  /** A body's kind: a fruit of some tier, or a static body with its own label. */
  datatype Tag = Fruit(tier: nat) | Static(name: string)

  /** The label Matter.js would carry for a body of this kind. */
  function Label(t: Tag): string
  {
    match t
    case Fruit(k) => FormatLabel(k)
    case Static(name) => name
  }

  /**
   * The typed tag loses nothing: a label passes the prefix test exactly when
   * it belongs to a fruit (static labels never start with "fruit_"), and the
   * tier parsed from a fruit's label is its tier.
   */
  lemma TagRoundTrip(t: Tag)
    requires t.Static? ==> !IsFruitLabel(t.name)
    ensures IsFruitLabel(Label(t)) <==> t.Fruit?
    ensures t.Fruit? ==> ParseTier(Label(t)) == Some(t.tier)
  {
    if t.Fruit? {
      FormatParse(t.tier);
    }
  }
}
