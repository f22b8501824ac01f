/** The dotted key of a payload entry, and reading such a key back: splitting at the first dot, printing and parsing
    layer numbers. */
module PayloadKeys {
  import opened Options
  import opened Text

  // ---- decimal numbers ----

  function DigitChar(d: nat): char
    requires d < 10
  {
    '0' + d as char
  }

  function PrintNat(n: nat): (s: string)
    ensures s != [] && forall i | 0 <= i < |s| :: '0' <= s[i] <= '9'
  {
    if n < 10 then [DigitChar(n)] else PrintNat(n / 10) + [DigitChar(n % 10)]
  }

  predicate IsStringSpace(c: char) {
    c == ' ' || '\t' <= c <= '\r' || '\U{1C}' <= c <= '\U{1F}'
  }

  /** str(n) */
  function PrintInt(n: int): (s: string)
    ensures s != [] && !IsStringSpace(s[0]) && !IsStringSpace(s[|s| - 1])
  {
    if n < 0 then "-" + PrintNat(-n) else PrintNat(n)
  }

  /** Digits, with single underscores between them. */
  function ParseNat(s: string): Option<nat> {
    if s == [] || !('0' <= s[|s| - 1] <= '9') then None
    else
      var last, rest := (s[|s| - 1] - '0') as int, s[..|s| - 1];
      if rest == [] then Some(last)
      else
        var high := if rest[|rest| - 1] == '_' then ParseNat(rest[..|rest| - 1]) else ParseNat(rest);
        if high == None then None else Some(high.value * 10 + last)
  }

  function Negated(n: Option<nat>): Option<int> {
    match n
    case None => None
    case Some(value) => Some(0 - value)
  }

  function ParseSigned(t: string): Option<int> {
    if t != [] && t[0] == '-' then Negated(ParseNat(t[1..]))
    else if t != [] && t[0] == '+' then ParseNat(t[1..])
    else ParseNat(t)
  }

  /** int(s), for ASCII s */
  function ParseInt(s: string): Option<int> {
    ParseSigned(Strip(s, IsStringSpace))
  }

  // ---- what the decimal texts mean ----

  function Pow10(k: nat): nat {
    if k == 0 then 1 else 10 * Pow10(k - 1)
  }

  predicate Digits(s: string) {
    forall i | 0 <= i < |s| :: '0' <= s[i] <= '9'
  }

  /** The sum of each digit times its power of ten. */
  function DigitSum(s: string): nat
    requires Digits(s)
  {
    if s == [] then 0 else (s[0] - '0') as nat * Pow10(|s| - 1) + DigitSum(s[1..])
  }

  lemma Tenfold(d: nat, p: nat)
    ensures d * (10 * p) == 10 * (d * p)
  {
  }

  lemma {:induction false} DigitSumSnoc(s: string, c: char)
    requires Digits(s) && '0' <= c <= '9'
    ensures Digits(s + [c]) && DigitSum(s + [c]) == 10 * DigitSum(s) + (c - '0') as nat
  {
    var t := s + [c];
    if s == [] {
      assert t == [c] && t[1..] == [];
    } else {
      DigitSumSnoc(s[1..], c);
      assert t[1..] == s[1..] + [c];
      var first, power := (s[0] - '0') as nat, Pow10(|s| - 1);
      assert DigitSum(t) == first * (10 * power) + DigitSum(t[1..]) by {
        assert Pow10(|s|) == 10 * power;
      }
      Tenfold(first, power);
    }
  }

  /** A printed number is its decimal digits, without a leading zero, and behind a minus sign if it is negative. */
  lemma {:induction false} PrintNatIs(n: nat)
    ensures Digits(PrintNat(n)) && DigitSum(PrintNat(n)) == n && (PrintNat(n)[0] == '0' <==> n == 0)
  {
    if n >= 10 {
      PrintNatIs(n / 10);
      DigitSumSnoc(PrintNat(n / 10), DigitChar(n % 10));
    } else {
      DigitSumSnoc([], DigitChar(n));
      assert [] + [DigitChar(n)] == [DigitChar(n)];
    }
  }

  lemma PrintIntIs(n: int)
    ensures 0 <= n ==> Digits(PrintInt(n)) && DigitSum(PrintInt(n)) == n && (PrintInt(n)[0] == '0' <==> n == 0)
    ensures n < 0 ==> PrintInt(n)[0] == '-' && PrintInt(n)[1..] == PrintInt(-n)
  {
    PrintNatIs(if n < 0 then -n else n);
  }

  function WithoutUnderscores(s: string): string {
    if s == [] then [] else (if s[0] == '_' then [] else [s[0]]) + WithoutUnderscores(s[1..])
  }

  lemma {:induction false} UnderscoresSnoc(s: string, c: char)
    ensures WithoutUnderscores(s + [c]) == WithoutUnderscores(s) + if c == '_' then [] else [c]
  {
    if s == [] {
      assert s + [c] == [c] && [c][1..] == [];
    } else {
      UnderscoresSnoc(s[1..], c);
      assert (s + [c])[1..] == s[1..] + [c];
    }
  }

  predicate IsDigit(c: char) {
    '0' <= c <= '9'
  }

  /** What may follow a digit: more digits, each perhaps behind one underscore. */
  predicate MoreDigits(s: string) {
    || s == []
    || (IsDigit(s[0]) && MoreDigits(s[1..]))
    || (s[0] == '_' && |s| > 1 && IsDigit(s[1]) && MoreDigits(s[2..]))
  }

  predicate Numeral(s: string) {
    s != [] && IsDigit(s[0]) && MoreDigits(s[1..])
  }

  lemma {:induction false} MoreDigitsSnoc(s: string, c: char)
    requires IsDigit(c)
    ensures MoreDigits(s + [c]) <==> MoreDigits(s) || (s != [] && s[|s| - 1] == '_' && MoreDigits(s[..|s| - 1]))
    decreases |s|
  {
    var t := s + [c];
    if s == [] {
      assert t == [c] && t[1..] == [];
    } else if IsDigit(s[0]) {
      assert t[1..] == s[1..] + [c] && (|s| > 1 ==> s[..|s| - 1][1..] == s[1..][..|s| - 2]);
      MoreDigitsSnoc(s[1..], c);
    } else if s[0] == '_' && |s| > 1 && IsDigit(s[1]) {
      assert t[2..] == s[2..] + [c] && (|s| > 2 ==> s[..|s| - 1][2..] == s[2..][..|s| - 3]);
      MoreDigitsSnoc(s[2..], c);
    } else if s[0] == '_' && |s| == 1 {
      assert t[2..] == [];
    }
  }

  lemma {:induction false} EndsInDigit(s: string)
    requires MoreDigits(s)
    ensures s == [] || IsDigit(s[|s| - 1])
    decreases |s|
  {
    if s != [] && IsDigit(s[0]) {
      EndsInDigit(s[1..]);
    } else if s != [] {
      EndsInDigit(s[2..]);
    }
  }

  /** A numeral behind which one more digit stands. */
  lemma NumeralSnoc(rest: string, c: char)
    requires IsDigit(c) && rest != []
    ensures Numeral(rest + [c]) <==>
            Numeral(if rest[|rest| - 1] == '_' then rest[..|rest| - 1] else rest)
  {
    assert (rest + [c])[1..] == rest[1..] + [c];
    MoreDigitsSnoc(rest[1..], c);
    if |rest| > 1 {
      assert rest[..|rest| - 1][1..] == rest[1..][..|rest| - 2];
      if MoreDigits(rest[1..]) {
        EndsInDigit(rest[1..]);
      }
    }
  }

  lemma {:induction false} WithoutUnderscoresIsDigits(s: string)
    requires MoreDigits(s)
    ensures Digits(WithoutUnderscores(s))
    decreases |s|
  {
    if s != [] && IsDigit(s[0]) {
      WithoutUnderscoresIsDigits(s[1..]);
    } else if s != [] {
      WithoutUnderscoresIsDigits(s[2..]);
      assert WithoutUnderscores(s[1..]) == [s[1]] + WithoutUnderscores(s[2..]);
    }
  }

  /** The number that a numeral stands for: the sum of its digits, leading zeros and all. */
  function NumeralValue(s: string): nat
    requires Numeral(s)
  {
    WithoutUnderscoresIsDigits(s[1..]);
    DigitSum([s[0]] + WithoutUnderscores(s[1..]))
  }

  lemma ValueSnoc(rest: string, c: char)
    requires IsDigit(c) && rest != [] && Numeral(rest + [c])
    ensures var high := if rest[|rest| - 1] == '_' then rest[..|rest| - 1] else rest;
            Numeral(high) && NumeralValue(rest + [c]) == NumeralValue(high) * 10 + (c - '0') as nat
  {
    NumeralSnoc(rest, c);
    var high := if rest[|rest| - 1] == '_' then rest[..|rest| - 1] else rest;
    assert (rest + [c])[1..] == rest[1..] + [c];
    UnderscoresSnoc(rest[1..], c);
    if high != rest {
      assert rest[1..] == high[1..] + ['_'];
      UnderscoresSnoc(high[1..], '_');
    }
    WithoutUnderscoresIsDigits(high[1..]);
    var digits := [high[0]] + WithoutUnderscores(high[1..]);
    assert [rest[0]] + WithoutUnderscores((rest + [c])[1..]) == digits + [c];
    DigitSumSnoc(digits, c);
  }

  /** Which texts read as a number, and as which. */
  lemma {:induction false} ParseNatIs(s: string)
    ensures ParseNat(s) == if Numeral(s) then Some(NumeralValue(s)) else None
    decreases |s|
  {
    if s == [] {
    } else if !IsDigit(s[|s| - 1]) {
      if Numeral(s) {
        EndsInDigit(s[1..]);
      }
    } else {
      var c, rest := s[|s| - 1], s[..|s| - 1];
      assert s == rest + [c];
      if rest == [] {
        assert s[1..] == [] && [c][1..] == [] && [s[0]] + WithoutUnderscores([]) == [c];
        DigitSumSnoc([], c);
        assert [] + [c] == [c];
      } else {
        ParseNatIs(if rest[|rest| - 1] == '_' then rest[..|rest| - 1] else rest);
        NumeralSnoc(rest, c);
        if Numeral(s) {
          ValueSnoc(rest, c);
        }
      }
    }
  }

  function SignedValue(sign: string, s: string): int
    requires Numeral(s)
  {
    if sign == "-" then 0 - NumeralValue(s) else NumeralValue(s)
  }

  ghost predicate IntParts(t: string, n: int, a: string, sign: string, s: string, b: string) {
    && (forall c | c in a || c in b ::
          c in {' ', '\t', '\n', '\U{0B}', '\U{0C}', '\r', '\U{1C}', '\U{1D}', '\U{1E}', '\U{1F}'})
    && (sign == "" || sign == "+" || sign == "-") && Numeral(s)
    && t == a + (sign + s) + b && n == SignedValue(sign, s)
  }

  /** A text for the integer n, as int() takes it: perhaps spaces, perhaps a sign, digits that may be grouped by single
      underscores, perhaps spaces. */
  ghost predicate IsIntText(t: string, n: int) {
    exists a, sign, s, b :: IntParts(t, n, a, sign, s, b)
  }

  lemma SignedIs(sign: string, s: string)
    requires (sign == "" || sign == "+" || sign == "-") && Numeral(s)
    ensures ParseSigned(sign + s) == Some(SignedValue(sign, s))
  {
    ParseNatIs(s);
    if sign != "" {
      assert (sign + s)[1..] == s;
    } else {
      assert sign + s == s;
    }
  }

  lemma SignedParts(t: string, n: int) returns (sign: string, s: string)
    requires ParseSigned(t) == Some(n)
    ensures (sign == "" || sign == "+" || sign == "-") && Numeral(s) && t == sign + s
    ensures n == SignedValue(sign, s)
  {
    if t != [] && (t[0] == '-' || t[0] == '+') {
      sign, s := [t[0]], t[1..];
    } else {
      sign, s := "", t;
    }
    ParseNatIs(s);
  }

  /** int() reads exactly such texts. */
  lemma ParseIntIff(t: string, n: int)
    ensures ParseInt(t) == Some(n) <==> IsIntText(t, n)
  {
    if ParseInt(t) == Some(n) {
      var a, b := StripIs(t, IsStringSpace);
      var sign, s := SignedParts(Strip(t, IsStringSpace), n);
      assert IntParts(t, n, a, sign, s, b);
    }
    if IsIntText(t, n) {
      var a, sign, s, b :| IntParts(t, n, a, sign, s, b);
      EndsInDigit(s[1..]);
      StripBoth(a, sign + s, b, IsStringSpace);
      SignedIs(sign, s);
    }
  }

  lemma {:induction false} ParsePrintNat(n: nat)
    ensures ParseNat(PrintNat(n)) == Some(n)
  {
    var s := PrintNat(n);
    assert (s[|s| - 1] - '0') as int == n % 10;
    if n >= 10 {
      ParsePrintNat(n / 10);
      assert s[..|s| - 1] == PrintNat(n / 10);
    }
  }

  lemma ParsePrintSigned(n: int)
    ensures ParseSigned(PrintInt(n)) == Some(n)
  {
    var digits := PrintNat(if n < 0 then -n else n);
    ParsePrintNat(if n < 0 then -n else n);
    assert digits[0] != '-' && digits[0] != '+';
    assert n < 0 ==> ("-" + digits)[1..] == digits;
  }

  /** A printed layer number reads back as itself. */
  lemma ParsePrintInt(n: int)
    ensures ParseInt(PrintInt(n)) == Some(n)
  {
    StripNothing(PrintInt(n), IsStringSpace);
    ParsePrintSigned(n);
  }

  // ---- dotted keys ----

  const HIDDEN_STATES := "hidden_states"
  const LAYERS := "layers"
  const LAYER_PREFIX := "layer_"
  const NESTED_KEYS: set<string> := {"hidden_states", "embed", "ids", "codes", "meta"}

  /** key.split(".", 1), for a key with a dot */
  function SplitKey(key: string): (r: (string, string))
    requires '.' in key
    ensures key == r.0 + "." + r.1 && '.' !in r.0
  {
    if key[0] == '.' then ([], key[1..])
    else
      var r := SplitKey(key[1..]);
      ([key[0]] + r.0, r.1)
  }

  lemma {:induction false} SplitIsUnique(a: string, b: string)
    requires '.' !in a
    ensures '.' in a + "." + b && SplitKey(a + "." + b) == (a, b)
  {
    assert (a + "." + b)[|a|] == '.';
    if a == [] {
      assert (a + "." + b)[1..] == b;
    } else {
      SplitIsUnique(a[1..], b);
      assert (a + "." + b)[1..] == a[1..] + "." + b;
      assert a == [a[0]] + a[1..];
    }
  }

  /** Where an entry sits in a payload: at the top, in a category, or among the hidden-state layers. */
  datatype Path = Top(key: string) | In(category: string, qualifier: string) | Layer(index: int)

  predicate IsLayerName(qualifier: string) {
    LAYER_PREFIX <= qualifier
  }

  function KeyOf(path: Path): string {
    match path
    case Top(key) => key
    case In(category, qualifier) => category + "." + qualifier
    case Layer(index) => HIDDEN_STATES + "." + (LAYER_PREFIX + PrintInt(index))
  }

  /** Where a flat key goes; None when int() would reject the layer number. */
  function PathOf(key: string): Option<Path> {
    if '.' !in key then Some(Top(key))
    else
      var (category, qualifier) := SplitKey(key);
      if category == HIDDEN_STATES && IsLayerName(qualifier) then
        var index := ParseInt(qualifier[|LAYER_PREFIX|..]);
        if index == None then None else Some(Layer(index.value))
      else Some(In(category, qualifier))
  }

  lemma Regroup(a: string, b: string, c: string)
    ensures a + (b + c) == a + b + c
  {
  }

  /** The texts of the keys. */
  lemma KeyTexts(key: string, category: string, qualifier: string, n: int)
    ensures KeyOf(Top(key)) == key && KeyOf(In(category, qualifier)) == category + "." + qualifier
    ensures KeyOf(Layer(n)) == "hidden_states.layer_" + PrintInt(n)
  {
    assert HIDDEN_STATES + "." + LAYER_PREFIX == "hidden_states.layer_";
    Regroup(HIDDEN_STATES + ".", LAYER_PREFIX, PrintInt(n));
  }

  /** A key without a dot is a top-level key; any other that is not a layer's is split at its first dot. */
  lemma KeyReads(category: string, qualifier: string)
    requires '.' !in category
    ensures PathOf(category) == Some(Top(category))
    ensures !(category == "hidden_states" && "layer_" <= qualifier) ==>
              PathOf(category + "." + qualifier) == Some(In(category, qualifier))
  {
    SplitIsUnique(category, qualifier);
  }

  /** "hidden_states.layer_" and a number is a layer; with anything but a number behind it, it does not read. */
  lemma LayerKeyReads(text: string)
    ensures forall n :: PathOf("hidden_states.layer_" + text) == Some(Layer(n)) <==> IsIntText(text, n)
    ensures (forall n :: !IsIntText(text, n)) ==> PathOf("hidden_states.layer_" + text) == None
  {
    var key, qualifier := "hidden_states.layer_" + text, "layer_" + text;
    SplitIsUnique("hidden_states", qualifier);
    assert key == "hidden_states" + "." + qualifier;
    assert qualifier[6..] == text;
    forall n ensures PathOf(key) == Some(Layer(n)) <==> IsIntText(text, n) {
      ParseIntIff(text, n);
    }
    if ParseInt(text).Some? {
      ParseIntIff(text, ParseInt(text).value);
    }
  }

  /** What a key's path says about its text. */
  lemma KeyOfPath(key: string)
    ensures match PathOf(key)
            case Some(Top(c)) => key == c && '.' !in key
            case Some(In(c, q)) => key == c + "." + q && '.' !in c
            case _ => "hidden_states.layer_" <= key
  {
    if '.' in key {
      var (category, qualifier) := SplitKey(key);
      if category == HIDDEN_STATES && IsLayerName(qualifier) {
        assert key == "hidden_states." + qualifier && "hidden_states." + "layer_" == "hidden_states.layer_";
      }
    }
  }

  /** Only a layer key with something else than a number does not read. */
  lemma UnreadableKey(key: string) returns (text: string)
    requires PathOf(key) == None
    ensures key == "hidden_states.layer_" + text && forall n :: !IsIntText(text, n)
  {
    text := SplitKey(key).1[6..];
    assert key == "hidden_states" + "." + ("layer_" + text);
    assert "hidden_states" + "." + ("layer_" + text) == "hidden_states.layer_" + text;
    LayerKeyReads(text);
  }

  /** Paths whose key reads back. */
  predicate Readable(path: Path) {
    match path
    case Top(key) => '.' !in key
    case In(category, qualifier) => '.' !in category && !(category == HIDDEN_STATES && IsLayerName(qualifier))
    case Layer(_) => true
  }

  /** A path's key reads back as the path exactly when the path is readable. */
  lemma KeyReadsBackIff(path: Path)
    ensures PathOf(KeyOf(path)) == Some(path) <==> Readable(path)
  {
    match path
    case Top(key) =>
    case In(category, qualifier) =>
      if '.' !in category {
        SplitIsUnique(category, qualifier);
      } else {
        assert '.' in category + "." + qualifier;
      }
    case Layer(index) =>
      var qualifier := LAYER_PREFIX + PrintInt(index);
      SplitIsUnique(HIDDEN_STATES, qualifier);
      assert qualifier[|LAYER_PREFIX|..] == PrintInt(index);
      ParsePrintInt(index);
  }

  /** Every path that a key reads as is readable. */
  lemma PathIsReadable(key: string)
    ensures PathOf(key).Some? ==> Readable(PathOf(key).value)
  {
  }
}
