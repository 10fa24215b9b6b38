/**
 * The input formatters of the client (src/lib/utils.ts). The CPF, card
 * expiry and card number formatters strip every non-digit (`/\D/g`) and then
 * rewrite the FIRST match of a fixed-width group pattern with a template that
 * puts separators between the groups; `currencyToFloat` cleans a Brazilian
 * currency text before parsing it; `capitalize` upper-cases word starts.
 */
module Formatting {
  import opened Wrappers
  import opened Regex

  /** `(\d{3})(\d{3})(\d{3})(\d{2})` replaced by `$1.$2.$3-$4`. */
  const CpfGroups: seq<nat> := [3, 3, 3, 2]
  const CpfTemplate: seq<Piece> := [Ref(1), Lit("."), Ref(2), Lit("."), Ref(3), Lit("-"), Ref(4)]

  /** `(\d{2})(\d{2})` replaced by `$1/$2`. */
  const ExpiryGroups: seq<nat> := [2, 2]
  const ExpiryTemplate: seq<Piece> := [Ref(1), Lit("/"), Ref(2)]

  /** `(\d{4})(\d{4})(\d{4})(\d{4})` replaced by `$1 $2 $3 $4`. */
  const CardGroups: seq<nat> := [4, 4, 4, 4]
  const CardTemplate: seq<Piece> := [Ref(1), Lit(" "), Ref(2), Lit(" "), Ref(3), Lit(" "), Ref(4)]

  /** `cpfFormat.format` */
  function CpfFormat(value: string): string
  {
    Replace(Digits(value), Exact(CpfGroups), CpfTemplate)
  }

  /** `expiryFormat.format` */
  function ExpiryFormat(value: string): string
  {
    Replace(Digits(value), Exact(ExpiryGroups), ExpiryTemplate)
  }

  /** `creditCardFormat.format`, given the decimal text of the number. */
  function CreditCardFormat(value: string): string
  {
    Replace(Digits(value), Exact(CardGroups), CardTemplate)
  }

  /** The masks the formatters are meant to produce from a digit string:
    * the separated groups followed by any further digits, or the digits
    * themselves when there are too few to fill the groups. */
  function CpfMask(d: string): string
  {
    if |d| >= 11 then d[..3] + "." + d[3..6] + "." + d[6..9] + "-" + d[9..11] + d[11..] else d
  }

  function ExpiryMask(d: string): string
  {
    if |d| >= 4 then d[..2] + "/" + d[2..4] + d[4..] else d
  }

  function CardMask(d: string): string
  {
    if |d| >= 16 then d[..4] + " " + d[4..8] + " " + d[8..12] + " " + d[12..16] + d[16..] else d
  }

  lemma {:induction false} CpfFormatMask(value: string)
    ensures CpfFormat(value) == CpfMask(Digits(value))
  {
    var d := Digits(value);
    if |d| >= 11 {
      ReplaceLongDigits(d, Exact(CpfGroups), CpfTemplate);
      MatchAtExact(d, |d|, CpfGroups);
      Chunks4(d, 3, 3, 3, 2);
      Render4(CpfTemplate, Chunks(d, CpfGroups), ".", ".", "-");
    } else {
      ReplaceShortDigits(d, Exact(CpfGroups), CpfTemplate);
    }
  }

  lemma {:induction false} ExpiryFormatMask(value: string)
    ensures ExpiryFormat(value) == ExpiryMask(Digits(value))
  {
    var d := Digits(value);
    if |d| >= 4 {
      ReplaceLongDigits(d, Exact(ExpiryGroups), ExpiryTemplate);
      MatchAtExact(d, |d|, ExpiryGroups);
      Chunks2(d, 2, 2);
      Render2(ExpiryTemplate, Chunks(d, ExpiryGroups), "/");
    } else {
      ReplaceShortDigits(d, Exact(ExpiryGroups), ExpiryTemplate);
    }
  }

  lemma {:induction false} CreditCardFormatMask(value: string)
    ensures CreditCardFormat(value) == CardMask(Digits(value))
  {
    var d := Digits(value);
    if |d| >= 16 {
      ReplaceLongDigits(d, Exact(CardGroups), CardTemplate);
      MatchAtExact(d, |d|, CardGroups);
      Chunks4(d, 4, 4, 4, 4);
      Render4(CardTemplate, Chunks(d, CardGroups), " ", " ", " ");
    } else {
      ReplaceShortDigits(d, Exact(CardGroups), CardTemplate);
    }
  }

  /** A separator between two pieces vanishes when the digits are taken. */
  lemma {:induction false} DigitsAround(a: string, sep: char, b: string, da: string, db: string)
    requires !IsDigit(sep) && Digits(a) == da && Digits(b) == db
    ensures Digits(a + [sep] + b) == da + db
  {
    DigitsAppend(a + [sep], b);
    DigitsAppend(a, [sep]);
    assert [sep][1..] == [];
  }

  /** A slice of a digit string is its own digit string. */
  lemma {:induction false} SliceDigits(d: string, i: nat, j: nat)
    requires AllDigits(d) && i <= j <= |d|
    ensures Digits(d[i..j]) == d[i..j]
  {
    assert AllDigits(d[i..j]) by {
      forall k | 0 <= k < j - i ensures IsDigit(d[i..j][k]) {
        assert d[i..j][k] == d[i + k];
      }
    }
    DigitsOfDigits(d[i..j]);
  }

  lemma {:induction false} CpfMaskDigits(d: string)
    requires AllDigits(d)
    ensures Digits(CpfMask(d)) == d
  {
    if |d| >= 11 {
      var a, b, c, e, f := d[..3], d[3..6], d[6..9], d[9..11], d[11..];
      assert a == d[0..3] && f == d[11..|d|];
      SliceDigits(d, 0, 3);
      SliceDigits(d, 3, 6);
      SliceDigits(d, 6, 9);
      SliceDigits(d, 9, 11);
      SliceDigits(d, 11, |d|);
      var p1 := a + "." + b;
      DigitsAround(a, '.', b, a, b);
      var p2 := p1 + "." + c;
      DigitsAround(p1, '.', c, a + b, c);
      var p3 := p2 + "-" + e;
      DigitsAround(p2, '-', e, a + b + c, e);
      DigitsAppend(p3, f);
      SliceJoin(d, 0, 3, 6);
      SliceJoin(d, 0, 6, 9);
      SliceJoin(d, 0, 9, 11);
      SliceJoin(d, 0, 11, |d|);
      assert d[0..|d|] == d;
    } else {
      DigitsOfDigits(d);
    }
  }

  lemma {:induction false} ExpiryMaskDigits(d: string)
    requires AllDigits(d)
    ensures Digits(ExpiryMask(d)) == d
  {
    if |d| >= 4 {
      var a, b, f := d[..2], d[2..4], d[4..];
      assert a == d[0..2] && f == d[4..|d|];
      SliceDigits(d, 0, 2);
      SliceDigits(d, 2, 4);
      SliceDigits(d, 4, |d|);
      var p1 := a + "/" + b;
      DigitsAround(a, '/', b, a, b);
      DigitsAppend(p1, f);
      SliceJoin(d, 0, 2, 4);
      SliceJoin(d, 0, 4, |d|);
      assert d[0..|d|] == d;
    } else {
      DigitsOfDigits(d);
    }
  }

  lemma {:induction false} CardMaskDigits(d: string)
    requires AllDigits(d)
    ensures Digits(CardMask(d)) == d
  {
    if |d| >= 16 {
      var a, b, c, e, f := d[..4], d[4..8], d[8..12], d[12..16], d[16..];
      assert a == d[0..4] && f == d[16..|d|];
      SliceDigits(d, 0, 4);
      SliceDigits(d, 4, 8);
      SliceDigits(d, 8, 12);
      SliceDigits(d, 12, 16);
      SliceDigits(d, 16, |d|);
      var p1 := a + " " + b;
      DigitsAround(a, ' ', b, a, b);
      var p2 := p1 + " " + c;
      DigitsAround(p1, ' ', c, a + b, c);
      var p3 := p2 + " " + e;
      DigitsAround(p2, ' ', e, a + b + c, e);
      DigitsAppend(p3, f);
      SliceJoin(d, 0, 4, 8);
      SliceJoin(d, 0, 8, 12);
      SliceJoin(d, 0, 12, 16);
      SliceJoin(d, 0, 16, |d|);
      assert d[0..|d|] == d;
    } else {
      DigitsOfDigits(d);
    }
  }

  /** The formatters only insert separators: the digits of the output are
    * the digits of the input. */
  lemma {:induction false} CpfFormatKeepsDigits(value: string)
    ensures Digits(CpfFormat(value)) == Digits(value)
  {
    CpfFormatMask(value);
    CpfMaskDigits(Digits(value));
  }

  lemma {:induction false} ExpiryFormatKeepsDigits(value: string)
    ensures Digits(ExpiryFormat(value)) == Digits(value)
  {
    ExpiryFormatMask(value);
    ExpiryMaskDigits(Digits(value));
  }

  lemma {:induction false} CreditCardFormatKeepsDigits(value: string)
    ensures Digits(CreditCardFormat(value)) == Digits(value)
  {
    CreditCardFormatMask(value);
    CardMaskDigits(Digits(value));
  }

  /** Formatting an already formatted value changes nothing. */
  lemma {:induction false} CpfFormatIdempotent(value: string)
    ensures CpfFormat(CpfFormat(value)) == CpfFormat(value)
  {
    CpfFormatKeepsDigits(value);
  }

  lemma {:induction false} ExpiryFormatIdempotent(value: string)
    ensures ExpiryFormat(ExpiryFormat(value)) == ExpiryFormat(value)
  {
    ExpiryFormatKeepsDigits(value);
  }

  lemma {:induction false} CreditCardFormatIdempotent(value: string)
    ensures CreditCardFormat(CreditCardFormat(value)) == CreditCardFormat(value)
  {
    CreditCardFormatKeepsDigits(value);
  }

  // ---- currencyToFloat: the text handed to Number.parseFloat ----

  /** `.replace(/\./g, '')`: every '.' removed, and only those. */
  function DropDots(s: string): (r: string)
    ensures '.' !in r && |r| + multiset(s)['.'] == |s|
    ensures '.' !in s ==> r == s
  {
    if s == [] then []
    else
      assert s == [s[0]] + s[1..];
      (if s[0] == '.' then [] else [s[0]]) + DropDots(s[1..])
  }

  lemma Regroup3(x: string, y: string, z: string)
    ensures x + (y + z) == (x + y) + z
  {
  }

  /** The removal works piece by piece: the order of what is kept is the
    * order of the input. */
  lemma {:induction false} DropDotsAppend(a: string, b: string)
    ensures DropDots(a + b) == DropDots(a) + DropDots(b)
  {
    if a == [] {
      assert a + b == b;
    } else {
      var c, t := a[0], a[1..];
      assert (a + b)[0] == c && (a + b)[1..] == t + b;
      var keep := if c == '.' then [] else [c];
      assert DropDots(a + b) == keep + DropDots(t + b);
      assert DropDots(a) == keep + DropDots(t);
      DropDotsAppend(t, b);
      Regroup3(keep, DropDots(t), DropDots(b));
    }
  }

  /** `.replace(',', '.')`: a string pattern, so only the first ',' changes. */
  function FirstCommaToDot(s: string): (r: string)
    ensures |r| == |s|
  {
    if s == [] then []
    else if s[0] == ',' then ['.'] + s[1..]
    else [s[0]] + FirstCommaToDot(s[1..])
  }

  predicate Numeric(s: string) { forall i :: 0 <= i < |s| ==> IsDigit(s[i]) || s[i] == '.' }

  /** `.replace(/[^\d.]/g, '')`: only digits and '.' are kept, and all of them. */
  function KeepNumeric(s: string): (r: string)
    ensures Numeric(r) && |r| <= |s|
    ensures Numeric(s) ==> r == s
  {
    if s == [] then []
    else
      assert Numeric(s) ==> Numeric(s[1..]);
      (if IsDigit(s[0]) || s[0] == '.' then [s[0]] else []) + KeepNumeric(s[1..])
  }

  /** The filter works piece by piece, keeping the input's order. */
  lemma {:induction false} KeepNumericAppend(a: string, b: string)
    ensures KeepNumeric(a + b) == KeepNumeric(a) + KeepNumeric(b)
  {
    if a == [] {
      assert a + b == b;
    } else {
      var c, t := a[0], a[1..];
      assert (a + b)[0] == c && (a + b)[1..] == t + b;
      var keep := if IsDigit(c) || c == '.' then [c] else [];
      assert KeepNumeric(a + b) == keep + KeepNumeric(t + b);
      assert KeepNumeric(a) == keep + KeepNumeric(t);
      KeepNumericAppend(t, b);
      Regroup3(keep, KeepNumeric(t), KeepNumeric(b));
    }
  }

  /** The cleaning chain of `currencyToFloat`, before `Number.parseFloat`. */
  function CurrencyClean(currency: string): string
  {
    KeepNumeric(FirstCommaToDot(DropDots(currency)))
  }

  /** The position of the first `c` in `s`. */
  function FirstIndex(s: string, c: char): (i: nat)
    requires c in s
    ensures i < |s| && s[i] == c && c !in s[..i]
  {
    if s[0] == c then 0
    else
      var j := FirstIndex(s[1..], c);
      assert s[..1 + j] == [s[0]] + s[1..][..j];
      1 + j
  }

  /** What the cleaning yields, stated on the input: the digits before the
    * first ',' (the integer part), a '.', and the digits after it; without
    * a ',' just the digits, every '.' (thousands separator) being dropped. */
  function CurrencyText(s: string): string
  {
    if ',' in s then
      var i := FirstIndex(s, ',');
      Digits(s[..i]) + "." + Digits(s[i + 1..])
    else Digits(s)
  }

  lemma {:induction false} KeepNumericOfDropDots(s: string)
    ensures KeepNumeric(DropDots(s)) == Digits(s)
  {
    if s != [] {
      KeepNumericOfDropDots(s[1..]);
      var x := DropDots(s[1..]);
      if s[0] == '.' {
        assert DropDots(s) == [] + x == x;
      } else {
        assert DropDots(s) == [s[0]] + x;
        assert ([s[0]] + x)[0] == s[0] && ([s[0]] + x)[1..] == x;
        assert KeepNumeric([s[0]] + x) == (if IsDigit(s[0]) then [s[0]] else []) + KeepNumeric(x);
      }
    }
  }

  lemma {:induction false} CurrencyCleanDot(s: string)
    requires s != [] && s[0] == '.' && CurrencyClean(s[1..]) == CurrencyText(s[1..])
    ensures CurrencyClean(s) == CurrencyText(s)
  {
    assert DropDots(s) == DropDots(s[1..]);
    assert s == ['.'] + s[1..];
    TextDot(s[1..]);
  }

  /** A leading '.' adds nothing to the text. */
  lemma {:induction false} TextDot(t: string)
    ensures CurrencyText(['.'] + t) == CurrencyText(t)
  {
    var dot: string := ['.'];
    assert Digits(dot) == [] by {
      assert dot[1..] == [];
    }
    if ',' in t {
      var j := FirstIndex(t, ',');
      var a, b := t[..j], t[j + 1..];
      assert t == a + [','] + b;
      assert dot + t == (dot + a) + [','] + b;
      TextSplit(a, b);
      TextSplit(dot + a, b);
      DigitsAppend(dot, a);
      assert [] + Digits(a) == Digits(a);
    } else {
      assert ',' !in dot + t;
      DigitsAppend(dot, t);
      assert [] + Digits(t) == Digits(t);
    }
  }

  lemma {:induction false} CurrencyCleanComma(s: string)
    requires s != [] && s[0] == ','
    ensures CurrencyClean(s) == CurrencyText(s)
  {
    var t := s[1..];
    var rest := DropDots(t);
    assert s == [] + [','] + t;
    TextSplit([], t);
    assert Digits([]) == [];
    assert DropDots(s) == [','] + rest;
    assert FirstCommaToDot([','] + rest) == ['.'] + rest;
    assert KeepNumeric(['.'] + rest) == ['.'] + KeepNumeric(rest) by {
      assert (['.'] + rest)[1..] == rest;
    }
    KeepNumericOfDropDots(t);
  }

  lemma {:induction false} CleanOther(s: string)
    requires s != [] && s[0] != '.' && s[0] != ','
    ensures CurrencyClean(s) == (if IsDigit(s[0]) then [s[0]] else []) + CurrencyClean(s[1..])
  {
    var c := s[0];
    var rest := DropDots(s[1..]);
    assert DropDots(s) == [c] + rest;
    assert ([c] + rest)[1..] == rest;
    assert FirstCommaToDot(DropDots(s)) == [c] + FirstCommaToDot(rest);
    assert ([c] + FirstCommaToDot(rest))[1..] == FirstCommaToDot(rest);
  }

  lemma {:induction false} TextOther(s: string)
    requires s != [] && s[0] != '.' && s[0] != ','
    ensures CurrencyText(s) == (if IsDigit(s[0]) then [s[0]] else []) + CurrencyText(s[1..])
  {
    assert s == [s[0]] + s[1..];
    if ',' in s {
      assert ',' in s[1..];
      TextCons(s[0], s[1..]);
    } else {
      assert ',' !in s[1..];
      DigitsAppend([s[0]], s[1..]);
    }
  }

  lemma {:induction false} TextCons(c: char, t: string)
    requires c != '.' && c != ',' && ',' in t
    ensures CurrencyText([c] + t) == (if IsDigit(c) then [c] else []) + CurrencyText(t)
  {
    var j := FirstIndex(t, ',');
    var a, b := t[..j], t[j + 1..];
    assert t == a + [','] + b;
    assert [c] + t == ([c] + a) + [','] + b;
    TextSplit(a, b);
    TextSplit([c] + a, b);
    DigitsAppend([c], a);
    var head, da, db := (if IsDigit(c) then [c] else []), Digits(a), Digits(b);
    assert Digits([c]) == head by {
      assert [c][1..] == [];
    }
    DotAssoc(head, da, db);
  }

  lemma {:induction false} DotAssoc(h: string, x: string, y: string)
    ensures (h + x) + "." + y == h + (x + "." + y)
  {
  }

  /** The text of a currency whose first ',' follows `a`. */
  lemma {:induction false} TextSplit(a: string, b: string)
    requires ',' !in a
    ensures CurrencyText(a + [','] + b) == Digits(a) + "." + Digits(b)
  {
    var s := a + [','] + b;
    assert s[|a|] == ',';
    var i := FirstIndex(s, ',');
    assert forall k :: 0 <= k < |a| ==> s[k] == a[k] && a[k] in a;
    assert forall k :: 0 <= k < i ==> s[..i][k] == s[k] && s[..i][k] in s[..i];
    assert i == |a|;
    assert s[..i] == a && s[i + 1..] == b;
  }

  lemma {:induction false} CurrencyCleanOther(s: string)
    requires s != [] && s[0] != '.' && s[0] != ',' && CurrencyClean(s[1..]) == CurrencyText(s[1..])
    ensures CurrencyClean(s) == CurrencyText(s)
  {
    CleanOther(s);
    TextOther(s);
  }

  /** The cleaning chain agrees with `CurrencyText`. */
  lemma {:induction false} CurrencyCleanText(s: string)
    ensures CurrencyClean(s) == CurrencyText(s)
  {
    if s != [] {
      if s[0] == ',' {
        CurrencyCleanComma(s);
      } else {
        CurrencyCleanText(s[1..]);
        if s[0] == '.' {
          CurrencyCleanDot(s);
        } else {
          CurrencyCleanOther(s);
        }
      }
    }
  }

  function Count(s: string, c: char): nat
  {
    if s == [] then 0 else (if s[0] == c then 1 else 0) + Count(s[1..], c)
  }

  lemma {:induction false} CountAppend(a: string, b: string, c: char)
    ensures Count(a + b, c) == Count(a, c) + Count(b, c)
  {
    if a != [] {
      assert (a + b)[0] == a[0] && (a + b)[1..] == a[1..] + b;
      CountAppend(a[1..], b, c);
    } else {
      assert a + b == b;
    }
  }

  lemma {:induction false} CountOfDigits(d: string)
    requires AllDigits(d)
    ensures Count(d, '.') == 0
  {
    if d != [] {
      CountOfDigits(d[1..]);
    }
  }

  /** With a decimal comma, the text is two digit strings around one '.'. */
  lemma {:induction false} CurrencyTextWithComma(s: string)
    requires ',' in s
    ensures Count(CurrencyText(s), '.') == 1
    ensures Digits(CurrencyText(s)) == Digits(s)
  {
    var i := FirstIndex(s, ',');
    var x, y := s[..i], s[i + 1..];
    assert s == x + [','] + y;
    TextSplit(x, y);
    DotJoin(Digits(x), Digits(y));
    DigitsAround(x, ',', y, Digits(x), Digits(y));
  }

  /** Two digit strings joined by a '.': one '.', and the digits of both. */
  lemma {:induction false} DotJoin(a: string, b: string)
    requires AllDigits(a) && AllDigits(b)
    ensures Count(a + "." + b, '.') == 1
    ensures Digits(a + "." + b) == a + b
  {
    CountAppend(a + ".", b, '.');
    CountAppend(a, ".", '.');
    CountOfDigits(a);
    CountOfDigits(b);
    DigitsOfDigits(a);
    DigitsOfDigits(b);
    assert a + "." + b == a + ['.'] + b;
    DigitsAround(a, '.', b, a, b);
  }

  /** The cleaned text holds only digits and '.', and exactly one '.' when
    * the input has a ',' (the decimal comma), none otherwise; its digits
    * are the input's digits. */
  lemma {:induction false} CurrencyCleanShape(s: string)
    ensures Numeric(CurrencyClean(s))
    ensures Count(CurrencyClean(s), '.') == if ',' in s then 1 else 0
    ensures Digits(CurrencyClean(s)) == Digits(s)
  {
    CurrencyCleanText(s);
    if ',' in s {
      CurrencyTextWithComma(s);
    } else {
      CountOfDigits(Digits(s));
      DigitsOfDigits(Digits(s));
    }
  }

  // ---- capitalize: `/\b\w/g`, each match upper-cased ----

  /** `\w`: an ASCII letter, digit or underscore. */
  predicate IsWordChar(c: char) { 'a' <= c <= 'z' || 'A' <= c <= 'Z' || IsDigit(c) || c == '_' }

  /** `toUpperCase` of a one-character `\w` match: only `a`..`z` change. */
  function Upper(c: char): char
  {
    if 'a' <= c <= 'z' then (c as int - 32) as char else c
  }

  /** `\b\w` matches at `i`: a word character with no word character
    * before it. */
  predicate WordStart(s: string, i: nat)
    requires i < |s|
  {
    IsWordChar(s[i]) && (i == 0 || !IsWordChar(s[i - 1]))
  }

  /** The global replace as one scan; `afterWord` says whether the
    * character before `s` is a word character. */
  function CapitalizeFrom(s: string, afterWord: bool): (r: string)
    ensures |r| == |s|
  {
    if s == [] then []
    else [if IsWordChar(s[0]) && !afterWord then Upper(s[0]) else s[0]] + CapitalizeFrom(s[1..], IsWordChar(s[0]))
  }

  function Capitalize(text: string): string
  {
    CapitalizeFrom(text, false)
  }

  lemma {:induction false} CapitalizeFromAt(s: string, afterWord: bool, i: nat)
    requires i < |s|
    ensures CapitalizeFrom(s, afterWord)[i] ==
            if IsWordChar(s[i]) && (if i == 0 then !afterWord else !IsWordChar(s[i - 1])) then Upper(s[i]) else s[i]
  {
    if i > 0 {
      CapitalizeFromAt(s[1..], IsWordChar(s[0]), i - 1);
    }
  }

  /** `capitalize` keeps the length and upper-cases exactly the characters
    * that start a word, leaving every other character as it is. */
  lemma {:induction false} CapitalizeAt(text: string)
    ensures |Capitalize(text)| == |text|
    ensures forall i :: 0 <= i < |text| ==>
              Capitalize(text)[i] == if WordStart(text, i) then Upper(text[i]) else text[i]
  {
    forall i | 0 <= i < |text|
      ensures Capitalize(text)[i] == if WordStart(text, i) then Upper(text[i]) else text[i]
    {
      CapitalizeFromAt(text, false, i);
    }
  }

  lemma {:induction false} CapitalizeIdempotent(text: string)
    ensures Capitalize(Capitalize(text)) == Capitalize(text)
  {
    var once := Capitalize(text);
    CapitalizeAt(text);
    CapitalizeAt(once);
    forall i | 0 <= i < |once| ensures Capitalize(once)[i] == once[i] {
      assert IsWordChar(once[i]) == IsWordChar(text[i]);
      if i > 0 {
        assert IsWordChar(once[i - 1]) == IsWordChar(text[i - 1]);
      }
    }
  }
}
