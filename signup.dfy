/**
 * The sign-up and login input schemas (src/lib/actions.ts): the length
 * checks on the fields, and the transform that turns the CPF typed by the
 * user into the masked form stored for the account.
 */
module SignUp {
  import opened Wrappers
  import opened Regex
  import Formatting

  /** `(\d{3})(\d)` replaced by `$1.$2`, applied twice. */
  const DotPattern: Pattern := Exact([3, 1])
  const DotTemplate: seq<Piece> := [Ref(1), Lit("."), Ref(2)]

  /** `(\d{3})(\d{1,2})` replaced by `$1-$2`. */
  const DashPattern: Pattern := [Quant(3, 3), Quant(1, 2)]
  const DashTemplate: seq<Piece> := [Ref(1), Lit("-"), Ref(2)]

  /** The `transform` of the `cpf` field: digits only, then three
    * first-match replaces. */
  function CpfTransform(value: string): string
  {
    var d := Digits(value);
    var s1 := Replace(d, DotPattern, DotTemplate);
    var s2 := Replace(s1, DotPattern, DotTemplate);
    Replace(s2, DashPattern, DashTemplate)
  }

  /** The mask the transform builds from a digit string `d`: a '.' after the
    * third and the sixth digit and a '-' after the ninth, each only when a
    * digit follows it. */
  function SignUpMask(d: string): string
  {
    if |d| <= 3 then d
    else if |d| <= 6 then d[..3] + "." + d[3..]
    else if |d| <= 9 then d[..3] + "." + d[3..6] + "." + d[6..]
    else d[..3] + "." + d[3..6] + "." + d[6..9] + "-" + d[9..]
  }

  lemma {:induction false} DotOnDigits(t: string)
    requires AllDigits(t)
    ensures Replace(t, DotPattern, DotTemplate) == if |t| >= 4 then t[..3] + "." + t[3..] else t
  {
    if |t| >= 4 {
      var caps := [t[..3], t[3..4]];
      MatchAtExact(t, |t|, [3, 1]);
      Chunks2(t, 3, 1);
      assert MatchAt(t, |t|, DotPattern) == caps;
      assert Width(caps) == 4;
      ReplaceLongDigits(t, DotPattern, DotTemplate);
      Render2(DotTemplate, caps, ".");
      Regroup(t[..3], ".", t[3..4], t[4..]);
      assert t[3..4] + t[4..] == t[3..];
    } else {
      ReplaceShortDigits(t, DotPattern, DotTemplate);
    }
  }

  /** Moving the last piece of a three-piece text under the third. */
  lemma {:induction false} Regroup(u: string, x: string, v: string, w: string)
    ensures u + x + v + w == u + x + (v + w)
  {
  }

  /** The second quantifier of `DashPattern` is greedy: it takes two digits
    * when there are two. */
  lemma {:induction false} DashGroups(t: string)
    requires 4 <= |t|
    ensures MatchAt(t, |t|, DashPattern) == [t[..3], t[3..3 + Min(2, |t| - 3)]]
  {
    var tail := DashPattern[1..];
    assert tail == [Quant(1, 2)] && tail[1..] == [];
    assert MinLength(tail) == 1;
    var m := Min(2, |t| - 3);
    assert MatchAt(t[3..], |t| - 3, tail) == [t[3..][..m]] + MatchAt(t[3..][m..], |t| - 3 - m, []);
    assert t[3..][..m] == t[3..3 + m];
  }

  lemma {:induction false} DashOnDigits(t: string)
    requires AllDigits(t)
    ensures Replace(t, DashPattern, DashTemplate) == if |t| >= 4 then t[..3] + "-" + t[3..] else t
  {
    if |t| >= 4 {
      var m := Min(2, |t| - 3);
      var caps := [t[..3], t[3..3 + m]];
      DashGroups(t);
      assert Width(caps) == 3 + m by {
        assert caps[1..] == [t[3..3 + m]] && caps[1..][1..] == [];
      }
      ReplaceLongDigits(t, DashPattern, DashTemplate);
      Render2(DashTemplate, caps, "-");
      Regroup(t[..3], "-", t[3..3 + m], t[3 + m..]);
      assert t[3..3 + m] + t[3 + m..] == t[3..];
    } else {
      ReplaceShortDigits(t, DashPattern, DashTemplate);
    }
  }

  lemma {:induction false} DigitsSlice(d: string, i: nat)
    requires AllDigits(d) && i <= |d|
    ensures AllDigits(d[..i]) && AllDigits(d[i..])
  {
    assert forall k :: 0 <= k < i ==> d[..i][k] == d[k];
    assert forall k :: 0 <= k < |d| - i ==> d[i..][k] == d[i + k];
  }

  /** What the two dot replaces leave: the dots of `SignUpMask`. */
  function DotsMask(d: string): string
  {
    if |d| <= 3 then d
    else if |d| <= 6 then d[..3] + "." + d[3..]
    else d[..3] + "." + d[3..6] + "." + d[6..]
  }

  /** The second dot replace passes over the three digits before the first
    * dot and acts on the digits after it. */
  lemma {:induction false} SecondDot(d: string)
    requires AllDigits(d) && |d| >= 4
    ensures Replace(d[..3] + "." + d[3..], DotPattern, DotTemplate) == DotsMask(d)
  {
    var a, t := d[..3], d[3..];
    DigitsSlice(d, 3);
    ReplaceSkipsShortBlock(a, '.', t, DotPattern, DotTemplate);
    DotOnDigits(t);
    if |t| >= 4 {
      assert t[..3] == d[3..6] && t[3..] == d[6..];
      JoinDots(a, t[..3], t[3..]);
    }
  }

  lemma {:induction false} TwoDots(d: string)
    requires AllDigits(d)
    ensures Replace(Replace(d, DotPattern, DotTemplate), DotPattern, DotTemplate) == DotsMask(d)
  {
    DotOnDigits(d);
    if |d| >= 4 {
      SecondDot(d);
    }
  }

  /** The dash replace passes over the dotted blocks of three digits. */
  lemma {:induction false} DashAfterOneDot(d: string)
    requires AllDigits(d) && 4 <= |d| <= 6
    ensures Replace(DotsMask(d), DashPattern, DashTemplate) == SignUpMask(d)
  {
    var a, t := d[..3], d[3..];
    DigitsSlice(d, 3);
    ReplaceSkipsShortBlock(a, '.', t, DashPattern, DashTemplate);
    DashOnDigits(t);
  }

  lemma {:induction false} DashSkipsTwoBlocks(a: string, b: string, c: string)
    requires AllDigits(a) && AllDigits(b) && |a| == 3 && |b| == 3
    ensures Replace(a + ['.'] + (b + ['.'] + c), DashPattern, DashTemplate) ==
            a + ['.'] + (b + ['.'] + Replace(c, DashPattern, DashTemplate))
  {
    ReplaceSkipsShortBlock(a, '.', b + ['.'] + c, DashPattern, DashTemplate);
    ReplaceSkipsShortBlock(b, '.', c, DashPattern, DashTemplate);
  }

  lemma {:induction false} DashAfterTwoDots(d: string)
    requires AllDigits(d) && 7 <= |d|
    ensures Replace(DotsMask(d), DashPattern, DashTemplate) == SignUpMask(d)
  {
    var a, b, c := d[..3], d[3..6], d[6..];
    TwoDotsSplit(d);
    DashSkipsTwoBlocks(a, b, c);
    DashOnDigits(c);
    MaskSplit(d);
  }

  lemma {:induction false} TwoDotsSplit(d: string)
    requires AllDigits(d) && 7 <= |d|
    ensures AllDigits(d[..3]) && AllDigits(d[3..6]) && AllDigits(d[6..])
    ensures DotsMask(d) == d[..3] + ['.'] + (d[3..6] + ['.'] + d[6..])
  {
    DigitsSlice(d, 3);
    DigitsSlice(d, 6);
    assert forall k :: 0 <= k < 3 ==> d[3..6][k] == d[3 + k];
  }

  lemma {:induction false} MaskSplit(d: string)
    requires 7 <= |d|
    ensures var c := d[6..];
            SignUpMask(d) == d[..3] + ['.'] + (d[3..6] + ['.'] + (if |c| >= 4 then c[..3] + "-" + c[3..] else c))
  {
    var x, y, c := d[..3], d[3..6], d[6..];
    if |c| >= 4 {
      assert c[..3] == d[6..9] && c[3..] == d[9..];
      JoinDash(x, y, d[6..9], d[9..]);
    } else {
      JoinDots(x, y, c);
    }
  }

  lemma {:induction false} JoinDots(x: string, y: string, z: string)
    ensures x + "." + y + "." + z == x + ['.'] + (y + ['.'] + z)
  {
  }

  lemma {:induction false} JoinDash(x: string, y: string, u: string, v: string)
    ensures x + "." + y + "." + u + "-" + v == x + ['.'] + (y + ['.'] + (u + "-" + v))
  {
  }

  lemma {:induction false} DashStep(d: string)
    requires AllDigits(d)
    ensures Replace(DotsMask(d), DashPattern, DashTemplate) == SignUpMask(d)
  {
    if |d| <= 3 {
      DashOnDigits(d);
    } else if |d| <= 6 {
      DashAfterOneDot(d);
    } else {
      DashAfterTwoDots(d);
    }
  }

  /** The three replaces of the transform build `SignUpMask`. */
  lemma {:induction false} CpfTransformMask(value: string)
    ensures CpfTransform(value) == SignUpMask(Digits(value))
  {
    TwoDots(Digits(value));
    DashStep(Digits(value));
  }

  /** The transform only inserts '.' and '-': its digits are the input's. */
  lemma {:induction false} CpfTransformKeepsDigits(value: string)
    ensures Digits(CpfTransform(value)) == Digits(value)
  {
    var d := Digits(value);
    CpfTransformMask(value);
    SignUpMaskDigits(d);
  }

  lemma {:induction false} SignUpMaskDigits(d: string)
    requires AllDigits(d)
    ensures Digits(SignUpMask(d)) == d
  {
    var n := |d|;
    if n <= 3 {
      DigitsOfDigits(d);
    } else {
      Formatting.SliceDigits(d, 0, 3);
      assert d[..3] == d[0..3];
      if n <= 6 {
        Formatting.SliceDigits(d, 3, n);
        assert d[3..] == d[3..n];
        Formatting.DigitsAround(d[..3], '.', d[3..], d[..3], d[3..]);
      } else {
        Formatting.SliceDigits(d, 3, 6);
        var p := d[..3] + "." + d[3..6];
        Formatting.DigitsAround(d[..3], '.', d[3..6], d[..3], d[3..6]);
        SliceJoin(d, 0, 3, 6);
        if n <= 9 {
          Formatting.SliceDigits(d, 6, n);
          assert d[6..] == d[6..n];
          Formatting.DigitsAround(p, '.', d[6..], d[..6], d[6..]);
        } else {
          Formatting.SliceDigits(d, 6, 9);
          Formatting.SliceDigits(d, 9, n);
          assert d[9..] == d[9..n];
          var q := p + "." + d[6..9];
          Formatting.DigitsAround(p, '.', d[6..9], d[..6], d[6..9]);
          SliceJoin(d, 0, 6, 9);
          assert d[..6] == d[0..6] && d[..9] == d[0..9];
          Formatting.DigitsAround(q, '-', d[9..], d[..9], d[9..]);
        }
      }
    }
  }

  /** An input of at most three digits comes back as its digits. */
  lemma {:induction false} CpfTransformShort(value: string)
    requires |Digits(value)| <= 3
    ensures CpfTransform(value) == Digits(value)
  {
    CpfTransformMask(value);
  }

  /** Eleven digits give ddd.ddd.ddd-dd, the same text `cpfFormat` shows. */
  lemma {:induction false} CpfTransformEleven(value: string)
    requires |Digits(value)| == 11
    ensures var d := Digits(value);
            CpfTransform(value) == d[..3] + "." + d[3..6] + "." + d[6..9] + "-" + d[9..11]
  {
    CpfTransformMask(value);
    var d := Digits(value);
    assert d[9..] == d[9..11];
  }

  /** The stored mask agrees with the display formatter exactly when the
    * input has at most three digits or at least eleven. */
  lemma {:induction false} CpfTransformAgreesWithFormat(value: string)
    ensures CpfTransform(value) == Formatting.CpfFormat(value) <==>
            |Digits(value)| <= 3 || |Digits(value)| >= 11
  {
    CpfTransformMask(value);
    Formatting.CpfFormatMask(value);
    MasksAgree(Digits(value));
  }

  lemma {:induction false} MasksAgree(d: string)
    ensures SignUpMask(d) == Formatting.CpfMask(d) <==> |d| <= 3 || |d| >= 11
  {
    if |d| >= 11 {
      assert d[9..11] + d[11..] == d[9..];
    } else if |d| > 3 {
      assert |SignUpMask(d)| > |d|;
    }
  }

  // ---- the zod schemas ----

  /** The fields a schema can reject. */
  datatype Field = Email | Password | Cpf | Name

  /** `String.prototype.length`, which zod's `min` and `max` compare: the
    * number of UTF-16 code units, two for a character outside the Basic
    * Multilingual Plane. */
  function JsLength(s: string): (n: nat)
    ensures |s| <= n <= 2 * |s|
  {
    if s == [] then 0
    else JsLength(s[..|s| - 1]) + (if s[|s| - 1] as int >= 0x1_0000 then 2 else 1)
  }

  /** On text within the Basic Multilingual Plane the JavaScript length is
    * the number of characters. */
  lemma {:induction false} JsLengthBmp(s: string)
    requires forall i :: 0 <= i < |s| ==> s[i] as int < 0x1_0000
    ensures JsLength(s) == |s|
  {
    if s != [] {
      var n := |s| - 1;
      assert forall i :: 0 <= i < n ==> s[..n][i] == s[i];
      JsLengthBmp(s[..n]);
    }
  }

  /** Four characters outside the Basic Multilingual Plane (an emoji, say)
    * make a JavaScript length of eight. */
  lemma {:induction false} AstralLength(c: char)
    requires c as int >= 0x1_0000
    ensures JsLength([c, c, c, c]) == 8
  {
    assert [c][..0] == [];
    assert JsLength([c]) == 2;
    assert [c, c][..1] == [c];
    assert JsLength([c, c]) == 4;
    assert [c, c, c][..2] == [c, c];
    assert JsLength([c, c, c]) == 6;
    assert [c, c, c, c][..3] == [c, c, c];
  }

  datatype SignUpInput = SignUpInput(email: string, password: string, cpf: string, name: string)

  datatype LoginInput = LoginInput(email: string, password: string)

  /** `signUpSchema`: every failing field is reported, in field order; on
    * success the `cpf` field carries the transformed value. The check of
    * `z.string().email()` is given as `emailValid`. */
  function ParseSignUp(input: SignUpInput, emailValid: bool): Result<SignUpInput, seq<Field>>
  {
    var issues :=
      (if emailValid then [] else [Email])
      + (if JsLength(input.password) >= 8 then [] else [Password])
      + (if JsLength(input.cpf) >= 11 then [] else [Cpf])
      + (if JsLength(input.name) >= 2 then [] else [Name]);
    if issues == [] then Success(input.(cpf := CpfTransform(input.cpf))) else Failure(issues)
  }

  /** `loginSchema`: a password of 8 to 100 UTF-16 code units. */
  function ParseLogin(input: LoginInput, emailValid: bool): Result<LoginInput, seq<Field>>
  {
    var issues :=
      (if emailValid then [] else [Email])
      + (if 8 <= JsLength(input.password) <= 100 then [] else [Password]);
    if issues == [] then Success(input) else Failure(issues)
  }

  predicate SignUpFieldFails(input: SignUpInput, emailValid: bool, f: Field)
  {
    match f
    case Email => !emailValid
    case Password => JsLength(input.password) < 8
    case Cpf => JsLength(input.cpf) < 11
    case Name => JsLength(input.name) < 2
  }

  /** Sign-up succeeds exactly when every length bound holds, and then only
    * the CPF is rewritten; otherwise the failure names exactly the fields
    * that break their bounds. */
  lemma {:induction false} ParseSignUpSpec(input: SignUpInput, emailValid: bool)
    ensures ParseSignUp(input, emailValid).Success? <==>
            emailValid && JsLength(input.password) >= 8 && JsLength(input.cpf) >= 11 && JsLength(input.name) >= 2
    ensures ParseSignUp(input, emailValid).Success? ==>
              ParseSignUp(input, emailValid).value ==
              SignUpInput(input.email, input.password, CpfTransform(input.cpf), input.name)
    ensures ParseSignUp(input, emailValid).Failure? ==>
              forall f :: f in ParseSignUp(input, emailValid).error <==> SignUpFieldFails(input, emailValid, f)
  {
  }

  lemma {:induction false} ParseLoginSpec(input: LoginInput, emailValid: bool)
    ensures ParseLogin(input, emailValid).Success? <==> emailValid && 8 <= JsLength(input.password) <= 100
    ensures ParseLogin(input, emailValid).Success? ==> ParseLogin(input, emailValid).value == input
    ensures ParseLogin(input, emailValid).Failure? ==>
              (Password in ParseLogin(input, emailValid).error <==> !(8 <= JsLength(input.password) <= 100))
  {
  }

  /** The CPF bound is checked on the raw text, before the non-digits go:
    * an input of eleven characters or more passes it however few digits it
    * has, and is stored with the mask of those digits. */
  lemma {:induction false} RawLengthIsChecked(input: SignUpInput)
    requires JsLength(input.password) >= 8 && JsLength(input.name) >= 2 && JsLength(input.cpf) >= 11
    ensures ParseSignUp(input, true).Success?
    ensures ParseSignUp(input, true).value.cpf == SignUpMask(Digits(input.cpf))
  {
    CpfTransformMask(input.cpf);
  }

  /** Such an input: three blocks of three digits separated by dots is
    * eleven characters long, has nine digits, and is stored as typed,
    * without a '-'. */
  lemma {:induction false} NineDigitCpf(a: string, b: string, c: string)
    requires AllDigits(a) && AllDigits(b) && AllDigits(c)
    requires |a| == 3 && |b| == 3 && |c| == 3
    ensures var v := a + "." + b + "." + c;
            JsLength(v) == 11 && |Digits(v)| == 9 && CpfTransform(v) == v
  {
    DigitsOfDigits(a);
    DigitsOfDigits(b);
    DigitsOfDigits(c);
    var ab := a + ['.'] + b;
    Formatting.DigitsAround(a, '.', b, a, b);
    Formatting.DigitsAround(ab, '.', c, a + b, c);
    var v := ab + ['.'] + c;
    assert v == a + "." + b + "." + c;
    var d := a + b + c;
    JsLengthBmp(v);
    CpfTransformMask(v);
    assert d[..3] == a && d[3..6] == b && d[6..] == c;
  }
}
