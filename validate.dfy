/** The validators of src/utils/validate.ts. Each anchored regular
 *  expression is written out as a predicate over the characters of the
 *  string; `\d` is an ASCII digit, as in JavaScript. Where a pattern has
 *  alternatives or split points, the predicate keeps that shape and a lemma
 *  states the plain characterisation. */
module Validate {
  import opened Strings

  /** `^1[3-9]\d{9}$` */
  predicate IsPhone(s: string) {
    |s| == 11 && s[0] == '1' && '3' <= s[1] <= '9' && AllDigits(s[2..])
  }

  lemma PhoneIff(s: string)
    ensures IsPhone(s) <==> |s| == 11 && AllDigits(s) && s[0] == '1' && '3' <= s[1] <= '9'
  {
    if |s| == 11 && AllDigits(s) {
      assert forall i :: 0 <= i < 9 ==> s[2..][i] == s[i + 2];
    }
    if IsPhone(s) {
      assert forall i :: 2 <= i < 11 ==> s[i] == s[2..][i - 2];
    }
  }

  /** The subscriber part of a landline number: 7 or 8 digits. */
  predicate TelNumber(t: string) {
    7 <= |t| <= 8 && AllDigits(t)
  }

  /** The match whose area code `0\d{2,3}` ends before index `i`, followed
   *  by an optional `-`. */
  predicate TelSplit(s: string, i: nat) {
    1 <= i <= |s| && AllDigits(s[1..i]) &&
    (TelNumber(s[i..]) || (i < |s| && s[i] == '-' && TelNumber(s[i + 1..])))
  }

  /** `^0\d{2,3}-?\d{7,8}$`: the area code takes 2 or 3 digits after `0`. */
  predicate IsTel(s: string) {
    |s| >= 1 && s[0] == '0' && (TelSplit(s, 3) || TelSplit(s, 4))
  }

  /** Without a hyphen a landline number is `0` and 9 to 11 further digits. */
  lemma TelWithoutHyphen(s: string)
    requires AllDigits(s)
    ensures IsTel(s) <==> |s| >= 1 && s[0] == '0' && 10 <= |s| <= 12
  {
    if |s| >= 4 {
      assert AllDigits(s[1..3]) && AllDigits(s[3..]) && AllDigits(s[1..4]) && AllDigits(s[4..]) by {
        assert forall i :: 0 <= i < 2 ==> s[1..3][i] == s[i + 1];
        assert forall i :: 0 <= i < 3 ==> s[1..4][i] == s[i + 1];
        assert forall i :: 0 <= i < |s| - 3 ==> s[3..][i] == s[i + 3];
        assert forall i :: 0 <= i < |s| - 4 ==> s[4..][i] == s[i + 4];
      }
    }
  }

  /** Every character of a landline number is a digit except a hyphen
   *  right after the area code. */
  lemma TelHyphenPlace(s: string)
    requires IsTel(s)
    ensures forall k :: 0 <= k < |s| && k != 3 && k != 4 ==> IsDigit(s[k])
  {
    forall k | 0 <= k < |s| && k != 3 && k != 4 ensures IsDigit(s[k]) {
      if k == 0 {
      } else if TelSplit(s, 3) {
        if k < 3 {
          assert s[1..3][k - 1] == s[k];
        } else if TelNumber(s[3..]) {
          assert s[3..][k - 3] == s[k];
        } else {
          assert s[4..][k - 4] == s[k];
        }
      } else {
        if k < 4 {
          assert s[1..4][k - 1] == s[k];
        } else if TelNumber(s[4..]) {
          assert s[4..][k - 4] == s[k];
        } else {
          assert s[5..][k - 5] == s[k];
        }
      }
    }
  }

  /** `[a-zA-Z0-9._%+-]` */
  predicate IsLocalChar(c: char) {
    IsAlnum(c) || c == '.' || c == '_' || c == '%' || c == '+' || c == '-'
  }

  /** `[a-zA-Z0-9.-]` */
  predicate IsDomainChar(c: char) {
    IsAlnum(c) || c == '.' || c == '-'
  }

  /** `^[a-zA-Z0-9._%+-]+@[a-zA-Z0-9.-]+\.[a-zA-Z]{2,}$`, with `a` the `@` and
   *  `d` the dot before the top-level domain. */
  predicate IsEmail(s: string) {
    exists a, d :: 0 < a && a + 1 < d && d + 2 < |s| && s[a] == '@' && s[d] == '.' &&
      AllIn(s[..a], IsLocalChar) && AllIn(s[a + 1..d], IsDomainChar) && AllIn(s[d + 1..], IsLetter)
  }

  /** An address holds exactly one `@`, and the top-level domain is the text
   *  after its last dot. */
  lemma EmailShape(s: string)
    requires IsEmail(s)
    ensures exists a :: 0 < a < |s| && s[a] == '@' && forall i :: 0 <= i < |s| && s[i] == '@' ==> i == a
    ensures exists d :: 0 < d < |s| - 2 && s[d] == '.' && forall i :: d < i < |s| ==> IsLetter(s[i])
  {
    var a, d :| 0 < a && a + 1 < d && d + 2 < |s| && s[a] == '@' && s[d] == '.' &&
      AllIn(s[..a], IsLocalChar) && AllIn(s[a + 1..d], IsDomainChar) && AllIn(s[d + 1..], IsLetter);
    forall i | 0 <= i < |s| && i != a ensures s[i] != '@' {
      if i < a {
        assert IsLocalChar(s[..a][i]);
      } else if a < i < d {
        assert IsDomainChar(s[a + 1..d][i - a - 1]);
      } else if i > d {
        assert IsLetter(s[d + 1..][i - d - 1]);
      }
    }
    forall i | d < i < |s| ensures IsLetter(s[i]) {
      assert s[d + 1..][i - d - 1] == s[i];
    }
  }

  /** `(^\d{15}$)|(^\d{18}$)|(^\d{17}(\d|X|x)$)` */
  predicate IsIdCard(s: string) {
    (|s| == 15 && AllDigits(s)) ||
    (|s| == 18 && AllDigits(s)) ||
    (|s| == 18 && AllDigits(s[..17]) && (IsDigit(s[17]) || s[17] == 'X' || s[17] == 'x'))
  }

  /** The 18-digit alternative adds nothing to the third. */
  lemma IdCardIff(s: string)
    ensures IsIdCard(s) <==>
              (|s| == 15 && AllDigits(s)) ||
              (|s| == 18 && AllDigits(s[..17]) && (IsDigit(s[17]) || s[17] == 'X' || s[17] == 'x'))
  {
    if |s| == 18 && AllDigits(s) {
      assert forall i :: 0 <= i < 17 ==> s[..17][i] == s[i];
    }
  }

  /** One alternative of `25[0-5]|2[0-4]\d|[01]?\d\d?`. */
  predicate OctetPattern(o: string) {
    (|o| == 3 && o[0] == '2' && o[1] == '5' && '0' <= o[2] <= '5') ||
    (|o| == 3 && o[0] == '2' && '0' <= o[1] <= '4' && IsDigit(o[2])) ||
    (AllDigits(o) && (|o| == 1 || |o| == 2 || (|o| == 3 && (o[0] == '0' || o[0] == '1'))))
  }

  /** `^((25[0-5]|2[0-4]\d|[01]?\d\d?)\.){3}(25[0-5]|2[0-4]\d|[01]?\d\d?)$`.
   *  No octet holds a dot, so a match splits the text at its dots. */
  predicate IsIP(s: string) {
    var fields := Split(s, '.');
    |fields| == 4 && forall i :: 0 <= i < 4 ==> OctetPattern(fields[i])
  }

  function DigitValue(c: char): nat
    requires IsDigit(c)
  {
    c as int - '0' as int
  }

  lemma ThreeDigitsValue(o: string)
    requires |o| == 3 && AllDigits(o)
    ensures DigitsValue(o) == 100 * DigitValue(o[0]) + 10 * DigitValue(o[1]) + DigitValue(o[2])
  {
    var p := o[..2];
    assert p[1] == o[1] && AllDigits(p);
    var q := p[..1];
    assert q[0] == o[0] && AllDigits(q);
    assert q[..0] == [];
    assert DigitsValue(q) == DigitValue(o[0]);
    assert DigitsValue(p) == 10 * DigitValue(o[0]) + DigitValue(o[1]);
  }

  /** An octet is one to three digits with value at most 255; leading zeros
   *  are allowed. */
  lemma OctetIff(o: string)
    ensures OctetPattern(o) <==> 1 <= |o| <= 3 && AllDigits(o) && DigitsValue(o) <= 255
  {
    if |o| == 3 && AllDigits(o) {
      ThreeDigitsValue(o);
    } else if |o| == 2 && AllDigits(o) {
      var q := o[..1];
      assert q[0] == o[0] && AllDigits(q);
      assert q[..0] == [];
      assert DigitsValue(q) == DigitValue(o[0]);
      assert DigitsValue(o) == 10 * DigitValue(o[0]) + DigitValue(o[1]);
    } else if |o| == 1 && AllDigits(o) {
      assert o[..0] == [];
    }
  }

  /** An IPv4 address is four dot-separated decimal octets. */
  lemma IPIff(s: string)
    ensures IsIP(s) <==>
              var fields := Split(s, '.');
              |fields| == 4 &&
              forall i :: 0 <= i < 4 ==> 1 <= |fields[i]| <= 3 && AllDigits(fields[i]) && DigitsValue(fields[i]) <= 255
  {
    var fields := Split(s, '.');
    if |fields| == 4 {
      forall i | 0 <= i < 4 {
        OctetIff(fields[i]);
      }
    }
  }

  lemma IPExamples()
    ensures IsIP("192.168.001.255")
  {
    var parts := ["192", "168", "001", "255"];
    assert Join(parts, '.') == "192.168.001.255";
    forall i | 0 <= i < 4 ensures '.' !in parts[i] && OctetPattern(parts[i]) {
    }
    SplitJoin(parts, '.');
  }

  /** `[一-龥]` */
  predicate IsHan(c: char) {
    '\U{4E00}' <= c <= '\U{9FA5}'
  }

  /** `^[一-龥]+$` */
  predicate IsChinese(s: string) {
    |s| > 0 && AllIn(s, IsHan)
  }

  /** `^[a-zA-Z]+$` */
  predicate IsEnglish(s: string) {
    |s| > 0 && AllIn(s, IsLetter)
  }

  /** `^\d+$` on the text of the value. */
  predicate IsNumber(s: string) {
    |s| > 0 && AllDigits(s)
  }

  /** `^\d+\.\d+$`, with `d` the dot. */
  predicate IsDecimal(s: string) {
    exists d :: 0 < d < |s| - 1 && s[d] == '.' && AllDigits(s[..d]) && AllDigits(s[d + 1..])
  }

  /** A decimal is never a plain number. */
  lemma DecimalNotNumber(s: string)
    requires IsDecimal(s)
    ensures !IsNumber(s)
  {
    var d :| 0 < d < |s| - 1 && s[d] == '.' && AllDigits(s[..d]) && AllDigits(s[d + 1..]);
    assert !IsDigit(s[d]);
  }

  /** `[@$!%*#?&]` */
  predicate IsPasswordSpecial(c: char) {
    c == '@' || c == '$' || c == '!' || c == '%' || c == '*' || c == '#' || c == '?' || c == '&'
  }

  predicate IsPasswordChar(c: char) {
    IsAlnum(c) || IsPasswordSpecial(c)
  }

  /** `isPassword(value, level = 1)`: level 1 counts code units; levels 2 and 3
   *  are the lookahead patterns; any other level is rejected. */
  predicate IsPassword(s: string, level: int := 1) {
    if level == 1 then Utf16Length(s) >= 6
    else if level == 2 then
      |s| >= 6 && AllIn(s, IsAlnum) && AnyIn(s, IsLetter) && AnyIn(s, IsDigit)
    else if level == 3 then
      |s| >= 8 && AllIn(s, IsPasswordChar) && AnyIn(s, IsLetter) && AnyIn(s, IsDigit) && AnyIn(s, IsPasswordSpecial)
    else false
  }

  /** Both stronger levels imply level 1, and the two are disjoint: level 3
   *  demands a special character that level 2 forbids. */
  lemma PasswordLevels(s: string)
    ensures IsPassword(s, 2) ==> IsPassword(s, 1)
    ensures IsPassword(s, 3) ==> IsPassword(s, 1)
    ensures !(IsPassword(s, 2) && IsPassword(s, 3))
    ensures forall level :: level !in {1, 2, 3} ==> !IsPassword(s, level)
    ensures IsPassword(s) == IsPassword(s, 1)
  {
    if IsPassword(s, 3) {
      var i :| 0 <= i < |s| && IsPasswordSpecial(s[i]);
      assert !IsAlnum(s[i]);
    }
  }

  /** A digit run `[1-9]\d{n}` whose total length lies in `lo..hi`. */
  predicate DigitRun(s: string, lo: nat, hi: nat) {
    1 <= |s| && lo <= |s| <= hi && '1' <= s[0] <= '9' && AllDigits(s[1..])
  }

  /** `^[1-9]\d{9,29}$` */
  predicate IsBankCard(s: string) { DigitRun(s, 10, 30) }

  /** `^[1-9][0-9]{4,10}$` */
  predicate IsQQNumber(s: string) { DigitRun(s, 5, 11) }

  /** `^[1-9]\d{5}$` */
  predicate IsPostCode(s: string) { DigitRun(s, 6, 6) }

  /** A digit run is a number whose first digit is not zero. */
  lemma DigitRunIff(s: string, lo: nat, hi: nat)
    requires 1 <= lo
    ensures DigitRun(s, lo, hi) <==> lo <= |s| <= hi && IsNumber(s) && s[0] != '0'
  {
    if lo <= |s| {
      assert forall i :: 1 <= i < |s| ==> s[i] == s[1..][i - 1];
      assert forall i :: 0 <= i < |s| - 1 ==> s[1..][i] == s[i + 1];
    }
  }

  lemma DigitRunsAreNumbers(s: string)
    ensures IsBankCard(s) ==> IsNumber(s) && 10 <= |s| <= 30
    ensures IsQQNumber(s) ==> IsNumber(s) && 5 <= |s| <= 11
    ensures IsPostCode(s) ==> IsNumber(s) && |s| == 6
  {
    DigitRunIff(s, 10, 30);
    DigitRunIff(s, 5, 11);
    DigitRunIff(s, 6, 6);
  }

  /** The province characters of a licence plate. */
  const Provinces := "京津沪渝冀豫云辽黑湘皖鲁新苏浙赣鄂桂甘晋蒙陕吉闽贵粤青藏川宁琼使领"

  /** `[A-DF-HJ-NP-Z0-9]`: upper-case letters other than E, I and O, or digits. */
  predicate IsPlateChar(c: char) {
    ('A' <= c <= 'D') || ('F' <= c <= 'H') || ('J' <= c <= 'N') || ('P' <= c <= 'Z') || IsDigit(c)
  }

  /** The first seven characters shared by both patterns. */
  predicate PlateStem(s: string) {
    |s| >= 7 && s[0] in Provinces && IsUpper(s[1]) && AllIn(s[2..7], IsPlateChar)
  }

  /** The new-energy pattern (a trailing `D` or `F`) or the normal one. */
  predicate IsCarNumber(s: string) {
    (|s| == 8 && PlateStem(s) && (s[7] == 'D' || s[7] == 'F')) || (|s| == 7 && PlateStem(s))
  }

  lemma PlateCharIff(c: char)
    ensures IsPlateChar(c) <==> (IsUpper(c) || IsDigit(c)) && c != 'E' && c != 'I' && c != 'O'
  {
  }

  lemma CarNumberExamples()
    ensures IsCarNumber("京A12345")
    ensures IsCarNumber("粤B12345D")
    ensures !IsCarNumber("京A1234E")
  {
    assert "京A12345"[0] == Provinces[0];
    assert "粤B12345D"[0] == Provinces[25];
    assert "京A1234E"[2..7][4] == 'E';
  }

  /** `^[a-zA-Z][a-zA-Z0-9_-]{5,19}$` */
  predicate IsWechatId(s: string) {
    6 <= |s| <= 20 && IsLetter(s[0]) && AllIn(s[1..], (c: char) => IsAlnum(c) || c == '_' || c == '-')
  }

  /** `isLengthInRange(value, min, max)` on code units. */
  predicate IsLengthInRange(s: string, min: int, max: int) {
    min <= Utf16Length(s) <= max
  }

  /** A WeChat id is ASCII, so its length in code units is between 6 and 20. */
  lemma WechatIdLength(s: string)
    requires IsWechatId(s)
    ensures IsLengthInRange(s, 6, 20)
  {
    forall i | 0 <= i < |s| ensures s[i] as int < 0x10000 {
      if i > 0 {
        assert s[1..][i - 1] == s[i];
      }
    }
    Utf16LengthBmp(s);
  }

  /** Han text on the basic plane: as many code units as characters; and it
   *  is neither English nor alphanumeric. */
  lemma ChineseRelations(s: string)
    requires IsChinese(s)
    ensures forall min, max :: IsLengthInRange(s, min, max) <==> min <= |s| <= max
    ensures !IsEnglish(s) && !IsAlphanumeric(s) && !HasSpecialChar(s)
  {
    assert forall i :: 0 <= i < |s| ==> IsHan(s[i]);
    Utf16LengthBmp(s);
    assert !IsAlnum(s[0]);
    forall i | 0 <= i < |s| ensures s[i] !in SpecialChars {
      assert IsHan(s[i]);
    }
  }

  /** `[!@#$%^&*(),.?":{}|<>]`, unanchored. */
  const SpecialChars := "!@#$%^&*(),.?\":{}|<>"

  predicate HasSpecialChar(s: string) {
    exists i :: 0 <= i < |s| && s[i] in SpecialChars
  }

  /** `^[a-zA-Z0-9]+$` */
  predicate IsAlphanumeric(s: string) {
    |s| > 0 && AllIn(s, IsAlnum)
  }

  /** English words are alphanumeric, and neither holds a special character. */
  lemma AlphanumericRelations(s: string)
    ensures IsEnglish(s) ==> IsAlphanumeric(s)
    ensures IsNumber(s) ==> IsAlphanumeric(s)
    ensures IsAlphanumeric(s) ==> !HasSpecialChar(s)
  {
    if IsAlphanumeric(s) {
      forall i | 0 <= i < |s| ensures s[i] !in SpecialChars {
        assert IsAlnum(s[i]);
      }
    }
  }
}
