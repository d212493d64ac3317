/** Which texts index a list: Python's `int(text)` on ASCII text, by its grammar. */
module PathText {
  import opened Prelude
  import opened Json
  import opened RuleEngine

  /** The ASCII characters `str.strip` removes. */
  ghost predicate Blank(c: char) {
    c as int == 32 || 9 <= c as int <= 13 || 28 <= c as int <= 31
  }

  ghost predicate AllBlank(s: string) {
    forall i :: 0 <= i < |s| ==> Blank(s[i])
  }

  ghost predicate Digit(c: char) {
    48 <= c as int <= 57
  }

  /** Digits, with single underscores between them. */
  ghost predicate Numeral(s: string) {
    && s != [] && Digit(s[0]) && Digit(s[|s| - 1])
    && (forall i :: 0 <= i < |s| ==> Digit(s[i]) || s[i] == '_')
    && (forall i :: 0 < i < |s| ==> Digit(s[i - 1]) || Digit(s[i]))
  }

  lemma {:induction false} NumeralExactly(s: string)
    ensures IsNumeral(s) <==> Numeral(s)
  {
    var n := |s|;
    if n >= 2 && IsDigit(s[n - 1]) {
      var t := if s[n - 2] == '_' then s[..n - 2] else s[..n - 1];
      NumeralExactly(t);
      if Numeral(t) {
        forall i | 0 < i < n
          ensures Digit(s[i - 1]) || Digit(s[i])
        {
          assert i < |t| ==> Digit(t[i - 1]) || Digit(t[i]);
        }
      }
      if Numeral(s) {
        assert n > 2 ==> Digit(s[n - 3]) || Digit(s[n - 2]);
      }
    }
  }

  /** Leading zeros and underscores do not count. */
  lemma {:induction false} ValueIgnores(s: string, t: string)
    ensures NumeralValue(s + "_" + t) == NumeralValue(s + t)
    ensures NumeralValue("0" + t) == NumeralValue(t)
  {
    if t == [] {
      assert (s + "_" + t)[..|s|] == s && s + t == s;
      assert "0"[..0] == "" && "0" + t == "0";
    } else {
      var n := |t| - 1;
      ValueIgnores(s, t[..n]);
      assert (s + "_" + t)[..|s| + 1 + n] == s + "_" + t[..n];
      assert (s + t)[..|s| + n] == s + t[..n];
      assert ("0" + t)[..1 + n] == "0" + t[..n];
    }
  }

  // ---- Stripping ----

  lemma {:induction false} StripLeftSplits(s: string) returns (k: nat)
    ensures k <= |s| && AllBlank(s[..k]) && StripLeft(s) == s[k..]
  {
    k := 0;
    if s != [] && IsSpace(s[0]) {
      k := StripLeftSplits(s[1..]);
      k := k + 1;
      assert s[1..][..k - 1] == s[1..k];
      assert forall i :: 0 < i < k ==> s[i] == s[1..][..k - 1][i - 1];
    }
  }

  lemma {:induction false} StripRightSplits(s: string) returns (k: nat)
    ensures k <= |s| && AllBlank(s[k..]) && StripRight(s) == s[..k]
  {
    k := |s|;
    if s != [] && IsSpace(s[|s| - 1]) {
      k := StripRightSplits(s[..|s| - 1]);
      assert forall i :: k <= i < |s| - 1 ==> s[i] == s[..|s| - 1][k..][i - k];
    }
  }

  lemma {:induction false} StripLeftDrops(left: string, s: string)
    requires AllBlank(left) && s != [] && !Blank(s[0])
    ensures StripLeft(left + s) == s
  {
    if left == [] {
      assert left + s == s;
    } else {
      assert (left + s)[1..] == left[1..] + s;
      StripLeftDrops(left[1..], s);
    }
  }

  lemma {:induction false} StripRightDrops(s: string, right: string)
    requires AllBlank(right) && s != [] && !Blank(s[|s| - 1])
    ensures StripRight(s + right) == s
  {
    if right == [] {
      assert s + right == s;
    } else {
      var n := |right| - 1;
      assert (s + right)[..|s| + n] == s + right[..n];
      StripRightDrops(s, right[..n]);
    }
  }

  // ---- int(text) ----

  /** Blanks, an optional sign, a numeral, blanks. */
  ghost predicate Written(text: string, left: string, sign: string, digits: string, right: string) {
    && text == left + sign + digits + right && AllBlank(left) && AllBlank(right)
    && (sign == "" || sign == "+" || sign == "-") && Numeral(digits)
  }

  ghost function Signed(sign: string, magnitude: int): int {
    if sign == "-" then -magnitude else magnitude
  }

  lemma StripBoth(left: string, s: string, right: string)
    requires AllBlank(left) && AllBlank(right) && s != [] && !Blank(s[0]) && !Blank(s[|s| - 1])
    ensures StripRight(StripLeft(left + s + right)) == s
  {
    assert left + s + right == left + (s + right);
    StripLeftDrops(left, s + right);
    StripRightDrops(s, right);
  }

  lemma WrittenIsRead(text: string, left: string, sign: string, digits: string, right: string)
    requires Written(text, left, sign, digits, right)
    ensures PyInt(text) == Some(Signed(sign, NumeralValue(digits)))
  {
    var s := sign + digits;
    assert text == left + s + right && s[|s| - 1] == digits[|digits| - 1];
    StripBoth(left, s, right);
    NumeralExactly(digits);
    assert sign == "" ==> s == digits;
    assert sign != "" ==> s[1..] == digits;
  }

  lemma SignSplits(s: string) returns (sign: string, digits: string)
    requires IsNumeral(if s != [] && (s[0] == '-' || s[0] == '+') then s[1..] else s)
    ensures s == sign + digits && (sign == "" || sign == "+" || sign == "-") && Numeral(digits)
  {
    if s != [] && (s[0] == '-' || s[0] == '+') {
      sign, digits := s[..1], s[1..];
    } else {
      sign, digits := "", s;
    }
    NumeralExactly(digits);
  }

  lemma ReadIsWritten(text: string) returns (left: string, sign: string, digits: string, right: string)
    requires PyInt(text).Some?
    ensures Written(text, left, sign, digits, right)
  {
    var i := StripLeftSplits(text);
    var t := text[i..];
    var k := StripRightSplits(t);
    left, right := text[..i], t[k..];
    sign, digits := SignSplits(t[..k]);
    Regroup(left, sign, digits, right);
    assert text == left + t && t == t[..k] + right;
  }

  lemma Regroup(left: string, sign: string, digits: string, right: string)
    ensures left + sign + digits + right == left + ((sign + digits) + right)
  {
  }

  /** `int(text)` succeeds exactly on such texts, with the value of the signed numeral. */
  lemma PyIntExactly(text: string, value: int)
    ensures PyInt(text) == Some(value) <==>
            exists left, sign, digits, right :: Written(text, left, sign, digits, right) && value == Signed(sign, NumeralValue(digits))
  {
    if left, sign, digits, right :| Written(text, left, sign, digits, right) && value == Signed(sign, NumeralValue(digits)) {
      WrittenIsRead(text, left, sign, digits, right);
    }
    if PyInt(text) == Some(value) {
      var left, sign, digits, right := ReadIsWritten(text);
      WrittenIsRead(text, left, sign, digits, right);
    }
  }

  // ---- One segment ----

  /** What a segment finds: a key of a dict, an element of a list counted from either end, and nothing in a scalar. */
  lemma SegmentFinds(data: Json, part: string, found: Json)
    ensures Descend(data, part) == Some(found) <==>
            || (data.Obj? && part in data.fields && data.fields[part] == found)
            || (data.List? && exists i: int :: PyInt(part) == Some(i) && ElementAt(data.items, i, found))
  {
  }

  /** Python's list indexing: -1 is the last element. */
  ghost predicate ElementAt(items: seq<Json>, i: int, found: Json) {
    (0 <= i < |items| && items[i] == found) || (-|items| <= i < 0 && items[|items| + i] == found)
  }
}
