/** The parts of the Python runtime the connection helpers lean on:
    `os.getenv`, truthiness of a string, `str.lower`, and `int(str)`. */
module Environment {
  import opened Results

  /** The process environment as `os.getenv` sees it: variable names to values. */
  type Env = map<string, string>

  /** `os.getenv(key)`: the value, or None when the variable is unset. */
  function GetEnv(env: Env, key: string): Option<string>
  {
    if key in env then Some(env[key]) else None
  }

  /** `os.getenv(key, default)`: the default applies only when the variable is
      unset; a variable set to the empty string yields the empty string. */
  function GetEnvOr(env: Env, key: string, default: string): string
  {
    if key in env then env[key] else default
  }

  /** Python truthiness of an optional string: `not v` holds for None and "". */
  predicate Truthy(v: Option<string>)
  {
    v.Some? && v.value != ""
  }

  // ---------------------------------------------------------------------------
  // str.lower() and the boolean flags built on it

  /** Lower-casing of one character (ASCII letters only). */
  function LowerChar(c: char): char
  {
    if 'A' <= c <= 'Z' then (c as int + 32) as char else c
  }

  /** `str.lower()`, character by character. */
  function Lower(s: string): string
  {
    seq(|s|, i requires 0 <= i < |s| => LowerChar(s[i]))
  }

  /** A flag variable parsed as `value.lower() == 'true'`. */
  predicate IsTrueFlag(value: string)
  {
    Lower(value) == "true"
  }

  /** A flag is set exactly by the four letters of "true" in any mix of cases:
      "1", "yes", "True " and the like all read as false. */
  lemma FlagIsCaseInsensitiveTrue(value: string)
    ensures IsTrueFlag(value) <==>
      && |value| == 4
      && (value[0] == 't' || value[0] == 'T')
      && (value[1] == 'r' || value[1] == 'R')
      && (value[2] == 'u' || value[2] == 'U')
      && (value[3] == 'e' || value[3] == 'E')
  {
    if IsTrueFlag(value) {
      assert |Lower(value)| == 4;
      assert LowerChar(value[0]) == Lower(value)[0] == 't';
      assert LowerChar(value[1]) == Lower(value)[1] == 'r';
      assert LowerChar(value[2]) == Lower(value)[2] == 'u';
      assert LowerChar(value[3]) == Lower(value)[3] == 'e';
    }
  }

  /** The default value "false" of an unset flag reads as false. */
  lemma DefaultFlagIsFalse()
    ensures !IsTrueFlag("false")
  {
    assert Lower("false")[0] == 'f';
  }

  // ---------------------------------------------------------------------------
  // int(str), base 10

  /** The whitespace `int()` skips around its argument (ASCII only). */
  predicate IsSpace(c: char)
  {
    c == ' ' || c == '\t' || c == '\n' || c == '\r' || c == '\U{000B}' || c == '\U{000C}'
  }

  predicate IsDigit(c: char)
  {
    '0' <= c <= '9'
  }

  /** Drops leading whitespace. */
  function StripLeading(s: string): string
    decreases |s|
  {
    if s != [] && IsSpace(s[0]) then StripLeading(s[1..]) else s
  }

  /** Drops trailing whitespace. */
  function StripTrailing(s: string): string
    decreases |s|
  {
    if s != [] && IsSpace(s[|s| - 1]) then StripTrailing(s[..|s| - 1]) else s
  }

  function Strip(s: string): string
  {
    StripTrailing(StripLeading(s))
  }

  /** The digits of a base-10 literal as `int()` accepts them: a digit, or a
      digit string followed by a digit, or by an underscore and a digit. So
      it starts and ends with a digit and has no two underscores side by side. */
  predicate IsDigitString(t: string)
    decreases |t|
  {
    && |t| > 0
    && IsDigit(t[|t| - 1])
    && (|| |t| == 1
        || IsDigitString(t[..|t| - 1])
        || (|t| >= 3 && t[|t| - 2] == '_' && IsDigitString(t[..|t| - 2])))
  }

  /** The value of a digit string, underscores skipped. */
  function DigitsValue(t: string): nat
    decreases |t|
  {
    if t == [] then 0
    else
      var c := t[|t| - 1];
      if IsDigit(c) then DigitsValue(t[..|t| - 1]) * 10 + (c as int - '0' as int)
      else DigitsValue(t[..|t| - 1])
  }

  /** `int(s)`: None where Python raises ValueError, with no limit on the
      number of digits. */
  function ParseInt(s: string): Option<int>
  {
    ParseSignedDigits(Strip(s))
  }

  /** An optional sign followed by a digit string. */
  function ParseSignedDigits(t: string): Option<int>
  {
    if |t| > 0 && (t[0] == '+' || t[0] == '-') then
      if IsDigitString(t[1..]) then
        Some(if t[0] == '-' then -(DigitsValue(t[1..]) as int) else DigitsValue(t[1..]))
      else None
    else if IsDigitString(t) then Some(DigitsValue(t))
    else None
  }

  // str(n), the inverse direction used to state what int() accepts

  function DigitChar(d: nat): (c: char)
    requires d < 10
    ensures IsDigit(c) && c as int - '0' as int == d
  {
    ('0' as int + d) as char
  }

  function NatToString(n: nat): (r: string)
    ensures |r| > 0 && forall i :: 0 <= i < |r| ==> IsDigit(r[i])
    decreases n
  {
    if n < 10 then [DigitChar(n)] else NatToString(n / 10) + [DigitChar(n % 10)]
  }

  /** `str(n)` for an int. */
  function IntToString(n: int): string
  {
    if n < 0 then "-" + NatToString(-n) else NatToString(n)
  }

  lemma {:induction false} DigitsValueOfNatToString(n: nat)
    ensures DigitsValue(NatToString(n)) == n
    decreases n
  {
    if n >= 10 {
      var s := NatToString(n / 10);
      var t := s + [DigitChar(n % 10)];
      assert t[..|t| - 1] == s;
      DigitsValueOfNatToString(n / 10);
    } else {
      var t := NatToString(n);
      assert t[..|t| - 1] == [];
    }
  }

  /** The decimal digits of a natural number form a digit string. */
  lemma {:induction false} NatToStringIsDigitString(n: nat)
    ensures IsDigitString(NatToString(n))
    decreases n
  {
    var t := NatToString(n);
    if n >= 10 {
      NatToStringIsDigitString(n / 10);
      assert t[..|t| - 1] == NatToString(n / 10);
    }
  }

  lemma StripUnspaced(s: string)
    requires s != [] && !IsSpace(s[0]) && !IsSpace(s[|s| - 1])
    ensures Strip(s) == s
  {
  }

  /** The model's `int()` inverts its `str()` for every integer. */
  lemma IntRoundTrip(n: int)
    ensures ParseInt(IntToString(n)) == Some(n)
  {
    var s := IntToString(n);
    StripUnspaced(s);
    if n < 0 {
      assert s[1..] == NatToString(-n);
      NatToStringIsDigitString(-n);
      DigitsValueOfNatToString(-n);
    } else {
      NatToStringIsDigitString(n);
      DigitsValueOfNatToString(n);
    }
  }

  /** `int()` rejects a value that is empty or all whitespace. */
  lemma BlankIsNotAnInt(s: string)
    requires forall i :: 0 <= i < |s| ==> IsSpace(s[i])
    ensures ParseInt(s) == None
  {
    StripBlank(s);
  }

  lemma {:induction false} StripBlank(s: string)
    requires forall i :: 0 <= i < |s| ==> IsSpace(s[i])
    ensures StripLeading(s) == []
    decreases |s|
  {
    if s != [] {
      assert forall i :: 0 <= i < |s[1..]| ==> s[1..][i] == s[i + 1];
      StripBlank(s[1..]);
    }
  }

  lemma StripDropsLeadingSpace(c: char, s: string)
    requires IsSpace(c)
    ensures Strip([c] + s) == Strip(s)
  {
    assert ([c] + s)[1..] == s;
  }

  /** Whitespace in front of the value does not change what `int()` reads. */
  lemma IntIgnoresLeadingSpace(c: char, s: string)
    requires IsSpace(c)
    ensures ParseInt([c] + s) == ParseInt(s)
  {
    StripDropsLeadingSpace(c, s);
  }

  /** `int()` accepts an explicit sign. */
  lemma IntAcceptsSign()
    ensures ParseInt("-7") == Some(-7)
  {
    StripUnspaced("-7");
    SignedSeven();
  }

  lemma SignedSeven()
    ensures ParseSignedDigits("-7") == Some(-7)
  {
    assert "-7"[1..] == "7";
    assert IsDigitString("7");
    assert DigitsValue("7") == 7 by { assert "7"[..0] == ""; }
  }

  /** `int()` accepts single underscores between digits. */
  lemma IntAcceptsUnderscore()
    ensures ParseInt("1_0") == Some(10)
  {
    StripUnspaced("1_0");
    UnderscoredTen();
  }

  lemma UnderscoredTen()
    ensures ParseSignedDigits("1_0") == Some(10)
  {
    var t := "1_0";
    assert IsDigitString(t) by {
      assert t[..1] == "1";
      assert IsDigitString("1");
    }
    assert DigitsValue(t) == 10 by {
      assert t[..2] == "1_";
      assert "1_"[..1] == "1";
      assert "1"[..0] == "";
    }
  }

  /** `int()` rejects doubled underscores. */
  lemma IntRejectsDoubledUnderscore()
    ensures ParseInt("1__0") == None
  {
    StripUnspaced("1__0");
    DoubledUnderscoreDigits();
  }

  lemma DoubledUnderscoreDigits()
    ensures ParseSignedDigits("1__0") == None
  {
    assert !IsDigitString("1__0") by {
      assert "1__0"[..3] == "1__" && "1__0"[..2] == "1_";
    }
  }

  /** `int()` rejects whitespace between the sign and the digits. */
  lemma IntRejectsSpaceAfterSign()
    ensures ParseInt("- 5") == None
  {
    StripUnspaced("- 5");
    SpaceAfterSignDigits();
  }

  lemma SpaceAfterSignDigits()
    ensures ParseSignedDigits("- 5") == None
  {
    assert "- 5"[1..] == " 5";
  }
}
