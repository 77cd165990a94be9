/** The two pure generators of utils/otpHelper.js, with their random draws as parameters. */
module OtpHelper {
  import opened Text

  /** `Math.floor(100000 + Math.random() * 900000).toString()`, `draw` being the floored product. */
  function GenerateOtp(draw: nat): (code: string)
    requires draw < 900000
    ensures |code| == 6 && AllDigits(code)
    ensures DecimalValue(code) == 100000 + draw
    ensures 100000 <= DecimalValue(code) <= 999999
  {
    DecimalLength(100000 + draw, 6);
    DecimalRoundTrip(100000 + draw);
    assert Pow(10, 6) == 1000000 by {
      assert Pow(10, 3) == 1000;
    }
    Decimal(100000 + draw)
  }

  /** The word a generated password starts from: the first space-separated token, or "User". */
  function PasswordBase(name: string): string {
    if name == "" then "User" else FirstToken(name)
  }

  /**
   * The base with every non-letter removed, followed by
   * `Math.floor(1000 + Math.random() * 9000)`, `draw` being the floored product.
   */
  function GenerateRandomPassword(name: string, draw: nat): (p: string)
    requires draw < 9000
    ensures |p| >= 4
    ensures p[..|p| - 4] == LettersOnly(PasswordBase(name))
    ensures AllLetters(p[..|p| - 4])
    ensures AllDigits(p[|p| - 4..]) && DecimalValue(p[|p| - 4..]) == 1000 + draw
  {
    var base := LettersOnly(PasswordBase(name));
    var digits := Decimal(1000 + draw);
    FourDigits(draw);
    var p := base + digits;
    assert p[..|p| - 4] == base && p[|p| - 4..] == digits;
    p
  }

  /** `1000 + draw` is written with exactly four digits. */
  lemma FourDigits(draw: nat)
    requires draw < 9000
    ensures |Decimal(1000 + draw)| == 4 && DecimalValue(Decimal(1000 + draw)) == 1000 + draw
  {
    DecimalLength(1000 + draw, 4);
    DecimalRoundTrip(1000 + draw);
    assert Pow(10, 4) == 10000 by {
      assert Pow(10, 2) == 100;
    }
  }

  /** A missing name gives a password of the form User<dddd>. */
  lemma NamelessPassword(draw: nat)
    requires draw < 9000
    ensures var p := GenerateRandomPassword("", draw); p[..|p| - 4] == "User"
  {
    assert AllLetters("User");
  }

  /** A name whose first word is all letters keeps that word whole: "Asha Rao" gives Asha<dddd>. */
  lemma FirstWordPassword(first: string, rest: string, draw: nat)
    requires draw < 9000 && first != "" && AllLetters(first)
    ensures var p := GenerateRandomPassword(first + " " + rest, draw); p[..|p| - 4] == first
  {
    var name := first + " " + rest;
    assert ' ' !in first by {
      assert forall i :: 0 <= i < |first| ==> first[i] != ' ';
    }
    assert name[|first|] == ' ';
    assert name[..|first|] == first;
    FirstTokenOfSplit(first, rest);
  }

  lemma {:induction false} FirstTokenOfSplit(first: string, rest: string)
    requires ' ' !in first
    ensures FirstToken(first + " " + rest) == first
  {
    if first != [] {
      assert (first + " " + rest)[1..] == first[1..] + " " + rest;
      FirstTokenOfSplit(first[1..], rest);
    }
  }
}
