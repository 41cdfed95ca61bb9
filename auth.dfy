/** The newer client's jury credential generator. The random numbers it
    draws are inputs: one suffix draw in [0, 999] and one alphabet index in
    [0, 66] per password character. */
module Auth {
  import opened Util

  /** The 67 characters a generated password is made of. */
  const PasswordAlphabet: string := "ABCDEFGHIJKLMNOPQRSTUVWXYZabcdefghijklmnopqrstuvwxyz0123456789!@#$%"

  const PasswordLength: nat := 8

  /** Zeros in front of a number's digits do not change its value. */
  lemma {:induction false} LeadingZero(s: string)
    requires forall i :: 0 <= i < |s| ==> IsDigit(s[i])
    ensures forall i :: 0 <= i < |"0" + s| ==> IsDigit(("0" + s)[i])
    ensures DigitsValue("0" + s) == DigitsValue(s)
    decreases |s|
  {
    var z := "0" + s;
    assert forall i :: 0 <= i < |z| ==> IsDigit(z[i]) by {
      forall i | 0 <= i < |z| ensures IsDigit(z[i]) {
        if i > 0 { assert z[i] == s[i - 1]; }
      }
    }
    if s != [] {
      var init := s[..|s| - 1];
      LeadingZero(init);
      assert z[..|z| - 1] == "0" + init;
    }
  }

  /** `padStart` with zeros keeps the digits' value. */
  lemma {:induction false} PadKeepsValue(s: string, width: nat)
    requires forall i :: 0 <= i < |s| ==> IsDigit(s[i])
    ensures var r := PadStartZero(s, width);
            (forall i :: 0 <= i < |r| ==> IsDigit(r[i])) && DigitsValue(r) == DigitsValue(s)
    decreases width - |s|
  {
    if |s| < width {
      LeadingZero(s);
      PadKeepsValue("0" + s, width);
    }
  }

  lemma AtMostThreeDigits(n: nat)
    requires n < 1000
    ensures |NatToString(n)| <= 3
  {
    if n >= 100 {
      assert NatToString(n) == NatToString(n / 10) + [DigitChar(n % 10)];
      assert NatToString(n / 10) == NatToString(n / 100) + [DigitChar(n / 10 % 10)];
    } else if n >= 10 {
      assert NatToString(n) == NatToString(n / 10) + [DigitChar(n % 10)];
    }
  }

  /** `Math.floor(Math.random() * 1000).toString().padStart(3, '0')`. */
  function Suffix(draw: nat): (r: string)
    requires draw < 1000
    ensures |r| == 3
  {
    AtMostThreeDigits(draw);
    PadStartZero(NatToString(draw), 3)
  }

  /** The suffix is three digits that read back as the draw, so two draws
      never give the same suffix. */
  lemma SuffixRoundTrip(draw: nat)
    requires draw < 1000
    ensures forall i :: 0 <= i < 3 ==> IsDigit(Suffix(draw)[i])
    ensures DigitsValue(Suffix(draw)) == draw
  {
    PadKeepsValue(NatToString(draw), 3);
    NatToStringRoundTrip(draw);
  }

  /** `generateJuryCredentials`: the cleaned name followed by the three-digit
      suffix, and eight characters picked from the alphabet by the draws. */
  method GenerateJuryCredentials(name: string, suffixDraw: nat, charDraws: seq<nat>)
    returns (username: string, password: string)
    requires suffixDraw < 1000
    requires |charDraws| == PasswordLength
    requires forall i :: 0 <= i < |charDraws| ==> charDraws[i] < |PasswordAlphabet|
    ensures username == CleanName(name) + Suffix(suffixDraw)
    ensures |username| == |CleanName(name)| + 3
    ensures |password| == PasswordLength
    ensures forall i :: 0 <= i < |password| ==> password[i] == PasswordAlphabet[charDraws[i]]
  {
    username := CleanName(name) + Suffix(suffixDraw);
    password := "";
    var i := 0;
    while i < PasswordLength
      invariant 0 <= i <= PasswordLength
      invariant |password| == i
      invariant forall k :: 0 <= k < i ==> password[k] == PasswordAlphabet[charDraws[k]]
    {
      password := password + [PasswordAlphabet[charDraws[i]]];
      i := i + 1;
    }
  }

  /** The alphabet has 67 characters; every generated password character is
      one of them, and the name part of the user name holds only lower-case
      letters and digits. */
  lemma CredentialsShape(name: string, suffixDraw: nat, username: string, password: string, charDraws: seq<nat>)
    requires suffixDraw < 1000
    requires |charDraws| == PasswordLength
    requires forall i :: 0 <= i < |charDraws| ==> charDraws[i] < |PasswordAlphabet|
    requires username == CleanName(name) + Suffix(suffixDraw)
    requires |password| == PasswordLength
    requires forall i :: 0 <= i < |password| ==> password[i] == PasswordAlphabet[charDraws[i]]
    ensures |PasswordAlphabet| == 67
    ensures forall i :: 0 <= i < |password| ==> password[i] in PasswordAlphabet
    ensures forall i :: 0 <= i < |username| - 3 ==> IsLowerAlnum(username[i])
    ensures forall i :: |username| - 3 <= i < |username| ==> IsDigit(username[i])
    ensures DigitsValue(username[|username| - 3..]) == suffixDraw
  {
    SuffixRoundTrip(suffixDraw);
    assert username[|username| - 3..] == Suffix(suffixDraw);
    forall i | |username| - 3 <= i < |username| ensures IsDigit(username[i]) {
      assert username[i] == Suffix(suffixDraw)[i - (|username| - 3)];
    }
    forall i | 0 <= i < |password| ensures password[i] in PasswordAlphabet {
      assert password[i] == PasswordAlphabet[charDraws[i]];
    }
    forall i | 0 <= i < |username| - 3 ensures IsLowerAlnum(username[i]) {
      assert username[i] == CleanName(name)[i];
    }
  }
}
