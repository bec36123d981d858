/**
 * The athlete access form: every edit of the code field is sanitised with
 * `value.replace(/\D/g, "").slice(0, 4)`, and the submit button is enabled
 * for a code of exactly four characters.
 */
module AthleteAccess {

  /** `\d` without the `u` flag: the ASCII digits only. */
  predicate IsDigit(c: char)
  {
    '0' <= c <= '9'
  }

  predicate AllDigits(s: string)
  {
    forall i :: 0 <= i < |s| ==> IsDigit(s[i])
  }

  /** `s.replace(/\D/g, "")`: the digits of `s`, in order. Only characters
      of `s` appear, every digit of `s` is kept, and nothing else is. */
  function Digits(s: string): (r: string)
    ensures AllDigits(r)
    ensures |r| <= |s|
    ensures forall i :: 0 <= i < |r| ==> r[i] in s
    ensures forall i :: 0 <= i < |s| && IsDigit(s[i]) ==> s[i] in r
  {
    if s == [] then []
    else
      var r := (if IsDigit(s[0]) then [s[0]] else []) + Digits(s[1..]);
      assert forall i :: 1 <= i < |s| ==> s[i] == s[1..][i - 1];
      r
  }

  /** `.slice(0, 4)`. */
  function Take4(s: string): (r: string)
    ensures |r| == if |s| < 4 then |s| else 4
    ensures r == s[..|r|]
  {
    if |s| <= 4 then s else s[..4]
  }

  /** The sanitiser of the code field. */
  function Sanitize(s: string): string
  {
    Take4(Digits(s))
  }

  /** The submit button is enabled iff the code has exactly four characters. */
  predicate SubmitEnabled(code: string)
  {
    |code| == 4
  }

  /** The sanitised code holds digits only, at most four of them. */
  lemma SanitizeShape(s: string)
    ensures AllDigits(Sanitize(s))
    ensures |Sanitize(s)| <= 4
  {
    var d := Digits(s);
    assert forall i :: 0 <= i < |Sanitize(s)| ==> Sanitize(s)[i] == d[i];
  }

  lemma {:induction false} DigitsConcat(a: string, b: string)
    ensures Digits(a + b) == Digits(a) + Digits(b)
  {
    if a == [] {
      assert a + b == b;
    } else {
      assert (a + b)[1..] == a[1..] + b;
      DigitsConcat(a[1..], b);
    }
  }

  /** A string of digits is its own digit string. */
  lemma {:induction false} DigitsOfDigits(s: string)
    requires AllDigits(s)
    ensures Digits(s) == s
  {
    if s != [] {
      DigitsOfDigits(s[1..]);
    }
  }

  /** The sanitised code is the first four digits of the input, in their
      order: the digits of any prefix of the input that holds four
      digits, or all the digits when there are fewer. */
  lemma SanitizeFirstDigits(s: string, n: nat)
    requires n <= |s|
    requires |Digits(s[..n])| >= 4
    ensures Sanitize(s) == Digits(s[..n])[..4]
  {
    DigitsConcat(s[..n], s[n..]);
    assert s[..n] + s[n..] == s;
  }

  /** Sanitising is idempotent. */
  lemma SanitizeIdempotent(s: string)
    ensures Sanitize(Sanitize(s)) == Sanitize(s)
  {
    SanitizeShape(s);
    DigitsOfDigits(Sanitize(s));
  }

  /** The fixed points of the sanitiser are exactly the digit strings of
      length at most four. */
  lemma SanitizeFixedPoints(s: string)
    ensures Sanitize(s) == s <==> AllDigits(s) && |s| <= 4
  {
    SanitizeShape(s);
    if AllDigits(s) {
      DigitsOfDigits(s);
    }
  }

  /** Submitting becomes possible exactly once four digits have been typed. */
  lemma SubmitNeedsFourDigits(s: string)
    ensures SubmitEnabled(Sanitize(s)) <==> |Digits(s)| >= 4
  {
  }
}
