/** The single input rule of the program: a phone number is exactly ten
    digits, as `re.fullmatch(r"\d{10}", phone)` decides. */
module Validation {

  /** A decimal digit. Python's `\d` also accepts the other Unicode decimal
      digits; the model accepts only `0` to `9`. */
  predicate IsDigit(c: char) {
    '0' <= c <= '9'
  }

  /** The regular expression `\d{n}` matched against the whole of `s`: each
      of the `n` repetitions consumes one digit and nothing may be left. */
  function FullMatchDigits(s: string, n: nat): (ok: bool)
    ensures ok <==> |s| == n && forall i :: 0 <= i < |s| ==> IsDigit(s[i])
  {
    if n == 0 then
      |s| == 0
    else
      |s| > 0 && IsDigit(s[0]) && FullMatchDigits(s[1..], n - 1)
  }

  const PhoneLength: nat := 10

  function ValidPhone(phone: string): (ok: bool)
    ensures ok <==> |phone| == 10 && forall i :: 0 <= i < |phone| ==> IsDigit(phone[i])
  {
    FullMatchDigits(phone, PhoneLength)
  }
}
