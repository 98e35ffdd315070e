/**
 * The `Location` header of a successful create, `/users/${id}`
 * (packages/backend/src/controllers/UsersController.ts:82): the id written in decimal.
 */
module Locations {
  import opened Wrappers

  predicate IsDigit(c: char) {
    '0' <= c <= '9'
  }

  function DigitValue(c: char): nat
    requires IsDigit(c)
  {
    c as int - '0' as int
  }

  /** The digit that stands for `d`. */
  function DigitChar(d: nat): (c: char)
    requires d < 10
    ensures IsDigit(c) && DigitValue(c) == d
  {
    ('0' as int + d) as char
  }

  /**
   * The decimal numeral of `n`, without leading zeros, as a JavaScript template literal writes
   * an integer below 10^21.
   */
  function Decimal(n: nat): (s: string)
    ensures |s| >= 1 && forall i :: 0 <= i < |s| ==> IsDigit(s[i])
    ensures s[0] == '0' ==> n == 0
  {
    if n < 10 then [DigitChar(n)] else Decimal(n / 10) + [DigitChar(n % 10)]
  }

  /** Reads a string of decimal digits back as a number. */
  function ParseDecimal(s: string): nat
    requires forall i :: 0 <= i < |s| ==> IsDigit(s[i])
  {
    if s == [] then 0 else ParseDecimal(s[..|s| - 1]) * 10 + DigitValue(s[|s| - 1])
  }

  /** The numeral of `n` reads back as `n`. */
  lemma {:induction false} ParseDecimalOfDecimal(n: nat)
    ensures ParseDecimal(Decimal(n)) == n
  {
    if n >= 10 {
      var s := Decimal(n);
      assert s[..|s| - 1] == Decimal(n / 10);
      ParseDecimalOfDecimal(n / 10);
    }
  }

  /** Reads a location back: the id of `/users/{digits}`, or None for anything else. */
  function ParseLocation(s: string): Option<nat> {
    if |s| > 7 && s[..7] == "/users/" && forall i :: 7 <= i < |s| ==> IsDigit(s[i])
    then Some(ParseDecimal(s[7..]))
    else None
  }

  /** The `Location` header sent with `201 Created` for a new user: it reads back as that user's id. */
  function Location(id: nat): (s: string)
    ensures ParseLocation(s) == Some(id)
  {
    var s := "/users/" + Decimal(id);
    assert s[..7] == "/users/" && s[7..] == Decimal(id);
    ParseDecimalOfDecimal(id);
    s
  }

  /** The header names the new user unambiguously: distinct ids give distinct locations. */
  lemma LocationIdentifiesUser(a: nat, b: nat)
    ensures Location(a) == Location(b) <==> a == b
  {
  }
}
