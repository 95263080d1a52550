/** The session identity. Login issues `create_access_token(identity=str(user.id))`,
    so every identity a protected route sees is the canonical decimal text of a
    user id. The routes turn it back into an integer in two ways: `int(user_id)`
    in Python, and the database's coercion when the string is bound to an integer
    column or primary-key lookup. Both read canonical decimal text the same way,
    so one function, ToInt, models both. */
module Identity {

  predicate IsDigit(c: char) {
    '0' <= c <= '9'
  }

  /** Canonical decimal text, as Python's `str` writes a non-negative int:
      digits only, no leading zero except in "0" itself. */
  predicate IsDecimal(s: string) {
    && |s| > 0
    && (forall i :: 0 <= i < |s| ==> IsDigit(s[i]))
    && (s[0] == '0' ==> |s| == 1)
  }

  /** `get_jwt_identity()`: a Python `str`, never an `int`. */
  type Identity = s: string | IsDecimal(s) witness "0"

  function DigitChar(d: nat): (c: char)
    requires d < 10
    ensures IsDigit(c)
  {
    ('0' as int + d) as char
  }

  function DigitValue(c: char): (d: nat)
    requires IsDigit(c)
    ensures d < 10 && DigitChar(d) == c
  {
    c as int - '0' as int
  }

  /** `str(n)` for a non-negative int. */
  function Decimal(n: nat): (s: string)
    ensures IsDecimal(s)
    ensures s[0] == '0' ==> n == 0
    decreases n
  {
    if n < 10 then [DigitChar(n)] else Decimal(n / 10) + [DigitChar(n % 10)]
  }

  /** `int(s)` for canonical decimal text; its contract says that `str`
      gives back exactly the text it read. */
  function ToInt(s: Identity): (n: nat)
    ensures Decimal(n) == s
    decreases |s|
  {
    if |s| == 1 then DigitValue(s[0])
    else
      var prefix := s[..|s| - 1];
      var k := ToInt(prefix);
      var d := DigitValue(s[|s| - 1]);
      assert k > 0;
      assert (10 * k + d) / 10 == k && (10 * k + d) % 10 == d;
      assert s == prefix + [s[|s| - 1]];
      10 * k + d
  }

  /** `int(str(n)) == n`: a session identity maps back to the id it was issued for. */
  lemma {:induction false} ToIntOfDecimal(n: nat)
    ensures ToInt(Decimal(n)) == n
    decreases n
  {
    if n >= 10 {
      var s := Decimal(n);
      assert s[..|s| - 1] == Decimal(n / 10);
      ToIntOfDecimal(n / 10);
    }
  }

  /** Two ids have the same identity text only if they are the same id. */
  lemma DecimalInjective(a: nat, b: nat)
    ensures Decimal(a) == Decimal(b) ==> a == b
  {
    ToIntOfDecimal(a);
    ToIntOfDecimal(b);
  }
}
