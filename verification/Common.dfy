/** Result types and decimal formatting shared by the models. */
module Common {

  datatype Option<+T> = None | Some(value: T)

  /** `ocvpn_model::ErrorCode`; messages and details are not modelled. */
  datatype ErrorCode =
    | InvalidInput
    | UnsupportedAuthentication
    | RuntimeFailure
    | AuthenticationRequired
    | AuthenticationRejected
    | ServiceUnavailable
    | Busy
    | Conflict
    | NotFound
    | CorruptStorage
    | NewerSchema
    | KeyringUnavailable
    | CertificateRejected
    | Cancelled
    | ProtocolViolation
    | RecoveryRequired
    | AuthorizationDenied

  datatype Result<+T> = Ok(value: T) | Err(code: ErrorCode) {
    predicate IsFailure() {
      Err?
    }

    function PropagateFailure<U>(): Result<U>
      requires Err?
    {
      Err(code)
    }

    function Extract(): T
      requires Ok?
    {
      value
    }
  }

  /** Forgets which error a computation ended with. */
  function Success<T>(r: Result<T>): Option<T> {
    match r
    case Ok(v) => Some(v)
    case Err(_) => None
  }

  /** What `private_fs::atomic_write` does; a failure may come after the new contents took effect. */
  datatype FileWrite = FileWritten | FileFails(code: ErrorCode, effect: bool)

  const U64_MAX: nat := 0xFFFF_FFFF_FFFF_FFFF

  type Byte = n: nat | n < 256

  /** Unicode White_Space, which `trim` removes. */
  predicate WhiteSpace(c: char) {
    var n := c as int;
    || 0x9 <= n <= 0xD || n == 0x20 || n == 0x85 || n == 0xA0 || n == 0x1680 || 0x2000 <= n <= 0x200A
    || n == 0x2028 || n == 0x2029 || n == 0x202F || n == 0x205F || n == 0x3000
  }

  /** ASCII lower case. */
  function LowerChar(c: char): char {
    if 'A' <= c <= 'Z' then (c as int + 32) as char else c
  }

  function Lower(s: string): string {
    seq(|s|, i requires 0 <= i < |s| => LowerChar(s[i]))
  }

  predicate EqualsIgnoringCase(a: string, b: string) {
    |a| == |b| && forall i :: 0 <= i < |a| ==> LowerChar(a[i]) == LowerChar(b[i])
  }

  predicate Contains(s: string, t: string) {
    exists i :: 0 <= i <= |s| && t <= s[i..]
  }

  const DIGITS: string := "0123456789"

  /** Decimal digits without leading zeros, as Rust's integer formatting writes them. */
  function Decimal(n: nat): (s: string)
    ensures |s| > 0
    ensures forall i :: 0 <= i < |s| ==> '0' <= s[i] <= '9'
  {
    if n < 10 then [DIGITS[n]] else Decimal(n / 10) + [DIGITS[n % 10]]
  }

  /** Value of a string of decimal digits. */
  function DecimalValue(s: string): (n: nat)
    requires forall i :: 0 <= i < |s| ==> '0' <= s[i] <= '9'
  {
    if s == [] then 0 else 10 * DecimalValue(s[..|s| - 1]) + (s[|s| - 1] as int - '0' as int)
  }

  lemma {:induction false} DecimalRoundTrip(n: nat)
    ensures DecimalValue(Decimal(n)) == n
  {
    if n >= 10 {
      DecimalRoundTrip(n / 10);
      assert Decimal(n)[..|Decimal(n)| - 1] == Decimal(n / 10);
    } else {
      assert Decimal(n)[..0] == [];
    }
  }

  lemma DecimalInjective(m: nat, n: nat)
    requires Decimal(m) == Decimal(n)
    ensures m == n
  {
    DecimalRoundTrip(m);
    DecimalRoundTrip(n);
  }

  /** A number below 10^width prints in at most `width` digits. */
  function PowerOfTen(width: nat): (p: nat)
    ensures p > 0
  {
    if width == 0 then 1 else 10 * PowerOfTen(width - 1)
  }

  lemma {:induction false} DecimalWidth(n: nat, width: nat)
    requires width > 0 && n < PowerOfTen(width)
    ensures |Decimal(n)| <= width
  {
    if n >= 10 {
      assert width > 1;
      DecimalWidth(n / 10, width - 1);
    }
  }

  /** Bytes of a string in UTF-8. */
  function Utf8Length(s: string): nat {
    if s == "" then 0
    else
      var n := s[0] as int;
      (if n < 0x80 then 1 else if n < 0x800 then 2 else if n < 0x10000 then 3 else 4) + Utf8Length(s[1..])
  }
}
