/** Small shared vocabulary: optional values, results carrying a JavaScript error
    message, bytes, and the decimal rendering JavaScript uses for `${n}` and
    `n.toString()` on a non-negative integer. */
module Common {

  datatype Option<+T> = None | Some(value: T)

  /** The outcome of a call that may throw: `Err` carries the error's `message`. */
  datatype Result<+T> = Ok(value: T) | Err(message: string)

  type byte = x: int | 0 <= x < 256

  function DigitChar(d: int): (c: char)
    requires 0 <= d < 10
    ensures '0' <= c <= '9'
  {
    ('0' as int + d) as char
  }

  /** Decimal digits of `n`, most significant first, without leading zeros. */
  function NatToString(n: nat): (s: string)
    ensures |s| >= 1
    ensures n < 10 <==> |s| == 1
    ensures forall i :: 0 <= i < |s| ==> '0' <= s[i] <= '9'
    decreases n
  {
    if n < 10 then [DigitChar(n)] else NatToString(n / 10) + [DigitChar(n % 10)]
  }

  /** Distinct numbers print differently: the rendering is injective. */
  lemma {:induction false} NatToStringInjective(a: nat, b: nat)
    requires NatToString(a) == NatToString(b)
    ensures a == b
  {
    var sa, sb := NatToString(a), NatToString(b);
    if a >= 10 && b >= 10 {
      assert sa[..|sa| - 1] == NatToString(a / 10);
      assert sb[..|sb| - 1] == NatToString(b / 10);
      NatToStringInjective(a / 10, b / 10);
      assert sa[|sa| - 1] == DigitChar(a % 10);
      assert sb[|sb| - 1] == DigitChar(b % 10);
    } else {
      assert sa[0] == sb[0];
    }
  }

  /** `path.join(dir, name)` for a directory without a trailing separator. */
  function JoinPath(dir: string, name: string): (p: string)
    ensures |p| == |dir| + 1 + |name| && p[..|dir|] == dir && p[|dir| + 1..] == name
  {
    dir + "/" + name
  }

  /** `s.endsWith(suffix)`. */
  predicate EndsWith(s: string, suffix: string)
  {
    |suffix| <= |s| && s[|s| - |suffix|..] == suffix
  }
}
