/**
 Leases, clocks and the validation rules of lock names and holder ids.

 Times and durations are integers counting nanoseconds, as in Go's time package.
 A string stands for the bytes of a Go string, one char a byte.
 */
module Leases {

  type Time = int
  type Duration = int

  const MILLISECOND: Duration := 1_000_000

  const MAX_TOKEN: nat := 0xFFFF_FFFF_FFFF_FFFF

  /** A fencing token: a uint64. */
  type Token = n: nat | n <= MAX_TOKEN

  /** The uint64 increment, wrap-around included. */
  function NextToken(t: Token): Token {
    if t == MAX_TOKEN then 0 else t + 1
  }

  /** Whole milliseconds since the epoch, rounded down. */
  function UnixMilli(t: Time): int {
    t / MILLISECOND
  }

  /** Whole milliseconds in a duration, rounded toward zero. */
  function Milliseconds(d: Duration): int {
    if d < 0 then -(-d / MILLISECOND) else d / MILLISECOND
  }

  /** Who holds which lock, under which token, from when until when. */
  datatype Lease = Lease(
    name: string,
    holder: string,
    token: Token,
    ttl: Duration,
    acquiredAt: Time,
    expiresAt: Time)
  {
    /** The deadline itself no longer belongs to the lease. */
    predicate Expired(now: Time) {
      !(now < expiresAt)
    }
  }

  const MAX_NAME_LEN := 128
  const MAX_HOLDER_LEN := 256

  predicate NameChar(c: char) {
    'a' <= c <= 'z' || 'A' <= c <= 'Z' || '0' <= c <= '9' || c == '.' || c == '_' || c == '-'
  }

  predicate HolderChar(c: char) {
    ' ' <= c <= '~'
  }

  predicate ValidName(name: string) {
    1 <= |name| <= MAX_NAME_LEN && forall c | c in name :: NameChar(c)
  }

  predicate ValidHolder(holder: string) {
    1 <= |holder| <= MAX_HOLDER_LEN && forall c | c in holder :: HolderChar(c)
  }

  /** The two rules in bytes: letters, digits, dot, underscore and hyphen; printable ASCII and spaces. */
  lemma NamesAndHolders(s: string)
    ensures ValidName(s) <==>
              && 1 <= |s| <= 128
              && forall c | c in s ::
                   || 0x41 <= c as int <= 0x5A || 0x61 <= c as int <= 0x7A || 0x30 <= c as int <= 0x39
                   || c as int == 0x2E || c as int == 0x5F || c as int == 0x2D
    ensures ValidHolder(s) <==> 1 <= |s| <= 256 && forall c | c in s :: 0x20 <= c as int <= 0x7E
  {
  }

  method ValidateName(name: string) returns (ok: bool)
    ensures ok <==> ValidName(name)
  {
    if name == "" {
      return false;
    }
    if |name| > MAX_NAME_LEN {
      return false;
    }
    var i := 0;
    while i < |name|
      invariant 0 <= i <= |name|
      invariant forall c | c in name[..i] :: NameChar(c)
    {
      if !NameChar(name[i]) {
        return false;
      }
      i := i + 1;
    }
    assert name[..i] == name;
    return true;
  }

  method ValidateHolder(holder: string) returns (ok: bool)
    ensures ok <==> ValidHolder(holder)
  {
    if holder == "" {
      return false;
    }
    if |holder| > MAX_HOLDER_LEN {
      return false;
    }
    var i := 0;
    while i < |holder|
      invariant 0 <= i <= |holder|
      invariant forall c | c in holder[..i] :: HolderChar(c)
    {
      if holder[i] < ' ' || holder[i] > '~' {
        assert holder[i] in holder;
        return false;
      }
      i := i + 1;
    }
    assert holder[..i] == holder;
    return true;
  }
}
