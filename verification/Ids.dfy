/** Zero-padded record numbers: `f"ACT_{n:03d}"` and `f"RB_{n:03d}"`. */
module Ids {
  import opened JsonValues

  function Padded(n: nat): string {
    if n < 10 then "00" + Digits(n) else if n < 100 then "0" + Digits(n) else Digits(n)
  }

  function ActId(n: nat): string {
    "ACT_" + Padded(n)
  }

  function RbId(n: nat): string {
    "RB_" + Padded(n)
  }

  /** Reading a run of decimal digits, most significant first. */
  function Read(s: string): int {
    if s == "" then 0 else Read(s[..|s| - 1]) * 10 + (s[|s| - 1] as int - '0' as int)
  }

  lemma {:induction false} ReadDigits(n: nat)
    ensures Read(Digits(n)) == n
  {
    if n >= 10 {
      ReadDigits(n / 10);
      assert Digits(n)[..|Digits(n)| - 1] == Digits(n / 10);
    } else {
      assert Digits(n)[..0] == "";
    }
  }

  lemma {:induction false} ReadLeadingZero(s: string)
    ensures Read("0" + s) == Read(s)
  {
    var t := "0" + s;
    if s == "" {
      assert t[..0] == "";
    } else {
      ReadLeadingZero(s[..|s| - 1]);
      assert t[..|t| - 1] == "0" + s[..|s| - 1];
    }
  }

  /** Padding never loses the number, below or above three digits. */
  lemma ReadPadded(n: nat)
    ensures Read(Padded(n)) == n
  {
    ReadDigits(n);
    ReadLeadingZero(Digits(n));
    ReadLeadingZero("0" + Digits(n));
    assert "00" + Digits(n) == "0" + ("0" + Digits(n));
  }

  lemma ActIdInjective(m: nat, n: nat)
    requires ActId(m) == ActId(n)
    ensures m == n
  {
    assert ActId(m)[4..] == Padded(m) && ActId(n)[4..] == Padded(n);
    ReadPadded(m);
    ReadPadded(n);
  }

  lemma RbIdInjective(m: nat, n: nat)
    requires RbId(m) == RbId(n)
    ensures m == n
  {
    assert RbId(m)[3..] == Padded(m) && RbId(n)[3..] == Padded(n);
    ReadPadded(m);
    ReadPadded(n);
  }
}
