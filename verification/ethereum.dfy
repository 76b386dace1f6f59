/** Ethereum addresses and the denominations of the vouchers that stand for ERC20 tokens. */
module Ethereum {
  import opened Types

  const DENOM_PREFIX := "nab"
  const ADDRESS_LEN := 42
  const DENOM_LEN := |DENOM_PREFIX| + ADDRESS_LEN
  const ZERO_ADDRESS := "0x0000000000000000000000000000000000000000"

  predicate IsHexDigit(c: char) {
    '0' <= c <= '9' || 'a' <= c <= 'f' || 'A' <= c <= 'F'
  }

  predicate ValidEthAddress(a: string) {
    && |a| == ADDRESS_LEN
    && a[..2] == "0x"
    && forall i | 2 <= i < |a| :: IsHexDigit(a[i])
  }

  function GravityDenom(contract: string): string {
    DENOM_PREFIX + contract
  }

  /** The contract that a voucher denomination names; None for every other denomination. */
  function GravityDenomToERC20(denom: string): Option<string> {
    if !(DENOM_PREFIX <= denom) then None
    else
      var contract := denom[|DENOM_PREFIX|..];
      if !ValidEthAddress(contract) then None
      else if |denom| != DENOM_LEN then None
      else Some(contract)
  }

  /** The two conversions are inverse to each other on the valid addresses, and only there. */
  lemma DenomRoundTrip(denom: string, contract: string)
    ensures GravityDenomToERC20(denom) == Some(contract) <==> denom == GravityDenom(contract) && ValidEthAddress(contract)
    ensures GravityDenom(contract) == "nab" + contract
    ensures ValidEthAddress(contract)
       <==> |contract| == 42 && contract[0] == '0' && contract[1] == 'x'
            && forall i | 2 <= i < 42 :: contract[i] in "0123456789abcdefABCDEF"
  {
    if DENOM_PREFIX <= denom {
      assert denom == DENOM_PREFIX + denom[|DENOM_PREFIX|..];
    }
    assert GravityDenom(contract)[|DENOM_PREFIX|..] == contract;
  }

  lemma DenomInjective(a: string, b: string)
    requires GravityDenom(a) == GravityDenom(b)
    ensures a == b
  {
    assert a == GravityDenom(a)[|DENOM_PREFIX|..] == GravityDenom(b)[|DENOM_PREFIX|..] == b;
  }
}
