/**
  The system program's `Transfer` instruction, reached through a
  cross-program invocation (`invoke`, or `invoke_signed` with signer seeds).
  Only its effect on the two balances is modelled.
 */
module SystemProgram {
  import opened Program

  /**
    The balances of two distinct accounts after moving `lamports` from the first
    to the second, or the error the transfer stops with.
   */
  function TransferBalances(fromLamports: uint64, toLamports: uint64, lamports: uint64): (r: Result<(uint64, uint64)>)
    ensures r.Ok? <==> lamports <= fromLamports && toLamports + lamports < U64_LIMIT
    ensures lamports > fromLamports ==> r == Err(Custom(RESULT_WITH_NEGATIVE_LAMPORTS))
    ensures lamports <= fromLamports && toLamports + lamports >= U64_LIMIT ==> r == Err(ArithmeticOverflow)
    ensures r.Ok? ==> r.value.0 + r.value.1 == fromLamports + toLamports
    ensures r.Ok? ==> r.value.1 - toLamports == lamports
  {
    if lamports > fromLamports then Err(Custom(RESULT_WITH_NEGATIVE_LAMPORTS))
    else if toLamports + lamports >= U64_LIMIT then Err(ArithmeticOverflow)
    else Ok((fromLamports - lamports, toLamports + lamports))
  }

  /**
    `Transfer { from, to, lamports }.invoke_signed(signers)`; `invoke()` is the
    case with no signers. The runtime's checks of `signers` and of the signer
    flags are not modelled. When `from` and `to` are the same account the
    debit and the credit cancel out. A failed transfer changes nothing.
   */
  method Transfer(from: AccountInfo, to: AccountInfo, lamports: uint64, signers: seq<seq<Seed>>)
    returns (r: ProgramResult)
    modifies from, to
    ensures from != to ==>
      var spec := TransferBalances(old(from.lamports), old(to.lamports), lamports);
      && (r.Ok? <==> spec.Ok?)
      && (spec.Ok? ==> from.lamports == spec.value.0 && to.lamports == spec.value.1)
      && (spec.Err? ==> r == Err(spec.error) && from.lamports == old(from.lamports) && to.lamports == old(to.lamports))
    ensures from == to ==>
      && r == (if lamports <= old(from.lamports) then Ok(()) else Err(Custom(RESULT_WITH_NEGATIVE_LAMPORTS)))
      && from.lamports == old(from.lamports)
  {
    if lamports > from.lamports {
      return Err(Custom(RESULT_WITH_NEGATIVE_LAMPORTS));
    }
    if from != to && to.lamports + lamports >= U64_LIMIT {
      return Err(ArithmeticOverflow);
    }
    from.lamports := from.lamports - lamports;
    to.lamports := to.lamports + lamports;
    r := Ok(());
  }
}
