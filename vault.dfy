/**
  The vault's life cycle across the two instructions: an empty vault can be
  funded once, a funded vault refuses further deposits, and a withdrawal
  empties it again and returns every lamport to the owner.
 */
module Vault {
  import opened Program
  import DepositInstruction
  import WithdrawInstruction

  /** The two instructions are told apart by different discriminator bytes. */
  lemma DiscriminatorsDiffer()
    ensures DepositInstruction.DISCRIMINATOR == 0 && WithdrawInstruction.DISCRIMINATOR == 1
    ensures DepositInstruction.DISCRIMINATOR != WithdrawInstruction.DISCRIMINATOR
  {
  }

  /** Accounts that pass the deposit checks also pass the withdrawal checks. */
  lemma DepositAccountsAreWithdrawAccounts(env: Env, accounts: seq<AccountInfo>)
    requires DepositInstruction.TryFromAccounts(env, accounts).Ok?
    ensures WithdrawInstruction.TryFromAccounts(env, accounts).Ok?
  {
  }

  /**
    A validated deposit followed by a withdrawal over the same accounts.
    `redeposit` is the deposit validated again between the two. If the owner
    can pay, both steps succeed, the second deposit is refused because the
    vault is funded, and at the end both balances are back where they started
    and the vault accepts a deposit again. If the owner cannot pay, the
    deposit fails with the insufficient-funds error, nothing moves and no
    withdrawal is attempted.
   */
  method DepositThenWithdraw(env: Env, data: seq<uint8>, accounts: seq<AccountInfo>)
    returns (deposited: ProgramResult, redeposit: Result<DepositInstruction.Deposit>, withdrawn: ProgramResult)
    requires DepositInstruction.TryFrom(env, data, accounts).Ok?
    modifies accounts[0], accounts[1]
    ensures |accounts| == 3
    ensures var amount := old(DepositInstruction.TryFrom(env, data, accounts)).value.instructionData.amount;
      deposited.Ok? <==> amount <= old(accounts[0].lamports)
    ensures deposited.Ok? ==>
      && redeposit == Err(InvalidAccountData)
      && withdrawn.Ok?
    ensures deposited.Err? ==> deposited == Err(Custom(RESULT_WITH_NEGATIVE_LAMPORTS)) && withdrawn == deposited
    ensures accounts[0].lamports == old(accounts[0].lamports)
    ensures accounts[1].lamports == 0
    ensures DepositInstruction.TryFromAccounts(env, accounts).Ok?
  {
    var deposit := DepositInstruction.TryFrom(env, data, accounts).value;
    DepositAccountsAreWithdrawAccounts(env, accounts);
    deposited := DepositInstruction.Process(deposit);
    redeposit := DepositInstruction.TryFrom(env, data, accounts);
    if deposited.Err? {
      withdrawn := deposited;
      return;
    }
    var withdraw := WithdrawInstruction.TryFrom(env, accounts);
    assert withdraw.Ok?;
    withdrawn := WithdrawInstruction.Process(withdraw.value);
  }
}
