/**
  The Deposit instruction: validate the account list `[owner, vault, system
  program]` and the 8-byte payload, then move `amount` lamports from the
  owner to its empty vault.
 */
module DepositInstruction {
  import opened Program
  import opened LittleEndian
  import SystemProgram

  const DISCRIMINATOR: uint8 := 0

  datatype DepositAccounts = DepositAccounts(owner: AccountInfo, vault: AccountInfo)

  datatype DepositInstructionData = DepositInstructionData(amount: uint64)

  datatype Deposit = Deposit(accounts: DepositAccounts, instructionData: DepositInstructionData)

  /**
    What a deposit needs of its owner and vault before anything moves: the
    owner signed, the vault belongs to the system program, holds nothing yet,
    and sits at the address derived for this owner.
   */
  predicate AcceptsDepositAccounts(env: Env, owner: AccountInfo, vault: AccountInfo)
    reads vault
  {
    && owner.isSigner
    && vault.owner == SYSTEM_PROGRAM_ID
    && vault.lamports == 0
    && vault.key == VaultAddress(env, owner.key).0
  }

  /**
    `DepositAccounts::try_from`. Each error kind is produced by exactly the
    inputs stated below, so the checks run in the order arity, signer, vault
    owner, vault balance, vault address.
   */
  function TryFromAccounts(env: Env, accounts: seq<AccountInfo>): (r: Result<DepositAccounts>)
    reads accounts
    ensures r == Err(NotEnoughAccountKeys) <==> |accounts| != 3
    ensures r == Err(InvalidAccountData) <==>
      && |accounts| == 3
      && accounts[0].isSigner
      && accounts[1].owner == SYSTEM_PROGRAM_ID
      && accounts[1].lamports != 0
    ensures r == Err(InvalidAccountOwner) <==>
      && |accounts| == 3
      && (|| !accounts[0].isSigner
          || accounts[1].owner != SYSTEM_PROGRAM_ID
          || (accounts[1].lamports == 0 && accounts[1].key != VaultAddress(env, accounts[0].key).0))
    ensures r.Ok? <==> |accounts| == 3 && AcceptsDepositAccounts(env, accounts[0], accounts[1])
    ensures r.Ok? ==> r.value.owner == accounts[0] && r.value.vault == accounts[1]
  {
    if |accounts| != 3 then Err(NotEnoughAccountKeys)
    else
      var owner, vault := accounts[0], accounts[1];
      if !owner.isSigner then Err(InvalidAccountOwner)
      else if vault.owner != SYSTEM_PROGRAM_ID then Err(InvalidAccountOwner)
      else if vault.lamports != 0 then Err(InvalidAccountData)
      else
        var (vaultKey, _) := VaultAddress(env, owner.key);
        if vault.key != vaultKey then Err(InvalidAccountOwner)
        else Ok(DepositAccounts(owner, vault))
  }

  /**
    `DepositInstructionData::try_from`: accepted payloads are exactly the
    little-endian encodings of nonzero amounts.
   */
  function TryFromData(data: seq<uint8>): (r: Result<DepositInstructionData>)
    ensures r.Ok? <==> |data| == 8 && PositionalSum(data) != 0
    ensures r.Err? ==> r.error == InvalidInstructionData
    ensures r.Ok? ==> r.value.amount >= 1 && data == Uint64ToLeBytes(r.value.amount)
  {
    if |data| != 8 then Err(InvalidInstructionData)
    else
      var amount := Uint64FromLeBytes(data);
      if amount == 0 then Err(InvalidInstructionData)
      else
        Uint64LeBytesOneToOne(data);
        Ok(DepositInstructionData(amount))
  }

  /** Every nonzero amount, encoded as 8 little-endian bytes, is accepted as itself. */
  lemma EncodedAmountAccepted(amount: uint64)
    requires amount >= 1
    ensures TryFromData(Uint64ToLeBytes(amount)) == Ok(DepositInstructionData(amount))
  {
  }

  /**
    `Deposit::try_from`: the accounts are validated first, so an account error
    hides any payload error; after that the payload decides.
   */
  function TryFrom(env: Env, data: seq<uint8>, accounts: seq<AccountInfo>): (r: Result<Deposit>)
    reads accounts
    ensures TryFromAccounts(env, accounts).Err? ==> r == Err(TryFromAccounts(env, accounts).error)
    ensures TryFromAccounts(env, accounts).Ok? && TryFromData(data).Err? ==> r == Err(InvalidInstructionData)
    ensures r.Ok? <==> TryFromAccounts(env, accounts).Ok? && TryFromData(data).Ok?
    ensures r.Ok? ==> r.value == Deposit(TryFromAccounts(env, accounts).value, TryFromData(data).value)
  {
    var accounts :- TryFromAccounts(env, accounts);
    var instructionData :- TryFromData(data);
    Ok(Deposit(accounts, instructionData))
  }

  /** The third account is never looked at. */
  lemma ThirdAccountIgnored(env: Env, owner: AccountInfo, vault: AccountInfo, x: AccountInfo, y: AccountInfo)
    ensures TryFromAccounts(env, [owner, vault, x]) == TryFromAccounts(env, [owner, vault, y])
  {
  }

  /** A zero amount is refused whatever the accounts, once they are valid. */
  lemma ZeroAmountRejected(env: Env, accounts: seq<AccountInfo>)
    requires TryFromAccounts(env, accounts).Ok?
    ensures TryFrom(env, Uint64ToLeBytes(0), accounts) == Err(InvalidInstructionData)
  {
  }

  /** A vault that already holds lamports cannot be funded again. */
  lemma FundedVaultRejected(env: Env, owner: AccountInfo, vault: AccountInfo, systemProgram: AccountInfo)
    requires owner.isSigner && vault.owner == SYSTEM_PROGRAM_ID && vault.lamports != 0
    ensures TryFromAccounts(env, [owner, vault, systemProgram]) == Err(InvalidAccountData)
  {
  }

  /**
    `Deposit::process`: an ordinary transfer of `amount` from the owner to the
    vault. It succeeds exactly when the owner can pay and the vault cannot
    overflow; then the owner loses and the vault gains `amount`. On failure
    neither balance moves and the transfer's error is passed on: the
    insufficient-funds error when the owner cannot pay, otherwise
    `ArithmeticOverflow`.
   */
  method Process(deposit: Deposit) returns (r: ProgramResult)
    modifies deposit.accounts.owner, deposit.accounts.vault
    ensures
      var owner, vault, amount := deposit.accounts.owner, deposit.accounts.vault, deposit.instructionData.amount;
      && (owner != vault ==>
            && (r.Ok? <==> amount <= old(owner.lamports) && old(vault.lamports) + amount < U64_LIMIT)
            && (r.Ok? ==> owner.lamports == old(owner.lamports) - amount && vault.lamports == old(vault.lamports) + amount)
            && (r.Err? ==>
                  && r == (if amount > old(owner.lamports) then Err(Custom(RESULT_WITH_NEGATIVE_LAMPORTS)) else Err(ArithmeticOverflow))
                  && owner.lamports == old(owner.lamports) && vault.lamports == old(vault.lamports)))
      && (owner == vault ==>
            && (r.Ok? <==> amount <= old(owner.lamports))
            && (r.Err? ==> r == Err(Custom(RESULT_WITH_NEGATIVE_LAMPORTS)))
            && owner.lamports == old(owner.lamports))
  {
    r := SystemProgram.Transfer(deposit.accounts.owner, deposit.accounts.vault, deposit.instructionData.amount, []);
  }
}
