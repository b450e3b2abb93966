/**
  The Withdraw instruction: validate the account list `[owner, vault, system
  program]`, keep the bump of the vault's derivation, then sign for the vault
  with the seeds `["vault", owner_key, bump]` and move its whole balance back
  to the owner.
 */
module WithdrawInstruction {
  import opened Program
  import SystemProgram

  const DISCRIMINATOR: uint8 := 1

  /** `[u8; 1]`: the bump, as the one-byte seed it becomes. */
  type Bumps = b: seq<uint8> | |b| == 1 witness [0]

  datatype WithdrawAccounts = WithdrawAccounts(owner: AccountInfo, vault: AccountInfo, bumps: Bumps)

  datatype Withdraw = Withdraw(accounts: WithdrawAccounts)

  /**
    What a withdrawal needs of its owner and vault: the owner signed, the vault
    belongs to the system program and sits at the address derived for this
    owner. Balances play no part.
   */
  predicate AcceptsWithdrawAccounts(env: Env, owner: AccountInfo, vault: AccountInfo)
  {
    && owner.isSigner
    && vault.owner == SYSTEM_PROGRAM_ID
    && vault.key == VaultAddress(env, owner.key).0
  }

  /**
    `WithdrawAccounts::try_from`. It reads no mutable state, so no balance can
    affect it. Every check after the arity one fails with `InvalidAccountOwner`.
    On success the bump that the derivation returned alongside the vault's
    address is kept.
   */
  function TryFromAccounts(env: Env, accounts: seq<AccountInfo>): (r: Result<WithdrawAccounts>)
    ensures r == Err(NotEnoughAccountKeys) <==> |accounts| != 3
    ensures r == Err(InvalidAccountOwner) <==>
      |accounts| == 3 && !AcceptsWithdrawAccounts(env, accounts[0], accounts[1])
    ensures r.Ok? <==> |accounts| == 3 && AcceptsWithdrawAccounts(env, accounts[0], accounts[1])
    ensures r.Ok? ==>
      && r.value.owner == accounts[0]
      && r.value.vault == accounts[1]
      && r.value.bumps == [VaultAddress(env, accounts[0].key).1]
  {
    if |accounts| != 3 then Err(NotEnoughAccountKeys)
    else
      var owner, vault := accounts[0], accounts[1];
      if !owner.isSigner then Err(InvalidAccountOwner)
      else if vault.owner != SYSTEM_PROGRAM_ID then Err(InvalidAccountOwner)
      else
        var (vaultKey, bump) := VaultAddress(env, owner.key);
        if vaultKey != vault.key then Err(InvalidAccountOwner)
        else Ok(WithdrawAccounts(owner, vault, [bump]))
  }

  /** `Withdraw::try_from`: account validation is all there is. */
  function TryFrom(env: Env, accounts: seq<AccountInfo>): (r: Result<Withdraw>)
    ensures TryFromAccounts(env, accounts).Err? ==> r == Err(TryFromAccounts(env, accounts).error)
    ensures TryFromAccounts(env, accounts).Ok? ==> r == Ok(Withdraw(TryFromAccounts(env, accounts).value))
  {
    var accounts :- TryFromAccounts(env, accounts);
    Ok(Withdraw(accounts))
  }

  /** A withdrawal signed by someone other than the owner fails, whatever vault is given. */
  lemma UnsignedOwnerRejected(env: Env, owner: AccountInfo, vault: AccountInfo, systemProgram: AccountInfo)
    requires !owner.isSigner
    ensures TryFrom(env, [owner, vault, systemProgram]) == Err(InvalidAccountOwner)
  {
  }

  /**
    Two vaults that agree on key and owning program are treated alike, whatever
    their balances; the third account is never looked at.
   */
  lemma OnlyKeysAndOwnersMatter(env: Env, owner: AccountInfo, vault1: AccountInfo, vault2: AccountInfo, x: AccountInfo, y: AccountInfo)
    requires vault1.key == vault2.key && vault1.owner == vault2.owner
    ensures TryFromAccounts(env, [owner, vault1, x]).Ok? == TryFromAccounts(env, [owner, vault2, y]).Ok?
    ensures TryFromAccounts(env, [owner, vault1, x]).Err? ==>
      TryFromAccounts(env, [owner, vault1, x]) == TryFromAccounts(env, [owner, vault2, y])
  {
  }

  /**
    The signer seeds `[b"vault", owner_key, bumps]` that `process` presents for
    the vault: the owner's derivation seeds followed by the bump seed, within
    the runtime's seed limits.
   */
  function SignerSeeds(accounts: WithdrawAccounts): (seeds: seq<Seed>)
    ensures seeds == VaultSeeds(accounts.owner.key) + [accounts.bumps]
    ensures WithinSeedLimits(seeds)
  {
    [VAULT_SEED, accounts.owner.key, accounts.bumps]
  }

  /**
    For validated accounts the signer seeds are the vault's derivation seeds
    followed by the one-byte bump that derivation returned.
   */
  lemma SignerSeedsExtendDerivation(env: Env, accounts: seq<AccountInfo>)
    requires TryFromAccounts(env, accounts).Ok?
    ensures var w := TryFromAccounts(env, accounts).value;
      SignerSeeds(w) == VaultSeeds(w.owner.key) + [[VaultAddress(env, w.owner.key).1]]
  {
  }

  /**
    If the bump that `find_program_address` returns does make
    `create_program_address` reproduce its address, then the signer seeds of
    validated accounts re-derive exactly the vault's key: they are the authority
    the runtime accepts for the vault.
   */
  lemma SignerSeedsDeriveVault(env: Env, create: CreateProgramAddress, accounts: seq<AccountInfo>)
    requires BumpCertifies(env.find, create)
    requires TryFromAccounts(env, accounts).Ok?
    ensures var w := TryFromAccounts(env, accounts).value;
      create(SignerSeeds(w), env.programId) == Some(w.vault.key)
  {
    SignerSeedsExtendDerivation(env, accounts);
  }

  /**
    `Withdraw::process`: a signed transfer of the vault's balance as it stands
    when `process` runs. It succeeds exactly when the owner's new balance fits
    a `u64`; then the vault is empty and the owner holds both old balances. On
    failure neither balance moves. The seeds are handed to the transfer, whose
    model does not check them, so they do not affect this contract; what they
    prove is stated by `SignerSeedsDeriveVault`.
   */
  method Process(withdraw: Withdraw) returns (r: ProgramResult)
    modifies withdraw.accounts.owner, withdraw.accounts.vault
    ensures
      var owner, vault := withdraw.accounts.owner, withdraw.accounts.vault;
      && (owner != vault ==>
            && (r.Ok? <==> old(owner.lamports) + old(vault.lamports) < U64_LIMIT)
            && (r.Ok? ==> vault.lamports == 0 && owner.lamports == old(owner.lamports) + old(vault.lamports))
            && (r.Err? ==>
                  r == Err(ArithmeticOverflow) && owner.lamports == old(owner.lamports) && vault.lamports == old(vault.lamports)))
      && (owner == vault ==> r.Ok? && owner.lamports == old(owner.lamports))
  {
    var seeds := SignerSeeds(withdraw.accounts);
    var signers := [seeds];
    r := SystemProgram.Transfer(withdraw.accounts.vault, withdraw.accounts.owner, withdraw.accounts.vault.lamports, signers);
  }
}
