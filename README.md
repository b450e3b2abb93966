# Pinocchio vault: a Dafny model of the Deposit and Withdraw instructions

The vault program keeps an owner's lamports in a program-derived account. This
account, the vault, sits at the address that `find_program_address(["vault",
owner_key], program_id)` returns. The program has two instructions.

- **Deposit** (discriminator 0) checks its accounts `[owner, vault, system
  program]` in a fixed order. It then reads an 8-byte little-endian nonzero
  `amount` and transfers `amount` lamports from the owner to the vault. The
  vault must be empty beforehand.
- **Withdraw** (discriminator 1) runs the same account checks except the
  balance check. It keeps the bump of the derivation and signs for the vault
  with the seeds `["vault", owner_key, [bump]]`. It then transfers the vault's
  current balance back to the owner.

Layout, one module per file:

- `program.dfy` (`Program`): machine integers, public keys, `ProgramError`,
  `Result`, and the account class. The class has a fixed `key`, `owner` and
  `isSigner`; its only mutable field is `lamports`. The file also holds the
  vault-address rule.
- `little_endian.dfy` (`LittleEndian`): `u64::from_le_bytes` and its inverse.
- `system_program.dfy` (`SystemProgram`): the system `Transfer` call, as a
  method over two accounts proved against a function over two balances.
- `deposit.rs` and `withdraw.rs` are modelled by `deposit.dfy`
  (`DepositInstruction`) and `withdraw.dfy` (`WithdrawInstruction`). The
  `try_from` validators become functions that return a `Result`. The
  `process` steps become methods that modify the two account objects.
- `vault.dfy` (`Vault`): how the two instructions combine. This covers the
  discriminators and the round trip empty, then funded, then empty.

External parts of the runtime:

- `find_program_address` is a function value inside `Env`, next to the
  program's own id. Every result holds for every deterministic derivation
  function.
- `create_program_address` appears only through a hypothesis,
  `BumpCertifies`, which ties it to `find_program_address`. For seed lists
  within the runtime's limits (at most 16 seeds of at most 32 bytes, with room
  for the bump), the returned bump, appended as a seed, re-creates the
  returned address. No link is assumed for longer seed lists, which both
  functions refuse. The hypothesis is assumed in the contracts of
  `VaultAddress` and `SignerSeedsDeriveVault`. `CreateFromFind` builds a
  `create` from any derivation, and `CreateFromFindCertifies` shows that it
  meets the hypothesis and refuses more than 16 seeds.
- The system program's id is the all-zero key.

## Model

| member | source | states |
|---|---|---|
| `Program.VaultSeeds` | src/instructions/deposit.rs:37 | the seed array `[b"vault", owner_key]` stays within the runtime's limits (at most 16 seeds of at most 32 bytes), with room for the bump seed the derivation appends |
| `Program.VaultAddress` | src/instructions/withdraw.rs:34 | the `(key, bump)` that `find_program_address` returns for `[b"vault", owner_key]` and this program's id has this property: for every `create_program_address` that agrees with the derivation on seed lists within the limits, the seeds followed by `[bump]` re-create `key` |
| `LittleEndian.FromLeBytes` | src/instructions/deposit.rs:59 | the value of `n` little-endian bytes is below `256^n` |
| `LittleEndian.FromToLeBytes` | src/instructions/deposit.rs:59 | decoding the `n`-byte little-endian encoding of any `x < 256^n` gives `x` back |
| `LittleEndian.ToFromLeBytes` | src/instructions/deposit.rs:59 | encoding the decoded value of any byte string gives the same bytes, so decoding is one-to-one on byte strings of a given length (in particular on 8-byte payloads) |
| `LittleEndian.FromLeBytesIsPositionalSum` | src/instructions/deposit.rs:59 | the decoded value is the sum of `data[i] * 256^i` |
| `LittleEndian.Uint64FromLeBytes` | src/instructions/deposit.rs:59 | `u64::from_le_bytes` on 8 bytes is the positional sum and always fits a `u64` |
| `LittleEndian.Uint64ToLeBytes` | src/instructions/deposit.rs:59 | every `u64` has an 8-byte encoding that `from_le_bytes` maps back to it |
| `LittleEndian.Uint64LeBytesOneToOne` | src/instructions/deposit.rs:59 | each 8-byte string is the encoding of the value it decodes to |
| `SystemProgram.TransferBalances` | src/instructions/deposit.rs:93-98 | a transfer succeeds exactly when the sender can pay and the recipient does not overflow a `u64`; success conserves the sum and credits exactly `lamports`; otherwise it fails with the insufficient-funds or the overflow error |
| `SystemProgram.Transfer` | src/instructions/withdraw.rs:69-74 | the two accounts' new balances are those of `TransferBalances`; a failure leaves both unchanged; a transfer from an account to itself changes nothing |
| `DepositInstruction.TryFromAccounts` | src/instructions/deposit.rs:19-44 | `NotEnoughAccountKeys` exactly when there are not 3 accounts. `InvalidAccountData` exactly when the owner signed, the vault is system-owned and holds lamports. `InvalidAccountOwner` exactly when the owner did not sign, or the vault is not system-owned, or an empty vault's key is not the derived key. Success exactly when all checks pass, returning entries 0 and 1 |
| `DepositInstruction.ThirdAccountIgnored` | src/instructions/deposit.rs:20-22 | the third account never changes the outcome |
| `DepositInstruction.FundedVaultRejected` | src/instructions/deposit.rs:33-35 | a signed deposit into a system-owned vault that holds lamports fails with `InvalidAccountData` |
| `DepositInstruction.TryFromData` | src/instructions/deposit.rs:54-67 | a payload is accepted exactly when it has 8 bytes whose positional sum is nonzero; every refusal is `InvalidInstructionData`; an accepted amount is at least 1 and the payload is its little-endian encoding |
| `DepositInstruction.EncodedAmountAccepted` | src/instructions/deposit.rs:54-67 | the 8-byte little-endian encoding of every nonzero `u64` decodes to that same amount |
| `DepositInstruction.ZeroAmountRejected` | src/instructions/deposit.rs:62-64 | with valid accounts, the encoding of 0 is refused with `InvalidInstructionData` |
| `DepositInstruction.TryFrom` | src/instructions/deposit.rs:78-86 | an account error is reported unchanged, even when the payload is also bad; with valid accounts a payload error is `InvalidInstructionData`; success pairs the two validated parts |
| `DepositInstruction.Process` | src/instructions/deposit.rs:92-101 | for distinct accounts, success exactly when the owner can pay and the vault does not overflow; then the owner loses `amount` and the vault gains it; a failure moves nothing and returns the transfer's error, custom error 1 when the owner cannot pay and `ArithmeticOverflow` when the vault would overflow |
| `WithdrawInstruction.TryFromAccounts` | src/instructions/withdraw.rs:20-40 | `NotEnoughAccountKeys` exactly when there are not 3 accounts. `InvalidAccountOwner` exactly when the owner did not sign, the vault is not system-owned, or its key is not the derived key. On success it returns entries 0 and 1 and `bumps == [derived bump]`, a one-byte array as in the source. It reads no balance |
| `WithdrawInstruction.OnlyKeysAndOwnersMatter` | src/instructions/withdraw.rs:20-40 | two vaults with equal key and owning program get the same verdict whatever their balances, and the third account is not inspected |
| `WithdrawInstruction.UnsignedOwnerRejected` | src/instructions/withdraw.rs:26-28 | an owner that did not sign gets `InvalidAccountOwner`, whatever the vault |
| `WithdrawInstruction.TryFrom` | src/instructions/withdraw.rs:50-54 | the account validator's error is reported unchanged, and its success is wrapped unchanged |
| `WithdrawInstruction.SignerSeeds` | src/instructions/withdraw.rs:62-66 | the signer seeds are the owner's derivation seeds followed by the one-byte bump seed, and they stay within the runtime's seed limits |
| `WithdrawInstruction.SignerSeedsExtendDerivation` | src/instructions/withdraw.rs:62-66 | the signer seeds of validated accounts are exactly `["vault", owner_key]` followed by the one-byte derived bump |
| `WithdrawInstruction.SignerSeedsDeriveVault` | src/instructions/withdraw.rs:62-74 | when the derivation's bump re-creates its address for seed lists within the limits, the signer seeds of validated accounts re-create exactly the vault's key |
| `Program.CreateFromFindCertifies` | src/instructions/withdraw.rs:67-74 | for every derivation function there is a `create_program_address` that refuses more than 16 seeds and still meets the hypothesis the signer-seed lemmas assume, so those lemmas do not hold vacuously |
| `WithdrawInstruction.Process` | src/instructions/withdraw.rs:60-77 | the vault's balance read at `process` time is moved. For distinct accounts it succeeds exactly when the owner's new balance fits a `u64`; then the vault is 0 and the owner gains the former vault balance; otherwise the error is `ArithmeticOverflow` and nothing moves |
| `Vault.DiscriminatorsDiffer` | src/instructions/withdraw.rs:58 | Deposit's discriminator is 0, Withdraw's is 1, and they differ |
| `Vault.DepositAccountsAreWithdrawAccounts` | src/instructions/withdraw.rs:20-40 | accounts that pass the deposit checks pass the withdrawal checks |
| `Vault.DepositThenWithdraw` | src/instructions/deposit.rs:92-98 | after a validated deposit of an amount the owner can pay, a second deposit is refused with `InvalidAccountData` and the withdrawal succeeds. At the end the owner's balance is as before, the vault is empty and it passes the deposit checks again. If the owner cannot pay, the deposit fails with custom error 1 and nothing moves |

## Left out

- The internals of `find_program_address` are not modelled: hashing, the off-curve test and the bump search. The derivation is any total function, so its failure when no bump qualifies (a panic) is not modelled.
- The model claims no injectivity of the derivation, across owners or across program ids.
- SystemProgram.Transfer: only the balances are modelled. The runtime's check of the signer seeds, the system program's signer and empty-data requirements on the sender, and writability are not modelled. The model's only failures are insufficient funds (custom error 1, `ResultWithNegativeLamports`) and recipient overflow.
- Transaction atomicity, rollback, fees and cross-transaction scheduling belong to the host runtime.
- The runtime's rent-exemption check after the transaction is not modelled. A deposit that leaves the vault below the rent-exempt minimum fails the whole transaction there, while the model reports it as a success.
- The entrypoint that reads the discriminator byte and dispatches is not part of this model.
- `AccountInfo` raw pointers, borrows and lifetimes are left out. An account's owning program is treated as fixed during the instruction, because neither instruction can change it.
- The `Signer` wrapper around the seed array is not modelled. Its content is `WithdrawInstruction.SignerSeeds`.
