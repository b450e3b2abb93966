/**
  Types shared by the vault program's two instructions: machine integers,
  public keys, the error taxonomy, account records and the program-derived
  address rule that both instructions use to find the vault of an owner.
 */
module Program {

  type uint8 = x: int | 0 <= x < 0x100

  const U64_LIMIT: int := 0x1_0000_0000_0000_0000

  type uint64 = x: int | 0 <= x < U64_LIMIT

  /** A 32-byte public key. */
  type Pubkey = k: seq<uint8> | |k| == 32 witness seq(32, i => 0)

  /** One seed of a program-derived address. */
  type Seed = seq<uint8>

  /** The system program's id, `11111111111111111111111111111111`: 32 zero bytes. */
  const SYSTEM_PROGRAM_ID: Pubkey :=
    [0, 0, 0, 0, 0, 0, 0, 0, 0, 0, 0, 0, 0, 0, 0, 0, 0, 0, 0, 0, 0, 0, 0, 0, 0, 0, 0, 0, 0, 0, 0, 0]

  /** The tag seed `b"vault"`. */
  const VAULT_SEED: Seed := [0x76, 0x61, 0x75, 0x6C, 0x74]

  /** Code of the system program's `ResultWithNegativeLamports` error, reported as a custom error. */
  const RESULT_WITH_NEGATIVE_LAMPORTS: nat := 1

  /** The variants of `ProgramError` this program and its transfer call can produce. */
  datatype ProgramError =
    | NotEnoughAccountKeys
    | InvalidAccountOwner
    | InvalidAccountData
    | InvalidInstructionData
    | ArithmeticOverflow
    | Custom(code: nat)

  datatype Result<+T> = Ok(value: T) | Err(error: ProgramError) {
    predicate IsFailure() {
      Err?
    }

    function PropagateFailure<U>(): Result<U>
      requires Err?
    {
      Err(error)
    }

    function Extract(): T
      requires Ok?
    {
      value
    }
  }

  /** `ProgramResult`: success carries nothing. */
  type ProgramResult = Result<()>

  /**
    `find_program_address(seeds, program_id) -> (address, bump)`: a deterministic
    function whose internals (hashing, the off-curve test, the bump search) are
    not modelled. Every property of the model holds for every such function.
   */
  type FindProgramAddress = (seq<Seed>, Pubkey) -> (Pubkey, uint8)

  /**
    `create_program_address(seeds, program_id)`: what the runtime computes when it
    checks signer seeds; None when the seeds give an address on the curve.
   */
  type CreateProgramAddress = (seq<Seed>, Pubkey) -> Option<Pubkey>

  datatype Option<+T> = None | Some(value: T)

  /** What an instruction sees of its surroundings: its own id and the derivation rule. */
  datatype Env = Env(programId: Pubkey, find: FindProgramAddress)

  /** The runtime's limits on program-derived address seeds: at most 16 seeds of at most 32 bytes. */
  const MAX_SEEDS: nat := 16
  const MAX_SEED_LEN: nat := 32

  predicate WithinSeedLimits(seeds: seq<Seed>)
  {
    |seeds| <= MAX_SEEDS && forall i :: 0 <= i < |seeds| ==> |seeds[i]| <= MAX_SEED_LEN
  }

  /**
    The documented link between the two derivation functions, for seeds within
    the runtime's limits that leave room for the bump: the bump that `find`
    returns, appended as one more seed, makes `create` produce the address that
    `find` returned. Longer seed lists are refused by both functions, so no link
    is assumed for them.
   */
  ghost predicate BumpCertifies(find: FindProgramAddress, create: CreateProgramAddress)
  {
    forall seeds: seq<Seed>, programId: Pubkey {:trigger find(seeds, programId)} ::
      WithinSeedLimits(seeds) && |seeds| < MAX_SEEDS ==>
        create(seeds + [[find(seeds, programId).1]], programId) == Some(find(seeds, programId).0)
  }

  /**
    A `create_program_address` built from `find` alone: it accepts exactly the
    seed lists within the limits whose last seed is the bump `find` returns for
    the others.
   */
  function CreateFromFind(find: FindProgramAddress): CreateProgramAddress
  {
    (seeds: seq<Seed>, programId: Pubkey) =>
      if 0 < |seeds| && WithinSeedLimits(seeds)
         && seeds[|seeds| - 1] == [find(seeds[..|seeds| - 1], programId).1]
      then Some(find(seeds[..|seeds| - 1], programId).0)
      else None
  }

  /**
    The link is satisfiable for every derivation by a `create` that, like the
    runtime's, refuses more than `MAX_SEEDS` seeds.
   */
  lemma CreateFromFindCertifies(find: FindProgramAddress)
    ensures BumpCertifies(find, CreateFromFind(find))
    ensures forall seeds: seq<Seed>, programId: Pubkey {:trigger CreateFromFind(find)(seeds, programId)} ::
      |seeds| > MAX_SEEDS ==> CreateFromFind(find)(seeds, programId) == None
  {
    forall seeds: seq<Seed>, programId: Pubkey | WithinSeedLimits(seeds) && |seeds| < MAX_SEEDS
      ensures CreateFromFind(find)(seeds + [[find(seeds, programId).1]], programId) == Some(find(seeds, programId).0)
    {
      var extended := seeds + [[find(seeds, programId).1]];
      assert extended[..|extended| - 1] == seeds;
      assert WithinSeedLimits(extended);
    }
  }

  /**
    The seeds `[b"vault", owner_key]` from which an owner's vault is derived.
    They respect the runtime's seed limits with room left for the bump seed
    that the derivation appends.
   */
  function VaultSeeds(ownerKey: Pubkey): (seeds: seq<Seed>)
    ensures WithinSeedLimits(seeds) && |seeds| < MAX_SEEDS
  {
    [VAULT_SEED, ownerKey]
  }

  /**
    `find_program_address(&[b"vault", owner_key], &crate::ID)`: the vault
    address and bump this program derives for an owner. Whenever `create`
    agrees with the derivation on seeds within the limits, the returned bump,
    appended to the seeds, re-creates the returned address.
   */
  function VaultAddress(env: Env, ownerKey: Pubkey): (r: (Pubkey, uint8))
    ensures forall create: CreateProgramAddress {:trigger BumpCertifies(env.find, create)} ::
      BumpCertifies(env.find, create) ==>
        create(VaultSeeds(ownerKey) + [[r.1]], env.programId) == Some(r.0)
  {
    env.find(VaultSeeds(ownerKey), env.programId)
  }

  /**
    An account as the runtime hands it to the program. The program only ever
    changes `lamports` (through the transfer call); the key, the owning program
    and the signer flag are fixed for the whole instruction.
   */
  class AccountInfo {
    const key: Pubkey
    const owner: Pubkey
    const isSigner: bool
    var lamports: uint64
  }
}
