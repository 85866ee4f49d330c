# Verified model of the compute subnet's validator and agent

The repository runs a marketplace of GPU rigs: validators check rigs, place and
create jobs on them, cap their power and turn scores into a weight vector; an
agent on each rig keeps a control socket, opens short-lived SSH sessions and
solves a compiled challenge. This project models the parts whose correctness is
hard to see from the code and proves what they promise.

| files | what they model |
|---|---|
| `NatBits`, `ByteBits`, `GF256`, `PowersOfThree`, `SBox`, `MixColumn`, `Aes`, `Cbc`, `Fernet` | the payload's hand-written AES-128, CBC and Fernet token, and the decoder a receiver runs |
| `Sums`, `Words`, `Challenge`, `ChallengePrograms`, `TiledKernel` | the challenge digest computed by the C reference, the Python and numpy programs and the tiled CUDA kernel |
| `KnownValues` | published values that tie the field, the column mix, the key expansion, the generator and the hash to their standards |
| `Rounding`, `PowerCaps`, `PowerInterleaving` | power caps with a record saved before each change, alone and interleaved |
| `CreationWorld`, `CreationPlan`, `CreationStages`, `CreationOutcomes`, `JobCreation`, `Recreation`, `Ports` | creating a job with cancellation and rollback beside other creations and sweeps; recreating one; host port reservation |
| `Placement`, `PlacementRuns` | sharing, displacing and ranking; whole runs of placements |
| `Weights` | shares, the reserve, quantisation and the floor |
| `OutboundQueue`, `Limiter` | the outbound queue with its writer; the two-level limiter |
| `Text`, `SshKeys`, `PublicKeys`, `Nonces`, `SessionGrants`, `SessionRace` | the key file, nonces, session grants, and an open racing a sweep |
| `PassphraseWrap` | the awk program that unwraps a volume passphrase |
| `Wrappers` | optional values and failures |

Bytes and machine words are bounded naturals and every wrap-around is written
out; scores, limits and times are exact reals. Commands on a rig, the choice of
the next thread or task, and reported failures are nondeterministic. Where the
source changes state in place the model is a class or a method with loops, whose
postconditions tie the new state to a function of the old one; lemmas then prove
what that function means.

The field, S-box, cipher and key expansion follow FIPS 197 (sections 4.2, 5.1,
5.2 and 5.3), chaining NIST SP 800-38A section 6.2, padding RFC 5652 section 6.3.
The S-box table is proved without enumerating its 256 entries: 3 has order 255
in the field, so the tables of its powers give every inverse, and the sum of
rotations is the affine map. The kernel's result holds for every interleaving of
the threads of a block, every matrix size and every number of rounds.

## What the proofs brought out

- **Overlapping caps and restores.** Nothing keeps two tasks off one card. Over
  every interleaving, with failed commands and crashes anywhere, all states are
  good exactly when all steps are safe (`RunExact`): a reading is saved only for a
  card that is recorded or still shows it, a limit is set only on a recorded card
  (or is the card's own), and a record is forgotten only while the card is within
  half a watt of it. One task at a time on each card is always safe. A cap between
  another job's restore and its `forget` breaks the third guard
  (`RestoreAroundCapLosesRecord`); a limit read before, and saved after, another
  job's restore breaks the first (`SaveAfterRestoreRecordsTheCap`).
- **Creation.** Anything may happen during an await: creations of any job start and
  finish, cancels arrive, and containers, caps, volumes and records come and go. A
  creation succeeds exactly when its commands do and no checkpoint sees a cancel
  (`Create`), and an accepted cancel is seen exactly when no start or finish of a
  creation of the same job falls between it and the next checkpoint
  (`UncancelledExactly`). So when creations of a job never overlap, which a caller
  can see to with `Inflight.active`, every cancel is seen (`WithoutOverlap`); when
  they do overlap one can be lost, with the job running and stored (`CancelLost`).
  What success promises is there at the end exactly unless a sweep or another
  creation took it after it was last put (`SuccessKeeps`).
- **Rollback.** The world after a creation is a function of the world before, the
  plan and the replies, failed or not (`Ended`). With nothing beside it, a failure
  leaves on the rig exactly what took effect and the rollback did not remove
  (`FailureLeaves`), so nothing when every command that took effect reported it and
  the rollback did all it set out to (`FailureIsClean`). `CapsLeftInForce` is a run
  in which something raises inside `apply_caps` with a cap in force: nothing is
  handed over. A record an earlier creation stored goes only when the cancelled
  creation had something to roll back; `EarlyCancelKeepsRecord` is a run in which a
  cancel before that leaves it. When putting the caps back raises, the rollback ends,
  its volumes are not destroyed, and the job is never marked finished.
- **Recreation.** `recreate` deletes a volume exactly when its cleanup is reached with
  both listings read, the volume carries the prefix and can be removed, and no
  container but the old one mounts it (`Lost`); `VolumeDeleted` is such a run.
- **Sessions.** `sweep` revokes the key of a session whose `open` granted its key
  before the sweep read the file and registered after the sweep's snapshot, unless
  the table held an unexpired session of that id; in all other interleavings of
  their single steps nothing is lost (`RaceExact`, and `KeyLost` for such a run).
  With any number of opens and closes beside it, a sweep revokes an id exactly when
  that was expired at the snapshot, or shown by the file when it was read and not
  known at the snapshot (`SweepRevokesExactly`).
  An `open` in which gathering the evidence raises leaves a key behind without a
  session (`RaisingOpenDisagrees`), which the next sweep removes. The branch of `open` for absent evidence
  is never taken once the nonce is accepted.
- **Queue.** A writer task cancelled during a send loses that message; results and
  events sent are those put, in order, exactly when that never hits one of them;
  `ResultLost` is a run in which it does.
- **Weights.** `with_reserve` drops the reserve's own share, so shares that add up
  to one do so afterwards exactly when the reserve had none or all is held
  (`ReserveLosesShare` for an input).
  Quantisation does not assume that they do.

## Model

| member | source | states |
|---|---|---|
| `GF256.XTimeXor` | validator/verify/payloads/scrape.py:125-127 | doubling in GF(2^8) is linear over XOR |
| `GF256.MulComm` | validator/verify/payloads/scrape.py:130-137 | the field product built from doublings is commutative |
| `GF256.MulAssoc` | validator/verify/payloads/scrape.py:130-137 | and associative |
| `GF256.PowSum` | validator/verify/payloads/scrape.py:134-140 | powers of 3 multiply by adding exponents, which is what looking up logarithms relies on |
| `KnownValues.FieldDoublings` | validator/verify/payloads/scrape.py:125-127 | the doublings of 57 worked out in section 4.2.1 of FIPS 197 |
| `KnownValues.FieldProduct` | validator/verify/payloads/scrape.py:125-140 | 57 times 83 is c1, as in its section 4.2: the field is that of the standard |
| `PowersOfThree.OrderIs255` | validator/verify/payloads/scrape.py:134-137 | 3 has order 255: no smaller positive power of it is one |
| `PowersOfThree.PowInjective` | validator/verify/payloads/scrape.py:134-137 | the first 255 powers of 3 are distinct, so no entry of the log table is overwritten |
| `PowersOfThree.Discrete` | validator/verify/payloads/scrape.py:134-140 | every nonzero byte is one of those powers, so every logarithm looked up was stored |
| `SBox.InverseUnique` | validator/verify/payloads/scrape.py:140 | the inverse is the only byte whose product with the value is one |
| `SBox.ExponentInverse` | validator/verify/payloads/scrape.py:140 | the power at (255 - log) mod 255 times the value is one |
| `SBox.AffineRoundTrip` | validator/verify/payloads/scrape.py:141-146 | the affine map of FIPS 197 and its inverse undo each other |
| `SBox.RotationsAreAffine` | validator/verify/payloads/scrape.py:141-146 | a byte plus its four rotations plus 0x63 is the affine map, bit for bit |
| `SBox.SubByteInverts` | validator/verify/payloads/scrape.py:130-147 | the substitution is invertible, both ways, by the inverse substitution of FIPS 197 |
| `SBox.PowerTables` | validator/verify/payloads/scrape.py:131-137 | the loop leaves exp[i] = 3^i and log[3^i] = i for all i below 255 |
| `SBox.LookUpInverse` | validator/verify/payloads/scrape.py:140 | the table lookup gives the field inverse, zero for zero |
| `SBox.BuildSbox` | validator/verify/payloads/scrape.py:130-147 | every one of the 256 entries is the substitution of FIPS 197 |
| `MixColumn.InvMixOfMix` | validator/verify/payloads/scrape.py:173-184 | the inverse column mix undoes the column mix, for all bytes |
| `MixColumn.MixOfInvMix` | validator/verify/payloads/scrape.py:173-184 | and the column mix undoes the inverse one |
| `KnownValues.MixedColumn` | validator/verify/payloads/scrape.py:173-184 | the column db 13 53 45 mixes to 8e 4d a1 bc |
| `Aes.MixedTerms` | validator/verify/payloads/scrape.py:174-183 | the four differently ordered sums of the code are the matrix rows 2, 3, 1, 1 |
| `Aes.ShiftRowsRotates` | validator/verify/payloads/scrape.py:152 | row r rotates left by r places, as in equation 5.5 of FIPS 197 |
| `Aes.ShiftTable` | validator/verify/payloads/scrape.py:152 | the index formula is the row shift |
| `Aes.Mix` | validator/verify/payloads/scrape.py:173-184 | the column loop computes MixColumns |
| `Aes.EncryptBlock` | validator/verify/payloads/scrape.py:167-186 | computes the Cipher of FIPS 197 section 5.1 for every key schedule and block |
| `Aes.XorBlocksBits` | validator/verify/payloads/scrape.py:168-185 | adding a round key flips exactly the bits the key has set, each at its own place |
| `Aes.RoundConstants` | validator/verify/payloads/scrape.py:151 | the ten constants are the powers of x in the field |
| `Aes.ExpandKey` | validator/verify/payloads/scrape.py:155-164 | computes the key expansion of FIPS 197 section 5.2 |
| `Aes.XorWordsBits` | validator/verify/payloads/scrape.py:163 | so does adding an earlier word to a new one |
| `Aes.ScheduleWords` | validator/verify/payloads/scrape.py:164 | word j of round key r is expanded word 4 r + j, in order |
| `Aes.FirstRoundKey` | validator/verify/payloads/scrape.py:155-164 | the first round key is the key itself |
| `KnownValues.FirstExpandedWord` | validator/verify/payloads/scrape.py:155-163 | the first expanded word of the example key of FIPS 197 appendix A.1 is a0fafe17 |
| `Aes.InvRoundsUndo` | validator/verify/payloads/scrape.py:167-186 | coming back to each round, the inverse cipher holds what the cipher had there |
| `Aes.CipherInverts` | validator/verify/payloads/scrape.py:167-186 | the inverse cipher of section 5.3 recovers every block under every schedule |
| `Aes.InvCipherInverts` | validator/verify/payloads/scrape.py:167-186 | and every block is the cipher of what it decrypts to |
| `Cbc.RoundTrip` | validator/verify/payloads/scrape.py:196-201 | undoing a chain gives back the plaintext, whenever undoing one link does |
| `Cbc.Unique` | validator/verify/payloads/scrape.py:196-201 | the chaining equations have one solution |
| `Fernet.UnpadPad` | validator/verify/payloads/scrape.py:194-195 | stripping the padding gives back every message |
| `Fernet.PadUnpad` | validator/verify/payloads/scrape.py:194-195 | and only padded messages can be stripped |
| `Fernet.BigEndianRoundTrip` | validator/verify/payloads/scrape.py:202 | the framed time reads back |
| `Fernet.BigEndianAt` | validator/verify/payloads/scrape.py:202 | byte i of n weighs 256^(n - 1 - i): most significant first |
| `Fernet.OpenSealed` | validator/verify/payloads/scrape.py:189-204 | a receiver with the key reads back the time and exactly the message |
| `Fernet.OpenExactly` | validator/verify/payloads/scrape.py:189-204 | a token is accepted and read as a time and a message exactly when it is a sealing of them |
| `Fernet.Chain` | validator/verify/payloads/scrape.py:196-201 | the block loop produces the CBC chain of the padded message from the IV |
| `Fernet.Encrypt` | validator/verify/payloads/scrape.py:189-204 | for every key, IV, time and message the token opens to that time and message; the ciphertext is the least multiple of 16 above the message length |
| `Words.MixBijective` | challenge/src/core.h:17-21 | the mixer is a bijection on 64-bit words, with an explicit inverse |
| `Words.GeneratorInjective` | challenge/src/core.h:27-29 | before truncation, distinct indices give distinct values for every state |
| `Words.SeedStateInjective` | challenge/src/core.h:23-25 | for one seed distinct ciphers give distinct states, and for one cipher distinct seeds do |
| `KnownValues.FirstOutput` | challenge/src/core.h:17-21 | the mixer of the golden ratio is the first output of SplitMix64 from zero |
| `KnownValues.SeedAndFirstCell` | challenge/src/core.h:23-29 | so is the state of the seed that is the mask with cipher one, and, truncated, the first cell from state zero |
| `Words.ElementsAgree` | scripts/challenge_vector.py:25-26 | masking once, masking each step and numpy's wrapping give the same cell |
| `Words.FnvLoop` | challenge/src/core.h:31-45 | the byte loop hashes low bytes first, for any number of bytes |
| `Words.RowHashIsHash` | challenge/src/reference.c:55-62 | a row hash is FNV-1a of the cells in memory order, four bytes each |
| `Words.DigestIsHash` | challenge/src/core.h:47-59 | the digest is FNV-1a of the row hashes, seed, cipher, size and rounds, in that order, in eight, eight, eight, four and four bytes |
| `KnownValues.HashOfLetter` | challenge/src/core.h:31-37 | the hash of the letter a is the published one |
| `Challenge.SquareHolds` | challenge/src/reference.c:41-54 | squaring a buffer of residues of A^(2^r) gives those of A^(2^(r+1)): wrapping in between loses nothing |
| `Challenge.HashedRows` | challenge/src/reference.c:55-62 | hashing a buffer that holds the final matrix gives the digest |
| `ChallengePrograms.DotC` | challenge/src/reference.c:44-47 | the accumulator that wraps at every step is the exact dot product modulo 2^32 |
| `ChallengePrograms.SquareC` | challenge/src/reference.c:42-50 | the triple loop leaves the square in the other buffer, and needs the buffers to differ |
| `ChallengePrograms.SolveC` | challenge/src/reference.c:20-67 | bad arguments, a missing place for the digest and failed allocation are reported, otherwise the result is the digest |
| `ChallengePrograms.SquarePython` | scripts/challenge_vector.py:58-66 | unbounded sums masked once give the same square |
| `ChallengePrograms.DigestPython` | scripts/challenge_vector.py:55-77 | the pure Python program computes the digest, for every seed, cipher, n and rounds |
| `ChallengePrograms.SquareNumpyIs` | scripts/challenge_vector.py:52-53 | wrapping at 2^64 and truncating to 2^32 give the same square |
| `ChallengePrograms.DigestNumpy` | scripts/challenge_vector.py:45-77 | the numpy program computes the digest |
| `ChallengePrograms.HashColumns` | validator/verify/challenge.py:88-94 | updating all row hashes column by column gives the hash of each row |
| `ChallengePrograms.ReferenceDigest` | validator/verify/challenge.py:77-102 | the validator's reference computes the digest |
| `TiledKernel.NextInv` | challenge/src/challenge.cu:36-49 | every step of every thread keeps the block invariant: tiles, accumulators and stores are right |
| `TiledKernel.InvAlways` | challenge/src/challenge.cu:36-49 | the invariant holds after every legal schedule |
| `TiledKernel.RaceFree` | challenge/src/challenge.cu:39-45 | while a thread may write a shared cell no thread reads one |
| `TiledKernel.TileComplete` | challenge/src/challenge.cu:39-44 | a multiplying thread finds every cell of the tile loaded |
| `TiledKernel.ScheduleBounded` | challenge/src/challenge.cu:36-49 | no schedule of a block is longer than 256 threads times twenty steps a tile and one to store |
| `TiledKernel.Completes` | challenge/src/challenge.cu:36-49 | every schedule extends to one in which all threads have finished |
| `TiledKernel.NoDeadlock` | challenge/src/challenge.cu:41-45 | if no thread of a block can move, all have finished |
| `TiledKernel.PaddingAddsNothing` | challenge/src/challenge.cu:39-44 | the zero padding leaves the dot product unchanged |
| `TiledKernel.BlockResult` | challenge/src/challenge.cu:47-49 | a finished block holds the square in each of its cells inside the matrix |
| `TiledKernel.WrittenOnce` | challenge/src/challenge.cu:47-49 | a store never overwrites a cell |
| `TiledKernel.GridCovers` | challenge/src/challenge.cu:119-122 | every row or column belongs to exactly one thread of exactly one block of the grid |
| `TiledKernel.KernelSquares` | challenge/src/challenge.cu:119-122 | a launch computes the square of the C triple loop, whatever its blocks' schedules |
| `TiledKernel.KernelOutputExact` | challenge/src/challenge.cu:119-122 | a launch can leave a buffer exactly when it is the square: some schedule of each block completes, and all that complete agree |
| `TiledKernel.AllWritten` | challenge/src/challenge.cu:23-28 | with one thread an element and enough blocks every element is written, whatever the order of the threads |
| `TiledKernel.DeviceDigest` | challenge/src/challenge.cu:109-142 | fill, rounds and row hashes on the device give the digest of the reference, for every order of the threads of every launch |
| `TiledKernel.DeviceRuns` | challenge/src/challenge.cu:109-142 | such a run exists for every size and number of rounds |
| `PowerCaps.RememberConsistent` | validator/work/power.py:53-59 | recording a reading keeps records and limits consistent; a first record names the limit before the first cap |
| `PowerCaps.ForgetConsistent` | validator/work/power.py:65-73 | forgetting a card that is back at its recorded limit keeps them consistent, whichever job asks |
| `PowerCaps.ListsStayNonEmpty` | validator/work/power.py:53-73 | no job is ever left with an empty list of cards |
| `PowerCaps.ListsStayDistinct` | validator/work/power.py:53-73 | and no card is ever listed twice |
| `PowerCaps.ClampInRange` | validator/work/power.py:130 | the limit asked for is within the card's range: the request itself inside it, the nearer bound outside |
| `PowerCaps.TargetInRange` | validator/work/power.py:107-130 | and rounded to whole watts it is within the rounded range, within half a watt of a request in range |
| `Rounding.TiesToEven` | validator/work/power.py:111 | a number half way between two integers rounds to the even one |
| `PowerCaps.Host.SetLimit` | validator/work/power.py:107-118 | the card shows some limit exactly when the command takes effect; success is reported exactly when the command and the reading back succeed and what is shown is within one watt of what was asked |
| `PowerCaps.Host.SetExactly` | validator/work/power.py:107-118 | a card that shows the rounded limit is never turned down for it |
| `PowerCaps.Host.CapCard` | validator/work/power.py:124-133 | one turn of the loop keeps every card's pre-cap limit known, whether it fails or not; a limit changes only with its record saved |
| `PowerCaps.Host.ApplyCaps` | validator/work/power.py:121-136 | succeeds exactly when every reading and command does, with every card capped and recorded and its limit within its rounded range; after a failure a card this call changed is recorded under the job, or within half a watt of its pre-cap limit, and all are when every restoring command succeeds |
| `PowerCaps.Host.RestoreCard` | validator/work/power.py:139-149 | one turn puts the card back and forgets it exactly when its limit command succeeds, and else leaves it recorded |
| `PowerCaps.Host.RestoreJob` | validator/work/power.py:139-149 | each card whose command succeeds is put back and unrecorded, the others stay under the job, and no other card is touched |
| `PowerInterleaving.StepExact` | validator/work/power.py:121-149 | under any interleaving a step keeps records and limits consistent exactly when its guard holds |
| `PowerInterleaving.RunExact` | validator/work/power.py:121-149 | over any interleaving, with failures and crashes, an unrecorded card has its pre-cap limit within half a watt, a record is that limit and each record is listed under a job, in all states, exactly when all steps are safe |
| `PowerInterleaving.StepKeepsInv` | validator/work/power.py:121-149 | with one task on each card, any step of any task, or a crash, keeps what every task knows true |
| `PowerInterleaving.SerialRunsStayGood` | validator/work/power.py:121-149 | so all steps of every such run are safe and all its states good |
| `PowerInterleaving.CrashIsSafe` | validator/work/power.py:35-51 | a crash keeps the invariant, with no card worked on |
| `PowerInterleaving.CrashIsRestorable` | validator/work/power.py:35-51 | after a crash in any good state, restoring by the saved records puts every card back within half a watt and empties the records |
| `PowerInterleaving.RestoreAroundCapLosesRecord` | validator/work/power.py:139-149 | a cap between another job's restore and its forget loses the record, and is harmless exactly if it is the card's own limit |
| `PowerInterleaving.SaveAfterRestoreRecordsTheCap` | validator/work/power.py:121-136 | a reading saved after another job's restore records that job's cap as the original, and is harmless exactly if they are equal |
| `JobCreation.Host.Cancel` | validator/work/containers.py:324-328 | true exactly when the job is being created |
| `CreationWorld.SeenExactly` | validator/work/containers.py:306-331 | between two checkpoints a cancel is seen exactly when an accepted one is followed by no start and no finish of the same job |
| `CreationPlan.UncancelledExactly` | validator/work/containers.py:559-561 | a creation goes uncancelled exactly when no accepted cancel reaches the next checkpoint that way |
| `CreationPlan.WithoutOverlap` | validator/work/containers.py:306-331 | when creations of a job do not overlap, every cancel of it during its creation is seen |
| `CreationWorld.StaysExactly` | validator/work/containers.py:690-720 | what was put is there at the end exactly when some put of it is followed by no taking |
| `CreationOutcomes.SuccessKeeps` | validator/work/containers.py:564-687 | container, caps, new volumes and record of a success are there exactly unless taken after they were last put |
| `CreationStages.VolumesFold` | validator/work/containers.py:610-616 | the volume stages pass exactly when every volume is made |
| `CreationStages.PrepareFold` | validator/work/containers.py:582-616 | where the block stops before its volumes, for every combination of answers and cancels |
| `CreationStages.PowerFold` | validator/work/containers.py:617-630 | where it stops among devices, caps and probes, and what has then taken effect unreported |
| `CreationStages.LaunchFold` | validator/work/containers.py:631-664 | where it stops once the container is to run |
| `JobCreation.Host.Prepare` | validator/work/containers.py:582-616 | leaves the world, the volumes made and those made unreported exactly as the stages of the plan do, for all replies; goes on exactly when they pass |
| `JobCreation.Host.Power` | validator/work/containers.py:617-630 | the same for devices, caps and probes; caps count as applied exactly when asked for, with records, and reported applied |
| `JobCreation.Host.Launch` | validator/work/containers.py:631-664 | the same for the container, its mounts and the record |
| `JobCreation.Host.Attempt` | validator/work/containers.py:582-671 | the same for the whole block: world, what was made and what was made unreported, for every outcome of every command |
| `JobCreation.Host.Rollback` | validator/work/containers.py:690-705 | removes the container, the caps and each volume, in this order, leaving the world as those removals and what happens around them do; raises exactly when putting the caps back does |
| `JobCreation.Host.Finally` | validator/work/containers.py:680-687 | the world, what is handed over and the marks in store and table, in every case |
| `JobCreation.Host.Create` | validator/work/containers.py:564-687 | the world after it, failed or not, is the one the plan and the replies determine; it succeeds exactly when its commands do and no checkpoint sees a cancel; a failure hands everything reported made to rollback exactly once, and everything that took effect exactly when all of it was reported and no raised rollback left volumes; the marks in store and table are exact |
| `CreationOutcomes.MadeInOrder` | validator/work/containers.py:607-640 | whatever the commands answer, no cap is set before every volume is there, and no container is run before the volumes and the caps are |
| `CreationOutcomes.RollbackDrops` | validator/work/containers.py:690-705 | alone, a rollback removes exactly the items whose removal takes effect |
| `CreationOutcomes.RollbackOrder` | validator/work/containers.py:699-705 | the container goes before the caps, and both before any volume |
| `CreationOutcomes.FailureLeaves` | validator/work/containers.py:564-705 | alone, what a failure leaves that is new is exactly what took effect and was not removed; the record stays exactly unless a cancelled creation is rolled back to its end |
| `CreationOutcomes.FailureIsClean` | validator/work/containers.py:564-705 | nothing new is left when all effects were reported and all removals took effect |
| `CreationOutcomes.UncancelledKeepsRecord` | validator/work/containers.py:680-687 | alone, a failure that nobody cancelled leaves the job's stored record as it was |
| `CreationOutcomes.CancelledLosesRecord` | validator/work/containers.py:680-687 | whatever else happens, a cancelled creation that made something and could put its caps back leaves no record |
| `CreationOutcomes.SmoothFailsCancelled` | validator/work/containers.py:559-561 | when all commands succeed only a cancel stops a creation, and it is in force at the end |
| `JobCreation.EarlyCancelKeepsRecord` | validator/work/containers.py:680-687 | a run in which a cancel before anything is made leaves an older record |
| `JobCreation.CancelLost` | validator/work/containers.py:311-331 | a run in which a cancel returns true, a second creation of the job starts, and the first one succeeds and takes the second one's entry |
| `JobCreation.OverlapSucceeds` | validator/work/containers.py:311-331 | the cancel of that run was accepted and reaches no checkpoint |
| `JobCreation.CapsLeftInForce` | validator/work/containers.py:623-629 | a run in which a cap is in force when something raises: it stays in force and is not handed over |
| `CreationPlan.OwedIsMade` | validator/work/containers.py:680-683 | what rollback is given is what was made, each thing once |
| `Recreation.RemoveStaleVolumes` | validator/work/containers.py:708-720 | removes exactly the listed volumes that nothing mounts and that can be removed |
| `Recreation.Recreate` | validator/work/containers.py:769-790 | which volumes are left when the new container is run |
| `Recreation.VolumeDeleted` | validator/work/containers.py:769-790 | a run that deletes the volume of the job it recreates |
| `Ports.FreeFromIs` | validator/work/containers.py:411-427 | the free ports of the range, each once, in increasing order |
| `Ports.FreeFromLength` | validator/work/containers.py:411-427 | and as many as the range has ports that are not busy |
| `Ports.ReservePorts` | validator/work/containers.py:411-427 | the reserved ports are the lowest free ones, in order; with a valid range it fails exactly when too few are free |
| `Placement.Occupancy` | validator/work/placement.py:62-73 | each card's jobs in order: a job naming a card of the rig runs there, any other on all |
| `Placement.JobsOnExactly` | validator/work/placement.py:62-73 | a job is on a card exactly when it names that card, no card, or no card of this rig |
| `Placement.NamelessRentalBlocks` | validator/work/placement.py:62-149 | a rental that names no card of the rig keeps every job off it |
| `Placement.PriorityOrder` | validator/data/tiers.py:52-57 | rentals before inference before shaping before mining |
| `Placement.SharesExactly` | validator/work/placement.py:76-84 | an occupied card is shared exactly between inference jobs |
| `Placement.DisplacesExactly` | validator/work/placement.py:87-96 | jobs give way exactly when there are some and each is of a known, strictly lower kind that is neither rental nor inference |
| `Placement.ShareNotDisplace` | validator/work/placement.py:76-96 | no card can be both shared and displaced |
| `Placement.OfferIsExact` | validator/work/placement.py:131-149 | the chosen cards are distinct cards of the rig, exactly as many as needed; exactly as many are displaced as free and shareable ones fall short |
| `Placement.UsableExactly` | validator/work/placement.py:131-149 | a rig has as many usable cards as there are cards on it that run nothing, may be shared or give way |
| `Placement.NodeSize` | validator/work/placement.py:128-130 | the size of a whole node is the number of its distinct cards |
| `Placement.OfferPrefers` | validator/work/placement.py:131-149 | no occupied card is taken while a free one is left, and none displaced while one can be shared |
| `Placement.SelectInOrder` | validator/work/placement.py:131-137 | cards of each kind are tried in the order of the rig |
| `Placement.JobIdsCount` | validator/work/placement.py:141-146 | every job on a displaced card counts, with repetitions |
| `Placement.RankPrefers` | validator/work/placement.py:99-104 | fewer displaced jobs come first, then higher reliability, longer uptime and more free cards |
| `Placement.OfferOf` | validator/work/placement.py:121-152 | an eligible rig of the right size is refused exactly when its usable cards are too few |
| `Placement.Choose` | validator/work/placement.py:107-156 | nothing is placed exactly when no rig fits; otherwise the result is the first rig of the roster with the least rank |
| `PlacementRuns.DisplacedAreLower` | validator/work/placement.py:87-96 | displaced jobs have strictly lower priority and are neither rentals nor inference |
| `PlacementRuns.PlacedRigGood` | validator/work/placement.py:76-96 | after placing, a card with a rental runs nothing else and a card with several jobs runs inference only |
| `PlacementRuns.RunStaysGood` | validator/work/placement.py:62-156 | so does every state of every run of placements and finishes from a good state |
| `PlacementRuns.OnlyLowerIsDisplaced` | validator/work/placement.py:87-96 | a record goes only by its own finish or by a placement of strictly higher priority |
| `PlacementRuns.CustomersRunToTheEnd` | validator/work/placement.py:87-96 | over every run a rental or inference job runs until it is finished |
| `Weights.Normalise` | validator/scoring/weights.py:39-44 | shares in proportion to the positive scores that add up to one, none exactly when no score is positive |
| `Weights.WithReserve` | validator/scoring/weights.py:47-55 | the reserve holds its clamped part, the others their shares of the rest |
| `Weights.ReserveTotal` | validator/scoring/weights.py:47-55 | the total afterwards, and exactly when it is one |
| `Weights.ReserveLosesShare` | validator/scoring/weights.py:47-55 | an input whose total falls to two fifths |
| `Weights.ToU16` | validator/scoring/weights.py:58-70 | every positive share, and no other, gets its quantised weight |
| `Weights.QuantisedNearest` | validator/scoring/weights.py:58-70 | a weight is within one half of its share of 65535, the even one of two that are, and one at least |
| `Weights.QuantisedOrder` | validator/scoring/weights.py:58-70 | weights are in 1..65535, the top is 65535, and the order of shares is kept |
| `Weights.QuantisationError` | validator/scoring/weights.py:58-70 | a weight's part of the total is within (1 + n share) / (65534 + n), so within (n + 1) / 65535, of its exact share |
| `Weights.EligibilityFloor` | validator/scoring/weights.py:73-86 | funds exactly the min(missing, donor - 1) smallest missing members |
| `Weights.FloorKeepsTotal` | validator/scoring/weights.py:73-86 | keeps the total, the donor's place and everyone else's weight |
| `Weights.FloorIsComplete` | validator/scoring/weights.py:73-86 | a member is left without weight only when the donor is down to one, and none is when it starts with more than there are members |
| `Weights.Build` | validator/scoring/weights.py:89-104 | the shares add up to one before the reserve; the vector is ascending, every weight is in 1..65535, and each is its quantised share, less what the reserve paid, or one |
| `OutboundQueue.Queue.DropOldestDroppable` | agent/control/queue.py:33-39 | removes exactly the first droppable item, or nothing |
| `OutboundQueue.Queue.Put` | agent/control/queue.py:41-54 | the exact queue afterwards: a full one loses its oldest state or ping, and the message goes in at its end unless it is ordinary and there is still no room; precious messages are kept in order, and every message is queued or counted as dropped |
| `OutboundQueue.ControlSocket.Put` | agent/control/queue.py:41-54 | keeps the history invariant: order, accounting, and at most max_depth + 1 ordinary items |
| `OutboundQueue.ControlSocket.SendPrecious` | agent/control/socket.py:69-73 | a result or event goes to the back, and the history invariant stays |
| `OutboundQueue.ControlSocket.SendOrdinary` | agent/control/socket.py:186-216 | a ping to the front or a state to the back leaves results and events in order |
| `OutboundQueue.ControlSocket.SendFailed` | agent/control/socket.py:177-181 | a failed send puts the message back in front, so nothing is lost or reordered |
| `OutboundQueue.ControlSocket.Sent` | agent/control/socket.py:177-178 | a sent message leaves exactly once |
| `OutboundQueue.ControlSocket.Cancelled` | agent/control/socket.py:177-181 | a cancelled send loses exactly the message in flight |
| `OutboundQueue.ControlSocket.NothingLostInOrder` | agent/control/socket.py:173-181 | results and events put are those sent, then in flight, then queued, in order, exactly when no cancellation hit one |
| `OutboundQueue.ControlSocket.NoneMissing` | agent/control/queue.py:12-54 | so every result or event put is then sent, in flight or queued |
| `OutboundQueue.ControlSocket.OthersBounded` | agent/control/queue.py:12-54 | states, pings and hellos queued or in flight are at most max_depth + 1 |
| `OutboundQueue.ResultLost` | agent/control/socket.py:173-181 | a run that loses a result |
| `OutboundQueue.SentInOrder` | agent/control/socket.py:173-181 | those sent are those that left, in order, under the same condition |
| `Limiter.Limiter.Safe` | validator/schedule/express.py:43-59 | at most max_inflight tasks are inside and at most per_miner hold an owner's permit |
| `Limiter.Limiter.NoDeadlock` | validator/schedule/express.py:56-59 | while a task remains, some task can move |
| `Limiter.Limiter.PermitsAreSteps` | validator/schedule/express.py:43-59 | a task can take its permit exactly when the step relation lets it |
| `Limiter.OwnersApart` | validator/schedule/express.py:58 | different owners have different semaphores; only the empty owner and the owner "-" share one |
| `Limiter.OthersDoNotBlock` | validator/schedule/express.py:49-58 | a task never waits for the owner's permit while no task of its own owner holds one |
| `Limiter.RunBounded` | validator/schedule/express.py:56-59 | every run of a finite task set keeps both caps and has at most three steps a task |
| `Limiter.RunCompletes` | validator/schedule/express.py:56-59 | and extends to one in which all tasks are gone |
| `Limiter.Limiter.TakeOwner` | validator/schedule/express.py:49-58 | one step of one task, keeping the permits balanced and reducing the work left |
| `Limiter.Limiter.Arrive` | validator/schedule/express.py:49-58 | arriving creates the owner's semaphore at most and takes no permit |
| `Limiter.Limiter.TakeGlobal` | validator/schedule/express.py:56-59 | entering the slot takes one global permit, keeping the balance |
| `Limiter.Limiter.Abandon` | validator/schedule/express.py:56-59 | a task cancelled while waiting gives its owner's permit back if it held one |
| `Limiter.Limiter.Leave` | validator/schedule/express.py:56-59 | both permits go back |
| `SshKeys.GrantEnds` | agent/access/ssh_keys.py:45-60 | whatever id is asked for, a granted line ends in its mark only if it is its own |
| `SshKeys.ShownIsId` | agent/access/ssh_keys.py:76-82 | the id read off a granted line is the one it was granted for |
| `SshKeys.DropTidy` | agent/access/ssh_keys.py:56-63 | revoking ids removes their lines and no others |
| `SshKeys.DropKeepsUnmarked` | agent/access/ssh_keys.py:56-63 | unmarked lines stay, in order, in any file |
| `SshKeys.GrantTidy` | agent/access/ssh_keys.py:42-53 | granting leaves one line for the id, adds no other and keeps unmarked lines |
| `SshKeys.TidyDistinct` | agent/access/ssh_keys.py:42-53 | no two marked lines have the same id |
| `SshKeys.KeyFile.ActiveSessions` | agent/access/ssh_keys.py:76-82 | the loop lists the ids of the marked lines |
| `SshKeys.KeyFile.Revoke` | agent/access/ssh_keys.py:56-63 | true exactly when a line ended in the mark; all such lines go |
| `PublicKeys.CanonicalIdempotent` | agent/access/ssh_keys.py:18-23 | a canonical key is its own canonical form and holds no colon |
| `PublicKeys.CanonicalExactly` | agent/access/ssh_keys.py:12-23 | two words are a key exactly when the first is one of the four types and the second is base64 digits followed by equals signs |
| `PublicKeys.CanonicalAccepts` | agent/access/ssh_keys.py:18-23 | and a comment after them is dropped |
| `Nonces.NonceBook.Accept` | agent/access/nonce.py:27-36 | accepts a well-formed nonce not in the book and remembers it for its time to live |
| `Nonces.HexIsWellFormed` | agent/access/nonce.py:10-18 | 64 lower-case hexadecimal digits are well formed, alone or before a newline, and no other number of them |
| `Nonces.AcceptsApart` | agent/access/nonce.py:27-43 | two accepts of one nonce are at least the time to live apart, over every run with a non-decreasing clock |
| `Nonces.RefusedExactly` | agent/access/nonce.py:27-43 | a well-formed nonce is refused exactly when it was accepted within its time to live |
| `SessionGrants.Grants.OpenSession` | agent/access/grants.py:66-119 | every refusal and failure, and what each leaves in file, table and nonce book |
| `SessionGrants.OpenAddsGranted` | agent/access/grants.py:66-119 | a session enters the table exactly by an open that is signed, accepted, installed and not raising, with its canonical key and an expiry of now plus the time to live |
| `SessionGrants.Grants.CloseSession` | agent/access/grants.py:121-142 | removes the matching sessions from table and file and counts the keys revoked |
| `SessionGrants.Grants.SweepSessions` | agent/access/grants.py:144-161 | removes what expired and what the table does not know, and counts it |
| `SessionGrants.Grants.RevokeAllSessions` | agent/access/grants.py:163-169 | empties the table and drops every marked line, counting them |
| `SessionGrants.RevokeAllAgrees` | agent/access/grants.py:163-169 | from any file at all table and file then agree, and unmarked lines are as they were |
| `SessionGrants.CloseAgrees` | agent/access/grants.py:121-142 | close keeps agreement for any requested id or key |
| `SessionGrants.CloseTakes` | agent/access/grants.py:121-142 | a close takes exactly the session of the id and those of the canonical key, and leaves the others as they were |
| `SessionGrants.AcceptedId` | agent/access/grants.py:77-87 | an accepted nonce has a proper id and always yields evidence |
| `SessionGrants.OpenAgrees` | agent/access/grants.py:66-119 | open keeps table and file in agreement unless it raises half way, and then exactly if the same key was open under the id |
| `SessionGrants.RaisingOpenDisagrees` | agent/access/grants.py:79-87 | an open that raises and leaves a key without a session |
| `SessionGrants.SweepRestores` | agent/access/grants.py:144-161 | a sweep leaves exactly the unexpired sessions, in table and file, even after such a raise |
| `SessionGrants.RunAgrees` | agent/access/grants.py:66-169 | from any file, after revoke_all every sequence of operations keeps marked ids and open sessions equal, one line each with its key, and the unmarked lines as they were |
| `SessionGrants.RunShows` | agent/access/grants.py:66-169 | with raises anywhere, every open session keeps its line, and each sweep removes all others |
| `SessionGrants.RunOrigin` | agent/access/grants.py:66-169 | over every run after revoke_all each open session came from such an open |
| `SessionRace.RegisteredKeepsKey` | agent/access/grants.py:144-161 | in any interleaving, a session registered and unexpired at a sweep's snapshot keeps its key throughout the sweep |
| `SessionRace.RaceExact` | agent/access/grants.py:78-101 | an open beside a sweep, in every interleaving of their single steps: exactly when the new session loses its key, and that all others are as they should be |
| `SessionRace.KeyLost` | agent/access/grants.py:78-101 | such a run, whenever nothing has expired and the id is new |
| `SessionRace.ShownExactly` | agent/access/ssh_keys.py:42-63 | in any run the file shows an id exactly when it was granted and not revoked since, or was there and never revoked |
| `SessionRace.SweepRevokesExactly` | agent/access/grants.py:144-161 | beside any number of opens and closes, exactly which ids a sweep revokes |
| `PassphraseWrap.AwkXor` | validator/storage/volumes.py:216 | the arithmetic loop computes bitwise XOR of any two naturals |
| `PassphraseWrap.HexAt` | validator/storage/volumes.py:214-215 | the two digits of each byte are where the program looks |
| `PassphraseWrap.IndexOfDigit` | validator/storage/volumes.py:213-215 | `index` reads a digit back |
| `PassphraseWrap.DigitIs` | validator/storage/volumes.py:213 | the digits are those of hexadecimal notation |
| `PassphraseWrap.AwkUnwrap` | validator/storage/volumes.py:207-218 | the program prints the passphrase, at every length and for every pad |

## Left out

- The base64 layer of the token, HMAC-SHA256 (a parameter), and the sources of the IV and the clock (parameters).
- ReferenceDigest: requires fewer than 2^64 cells, the range of the numpy index; `malloc` in `SolveC` is an input, and CUDA errors, the benchmark and `stream_kernel` are not modelled.
- DeviceDigest: memory inside a block is sequentially consistent; the two device buffers are values, so that they never alias is built in.
- Command strings, SSH, docker, `nvidia-smi` and their timeouts: each command has an arbitrary outcome.
- CapCard, ApplyCaps and RestoreCard: a card whose limit command took effect shows the limit rounded to whole watts (`SetExactly`); what happens when it shows another is stated for one command (`SetLimit`).
- StepKeepsInv: assumes one task at a time on each card, because it is false without it.
- SerialRunsStayGood: assumes the same; `RunExact` covers every interleaving. `raise_low_limits` and `stale` are not modelled.
- Create: models creation with an `Inflight` table; task cancellation inside the rollback is not modelled, and the volumes its own `remove_stale_volumes` removes are among what may be taken during that await.
- Recreate: alone on its rig, and the data of a volume is not modelled, only whether the volume is deleted; other creations and sweeps beside a creation are in `JobCreation`.
- ReservePorts: starts from the parsed range and the busy ports; parsing them is not modelled.
- Choose: the reasons of `ineligible_reason` are a set of eligible kinds for each rig, and the texts of refusals are left out.
- RunStaysGood: a placed job has one record for each of its cards, a displaced id ends everywhere, and rig ids are distinct.
- QuantisationError: over exact reals; floating-point rounding of scores and shares is not modelled, nor is the chain that the vector is submitted to.
- Safe and NoDeadlock: which waiting task a semaphore wakes is left open, so fairness is not stated.
- OpenSession: the signature check yields a validator name or none, and the other checks of a request are one flag; the key file is the list of its lines, so how a line holding an unusual line separator is split is not modelled.
- RaceExact: one open beside one sweep; `RegisteredKeepsKey`, `ShownExactly` and `SweepRevokesExactly` cover any number of opens and closes.
- AwkXor: exact on all naturals, while awk's numbers are doubles, exact below 2^53; the program's operands are bytes.
- The size of volumes and the rest of the mount script around the passphrase; the other probes of the payload; scoring formulas, demand weights, tiers, message parsing, CLI and configuration.
