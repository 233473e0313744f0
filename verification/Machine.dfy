/**
 Machine integers, the program error codes and the power-of-two arithmetic shared by every
 component. The bounded types are subset types of `int`: storing a value in one of them is a proof
 that the corresponding checked or unchecked machine operation does not overflow.
 */
module Machine {
  const U32_MAX: nat := 0xFFFF_FFFF
  const U64_MAX: nat := 0xFFFF_FFFF_FFFF_FFFF
  const U128_MAX: nat := 0xFFFF_FFFF_FFFF_FFFF_FFFF_FFFF_FFFF_FFFF

  type u32 = n: int | 0 <= n <= U32_MAX
  type u64 = n: int | 0 <= n <= U64_MAX
  type u128 = n: int | 0 <= n <= U128_MAX

  /** An account address; zero is the default key. */
  type Pubkey = nat
  const DEFAULT_KEY: Pubkey := 0

  datatype Option<+T> = None | Some(value: T)

  datatype Error =
    | InvalidInstructionData
    | InvalidArgument
    | InvalidAccountData
    | ArithmeticOverflow
    | InsufficientFunds
    | MissingRequiredSignature
    | InvalidSeeds
    | IllegalOwner
    | AccountAlreadyInitialized
    | CpiRejected

  datatype Result<+T> = Ok(value: T) | Err(error: Error) {
    predicate IsFailure() {
      Err?
    }

    function PropagateFailure<U>(): Result<U>
      requires Err?
    {
      Err(error)
    }

    function Extract(): T
      requires Ok?
    {
      value
    }
  }

  /** Guards: continue when `ok`, otherwise fail with `error`. */
  function Require(ok: bool, error: Error): Result<()> {
    if ok then Ok(()) else Err(error)
  }

  function Min(a: int, b: int): int {
    if a <= b then a else b
  }

  function Max(a: int, b: int): int {
    if a >= b then a else b
  }

  function SaturatingSub(a: nat, b: nat): nat {
    if a >= b then a - b else 0
  }

  function Pow2(k: nat): (p: nat)
    ensures p >= 1
  {
    if k == 0 then 1 else 2 * Pow2(k - 1)
  }

  lemma {:induction false} Pow2Monotone(j: nat, k: nat)
    requires j <= k
    ensures Pow2(j) <= Pow2(k)
  {
    if j < k {
      Pow2Monotone(j, k - 1);
    }
  }

  lemma {:induction false} Pow2Sum(j: nat, k: nat)
    ensures Pow2(j + k) == Pow2(j) * Pow2(k)
  {
    if k > 0 {
      Pow2Sum(j, k - 1);
      assert Pow2(j) * Pow2(k) == 2 * (Pow2(j) * Pow2(k - 1));
    }
  }

  lemma Pow2Square(k: nat, v: nat)
    requires Pow2(k) == v
    ensures Pow2(2 * k) == v * v
  {
    Pow2Sum(k, k);
  }

  /** The powers the program's constants are made of. */
  lemma Pow2Values()
    ensures Pow2(20) == 0x10_0000
    ensures Pow2(64) == U64_MAX + 1
    ensures Pow2(128) == U128_MAX + 1
  {
    assert Pow2(1) == 2;
    Pow2Square(1, 2);
    Pow2Square(2, 4);
    assert Pow2(5) == 2 * Pow2(4);
    Pow2Square(5, 0x20);
    Pow2Square(10, 0x400);
    Pow2Square(4, 0x10);
    Pow2Square(8, 0x100);
    Pow2Square(16, 0x1_0000);
    Pow2Square(32, 0x1_0000_0000);
    Pow2Square(64, 0x1_0000_0000_0000_0000);
  }
}
