/** Constants, machine words and the panic outcome shared by the kernel modules. */
module Common {
  const N_PROCS := 25
  const N_PCBS := N_PROCS + 1
  const N_STACKS := N_PROCS
  const N_QUEUES := 10
  const N_QNODES := N_PROCS + N_STACKS + N_QUEUES + 3

  // The null pointer.  Every other pointer of the kernel is an index into a static array.
  const NULL := -1

  // A 32-bit unsigned word.
  type Word = x: int | 0 <= x < 0x1_0000_0000

  type Half = x: int | 0 <= x < 0x1_0000
  type Byte = x: int | 0 <= x < 0x100

  function Wrap(x: int): Word { x % 0x1_0000_0000 }

  // The two's complement reading of a word.
  function Signed(w: Word): int {
    if w < 0x8000_0000 then w else w - 0x1_0000_0000
  }

  // A kernel panic stops the machine, so what follows a failed step is not executed.
  datatype Outcome<+T> = Panic | Ok(value: T) {
    predicate IsFailure() { Panic? }

    function PropagateFailure<U>(): Outcome<U>
      requires Panic?
    { Panic }

    function Extract(): T
      requires Ok?
    { value }
  }

  // The same outcome for methods, whose result is the new state of the heap.
  datatype Status = Halted | Fine {
    predicate IsFailure() { Halted? }

    function PropagateFailure(): Status
      requires Halted?
    { Halted }
  }
}
