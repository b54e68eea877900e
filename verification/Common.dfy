// Small vocabulary shared by every module of the model.
module Common {

  datatype Option<+T> = None | Some(value: T) {
    predicate IsFailure() {
      None?
    }

    function PropagateFailure<U>(): Option<U>
      requires None?
    {
      None
    }

    function Extract(): T
      requires Some?
    {
      value
    }
  }

  // Go's byte and uint8.
  type Byte = x: int | 0 <= x < 256

  // The error values the modelled code tells apart, and all the others.
  datatype Error = EOF | UnexpectedEOF | Closed | ShortWrite | DelimNotFound | UnterminatedEscape | Restart | Other(code: nat)

  function Min(a: int, b: int): int {
    if a < b then a else b
  }
}
