/** Small failure-carrying datatypes shared by the modules of the model. */
module Wrappers {

  datatype Option<+T> = None | Some(value: T)

  /** `n` empty slots, as in a C array of pointers left zero. */
  function Nones<T>(n: nat): (slots: seq<Option<T>>)
    ensures |slots| == n && forall i :: 0 <= i < n ==> slots[i] == None
  {
    if n == 0 then [] else [None] + Nones(n - 1)
  }

  /** The C code reports every parse failure the same way (a return value of 1
      after "bad location format"), so one error constructor is enough. */
  datatype Result<+T> = Ok(value: T) | FormatError
}
