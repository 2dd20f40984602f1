/** Shared vocabulary: optional values, process identifiers and the shell's failure status. */
module Base {

  /** A value that may be absent: a null pointer, an unset variable, a failed call. */
  datatype Option<+T> = None | Some(value: T)

  /** A process identifier as the parent sees it after a successful fork (always positive). */
  type Pid = p: int | p > 0 witness 1

  /** Status with which a child ends when it cannot open a redirection file or replace its
      program image, and with which the shell itself ends when pipe or fork fails. */
  const FailStatus: int := 2
}
