/** `vec_to_char`: the argument vector as the null-terminated array `execvp` takes, and the
    scan `execvp` makes of such an array. */
module Argv {
  import opened Base

  /** One slot of a `char*` array: a string, or the null pointer. */
  datatype Slot = Arg(text: string) | Null

  /** The arguments a callee reads from a `char**` array: every slot up to the first null.
      None when the array has no null slot (the callee would read past its end). */
  function ArgvOf(slots: seq<Slot>): Option<seq<string>>
  {
    if slots == [] then None
    else if slots[0].Null? then Some([])
    else
      match ArgvOf(slots[1..])
      case None => None
      case Some(rest) => Some([slots[0].text] + rest)
  }

  /** `slots` holds `vec` in order followed by a null: the array `vec_to_char(vec)` builds. */
  predicate NullTerminated(slots: seq<Slot>, vec: seq<string>)
  {
    |slots| == |vec| + 1 && slots[|vec|] == Null &&
    forall i :: 0 <= i < |vec| ==> slots[i] == Arg(vec[i])
  }

  /** Builds an array of `|vec| + 1` slots: the strings in order, then a null. */
  method VecToChar(vec: seq<string>) returns (arr: seq<Slot>)
    ensures |arr| == |vec| + 1
    ensures forall i :: 0 <= i < |vec| ==> arr[i] == Arg(vec[i])
    ensures arr[|vec|] == Null
    ensures NullTerminated(arr, vec) && ArgvOf(arr) == Some(vec)
  {
    var a := new Slot[|vec| + 1];
    var i := 0;
    while i < |vec|
      invariant 0 <= i <= |vec|
      invariant forall k :: 0 <= k < i ==> a[k] == Arg(vec[k])
    {
      a[i] := Arg(vec[i]);
      i := i + 1;
    }
    a[|vec|] := Null;
    arr := a[..];
    NullTerminatedRoundTrip(arr, vec);
  }

  /** A slot array holding `vec` in order followed by a null is read back as exactly `vec`. */
  lemma {:induction false} NullTerminatedRoundTrip(slots: seq<Slot>, vec: seq<string>)
    requires NullTerminated(slots, vec)
    ensures ArgvOf(slots) == Some(vec)
    decreases |vec|
  {
    if vec != [] {
      assert NullTerminated(slots[1..], vec[1..]) by {
        forall i | 0 <= i < |vec| - 1
          ensures slots[1..][i] == Arg(vec[1..][i])
        {
          assert slots[i + 1] == Arg(vec[i + 1]);
        }
      }
      NullTerminatedRoundTrip(slots[1..], vec[1..]);
      assert [vec[0]] + vec[1..] == vec;
    }
  }
}
