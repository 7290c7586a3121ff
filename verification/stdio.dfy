/** Reading a file line by line. */
module Stdio {

  /** fgets with a buffer of `room` characters and a terminator: how much of `text` it takes, up to
      and including a newline. */
  function FgetsUpTo<T(==)>(text: seq<T>, newline: T, room: nat): (k: nat)
    ensures k <= |text| && k <= room
    ensures text != [] && room > 0 ==> k > 0
    ensures forall i :: 0 <= i < k - 1 ==> text[i] != newline
    ensures k < room && k < |text| ==> k > 0 && text[k - 1] == newline
  {
    if text == [] || room == 0 then 0
    else if text[0] == newline then 1
    else 1 + FgetsUpTo(text[1..], newline, room - 1)
  }
}
