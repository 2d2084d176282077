/** The recording store: the `{good, bad}` pair of buckets that the admin
    screen appends recordings to and deletes them from. */
module Recordings {

  /** The captured audio. Its content is produced by the browser's recorder
      and never inspected here. */
  type Blob

  /** The two buckets, named by the mode buttons and the type selector. */
  datatype Mode = Good | Bad {
    function Other(): (m: Mode)
      ensures m != this
    {
      if this == Good then Bad else Good
    }
  }

  datatype Recording = Recording(name: string, blob: Blob)

  /** The name given to a recording saved with an empty name field. */
  const UNTITLED: string := "Untitled"

  /** `nameInput.value || "Untitled"`: the name field, unless it is empty. */
  function RecordingName(nameInput: string): (name: string)
    ensures name != ""
    ensures nameInput != "" ==> name == nameInput
    ensures nameInput == "" ==> name == UNTITLED
  {
    if nameInput == "" then UNTITLED else nameInput
  }

  /** `splice(i, 1)` on an in-range index: the sequence without its element
      at `i`, the others in their original order. */
  function RemoveAt<T>(s: seq<T>, i: nat): (r: seq<T>)
    requires i < |s|
    ensures |r| == |s| - 1
    ensures forall k :: 0 <= k < i ==> r[k] == s[k]
    ensures forall k :: i <= k < |r| ==> r[k] == s[k + 1]
    ensures multiset(r) + multiset{s[i]} == multiset(s)
  {
    assert s == s[..i] + [s[i]] + s[i + 1..];
    s[..i] + s[i + 1..]
  }

  /** Deleting the recording just appended gives the bucket back as it was. */
  lemma RemoveLastUndoesAppend<T>(s: seq<T>, x: T)
    ensures RemoveAt(s + [x], |s|) == s
  {
  }

  /** The module-level `recordings` object. */
  class Store {
    var good: seq<Recording>
    var bad: seq<Recording>

    constructor ()
      ensures good == [] && bad == []
    {
      good := [];
      bad := [];
    }

    /** `recordings[mode]` */
    function Bucket(mode: Mode): seq<Recording>
      reads this
    {
      match mode
      case Good => good
      case Bad => bad
    }

    /** The recorder's stop handler: append `{name, blob}` to the chosen bucket. */
    method Save(mode: Mode, nameInput: string, blob: Blob)
      modifies this
      ensures Bucket(mode) == old(Bucket(mode)) + [Recording(RecordingName(nameInput), blob)]
      ensures Bucket(mode.Other()) == old(Bucket(mode.Other()))
    {
      var r := Recording(RecordingName(nameInput), blob);
      match mode
      case Good => good := good + [r];
      case Bad => bad := bad + [r];
    }

    /** A click on list item `i`: `recordings[mode].splice(i, 1)`, which does
        nothing when `i` is past the end. */
    method Delete(mode: Mode, i: nat)
      modifies this
      ensures i < |old(Bucket(mode))| ==> Bucket(mode) == RemoveAt(old(Bucket(mode)), i)
      ensures i >= |old(Bucket(mode))| ==> Bucket(mode) == old(Bucket(mode))
      ensures Bucket(mode.Other()) == old(Bucket(mode.Other()))
    {
      match mode
      case Good =>
        if i < |good| {
          good := RemoveAt(good, i);
        }
      case Bad =>
        if i < |bad| {
          bad := RemoveAt(bad, i);
        }
    }
  }
}
