/** The 128-bit identifier of the google/uuid package, as sixteen bytes. */
module Uuid {
  import opened Results

  type UUID = s: seq<bv8> | |s| == 16 witness [0, 0, 0, 0, 0, 0, 0, 0, 0, 0, 0, 0, 0, 0, 0, 0]

  /** uuid.Nil: all sixteen bytes zero. */
  const Nil: UUID := [0, 0, 0, 0, 0, 0, 0, 0, 0, 0, 0, 0, 0, 0, 0, 0]

  datatype UuidError = InvalidLength(got: nat)

  /** uuid.FromBytes: accepts exactly sixteen bytes and keeps them as they are. */
  function FromBytes(b: seq<bv8>): (r: Result<UUID, UuidError>)
    ensures r.Success? <==> |b| == 16
    ensures r.Success? ==> r.value == b
    ensures r.Failure? ==> r.error == InvalidLength(|b|)
  {
    if |b| == 16 then Success(b) else Failure(InvalidLength(|b|))
  }
}
