/** Values shared by the video-tunnel modules. */
module VideoTunnelTypes {

  const EAGAIN := 11
  const EINVAL := 22

  datatype Option<+T> = None | Some(value: T)

  /**
   * A tunnel buffer between the moment the driver hands it out and the moment it is
   * returned. `fd` is what the program sees; `id` is the buffer's place in arrival order.
   * Descriptors are reused once a buffer has been returned, ids never are.
   */
  datatype Frame = Frame(id: nat, fd: nat, ts: int)

  function FdOf(f: Option<Frame>): int {
    if f.Some? then f.value.fd else -1
  }

  function OptSeq<T>(o: Option<T>): seq<T> {
    if o.Some? then [o.value] else []
  }

  ghost predicate Distinct<T>(s: seq<T>) {
    forall i, j :: 0 <= i < j < |s| ==> s[i] != s[j]
  }

  function Elements<T(==, !new)>(s: seq<T>): (r: set<T>)
    ensures forall x :: x in r <==> x in s
  {
    set x | x in s
  }

  lemma {:induction false} DistinctSize<T(!new)>(s: seq<T>)
    requires Distinct(s)
    ensures |Elements(s)| == |s|
  {
    if s == [] {
      assert Elements(s) == {};
    } else {
      var front, last := s[..|s| - 1], s[|s| - 1];
      assert forall i :: 0 <= i < |front| ==> front[i] == s[i];
      DistinctSize(front);
      assert s == front + [last];
      assert Elements(s) == Elements(front) + {last};
    }
  }

  /** Frames in arrival order, no frame twice. */
  ghost predicate Increasing(s: seq<Frame>) {
    forall i, j :: 0 <= i < j < |s| ==> s[i].id < s[j].id
  }

  lemma ConcatAssoc<T>(a: seq<T>, b: seq<T>, c: seq<T>, d: seq<T>)
    ensures ((a + b) + c) + d == a + ((b + c) + d)
  {
  }
}
