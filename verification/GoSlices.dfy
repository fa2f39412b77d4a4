/** Go slices that start at the front of their backing array: an array and a length; the capacity is
    the length of the array.  Copying a slice shares the array. */
module GoSlices {

  datatype Slice<T> = Slice(arr: array<T>, len: nat) {
    ghost predicate Valid() {
      len <= arr.Length
    }

    ghost function Contents(): seq<T>
      requires Valid()
      reads arr
    {
      arr[..len]
    }
  }

  /** append(s, x): within the capacity it writes into the shared array, just behind the elements of `s`;
      beyond it the elements move to a new array, whose spare room is up to the runtime. */
  method Append<T(0)>(s: Slice<T>, x: T) returns (r: Slice<T>)
    requires s.Valid()
    modifies s.arr
    ensures r.Valid() && r.Contents() == old(s.Contents()) + [x]
    ensures s.len < s.arr.Length ==> r.arr == s.arr
    ensures s.len == s.arr.Length ==> fresh(r.arr)
    ensures s.arr[..s.len] == old(s.arr[..s.len])
  {
    if s.len < s.arr.Length {
      s.arr[s.len] := x;
      r := Slice(s.arr, s.len + 1);
    } else {
      var room: nat :| room >= 0;
      var grown := new T[s.len + 1 + room];
      for i := 0 to s.len
        invariant grown[..i] == s.arr[..i]
        invariant s.arr[..] == old(s.arr[..])
      {
        grown[i] := s.arr[i];
      }
      grown[s.len] := x;
      assert grown[..s.len + 1] == s.arr[..s.len] + [x];
      r := Slice(grown, s.len + 1);
    }
  }
}
