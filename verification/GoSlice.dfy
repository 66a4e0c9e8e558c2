/**
 Go slices: views of a shared backing array. `append` writes into the spare room
 behind the view when there is enough of it, and copies everything otherwise.
 */
module GoSlice {

  datatype Slice<T> = Slice(arr: array<T>, off: nat, len: nat)

  predicate InBounds<T>(s: Slice<T>) {
    s.off + s.len <= s.arr.Length
  }

  ghost function Contents<T>(s: Slice<T>): seq<T>
    requires InBounds(s)
    reads s.arr
  {
    s.arr[s.off..s.off + s.len]
  }

  /** s[:n] and s[n:]: same array, same spare room. */
  function Take<T>(s: Slice<T>, n: nat): Slice<T>
    requires n <= s.len
  {
    Slice(s.arr, s.off, n)
  }

  function Drop<T>(s: Slice<T>, n: nat): Slice<T>
    requires n <= s.len
  {
    Slice(s.arr, s.off + n, s.len - n)
  }

  lemma SplitContents<T>(s: Slice<T>, n: nat)
    requires InBounds(s) && n <= s.len
    ensures Contents(Take(s, n)) == Contents(s)[..n]
    ensures Contents(Drop(s, n)) == Contents(s)[n..]
  {
  }

  /** copy(arr[at:], src): reads all of the source before it writes, so the two may overlap. */
  method CopyInto<T>(arr: array<T>, at: nat, src: Slice<T>)
    requires InBounds(src) && at + src.len <= arr.Length
    modifies arr
    ensures arr[..] == old(arr[..at]) + old(Contents(src)) + old(arr[at + src.len..])
  {
    var values := src.arr[src.off..src.off + src.len];
    forall i | 0 <= i < |values| {
      arr[at + i] := values[i];
    }
  }

  /** append(s, more...); `spare` is the extra room of a newly allocated array. */
  method Append<T(0)>(s: Slice<T>, more: Slice<T>, spare: nat) returns (r: Slice<T>)
    requires InBounds(s) && InBounds(more)
    modifies s.arr
    ensures InBounds(r) && Contents(r) == old(Contents(s)) + old(Contents(more))
    ensures var fits := s.off + s.len + more.len <= s.arr.Length;
            && (fits ==> r.arr == s.arr && r.off == s.off)
            && (!fits ==> fresh(r.arr) && s.arr[..] == old(s.arr[..]))
    ensures forall lo, hi :: 0 <= lo <= hi <= s.off + s.len ==> s.arr[lo..hi] == old(s.arr[lo..hi])
  {
    var end := s.off + s.len;
    if end + more.len <= s.arr.Length {
      CopyInto(s.arr, end, more);
      r := Slice(s.arr, s.off, s.len + more.len);
      assert r.arr[r.off..r.off + r.len] == r.arr[..][r.off..r.off + r.len];
    } else {
      var arr := new T[s.len + more.len + spare];
      CopyInto(arr, 0, s);
      CopyInto(arr, s.len, more);
      r := Slice(arr, 0, s.len + more.len);
      assert r.arr[..r.len] == r.arr[..][..r.len];
    }
  }

  /** append(s, x) */
  method AppendOne<T(0)>(s: Slice<T>, x: T, spare: nat) returns (r: Slice<T>)
    requires InBounds(s)
    modifies s.arr
    ensures InBounds(r) && Contents(r) == old(Contents(s)) + [x]
    ensures (r.arr == s.arr && r.off == s.off) || fresh(r.arr)
    ensures forall lo, hi :: 0 <= lo <= hi <= s.off + s.len ==> s.arr[lo..hi] == old(s.arr[lo..hi])
  {
    var one := new T[1](_ => x);
    r := Append(s, Slice(one, 0, 1), spare);
  }
}
