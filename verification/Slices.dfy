/**
 Go slices: a backing array and a length.  Appending writes into spare capacity when there is some, compacting
 and overwriting work in the array they are given.
 */
module Slices {
  import opened Config
  import opened Sorting
  import opened Store

  datatype Slice<T> = Slice(data: array<T>, len: nat) {
    ghost predicate Valid() { len <= data.Length }

    ghost function Elems(): seq<T>
      requires Valid()
      reads data
    {
      data[..len]
    }
  }

  /** `append([]T(nil), s...)`: a copy that shares nothing with `s`. */
  method Clone<T>(s: Slice<T>) returns (r: Slice<T>)
    requires s.Valid()
    ensures r.Valid() && fresh(r.data) && r.Elems() == s.Elems()
  {
    var a := new T[s.len](i requires 0 <= i < s.len && s.Valid() reads s.data => s.data[i]);
    r := Slice(a, s.len);
  }

  /** `append(s, x)`. */
  method Append<T>(s: Slice<T>, x: T) returns (r: Slice<T>)
    requires s.Valid()
    modifies s.data
    ensures r.Valid() && (r.data == s.data || fresh(r.data))
    ensures r.Elems() == old(s.Elems()) + [x]
  {
    if s.len < s.data.Length {
      s.data[s.len] := x;
      r := Slice(s.data, s.len + 1);
    } else {
      var a := new T[2 * s.len + 1](i requires 0 <= i && s.Valid() reads s.data => if i < s.len then s.data[i] else x);
      r := Slice(a, s.len + 1);
    }
  }

  /** The deletions over `items[:0]`: keeps what satisfies `keep`, in the same array. */
  method Compact<T>(s: Slice<T>, keep: T -> bool) returns (r: Slice<T>)
    requires s.Valid()
    modifies s.data
    ensures r.Valid() && r.data == s.data
    ensures r.Elems() == Filter(old(s.Elems()), keep)
  {
    ghost var before := s.data[..s.len];
    var n := 0;
    for i := 0 to s.len
      invariant n <= i
      invariant s.data[..n] == Filter(before[..i], keep)
      invariant forall j :: i <= j < s.len ==> s.data[j] == before[j]
    {
      assert before[..i + 1] == before[..i] + [before[i]];
      FilterSnoc(before[..i], before[i], keep);
      if keep(s.data[i]) {
        s.data[n] := s.data[i];
        n := n + 1;
      }
    }
    assert before[..s.len] == before;
    r := Slice(s.data, n);
  }

  /** `upsertInboundConfig` and `upsertOutboundConfig`. */
  method UpsertInPlace<T>(s: Slice<T>, key: T -> string, next: T) returns (r: Slice<T>)
    requires s.Valid()
    modifies s.data
    ensures r.Valid() && (r.data == s.data || fresh(r.data))
    ensures r.Elems() == Upsert(old(s.Elems()), key, next)
  {
    ghost var before := s.data[..s.len];
    for i := 0 to s.len
      invariant s.data[..s.len] == before
      invariant forall j :: 0 <= j < i ==> key(before[j]) != key(next)
    {
      if key(s.data[i]) == key(next) {
        s.data[i] := next;
        assert Find(before, key, key(next)) == i;
        return s;
      }
    }
    r := Append(s, next);
  }

  /** `renameRoutingOutbound`: works on a copy. */
  method RenamedRules(s: Slice<Rule>, from: string, to: string) returns (r: Slice<Rule>)
    requires s.Valid()
    ensures r.Valid() && fresh(r.data)
    ensures r.Elems() == Map(RenameOutbound(from, to), s.Elems())
  {
    r := Clone(s);
    ghost var before := s.Elems();
    assert r.Elems() == before && forall j :: 0 <= j < r.len ==> r.data[j] == r.Elems()[j];
    for i := 0 to r.len
      invariant forall j :: 0 <= j < i ==> r.data[j] == RenameOutbound(from, to)(before[j])
      invariant forall j :: i <= j < r.len ==> r.data[j] == before[j]
    {
      if r.data[i].outbound == from {
        r.data[i] := r.data[i].(outbound := to);
      }
    }
  }
}
