/** The session record file: records appended on spawn and filtered out in place on removal.
    Reading and writing the file always succeed. */
module SessionFile {

  /** A record's `spawn` stands for what tells two spawns of one name apart (bot type, start time). */
  datatype Record = Record(name: string, spawn: nat)

  /** The records of every other name, in order. */
  function Without(rs: seq<Record>, name: string): seq<Record> {
    if rs == [] then []
    else
      var before := Without(rs[..|rs| - 1], name);
      if rs[|rs| - 1].name != name then before + [rs[|rs| - 1]] else before
  }

  lemma {:induction false} WithoutKeepsExactly(rs: seq<Record>, name: string)
    ensures |Without(rs, name)| <= |rs|
    ensures forall r :: r in Without(rs, name) <==> r in rs && r.name != name
    ensures multiset(Without(rs, name)) <= multiset(rs)
  {
    if rs != [] {
      WithoutKeepsExactly(rs[..|rs| - 1], name);
      assert rs == rs[..|rs| - 1] + [rs[|rs| - 1]];
    }
  }

  /** The filter is fixed by what it does to one record and to two lists laid end to end. */
  lemma {:induction false} WithoutParts(a: seq<Record>, b: seq<Record>, name: string)
    ensures Without(a + b, name) == Without(a, name) + Without(b, name)
    ensures |a| == 1 ==> Without(a, name) == if a[0].name == name then [] else a
    decreases |b|
  {
    if |a| == 1 {
      assert a[..0] == [] && a == [a[0]];
    }
    if b == [] {
      assert a + b == a;
    } else {
      WithoutParts(a, b[..|b| - 1], name);
      assert (a + b)[..|a + b| - 1] == a + b[..|b| - 1];
      assert (a + b)[|a + b| - 1] == b[|b| - 1];
    }
  }

  /** records[:0] with append: the kept records slide to the front of the same array. */
  method FilterInPlace(a: array<Record>, name: string) returns (n: nat)
    modifies a
    ensures n <= a.Length && a[..n] == Without(old(a[..]), name)
  {
    n := 0;
    for i := 0 to a.Length
      invariant n <= i
      invariant a[i..] == old(a[i..])
      invariant a[..n] == Without(old(a[..i]), name)
    {
      assert old(a[..i + 1])[..i] == old(a[..i]);
      var r := a[i];
      assert r == a[i..][0] == old(a[i]);
      if r.name != name {
        a[n] := r;
        n := n + 1;
        assert a[..n] == a[..n - 1] + [r];
      }
      assert a[i + 1..] == old(a[i + 1..]) by {
        assert forall k | i < k < a.Length :: a[k] == old(a[k..])[0];
      }
    }
    assert old(a[..a.Length]) == old(a[..]);
  }

  class File {
    var records: seq<Record>

    constructor ()
      ensures records == []
    {
      records := [];
    }

    method Append(r: Record)
      modifies this
      ensures records == old(records) + [r]
    {
      records := records + [r];
    }

    /** Load, filter the loaded slice in place, save what is left. */
    method Remove(name: string)
      modifies this
      ensures records == Without(old(records), name)
    {
      var loaded := new Record[|records|](i requires 0 <= i < |records| reads this => records[i]);
      assert loaded[..] == records;
      var n := FilterInPlace(loaded, name);
      records := loaded[..n];
    }
  }
}
