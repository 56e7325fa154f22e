/** The handle table (`Handles<T>`, src/fs.rs:690-744). */
module Handles {
  import opened Bytes
  import opened DirEntry
  import opened Results

  datatype HandleError = ExhaustedFileHandles | InvalidFileHandle

  datatype HandleResult<T> = Got(value: T) | Failed(error: HandleError)

  const U32_MAX: nat := 0xFFFF_FFFF

  /** The `i`-th handle tried after `next`, with wrap-around. */
  function Probe(next: u32, i: nat): u32 { (next + i) % TWO32 }

  /** The first 2^32 probes are all different. */
  lemma ProbesDiffer(next: u32, i: nat, j: nat)
    requires i < j < TWO32
    ensures Probe(next, i) != Probe(next, j)
  {
  }

  function Probes(next: u32, n: nat): (s: set<u32>) {
    set i | 1 <= i <= n :: Probe(next, i)
  }

  lemma {:induction false} ProbeCount(next: u32, n: nat)
    requires n < TWO32
    ensures |Probes(next, n)| == n
  {
    if n == 0 {
      assert Probes(next, 0) == {};
    } else {
      ProbeCount(next, n - 1);
      assert Probes(next, n) == Probes(next, n - 1) + {Probe(next, n)};
      forall i | 1 <= i <= n - 1 ensures Probe(next, i) != Probe(next, n) {
        ProbesDiffer(next, i, n);
      }
    }
  }

  /** When so many probes have all hit live handles, that many handles are live. */
  lemma AllProbesLive<T>(handles: map<u32, T>, next: u32, n: nat)
    requires n < TWO32 && forall i :: 1 <= i <= n ==> Probe(next, i) in handles
    ensures |handles| >= n
  {
    ProbeCount(next, n);
    assert Probes(next, n) <= handles.Keys;
    SubsetSize(Probes(next, n), handles.Keys);
  }

  lemma {:induction false} SubsetSize(a: set<u32>, b: set<u32>)
    requires a <= b
    ensures |a| <= |b|
  {
    if a != {} {
      var x :| x in a;
      SubsetSize(a - {x}, b - {x});
    }
  }

  class Handles<T> {
    var handles: map<u32, T>
    var nextHandle: u32

    constructor ()
      ensures handles == map[]
    {
      handles := map[];
      nextHandle := 0;
    }

    /** `add`: a handle that is not live, unless 2^32 - 1 handles are live; the live ones keep their
        contents. It is the first free one after the last handle given out. */
    method Add(item: T) returns (r: HandleResult<u32>)
      modifies this
      ensures r.Got? ==> r.value !in old(handles) && handles == old(handles)[r.value := item] && nextHandle == r.value
      ensures r.Failed? ==> r == Failed(ExhaustedFileHandles) && handles == old(handles) && |old(handles)| >= U32_MAX
      ensures |old(handles)| < U32_MAX ==> r.Got?
      ensures r.Got? ==> exists n :: 1 <= n <= U32_MAX && r.value == Probe(old(nextHandle), n)
                                     && forall i :: 1 <= i < n ==> Probe(old(nextHandle), i) in old(handles)
    {
      var counter := 0;
      while true
        invariant 0 <= counter < U32_MAX && handles == old(handles)
        invariant nextHandle == Probe(old(nextHandle), counter)
        invariant forall i :: 1 <= i <= counter ==> Probe(old(nextHandle), i) in handles
        decreases U32_MAX - counter
      {
        var handle := (nextHandle + 1) % TWO32;
        assert handle == Probe(old(nextHandle), counter + 1);
        nextHandle := handle;
        if handle !in handles {
          handles := handles[handle := item];
          return Got(handle);
        }
        counter := counter + 1;
        if counter == U32_MAX {
          AllProbesLive(handles, old(nextHandle), counter);
          return Failed(ExhaustedFileHandles);
        }
      }
    }

    method Remove(handle: u32) returns (r: HandleResult<T>)
      modifies this
      ensures nextHandle == old(nextHandle)
      ensures if handle in old(handles) then r == Got(old(handles)[handle]) && handles == old(handles) - {handle}
              else r == Failed(InvalidFileHandle) && handles == old(handles)
    {
      if handle in handles {
        r := Got(handles[handle]);
        handles := handles - {handle};
      } else {
        r := Failed(InvalidFileHandle);
      }
    }

    /** `take_any`: removes the least live handle. */
    method TakeAny() returns (r: Option<T>)
      modifies this
      ensures r.None? <==> old(handles) == map[]
      ensures r.None? ==> handles == old(handles)
      ensures r.Some? ==> exists h :: h in old(handles) && (forall j :: j in old(handles) ==> h <= j)
                                      && r.value == old(handles)[h] && handles == old(handles) - {h}
    {
      if handles == map[] {
        return None;
      }
      var h := Least(handles.Keys);
      r := Some(handles[h]);
      handles := handles - {h};
    }
  }

  method Least(s: set<u32>) returns (h: u32)
    requires s != {}
    ensures h in s && forall j :: j in s ==> h <= j
  {
    h :| h in s;
    var rest := s - {h};
    while rest != {}
      invariant h in s && rest <= s && forall j :: j in s ==> j in rest || h <= j
      decreases rest
    {
      var x :| x in rest;
      if x < h {
        h := x;
      }
      rest := rest - {x};
    }
  }

  /** After `add` the handle is live and leads to the item, until it is removed. */
  method AddThenRemove<T>(hs: Handles<T>, item: T) returns (r: HandleResult<T>)
    requires |hs.handles| < U32_MAX
    modifies hs
    ensures r == Got(item) && hs.handles == old(hs.handles)
  {
    var h := hs.Add(item);
    assert hs.handles[h.value] == item;
    r := hs.Remove(h.value);
    assert hs.handles == old(hs.handles);
  }
}
